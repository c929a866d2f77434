/** The sheet updater of main.py: every data row's domain is crawled and
    the findings are written into fixed columns of the same row, one cell
    per non-empty value; an exception while handling one row ends that row
    only. The spreadsheet is a map from (row, column) to cell text, both
    numbered from 1 as `update_cell` numbers them. */
module Sheet {
  import opened PyStr
  import Scraper
  import SocialLinks

  /** A cell address: row and column, numbered from 1. */
  type Cell = (int, int)

  /** Which `update_cell` calls the spreadsheet service carries out; any other raises. */
  type Accepts = Cell -> bool

  /** The worksheet the rows are read from and written back to. */
  class Worksheet {
    var cells: map<Cell, string>
    const accepts: Accepts

    constructor (initial: map<Cell, string>, service: Accepts)
      ensures cells == initial && accepts == service
    {
      cells := initial;
      accepts := service;
    }

    /** `worksheet.update_cell(row, col, value)`: it either stores `value`
        at `(row, col)` or raises and changes nothing. */
    method UpdateCell(row: int, col: int, value: string) returns (raised: bool)
      modifies this
      ensures raised == !accepts((row, col))
      ensures cells == if raised then old(cells) else old(cells)[(row, col) := value]
    {
      raised := !accepts((row, col));
      if !raised {
        cells := cells[(row, col) := value];
      }
    }
  }

  /** `column_indices`: header keys and 0-based column indices, in insertion order. */
  const ColumnIndices: seq<(string, int)> := [
    ("Owner first name", 6), ("email 1", 7), ("email 2", 8), ("email 3", 9),
    ("reddit", 13), ("twitter", 14), ("Discord", 15), ("Pinterest", 16),
    ("facebook", 17), ("instagram", 18), ("Linkedin", 19), ("youtube", 23),
    ("Twitch", 24), ("phone number", 22)
  ]

  /** `column_indices["email 1"]`, the column of the first email slot. */
  const EmailOneColumn: int := 7

  /** The 1-based columns a row update can ever write. */
  const WritableColumns: set<int> := {8, 9, 10, 14, 15, 18, 19, 23, 24}

  // ------------------------------------------------------------ one domain

  /** The protocol rule: a domain that starts with neither `http://` nor
      `https://` gets `https://` in front. */
  function NormalizeDomain(domain: string): string {
    if StartsWith(domain, "http://") || StartsWith(domain, "https://") then domain
    else "https://" + domain
  }

  /** After the rule the domain has a protocol; it is kept as it was exactly
      when it already had one, and otherwise it ends the result. */
  lemma NormalizeDomainPrepends(domain: string)
    ensures StartsWith(NormalizeDomain(domain), "http://") || StartsWith(NormalizeDomain(domain), "https://")
    ensures NormalizeDomain(domain) == domain <==> StartsWith(domain, "http://") || StartsWith(domain, "https://")
    ensures NormalizeDomain(domain) == "https://" + domain || NormalizeDomain(domain) == domain
  {
    if !(StartsWith(domain, "http://") || StartsWith(domain, "https://")) {
      var d := "https://" + domain;
      assert d[..8] == "https://";
      assert |d| != |domain|;
    }
  }

  /** Applying the rule twice is applying it once. */
  lemma NormalizeDomainIdempotent(domain: string)
    ensures NormalizeDomain(NormalizeDomain(domain)) == NormalizeDomain(domain)
  {
    NormalizeDomainPrepends(domain);
    NormalizeDomainPrepends(NormalizeDomain(domain));
  }

  /** The value the inner loop computes for the table entry `entry`: an email
      slot for the `email` keys, the first phone number for `phone number`,
      and otherwise the link filed under exactly that key, `""` when missing. */
  function ScrapedValue(entry: (string, int), websiteData: Scraper.Findings): (v: string)
    ensures v != "" ==> || v in websiteData.ownerEmails || v in websiteData.phoneNumbers
                        || v in websiteData.socialMediaLinks.Values
  {
    var key := entry.0;
    var colIndex := entry.1;
    var links := websiteData.socialMediaLinks;
    if StartsWith(key, "email") then
      var slot := colIndex - EmailOneColumn;
      if 0 <= slot < |websiteData.ownerEmails| then websiteData.ownerEmails[slot] else ""
    else if key == "phone number" then
      if |websiteData.phoneNumbers| > 0 then websiteData.phoneNumbers[0] else ""
    else if key in links then links[key]
    else ""
  }

  /** The `update_cell` calls the entries `table[j..]` ask for: the 1-based
      column and the value, for each entry whose value is non-empty, in table order. */
  function PlanFrom(websiteData: Scraper.Findings, table: seq<(string, int)>, j: nat): seq<(int, string)>
    requires j <= |table|
    decreases |table| - j
  {
    if j == |table| then []
    else
      var value := ScrapedValue(table[j], websiteData);
      (if value != "" then [(table[j].1 + 1, value)] else []) + PlanFrom(websiteData, table, j + 1)
  }

  /** The `update_cell` calls one domain's findings ask for. */
  function Plan(websiteData: Scraper.Findings): seq<(int, string)> {
    PlanFrom(websiteData, ColumnIndices, 0)
  }

  /** The writes of `writes` into row `row`, in order, up to the first one
      the service refuses: that one raises and the rest of the row is skipped. */
  function ApplyWrites(cells: map<Cell, string>, row: int, writes: seq<(int, string)>, accepts: Accepts): map<Cell, string>
    decreases |writes|
  {
    if writes == [] then cells
    else if !accepts((row, writes[0].0)) then cells
    else ApplyWrites(cells[(row, writes[0].0) := writes[0].1], row, writes[1..], accepts)
  }

  /** The inner loop over `table` for one row: it stops at the first
      `update_cell` that raises. */
  method WriteFindings(worksheet: Worksheet, index: int, websiteData: Scraper.Findings, table: seq<(string, int)>)
    modifies worksheet
    ensures worksheet.cells
         == ApplyWrites(old(worksheet.cells), index, PlanFrom(websiteData, table, 0), worksheet.accepts)
  {
    var j := 0;
    while j < |table|
      invariant 0 <= j <= |table|
      invariant ApplyWrites(old(worksheet.cells), index, PlanFrom(websiteData, table, 0), worksheet.accepts)
             == ApplyWrites(worksheet.cells, index, PlanFrom(websiteData, table, j), worksheet.accepts)
    {
      var raised := WriteEntry(worksheet, index, websiteData, table, j);
      if raised {
        return;
      }
      j := j + 1;
    }
  }

  /** One pass of the column loop: the value for entry `j` is computed and,
      when non-empty, written; `raised` tells whether `update_cell` raised. */
  method WriteEntry(worksheet: Worksheet, index: int, websiteData: Scraper.Findings, table: seq<(string, int)>, j: nat)
    returns (raised: bool)
    requires j < |table|
    modifies worksheet
    ensures raised == (ScrapedValue(table[j], websiteData) != "" && !worksheet.accepts((index, table[j].1 + 1)))
    ensures raised ==> worksheet.cells == old(worksheet.cells)
    ensures raised ==> (ApplyWrites(old(worksheet.cells), index, PlanFrom(websiteData, table, j), worksheet.accepts)
                        == old(worksheet.cells))
    ensures !raised ==> (ApplyWrites(old(worksheet.cells), index, PlanFrom(websiteData, table, j), worksheet.accepts)
                         == ApplyWrites(worksheet.cells, index, PlanFrom(websiteData, table, j + 1), worksheet.accepts))
  {
    var colIndex := table[j].1;
    var scraped := ScrapedValue(table[j], websiteData);
    raised := false;
    if scraped != "" {
      raised := worksheet.UpdateCell(index, colIndex + 1, scraped);
      if raised {
        RefusedWrite(old(worksheet.cells), index, websiteData, table, j, worksheet.accepts);
      } else {
        AcceptedWrite(old(worksheet.cells), index, websiteData, table, j, worksheet.accepts);
      }
    } else {
      NoWrite(websiteData, table, j);
    }
  }

  /** An entry without a value asks for no write. */
  lemma NoWrite(websiteData: Scraper.Findings, table: seq<(string, int)>, j: nat)
    requires j < |table| && ScrapedValue(table[j], websiteData) == ""
    ensures PlanFrom(websiteData, table, j) == PlanFrom(websiteData, table, j + 1)
  {
  }

  /** An entry whose write is accepted stores its value and goes on with the next entry. */
  lemma AcceptedWrite(cells: map<Cell, string>, index: int, websiteData: Scraper.Findings,
                      table: seq<(string, int)>, j: nat, accepts: Accepts)
    requires j < |table| && ScrapedValue(table[j], websiteData) != ""
    requires accepts((index, table[j].1 + 1))
    ensures ApplyWrites(cells, index, PlanFrom(websiteData, table, j), accepts)
         == ApplyWrites(cells[(index, table[j].1 + 1) := ScrapedValue(table[j], websiteData)],
                        index, PlanFrom(websiteData, table, j + 1), accepts)
  {
    var w := (table[j].1 + 1, ScrapedValue(table[j], websiteData));
    var rest := PlanFrom(websiteData, table, j + 1);
    assert PlanFrom(websiteData, table, j) == [w] + rest;
    assert ([w] + rest)[1..] == rest;
  }

  /** An entry whose write is refused ends the row with the cells as they are. */
  lemma RefusedWrite(cells: map<Cell, string>, index: int, websiteData: Scraper.Findings,
                     table: seq<(string, int)>, j: nat, accepts: Accepts)
    requires j < |table| && ScrapedValue(table[j], websiteData) != ""
    requires !accepts((index, table[j].1 + 1))
    ensures ApplyWrites(cells, index, PlanFrom(websiteData, table, j), accepts) == cells
  {
    var w := (table[j].1 + 1, ScrapedValue(table[j], websiteData));
    assert PlanFrom(websiteData, table, j) == [w] + PlanFrom(websiteData, table, j + 1);
  }

  // -------------------------------------------------------------- all rows

  /** `data[1:]`: the rows after the header row. */
  function DataRows(data: seq<seq<string>>): seq<seq<string>> {
    if data == [] then [] else data[1..]
  }

  /** What handling `row`, sheet row `index`, does to the cells: a row with at
      most two cells is skipped; a crawl that raises `KeyError` writes nothing. */
  function RowResult(cells: map<Cell, string>, index: int, row: seq<string>,
                     web: Scraper.Web, phones: Scraper.PhoneScan, accepts: Accepts): map<Cell, string>
  {
    if |row| <= 2 then cells
    else
      match Scraper.WebsiteData(NormalizeDomain(row[2]), web, phones)
      case KeyErrorRaised => cells
      case Returned(websiteData) => ApplyWrites(cells, index, Plan(websiteData), accepts)
  }

  /** The cells after handling the data rows `rows`, where `rows[k]` is sheet row `k + 2`. */
  function ProcessRows(cells: map<Cell, string>, rows: seq<seq<string>>,
                       web: Scraper.Web, phones: Scraper.PhoneScan, accepts: Accepts): map<Cell, string>
    decreases |rows|
  {
    if rows == [] then cells
    else
      RowResult(ProcessRows(cells, rows[..|rows| - 1], web, phones, accepts),
                |rows| + 1, rows[|rows| - 1], web, phones, accepts)
  }

  /** The body of the row loop of `process_domains` for `row`, sheet row
      `index`: the domain gets its protocol, the site is crawled, and the
      findings are written; the `try` ends the row at the first exception. */
  method ProcessRow(worksheet: Worksheet, index: int, row: seq<string>, web: Scraper.Web, phones: Scraper.PhoneScan)
    modifies worksheet
    ensures worksheet.cells == RowResult(old(worksheet.cells), index, row, web, phones, worksheet.accepts)
  {
    if |row| > 2 {
      var domain := row[2];
      if !(StartsWith(domain, "http://") || StartsWith(domain, "https://")) {
        domain := "https://" + domain;
      }
      var outcome := Scraper.GetWebsiteData(domain, web, phones);
      if outcome.Returned? {
        WriteFindings(worksheet, index, outcome.data, ColumnIndices);
      }
    }
  }

  /** `process_domains(data, worksheet)`. */
  method ProcessDomains(data: seq<seq<string>>, worksheet: Worksheet, web: Scraper.Web, phones: Scraper.PhoneScan)
    modifies worksheet
    ensures worksheet.cells == ProcessRows(old(worksheet.cells), DataRows(data), web, phones, worksheet.accepts)
  {
    var rows := DataRows(data);
    for k := 0 to |rows|
      invariant worksheet.cells == ProcessRows(old(worksheet.cells), rows[..k], web, phones, worksheet.accepts)
    {
      ProcessRowsStep(old(worksheet.cells), rows, web, phones, worksheet.accepts, k);
      ProcessRow(worksheet, k + 2, rows[k], web, phones);
    }
    assert rows[..|rows|] == rows;
  }

  /** Handling one more row applies that row's handling, as sheet row `k + 2`. */
  lemma ProcessRowsStep(cells: map<Cell, string>, rows: seq<seq<string>>,
                        web: Scraper.Web, phones: Scraper.PhoneScan, accepts: Accepts, k: nat)
    requires k < |rows|
    ensures ProcessRows(cells, rows[..k + 1], web, phones, accepts)
         == RowResult(ProcessRows(cells, rows[..k], web, phones, accepts), k + 2, rows[k], web, phones, accepts)
  {
    assert rows[..k + 1][..k] == rows[..k];
  }

  // ------------------------------------------------------------ properties

  /** A key that does not start with `e` is not an email key. */
  lemma NotEmailKey(key: string)
    requires |key| > 0 && key[0] != 'e'
    ensures !StartsWith(key, "email")
  {
    if |key| >= 5 {
      assert key[..5][0] == key[0];
    }
  }

  /** Email slot `k` (`email 1`, `email 2`, `email 3`) is column `7 + k` and
      takes the `k`-th email when there is one, and nothing otherwise. */
  lemma EmailSlot(websiteData: Scraper.Findings, k: nat)
    requires k < 3
    ensures ColumnIndices[1 + k].1 == EmailOneColumn + k
    ensures ScrapedValue(ColumnIndices[1 + k], websiteData)
         == if k < |websiteData.ownerEmails| then websiteData.ownerEmails[k] else ""
  {
    assert StartsWith(ColumnIndices[1 + k].0, "email");
  }

  /** The phone column takes the first phone number when there is one. */
  lemma PhoneSlot(websiteData: Scraper.Findings)
    ensures ColumnIndices[13] == ("phone number", 22)
    ensures ScrapedValue(ColumnIndices[13], websiteData)
         == if |websiteData.phoneNumbers| > 0 then websiteData.phoneNumbers[0] else ""
  {
    NotEmailKey("phone number");
  }

  /** Every other column, from `reddit` to `Twitch`, takes the link filed
      under exactly its own key, and `""` when there is none. */
  lemma LinkSlot(websiteData: Scraper.Findings, j: nat)
    requires 4 <= j <= 12
    ensures ScrapedValue(ColumnIndices[j], websiteData)
         == if ColumnIndices[j].0 in websiteData.socialMediaLinks
            then websiteData.socialMediaLinks[ColumnIndices[j].0] else ""
  {
    NotEmailKey(ColumnIndices[j].0);
  }

  /** A link key that is not a platform name never gives a value. */
  lemma UnmatchedKeyIsEmpty(websiteData: Scraper.Findings, j: nat)
    requires j < |ColumnIndices|
    requires websiteData.socialMediaLinks.Keys <= SocialLinks.PlatformNames
    requires !StartsWith(ColumnIndices[j].0, "email") && ColumnIndices[j].0 != "phone number"
    requires ColumnIndices[j].0 !in SocialLinks.PlatformNames
    ensures ScrapedValue(ColumnIndices[j], websiteData) == ""
  {
  }

  /** Every planned write of `table[j..]` comes from one entry, and its value is non-empty. */
  lemma {:induction false} PlanFromEntries(websiteData: Scraper.Findings, table: seq<(string, int)>, j: nat)
    requires j <= |table|
    ensures forall w <- PlanFrom(websiteData, table, j) ::
      w.1 != "" && exists m :: j <= m < |table| && w == (table[m].1 + 1, ScrapedValue(table[m], websiteData))
    decreases |table| - j
  {
    if j < |table| {
      PlanFromEntries(websiteData, table, j + 1);
    }
  }

  /** For findings whose link keys are platform names, the entry behind a
      planned write is one of the writable columns: `Owner first name`, `Discord`, `Pinterest`,
      `Linkedin` and `Twitch` never match a lower-case platform name. */
  lemma EntryColumnWritable(websiteData: Scraper.Findings, m: nat)
    requires m < |ColumnIndices|
    requires websiteData.socialMediaLinks.Keys <= SocialLinks.PlatformNames
    requires ScrapedValue(ColumnIndices[m], websiteData) != ""
    ensures ColumnIndices[m].1 + 1 in WritableColumns
  {
    var key := ColumnIndices[m].0;
    if key[0] != 'e' {
      NotEmailKey(key);
    }
    if m == 0 || m == 6 || m == 7 || m == 10 || m == 12 {
      UnmatchedKeyIsEmpty(websiteData, m);
    }
  }

  /** Every write one domain's findings ask for is non-empty and goes to a writable column. */
  lemma PlanColumns(websiteData: Scraper.Findings)
    requires websiteData.socialMediaLinks.Keys <= SocialLinks.PlatformNames
    ensures forall w <- Plan(websiteData) :: w.1 != "" && w.0 in WritableColumns
  {
    PlanFromEntries(websiteData, ColumnIndices, 0);
    forall w <- Plan(websiteData) ensures w.0 in WritableColumns {
      var m :| 0 <= m < |ColumnIndices| && w == (ColumnIndices[m].1 + 1, ScrapedValue(ColumnIndices[m], websiteData));
      EntryColumnWritable(websiteData, m);
    }
  }

  /** Every entry of `table[j..]` whose value is non-empty is planned, at its column + 1. */
  lemma {:induction false} EntryPlanned(websiteData: Scraper.Findings, table: seq<(string, int)>, j: nat, m: nat)
    requires j <= m < |table| && ScrapedValue(table[m], websiteData) != ""
    ensures (table[m].1 + 1, ScrapedValue(table[m], websiteData)) in PlanFrom(websiteData, table, j)
    decreases m - j
  {
    if j < m {
      EntryPlanned(websiteData, table, j + 1, m);
    }
  }

  /** The entries of `table[j..]` name pairwise distinct columns. */
  ghost predicate DistinctColumns(table: seq<(string, int)>, j: nat) {
    forall a, b :: j <= a < b < |table| ==> table[a].1 != table[b].1
  }

  /** The fourteen entries of `column_indices` name fourteen different columns. */
  lemma ColumnIndicesDistinct()
    ensures DistinctColumns(ColumnIndices, 0)
  {
  }

  /** A column no entry of `table[j..]` names gets no planned write. */
  lemma ColumnNotPlanned(websiteData: Scraper.Findings, table: seq<(string, int)>, j: nat, col: int)
    requires j <= |table|
    requires forall m :: j <= m < |table| ==> table[m].1 + 1 != col
    ensures forall w <- PlanFrom(websiteData, table, j) :: w.0 != col
  {
    PlanFromEntries(websiteData, table, j);
  }

  /** Over a table of distinct columns, no two planned writes share a column. */
  lemma {:induction false} PlanFromDistinct(websiteData: Scraper.Findings, table: seq<(string, int)>, j: nat)
    requires j <= |table| && DistinctColumns(table, j)
    ensures forall a, b :: 0 <= a < b < |PlanFrom(websiteData, table, j)| ==>
      PlanFrom(websiteData, table, j)[a].0 != PlanFrom(websiteData, table, j)[b].0
    decreases |table| - j
  {
    if j < |table| {
      var rest := PlanFrom(websiteData, table, j + 1);
      PlanFromDistinct(websiteData, table, j + 1);
      var value := ScrapedValue(table[j], websiteData);
      if value != "" {
        ColumnNotPlanned(websiteData, table, j + 1, table[j].1 + 1);
        var plan := [(table[j].1 + 1, value)] + rest;
        assert PlanFrom(websiteData, table, j) == plan;
        forall a, b | 0 <= a < b < |plan| ensures plan[a].0 != plan[b].0 {
          assert plan[b] == rest[b - 1];
          if a > 0 {
            assert plan[a] == rest[a - 1];
          } else {
            assert rest[b - 1] in rest;
          }
        }
      }
    }
  }

  /** Over a table of distinct columns, an entry whose value is empty has
      no planned write in its column. */
  lemma EntryNotPlanned(websiteData: Scraper.Findings, table: seq<(string, int)>, j: nat, m: nat)
    requires j <= m < |table| && DistinctColumns(table, j)
    requires ScrapedValue(table[m], websiteData) == ""
    ensures (table[m].1 + 1) !in set w <- PlanFrom(websiteData, table, j) :: w.0
  {
    PlanFromEntries(websiteData, table, j);
  }

  /** The write rule over a table of distinct columns: when the service
      accepts every cell of row `index`, the cell of each entry ends holding
      the entry's value when that is non-empty, and stays as it was when it is empty. */
  lemma TableWritten(cells: map<Cell, string>, index: int, websiteData: Scraper.Findings,
                     table: seq<(string, int)>, accepts: Accepts, m: nat)
    requires m < |table| && DistinctColumns(table, 0)
    requires forall c: Cell :: c.0 == index ==> accepts(c)
    ensures var value := ScrapedValue(table[m], websiteData);
      CellOf(ApplyWrites(cells, index, PlanFrom(websiteData, table, 0), accepts), (index, table[m].1 + 1))
      == if value != "" then Some(value) else CellOf(cells, (index, table[m].1 + 1))
  {
    var plan := PlanFrom(websiteData, table, 0);
    var value := ScrapedValue(table[m], websiteData);
    if value != "" {
      EntryPlanned(websiteData, table, 0, m);
      PlanFromDistinct(websiteData, table, 0);
      ApplyWritesLand(cells, index, plan, accepts);
      var i :| 0 <= i < |plan| && plan[i] == (table[m].1 + 1, value);
    } else {
      EntryNotPlanned(websiteData, table, 0, m);
      ApplyWritesFrame(cells, index, plan, accepts);
      assert (index, table[m].1 + 1) !in Touched(index, plan);
    }
  }

  /** The write rule for one domain's findings, with the fourteen entries of `column_indices`. */
  lemma FindingsWritten(cells: map<Cell, string>, index: int, websiteData: Scraper.Findings, accepts: Accepts, m: nat)
    requires m < |ColumnIndices|
    requires forall c: Cell :: c.0 == index ==> accepts(c)
    ensures var value := ScrapedValue(ColumnIndices[m], websiteData);
      CellOf(ApplyWrites(cells, index, Plan(websiteData), accepts), (index, ColumnIndices[m].1 + 1))
      == if value != "" then Some(value) else CellOf(cells, (index, ColumnIndices[m].1 + 1))
  {
    ColumnIndicesDistinct();
    TableWritten(cells, index, websiteData, ColumnIndices, accepts, m);
  }

  /** The write rule for the whole run: when data row `k` is crawled without
      `KeyError` and the service accepts every cell of its sheet row `k + 2`,
      each table entry's cell of that row ends holding the entry's value
      when that is non-empty, and stays as it was when it is empty. */
  lemma RowWritten(cells: map<Cell, string>, rows: seq<seq<string>>,
                   web: Scraper.Web, phones: Scraper.PhoneScan, accepts: Accepts, k: nat, m: nat)
    requires k < |rows| && |rows[k]| > 2 && m < |ColumnIndices|
    requires Scraper.WebsiteData(NormalizeDomain(rows[k][2]), web, phones).Returned?
    requires forall c: Cell :: c.0 == k + 2 ==> accepts(c)
    ensures var value := ScrapedValue(ColumnIndices[m], Scraper.WebsiteData(NormalizeDomain(rows[k][2]), web, phones).data);
      CellOf(ProcessRows(cells, rows, web, phones, accepts), (k + 2, ColumnIndices[m].1 + 1))
      == if value != "" then Some(value) else CellOf(cells, (k + 2, ColumnIndices[m].1 + 1))
  {
    RowIsolation(cells, rows, web, phones, accepts, k, ColumnIndices[m].1 + 1);
    FindingsWritten(cells, k + 2, Scraper.WebsiteData(NormalizeDomain(rows[k][2]), web, phones).data, accepts, m);
  }

  /** The cells a list of writes into row `row` may touch. */
  function Touched(row: int, writes: seq<(int, string)>): set<Cell> {
    set w <- writes :: (row, w.0)
  }

  /** Writes change only the cells they name, and each cell they change
      holds the value of one of them. */
  lemma {:induction false} ApplyWritesFrame(cells: map<Cell, string>, row: int, writes: seq<(int, string)>, accepts: Accepts)
    ensures var after := ApplyWrites(cells, row, writes, accepts);
      && (forall c: Cell :: c !in Touched(row, writes) ==> (c in after <==> c in cells))
      && (forall c: Cell :: c !in Touched(row, writes) && c in cells ==> after[c] == cells[c])
      && (forall c: Cell :: c in after && (c !in cells || after[c] != cells[c]) ==>
            exists w <- writes :: c == (row, w.0) && after[c] == w.1)
    decreases |writes|
  {
    if writes != [] && accepts((row, writes[0].0)) {
      var first := (row, writes[0].0);
      var next := cells[first := writes[0].1];
      var rest := writes[1..];
      ApplyWritesFrame(next, row, rest, accepts);
      assert Touched(row, writes) == {first} + Touched(row, rest);
      var after := ApplyWrites(cells, row, writes, accepts);
      forall c: Cell | c in after && (c !in cells || after[c] != cells[c])
        ensures exists w <- writes :: c == (row, w.0) && after[c] == w.1
      {
        if c == first && after[c] == writes[0].1 {
          assert writes[0] in writes;
        } else {
          assert c !in next || after[c] != next[c];
          var w :| w in rest && c == (row, w.0) && after[c] == w.1;
          assert w in writes;
        }
      }
    }
  }

  /** A write the service refuses ends the row: the writes before it stay,
      none after it happens. */
  lemma {:induction false} ApplyWritesStopsAtRefusal(cells: map<Cell, string>, row: int, writes: seq<(int, string)>,
                                                     accepts: Accepts, n: nat)
    requires n < |writes|
    requires forall i :: 0 <= i < n ==> accepts((row, writes[i].0))
    requires !accepts((row, writes[n].0))
    ensures ApplyWrites(cells, row, writes, accepts) == ApplyWrites(cells, row, writes[..n], accepts)
    decreases n
  {
    if n > 0 {
      var next := cells[(row, writes[0].0) := writes[0].1];
      assert writes[..n][1..] == writes[1..][..n - 1];
      ApplyWritesStopsAtRefusal(next, row, writes[1..], accepts, n - 1);
    }
  }

  /** When every write to distinct columns is accepted, each value lands in its cell. */
  lemma {:induction false} ApplyWritesLand(cells: map<Cell, string>, row: int, writes: seq<(int, string)>, accepts: Accepts)
    requires forall i :: 0 <= i < |writes| ==> accepts((row, writes[i].0))
    requires forall i, j :: 0 <= i < j < |writes| ==> writes[i].0 != writes[j].0
    ensures forall i :: 0 <= i < |writes| ==>
      (row, writes[i].0) in ApplyWrites(cells, row, writes, accepts)
      && ApplyWrites(cells, row, writes, accepts)[(row, writes[i].0)] == writes[i].1
    decreases |writes|
  {
    if writes != [] {
      var next := cells[(row, writes[0].0) := writes[0].1];
      var rest := writes[1..];
      ApplyWritesLand(next, row, rest, accepts);
      ApplyWritesFrame(next, row, rest, accepts);
      assert (row, writes[0].0) !in Touched(row, rest);
      forall i | 1 <= i < |writes|
        ensures (row, writes[i].0) in ApplyWrites(cells, row, writes, accepts)
             && ApplyWrites(cells, row, writes, accepts)[(row, writes[i].0)] == writes[i].1
      {
        assert writes[i] == rest[i - 1];
      }
    }
  }

  /** Writing one domain's findings into row `index` changes only cells of
      that row, in writable columns, and only to non-empty values. */
  lemma FindingsFrame(cells: map<Cell, string>, index: int, websiteData: Scraper.Findings, accepts: Accepts)
    requires websiteData.socialMediaLinks.Keys <= SocialLinks.PlatformNames
    ensures var after := ApplyWrites(cells, index, Plan(websiteData), accepts);
      && (forall c: Cell :: (c.0 != index || c.1 !in WritableColumns) ==> (c in after <==> c in cells))
      && (forall c: Cell :: (c.0 != index || c.1 !in WritableColumns) && c in cells ==> after[c] == cells[c])
      && (forall c: Cell :: c in after && (c !in cells || after[c] != cells[c]) ==> after[c] != "")
  {
    PlanColumns(websiteData);
    ApplyWritesFrame(cells, index, Plan(websiteData), accepts);
  }

  /** Handling one row changes only cells of that row, in writable columns,
      and only to non-empty values. */
  lemma RowResultFrame(cells: map<Cell, string>, index: int, row: seq<string>,
                       web: Scraper.Web, phones: Scraper.PhoneScan, accepts: Accepts)
    ensures var after := RowResult(cells, index, row, web, phones, accepts);
      && (forall c: Cell :: (c.0 != index || c.1 !in WritableColumns) ==> (c in after <==> c in cells))
      && (forall c: Cell :: (c.0 != index || c.1 !in WritableColumns) && c in cells ==> after[c] == cells[c])
      && (forall c: Cell :: c in after && (c !in cells || after[c] != cells[c]) ==> after[c] != "")
  {
    if |row| > 2 {
      var domain := NormalizeDomain(row[2]);
      var outcome := Scraper.WebsiteData(domain, web, phones);
      Scraper.WebsiteDataKeys(domain, web, phones);
      if outcome.Returned? {
        FindingsFrame(cells, index, outcome.data, accepts);
      }
    }
  }

  /** The rows as a whole change only cells of the data rows (sheet rows 2
      to `|rows| + 1`, never the header row) in writable columns, and only to
      non-empty values. */
  lemma {:induction false} ProcessRowsFrame(cells: map<Cell, string>, rows: seq<seq<string>>,
                                            web: Scraper.Web, phones: Scraper.PhoneScan, accepts: Accepts)
    ensures var after := ProcessRows(cells, rows, web, phones, accepts);
      && (forall c: Cell :: (c.0 < 2 || c.0 > |rows| + 1 || c.1 !in WritableColumns) ==> (c in after <==> c in cells))
      && (forall c: Cell :: (c.0 < 2 || c.0 > |rows| + 1 || c.1 !in WritableColumns) && c in cells ==> after[c] == cells[c])
      && (forall c: Cell :: c in after && (c !in cells || after[c] != cells[c]) ==> after[c] != "")
    decreases |rows|
  {
    if rows != [] {
      var init := rows[..|rows| - 1];
      ProcessRowsFrame(cells, init, web, phones, accepts);
      var mid := ProcessRows(cells, init, web, phones, accepts);
      RowResultFrame(mid, |rows| + 1, rows[|rows| - 1], web, phones, accepts);
    }
  }

  /** The cell at `c` of a map, when there is one. */
  function CellOf(cells: map<Cell, string>, c: Cell): Option<string> {
    if c in cells then Some(cells[c]) else None
  }

  /** Rows are independent: each cell of sheet row `k + 2` ends up as handling
      row `k` alone leaves it, so an exception in one row neither stops nor
      alters the others. */
  lemma {:induction false} RowIsolation(cells: map<Cell, string>, rows: seq<seq<string>>,
                                        web: Scraper.Web, phones: Scraper.PhoneScan, accepts: Accepts,
                                        k: nat, col: int)
    requires k < |rows|
    ensures CellOf(ProcessRows(cells, rows, web, phones, accepts), (k + 2, col))
         == CellOf(RowResult(cells, k + 2, rows[k], web, phones, accepts), (k + 2, col))
    decreases |rows|
  {
    var init := rows[..|rows| - 1];
    var mid := ProcessRows(cells, init, web, phones, accepts);
    if k == |rows| - 1 {
      ProcessRowsFrame(cells, init, web, phones, accepts);
      assert CellOf(mid, (k + 2, col)) == CellOf(cells, (k + 2, col));
      RowFromSameCell(mid, cells, k + 2, rows[k], web, phones, accepts, col);
    } else {
      RowIsolation(cells, init, web, phones, accepts, k, col);
      assert init[k] == rows[k];
      RowResultFrame(mid, |rows| + 1, rows[|rows| - 1], web, phones, accepts);
    }
  }

  /** A row's handling of one of its cells depends only on that cell. */
  lemma RowFromSameCell(a: map<Cell, string>, b: map<Cell, string>, index: int, row: seq<string>,
                        web: Scraper.Web, phones: Scraper.PhoneScan, accepts: Accepts, col: int)
    requires CellOf(a, (index, col)) == CellOf(b, (index, col))
    ensures CellOf(RowResult(a, index, row, web, phones, accepts), (index, col))
         == CellOf(RowResult(b, index, row, web, phones, accepts), (index, col))
  {
    if |row| > 2 {
      match Scraper.WebsiteData(NormalizeDomain(row[2]), web, phones)
      case KeyErrorRaised =>
      case Returned(websiteData) =>
        ApplyWritesSameCell(a, b, index, Plan(websiteData), accepts, col);
    }
  }

  /** Writes into a row treat equal starting cells alike. */
  lemma {:induction false} ApplyWritesSameCell(a: map<Cell, string>, b: map<Cell, string>, row: int,
                                               writes: seq<(int, string)>, accepts: Accepts, col: int)
    requires CellOf(a, (row, col)) == CellOf(b, (row, col))
    ensures CellOf(ApplyWrites(a, row, writes, accepts), (row, col))
         == CellOf(ApplyWrites(b, row, writes, accepts), (row, col))
    decreases |writes|
  {
    if writes != [] && accepts((row, writes[0].0)) {
      var a' := a[(row, writes[0].0) := writes[0].1];
      var b' := b[(row, writes[0].0) := writes[0].1];
      ApplyWritesSameCell(a', b', row, writes[1..], accepts, col);
    }
  }

  /** The empty record asks for no write at all. */
  lemma PlanOfEmpty()
    ensures Plan(Scraper.Empty) == []
  {
    forall j | 0 <= j < |ColumnIndices| ensures ScrapedValue(ColumnIndices[j], Scraper.Empty) == "" {
    }
    EmptyPlanFrom(0);
  }

  /** No entry of `ColumnIndices[j..]` gives the empty record a value. */
  lemma {:induction false} EmptyPlanFrom(j: nat)
    requires j <= |ColumnIndices|
    requires forall i :: 0 <= i < |ColumnIndices| ==> ScrapedValue(ColumnIndices[i], Scraper.Empty) == ""
    ensures PlanFrom(Scraper.Empty, ColumnIndices, j) == []
    decreases |ColumnIndices| - j
  {
    if j < |ColumnIndices| {
      EmptyPlanFrom(j + 1);
    }
  }

  /** A row with at most two cells, a domain whose first fetch raises, and a
      crawl that raises `KeyError` all leave that row's cells as they were. */
  lemma QuietRow(cells: map<Cell, string>, rows: seq<seq<string>>,
                 web: Scraper.Web, phones: Scraper.PhoneScan, accepts: Accepts, k: nat, col: int)
    requires k < |rows|
    requires || |rows[k]| <= 2
             || web(NormalizeDomain(rows[k][2])).Failed?
             || Scraper.WebsiteData(NormalizeDomain(rows[k][2]), web, phones).KeyErrorRaised?
    ensures CellOf(ProcessRows(cells, rows, web, phones, accepts), (k + 2, col)) == CellOf(cells, (k + 2, col))
  {
    RowIsolation(cells, rows, web, phones, accepts, k, col);
    if |rows[k]| > 2 && web(NormalizeDomain(rows[k][2])).Failed? {
      PlanOfEmpty();
      assert Scraper.WebsiteData(NormalizeDomain(rows[k][2]), web, phones) == Scraper.Returned(Scraper.Empty);
    }
  }

  /** Findings with only a phone number ask for exactly one write: the
      phone column, 0-based 22, written as column 23. */
  lemma PhoneOnlyPlan(phone: string)
    requires phone != ""
    ensures Plan(Scraper.Findings("", [], [phone], map[])) == [(23, phone)]
  {
    var d := Scraper.Findings("", [], [phone], map[]);
    forall j | 0 <= j < 13 ensures ScrapedValue(ColumnIndices[j], d) == "" {
    }
    NotEmailKey("phone number");
    assert ScrapedValue(ColumnIndices[13], d) == phone;
    assert PlanFrom(d, ColumnIndices, 13) == [(23, phone)];
    PhoneOnlyPrefix(d, 13);
  }

  /** The entries before `j` of a phone-only record ask for nothing. */
  lemma {:induction false} PhoneOnlyPrefix(d: Scraper.Findings, j: nat)
    requires j <= 13
    requires forall i :: 0 <= i < 13 ==> ScrapedValue(ColumnIndices[i], d) == ""
    ensures PlanFrom(d, ColumnIndices, 0) == PlanFrom(d, ColumnIndices, j)
    decreases j
  {
    if j > 0 {
      PhoneOnlyPrefix(d, j - 1);
    }
  }
}
