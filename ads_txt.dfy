/** The ads.txt scan: the lines of the file are read in order and the first
    line holding `domainowner=` or `contact=` ends the scan. */
module AdsTxt {
  import opened PyStr

  /** The dictionary the scan returns: `owner_name` is always there, while
      `owner_email` is there only when a `contact=` line ended the scan. */
  datatype AdsData = AdsData(ownerName: string, ownerEmail: Option<string>)

  const OwnerMarker: string := "domainowner="
  const ContactMarker: string := "contact="

  /** `line.split("=")[1].strip()` for a line that holds `marker`, which ends in `=`. */
  function LineValue(line: string, marker: string): (v: string)
    requires |marker| > 0 && marker[|marker| - 1] == '='
    requires Contains(line, marker)
    ensures forall k :: 0 <= k < |v| ==> v[k] != '='
    ensures v == Strip(v)
  {
    ContainsEq(line, marker);
    var field := SecondField(line);
    var v := Strip(field);
    assert forall k :: 0 <= k < |v| ==> v[k] != '=' by {
      var i: nat :| StrippedAt(field, v, i);
      assert forall k :: 0 <= k < |v| ==> v[k] == field[i + k];
    }
    StripIdempotent(field);
    v
  }

  /** The scan of `lines`, as the loop with its `break` computes it. */
  function Scan(lines: seq<string>): AdsData {
    if lines == [] then AdsData("", None)
    else if Contains(lines[0], OwnerMarker) then AdsData(LineValue(lines[0], OwnerMarker), None)
    else if Contains(lines[0], ContactMarker) then AdsData("", Some(LineValue(lines[0], ContactMarker)))
    else Scan(lines[1..])
  }

  /** `extract_data_from_ads_txt(ads_txt)`. */
  method ExtractAdsTxt(adsTxt: string) returns (data: AdsData)
    ensures data == Scan(SplitLines(adsTxt))
  {
    data := AdsData("", None);
    var lines := SplitLines(adsTxt);
    var i := 0;
    while i < |lines|
      invariant 0 <= i <= |lines|
      invariant data == AdsData("", None)
      invariant Scan(lines) == Scan(lines[i..])
    {
      var line := lines[i];
      if Contains(line, OwnerMarker) {
        data := data.(ownerName := LineValue(line, OwnerMarker));
        break;
      } else if Contains(line, ContactMarker) {
        data := data.(ownerEmail := Some(LineValue(line, ContactMarker)));
        break;
      }
      assert lines[i..][1..] == lines[i + 1..];
      i := i + 1;
    }
  }

  /** Neither marker is on line `line`. */
  predicate Unmarked(line: string) {
    !Contains(line, OwnerMarker) && !Contains(line, ContactMarker)
  }

  /** The scan stops at the first marked line: a `domainowner=` line gives
      the owner name and no email, a `contact=` line gives the email and an
      empty name; the lines after it are never read. */
  lemma {:induction false} StopsAtFirstMarkedLine(lines: seq<string>, k: nat)
    requires k < |lines| && !Unmarked(lines[k])
    requires forall j :: 0 <= j < k ==> Unmarked(lines[j])
    ensures Contains(lines[k], OwnerMarker) ==> Scan(lines) == AdsData(LineValue(lines[k], OwnerMarker), None)
    ensures !Contains(lines[k], OwnerMarker) ==>
      Scan(lines) == AdsData("", Some(LineValue(lines[k], ContactMarker)))
    decreases k
  {
    if k > 0 {
      assert forall j :: 0 <= j < k - 1 ==> lines[1..][j] == lines[j + 1];
      StopsAtFirstMarkedLine(lines[1..], k - 1);
    }
  }

  /** A file without a marked line gives an empty name and no `owner_email` key. */
  lemma {:induction false} NoMarkedLine(lines: seq<string>)
    requires forall j :: 0 <= j < |lines| ==> Unmarked(lines[j])
    ensures Scan(lines) == AdsData("", None)
    decreases |lines|
  {
    if lines != [] {
      assert forall j :: 0 <= j < |lines| - 1 ==> lines[1..][j] == lines[j + 1];
      NoMarkedLine(lines[1..]);
    }
  }

  /** The scan never gives both: when the `owner_email` key is there, the name is empty. */
  lemma {:induction false} NameOrEmail(lines: seq<string>)
    ensures Scan(lines).ownerEmail.Some? ==> Scan(lines).ownerName == ""
    decreases |lines|
  {
    if lines != [] && Unmarked(lines[0]) {
      NameOrEmail(lines[1..]);
    }
  }
}
