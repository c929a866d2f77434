/** The owner-name patterns of the section extractor. Each pattern is a
    label followed by `(.*)`; `re.search` with `re.IGNORECASE` finds the
    leftmost place where the label matches, and group 1 is the rest of
    that line (`.` does not match `\n`). */
module OwnerName {
  import opened PyStr

  /** The labels of `owner_name_patterns`, in priority order; each pattern is the label followed by `(.*)`. */
  const Labels: seq<string> := [
    "Owner Name: ", "Contact Name: ", "About the Owner: ", "Owner: ", "Name: ",
    "Managed by: ", "Business Owner: ", "Company Owner: ", "CEO: ", "President: ", "Founder: "
  ]

  predicate IsAsciiLetter(c: char) {
    ('a' <= c <= 'z') || ('A' <= c <= 'Z')
  }

  /** The lower-case form of an ASCII capital; any other character is kept. */
  function AsciiLower(c: char): char {
    if 'A' <= c <= 'Z' then (c as int + 32) as char else c
  }

  /** Text character `c` matches pattern character `p` under `re.IGNORECASE`:
      the other case of an ASCII letter, and also U+0130 and U+0131 for `i`,
      U+017F for `s` and U+212A for `k`; any other character matches only itself. */
  predicate FoldEq(c: char, p: char) {
    if IsAsciiLetter(p) then (
      || AsciiLower(c) == AsciiLower(p)
      || (AsciiLower(p) == 'i' && (c == '\U{130}' || c == '\U{131}'))
      || (AsciiLower(p) == 's' && c == '\U{17F}')
      || (AsciiLower(p) == 'k' && c == '\U{212A}'))
    else c == p
  }

  /** Under `re.IGNORECASE` an ASCII letter of the pattern matches exactly
      its lower-case and its upper-case form, plus `İ` and `ı` for `i`, `ſ`
      for `s` and the Kelvin sign for `k`; any other pattern character
      matches only itself. */
  lemma FoldEqLetter(c: char, p: char)
    ensures IsAsciiLetter(p) ==> (FoldEq(c, p) <==>
      || c == AsciiLower(p) || c as int == AsciiLower(p) as int - 32
      || (AsciiLower(p) == 'i' && (c == '\U{130}' || c == '\U{131}'))
      || (AsciiLower(p) == 's' && c == '\U{17F}')
      || (AsciiLower(p) == 'k' && c == '\U{212A}'))
    ensures !IsAsciiLetter(p) ==> (FoldEq(c, p) <==> c == p)
  {
  }

  /** `prefix` matches `text` at index `i`, ignoring case. */
  predicate LabelAt(text: string, prefix: string, i: nat) {
    i + |prefix| <= |text| && forall k :: 0 <= k < |prefix| ==> FoldEq(text[i + k], prefix[k])
  }

  /** A place where the text agrees with the label up to ASCII case is a match. */
  lemma CaseIsIgnored(text: string, prefix: string, i: nat)
    requires i + |prefix| <= |text|
    requires forall k :: 0 <= k < |prefix| ==> AsciiLower(text[i + k]) == AsciiLower(prefix[k])
    ensures LabelAt(text, prefix, i)
  {
  }

  /** The leftmost index from `from` on where `prefix` matches. */
  function SearchFrom(text: string, prefix: string, from: nat): (r: Option<nat>)
    ensures r.Some? ==> from <= r.value && LabelAt(text, prefix, r.value)
    ensures r.Some? ==> forall j :: from <= j < r.value ==> !LabelAt(text, prefix, j)
    ensures r.None? ==> forall j :: from <= j ==> !LabelAt(text, prefix, j)
    decreases |text| - from
  {
    if from + |prefix| > |text| then None
    else if LabelAt(text, prefix, from) then Some(from)
    else SearchFrom(text, prefix, from + 1)
  }

  /** Group 1 of `re.search(prefix + "(.*)", text, re.IGNORECASE)`, or `None`
      when there is no match: what follows the leftmost match of the label,
      up to the next `\n` or the end of the text. */
  function Group(text: string, prefix: string): (g: Option<string>)
    ensures g.Some? ==> forall k :: 0 <= k < |g.value| ==> g.value[k] != '\n'
  {
    match SearchFrom(text, prefix, 0)
    case None => None
    case Some(i) =>
      var start := i + |prefix|;
      Some(text[start..RunEnd(text, start, c => c != '\n')])
  }

  /** The search fails exactly when the label matches nowhere in the text. */
  lemma GroupNoneIff(text: string, prefix: string)
    ensures Group(text, prefix).None? <==> forall j :: !LabelAt(text, prefix, j)
  {
    match SearchFrom(text, prefix, 0)
    case None =>
    case Some(i) =>
      assert LabelAt(text, prefix, i);
  }

  /** Group 1 of the first pattern of `labels[k..]` whose search matches;
      later patterns are not tried. */
  function FirstGroup(text: string, labels: seq<string>, k: nat): (g: Option<string>)
    requires k <= |labels|
    ensures g.Some? ==> forall i :: 0 <= i < |g.value| ==> g.value[i] != '\n'
    decreases |labels| - k
  {
    if k == |labels| then None
    else
      match Group(text, labels[k])
      case Some(g) => Some(g)
      case None => FirstGroup(text, labels, k + 1)
  }

  /** The owner name the patterns `labels` give: the stripped group of the
      first pattern that matches, `""` when none does. */
  function NameFrom(text: string, labels: seq<string>): string {
    match FirstGroup(text, labels, 0)
    case Some(g) => Strip(g)
    case None => ""
  }

  /** The loop over the owner-name patterns `labels`: the first one whose
      search matches gives the stripped group, and the loop stops there. */
  method FirstMatch(text: string, labels: seq<string>) returns (name: string)
    ensures name == NameFrom(text, labels)
  {
    name := "";
    var k := 0;
    while k < |labels|
      invariant 0 <= k <= |labels|
      invariant FirstGroup(text, labels, 0) == FirstGroup(text, labels, k)
    {
      var m := Group(text, labels[k]);
      if m.Some? {
        name := Strip(m.value);
        break;
      }
      k := k + 1;
    }
  }

  /** The `owner_name` a section with visible text `text` yields. */
  function OwnerNameOf(text: string): string {
    NameFrom(text, Labels)
  }

  /** Patterns that do not match pass the search on: from `k` it goes on at `m`. */
  lemma {:induction false} GroupSkipTo(text: string, labels: seq<string>, k: nat, m: nat)
    requires k <= m <= |labels|
    requires forall j :: k <= j < m ==> Group(text, labels[j]).None?
    ensures FirstGroup(text, labels, k) == FirstGroup(text, labels, m)
    decreases m - k
  {
    if k < m {
      GroupSkipTo(text, labels, k + 1, m);
    }
  }

  /** No pattern matches: the owner name is empty. */
  lemma NoLabelNoName(text: string, labels: seq<string>)
    requires forall j :: 0 <= j < |labels| ==> Group(text, labels[j]).None?
    ensures NameFrom(text, labels) == ""
  {
    GroupSkipTo(text, labels, 0, |labels|);
  }

  /** The first pattern in list order that matches decides the owner name,
      whatever the later patterns would give. */
  lemma FirstLabelWins(text: string, labels: seq<string>, m: nat)
    requires m < |labels|
    requires forall j :: 0 <= j < m ==> Group(text, labels[j]).None?
    requires Group(text, labels[m]).Some?
    ensures NameFrom(text, labels) == Strip(Group(text, labels[m]).value)
  {
    GroupSkipTo(text, labels, 0, m);
  }

  /** Stripping a one-line group gives a one-line name that is its own strip. */
  lemma StrippedLine(g: string)
    requires forall k :: 0 <= k < |g| ==> g[k] != '\n'
    ensures forall i :: 0 <= i < |Strip(g)| ==> Strip(g)[i] != '\n'
    ensures Strip(g) == Strip(Strip(g))
  {
    var r := Strip(g);
    var i: nat :| StrippedAt(g, r, i);
    assert forall j :: 0 <= j < |r| ==> r[j] == g[i + j];
    StripIdempotent(g);
  }

  /** The owner name never spans lines and carries no surrounding whitespace. */
  lemma NameIsTrimmedLine(text: string, labels: seq<string>)
    ensures forall i :: 0 <= i < |NameFrom(text, labels)| ==> NameFrom(text, labels)[i] != '\n'
    ensures NameFrom(text, labels) == Strip(NameFrom(text, labels))
  {
    var m := FirstGroup(text, labels, 0);
    if m.Some? {
      StrippedLine(m.value);
    }
  }
}
