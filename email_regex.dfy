/** The email pattern of the section extractor,
    `[a-z0-9\.\-+_]+@[a-z0-9\.\-+_]+\.[a-z]+`, and `re.findall` over it.
    The pattern is used without `re.IGNORECASE`, so capitals never match. */
module EmailRegex {
  import opened PyStr

  /** The class `[a-z0-9\.\-+_]` of the local part and of the domain. */
  predicate IsAddressChar(c: char) {
    ('a' <= c <= 'z') || ('0' <= c <= '9') || c == '.' || c == '-' || c == '+' || c == '_'
  }

  /** The class `[a-z]` of the top-level domain. */
  predicate IsLower(c: char) {
    'a' <= c <= 'z'
  }

  /** `s` is `local@domain.tld` with its `@` at `at` and the `.` before the
      top-level domain at `dot`. */
  predicate ShapeAt(s: string, at: nat, dot: nat) {
    && 0 < at && at + 1 < dot && dot + 1 < |s|
    && s[at] == '@' && s[dot] == '.'
    && (forall k :: 0 <= k < at ==> IsAddressChar(s[k]))
    && (forall k :: at < k < dot ==> IsAddressChar(s[k]))
    && (forall k :: dot < k < |s| ==> IsLower(s[k]))
  }

  /** `s`, as a whole, matches the email pattern. */
  ghost predicate IsEmail(s: string) {
    exists at: nat, dot: nat :: ShapeAt(s, at, dot)
  }

  /** Position `k` can end the domain part: a `.` followed by a lower-case letter. */
  predicate DotAt(s: string, k: nat) {
    k + 1 < |s| && s[k] == '.' && IsLower(s[k + 1])
  }

  /** The last position in `[lo, hi)` that can end the domain part. */
  function LastDot(s: string, lo: nat, hi: nat): (r: Option<nat>)
    requires hi <= |s|
    ensures r.Some? ==> lo <= r.value < hi && DotAt(s, r.value)
    ensures r.Some? ==> forall k :: r.value < k < hi ==> !DotAt(s, k)
    ensures r.None? ==> forall k :: lo <= k < hi ==> !DotAt(s, k)
    decreases hi
  {
    if hi <= lo then None
    else if DotAt(s, hi - 1) then Some(hi - 1)
    else LastDot(s, lo, hi - 1)
  }

  /** Where a match of the pattern that starts at `p` ends, if there is one.
      The greedy local part can only end at the `@`, the greedy domain part
      gives back characters until the last `.` followed by a letter, and the
      greedy top-level domain takes every following lower-case letter. */
  function MatchAt(s: string, p: nat): (r: Option<nat>)
    requires p <= |s|
    ensures r.Some? ==> p < r.value <= |s| && IsEmail(s[p..r.value])
  {
    var at := RunEnd(s, p, IsAddressChar);
    if at == p || at == |s| || s[at] != '@' then None
    else
      var domainEnd := RunEnd(s, at + 1, IsAddressChar);
      match LastDot(s, at + 2, domainEnd)
      case None => None
      case Some(dot) =>
        var e := RunEnd(s, dot + 1, IsLower);
        assert ShapeAt(s[p..e], at - p, dot - p);
        Some(e)
  }

  /** A run of class characters from `i` to `j` is covered by the run that `RunEnd` finds. */
  lemma RunEndCovers(s: string, i: nat, j: nat, inClass: char -> bool)
    requires i <= j <= |s|
    requires forall k :: i <= k < j ==> inClass(s[k])
    ensures j <= RunEnd(s, i, inClass)
  {
  }

  /** What `ShapeAt` says about a substring `s[p..e]`, restated on `s`. */
  lemma ShapeInContext(s: string, p: nat, e: nat, at: nat, dot: nat)
    requires p <= e <= |s| && ShapeAt(s[p..e], at, dot)
    ensures p + at < p + dot && p + dot + 1 < e
    ensures s[p + at] == '@' && DotAt(s, p + dot)
    ensures forall k :: p <= k < p + at ==> IsAddressChar(s[k])
    ensures forall k :: p + at < k < e ==> IsAddressChar(s[k])
    ensures forall k :: p + dot < k < e ==> IsLower(s[k])
  {
    var t := s[p..e];
    assert forall k :: p <= k < e ==> s[k] == t[k - p];
  }

  /** Some substring that starts at `p` matches the pattern: then the
      matcher finds a match at `p`, and no such substring is longer than it. */
  lemma MatchAtComplete(s: string, p: nat, e: nat)
    requires p <= e <= |s| && IsEmail(s[p..e])
    ensures MatchAt(s, p).Some? && e <= MatchAt(s, p).value
  {
    var at: nat, dot: nat :| ShapeAt(s[p..e], at, dot);
    ShapeInContext(s, p, e, at, dot);
    MatchCovers(s, p, e, p + at, p + dot);
  }

  /** The `@` at `a`, the `.` at `d` and the character runs around them that
      make `s[p..e]` an address: the matcher's greedy runs cover them. */
  lemma MatchCovers(s: string, p: nat, e: nat, a: nat, d: nat)
    requires p < a && a + 1 < d && d + 1 < e <= |s|
    requires s[a] == '@' && DotAt(s, d)
    requires forall k :: p <= k < a ==> IsAddressChar(s[k])
    requires forall k :: a < k < e ==> IsAddressChar(s[k])
    requires forall k :: d < k < e ==> IsLower(s[k])
    ensures MatchAt(s, p).Some? && e <= MatchAt(s, p).value
  {
    assert RunEnd(s, p, IsAddressChar) == a;
    RunEndCovers(s, a + 1, e, IsAddressChar);
    var domainEnd := RunEnd(s, a + 1, IsAddressChar);
    var found := LastDot(s, a + 2, domainEnd);
    assert found.Some? && d <= found.value;
    if found.value == d {
      RunEndCovers(s, d + 1, e, IsLower);
    } else {
      assert !IsLower(s[found.value]);
      assert e <= found.value;
    }
  }

  /** `MatchAt` finds nothing at `p` only when no substring starting at `p` matches. */
  lemma NoMatchAt(s: string, p: nat)
    requires p <= |s|
    ensures MatchAt(s, p).None? ==> forall e :: p <= e <= |s| ==> !IsEmail(s[p..e])
  {
    forall e | p <= e <= |s| && IsEmail(s[p..e]) ensures MatchAt(s, p).Some? {
      MatchAtComplete(s, p, e);
    }
  }

  /** Python's `re.findall` from position `p`: the leftmost match, then the
      scan resumes where that match ended. */
  function FindAllFrom(s: string, p: nat): (r: seq<string>)
    requires p <= |s|
    ensures forall x <- r :: IsEmail(x)
    decreases |s| - p
  {
    if p == |s| then []
    else
      match MatchAt(s, p)
      case Some(e) => [s[p..e]] + FindAllFrom(s, e)
      case None => FindAllFrom(s, p + 1)
  }

  /** `re.findall(email_regex, s)`. */
  function FindAll(s: string): seq<string> {
    FindAllFrom(s, 0)
  }

  /** Some substring that starts at or after `p` matches the pattern. */
  ghost predicate HasEmailFrom(s: string, p: nat) {
    exists q: nat, e: nat :: p <= q < e <= |s| && IsEmail(s[q..e])
  }

  /** A match from `p` starts either at `p` or from `p + 1`. */
  lemma HasEmailStep(s: string, p: nat)
    requires p < |s|
    ensures HasEmailFrom(s, p) <==>
      (exists e: nat :: p <= e <= |s| && IsEmail(s[p..e])) || HasEmailFrom(s, p + 1)
  {
    if HasEmailFrom(s, p) {
      var q: nat, e: nat :| p <= q < e <= |s| && IsEmail(s[q..e]);
      if q == p {
        assert p <= e <= |s| && IsEmail(s[p..e]);
      } else {
        assert HasEmailFrom(s, p + 1);
      }
    }
    if exists e: nat :: p <= e <= |s| && IsEmail(s[p..e]) {
      var e: nat :| p <= e <= |s| && IsEmail(s[p..e]);
      var at: nat, dot: nat :| ShapeAt(s[p..e], at, dot);
      assert p < e;
      assert HasEmailFrom(s, p);
    }
    if HasEmailFrom(s, p + 1) {
      var q: nat, e: nat :| p + 1 <= q < e <= |s| && IsEmail(s[q..e]);
      assert HasEmailFrom(s, p);
    }
  }

  /** The scan finds nothing exactly when no substring matches. */
  lemma {:induction false} FindAllEmptyIff(s: string, p: nat)
    requires p <= |s|
    ensures FindAllFrom(s, p) == [] <==> !HasEmailFrom(s, p)
    decreases |s| - p
  {
    if p < |s| {
      HasEmailStep(s, p);
      match MatchAt(s, p)
      case Some(e) =>
        assert IsEmail(s[p..e]);
      case None =>
        FindAllEmptyIff(s, p + 1);
        NoMatchAt(s, p);
    }
  }

  /** No upper-case ASCII letter appears in any string the pattern matches. */
  lemma EmailHasNoCapitals(x: string)
    requires IsEmail(x)
    ensures forall k :: 0 <= k < |x| ==> !('A' <= x[k] <= 'Z')
  {
    var at: nat, dot: nat :| ShapeAt(x, at, dot);
    forall k | 0 <= k < |x| ensures !('A' <= x[k] <= 'Z') {
      if k < at {
      } else if k == at {
      } else if k < dot {
      } else if k == dot {
      } else {
      }
    }
  }

  /** The scan does not ignore case: none of its results holds a capital. */
  lemma FindAllHasNoCapitals(s: string)
    ensures forall x, k :: x in FindAll(s) && 0 <= k < |x| ==> !('A' <= x[k] <= 'Z')
  {
    forall x | x in FindAll(s) ensures forall k :: 0 <= k < |x| ==> !('A' <= x[k] <= 'Z') {
      EmailHasNoCapitals(x);
    }
  }

  /** No substring that starts at `k` matches the pattern. */
  ghost predicate NoEmailAt(s: string, k: nat) {
    forall e :: k <= e <= |s| ==> !IsEmail(s[k..e])
  }

  /** A match at `p` is a matching substring that starts at `p`. */
  lemma MatchIsEmail(s: string, p: nat)
    requires p <= |s|
    ensures MatchAt(s, p).Some? ==> !NoEmailAt(s, p)
  {
    if MatchAt(s, p).Some? {
      assert IsEmail(s[p..MatchAt(s, p).value]);
    }
  }

  /** A position where no substring matches is skipped. */
  lemma SkipOne(s: string, p: nat)
    requires p < |s| && NoEmailAt(s, p)
    ensures FindAllFrom(s, p) == FindAllFrom(s, p + 1)
  {
    MatchIsEmail(s, p);
  }

  /** Positions where no substring starts that matches the pattern are skipped. */
  lemma {:induction false} FindAllSkips(s: string, p: nat, q: nat)
    requires p <= q <= |s|
    requires forall k :: p <= k < q ==> NoEmailAt(s, k)
    ensures FindAllFrom(s, p) == FindAllFrom(s, q)
    decreases q - p
  {
    if p < q {
      SkipOne(s, p);
      FindAllSkips(s, p + 1, q);
    }
  }

  /** `re.findall` is leftmost-longest here: its first result starts at the
      first position where some substring matches the pattern, and it is the
      longest matching substring that starts there. */
  lemma FindAllLeftmostLongest(s: string, from: nat, p: nat, e: nat)
    requires from <= p < e <= |s| && IsEmail(s[p..e])
    requires forall q, e' :: from <= q < p && q <= e' <= |s| ==> !IsEmail(s[q..e'])
    ensures FindAllFrom(s, from) != []
    ensures exists e2 :: e <= e2 <= |s| && FindAllFrom(s, from)[0] == s[p..e2]
                   && (forall e3 :: e2 < e3 <= |s| ==> !IsEmail(s[p..e3]))
  {
    FindAllSkips(s, from, p);
    MatchAtComplete(s, p, e);
    var e2 := MatchAt(s, p).value;
    forall e3 | e2 < e3 <= |s| ensures !IsEmail(s[p..e3]) {
      if IsEmail(s[p..e3]) {
        MatchAtComplete(s, p, e3);
      }
    }
    assert FindAllFrom(s, from)[0] == s[p..e2];
  }

  /** `re.findall` returns the matches left to right without overlap: from
      the leftmost position `p` where some substring matches, the first
      result is the longest match there, `s[p..e2]`, and the scan resumes
      at its end `e2`, so every later result comes from `s[e2..]`. */
  lemma FindAllNext(s: string, from: nat, p: nat, e: nat)
    requires from <= p < e <= |s| && IsEmail(s[p..e])
    requires forall q, e' :: from <= q < p && q <= e' <= |s| ==> !IsEmail(s[q..e'])
    ensures exists e2 :: && e <= e2 <= |s|
                         && (forall e3 :: e2 < e3 <= |s| ==> !IsEmail(s[p..e3]))
                         && FindAllFrom(s, from) == [s[p..e2]] + FindAllFrom(s, e2)
  {
    FindAllSkips(s, from, p);
    MatchAtComplete(s, p, e);
    var e2 := MatchAt(s, p).value;
    forall e3 | e2 < e3 <= |s| ensures !IsEmail(s[p..e3]) {
      if IsEmail(s[p..e3]) {
        MatchAtComplete(s, p, e3);
      }
    }
    assert FindAllFrom(s, from) == [s[p..e2]] + FindAllFrom(s, e2);
  }

  /** The scan of `ab@c.de` finds the one address `ab@c.de`, not also the
      overlapping `b@c.de`. */
  lemma FindAllNoOverlap()
    ensures FindAll("ab@c.de") == ["ab@c.de"]
  {
    var s := "ab@c.de";
    assert IsEmail(s[0..7]) by {
      assert ShapeAt(s[0..7], 2, 4);
    }
    FindAllNext(s, 0, 0, 7);
    assert s[0..7] == s;
    assert FindAllFrom(s, 7) == [];
    assert FindAll(s) == [s[0..7]] + FindAllFrom(s, 7);
  }
}
