/** The few operations of Python's `str` that the backend relies on, over `seq<char>`. */
module PyStr {
  import opened Wrappers

  /** Python's `str.isspace()` for one character: the characters `str.strip()` removes. */
  predicate IsSpace(c: char) {
    c == ' ' || ('\t' <= c <= '\r') || ('\U{1c}' <= c <= '\U{1f}')
    || c == '\U{85}' || c == '\U{a0}' || c == '\U{1680}'
    || ('\U{2000}' <= c <= '\U{200a}') || c == '\U{2028}' || c == '\U{2029}'
    || c == '\U{202f}' || c == '\U{205f}' || c == '\U{3000}'
  }

  /** `s.startswith(p)` */
  predicate StartsWith(s: string, p: string) {
    |p| <= |s| && s[..|p|] == p
  }

  /** `sep` occurs in `s` at index `k`. */
  predicate OccursAt(s: string, sep: string, k: int) {
    0 <= k && k + |sep| <= |s| && s[k..k + |sep|] == sep
  }

  /** `sep` occurs nowhere in `s` (`sep not in s`). */
  predicate FreeOf(s: string, sep: string) {
    forall k :: 0 <= k <= |s| ==> !OccursAt(s, sep, k)
  }

  /** `s.lstrip()`: drops the leading whitespace and nothing else. */
  function LStrip(s: string): (r: string)
    ensures |r| <= |s| && r == s[|s| - |r|..]
    ensures r == [] || !IsSpace(r[0])
    ensures forall k :: 0 <= k < |s| - |r| ==> IsSpace(s[k])
  {
    if |s| > 0 && IsSpace(s[0]) then LStrip(s[1..]) else s
  }

  /** `s.rstrip()`: drops the trailing whitespace and nothing else. */
  function RStrip(s: string): (r: string)
    ensures |r| <= |s| && r == s[..|r|]
    ensures r == [] || !IsSpace(r[|r| - 1])
    ensures forall k :: |r| <= k < |s| ==> IsSpace(s[k])
  {
    if |s| > 0 && IsSpace(s[|s| - 1]) then RStrip(s[..|s| - 1]) else s
  }

  /** `s.strip()`: the slice of `s` left when whitespace is removed from both ends. */
  function Strip(s: string): (r: string)
    ensures r == [] || (!IsSpace(r[0]) && !IsSpace(r[|r| - 1]))
    ensures |s| - |LStrip(s)| + |r| <= |s|
    ensures r == s[|s| - |LStrip(s)|..|s| - |LStrip(s)| + |r|]
  {
    RStrip(LStrip(s))
  }

  /** `s.strip()` removes whitespace and nothing else: every character cut off in front of
      the result, and every character cut off behind it, is whitespace. */
  lemma StripRemovesOnlyWhitespace(s: string)
    ensures forall k :: 0 <= k < |s| - |LStrip(s)| ==> IsSpace(s[k])
    ensures forall k :: |s| - |LStrip(s)| + |Strip(s)| <= k < |s| ==> IsSpace(s[k])
  {
  }

  /** Stripping twice removes nothing more than stripping once. */
  lemma StripIdempotent(s: string)
    ensures Strip(Strip(s)) == Strip(s)
  {
    var r := Strip(s);
    if r != [] {
      assert LStrip(r) == r;
      assert RStrip(r) == r;
    }
  }

  /** A string without surrounding whitespace is its own strip. */
  lemma StripOfStripped(s: string)
    requires s == [] || (!IsSpace(s[0]) && !IsSpace(s[|s| - 1]))
    ensures Strip(s) == s
  {
  }

  /** `s.find(sep, start)` as an option: the first occurrence of `sep` at or after `start`. */
  function Find(s: string, sep: string, start: nat): (r: Option<nat>)
    ensures r.Some? ==> start <= r.value && OccursAt(s, sep, r.value)
    ensures r.Some? ==> forall k :: start <= k < r.value ==> !OccursAt(s, sep, k)
    ensures r.None? ==> forall k :: start <= k ==> !OccursAt(s, sep, k)
    decreases |s| - start
  {
    if start + |sep| > |s| then None
    else if s[start..start + |sep|] == sep then Some(start)
    else Find(s, sep, start + 1)
  }

  /** `s.split(sep)` for a non-empty separator: the pieces between non-overlapping
      occurrences of `sep`, found left to right. */
  function Split(s: string, sep: string): (parts: seq<string>)
    requires sep != []
    ensures |parts| >= 1
    ensures Find(s, sep, 0).Some? ==> |parts| >= 2
    decreases |s|
  {
    match Find(s, sep, 0)
    case None => [s]
    case Some(i) => [s[..i]] + Split(s[i + |sep|..], sep)
  }

  /** `sep.join(parts)` */
  function Join(parts: seq<string>, sep: string): (r: string)
    ensures |parts| > 0 ==> StartsWith(r, parts[0])
  {
    if |parts| == 0 then ""
    else if |parts| == 1 then parts[0]
    else parts[0] + sep + Join(parts[1..], sep)
  }

  /** Joining the pieces of a split with the same separator gives back the original string. */
  lemma {:induction false} JoinSplit(s: string, sep: string)
    requires sep != []
    ensures Join(Split(s, sep), sep) == s
    decreases |s|
  {
    match Find(s, sep, 0)
    case None =>
    case Some(i) =>
      var tail := s[i + |sep|..];
      var rest := Split(tail, sep);
      assert Split(s, sep) == [s[..i]] + rest;
      assert ([s[..i]] + rest)[1..] == rest;
      JoinSplit(tail, sep);
      assert s == s[..i] + sep + tail;
  }

  /** Slicing a slice is slicing the original at shifted indices. */
  lemma SliceOfSlice(s: string, i: nat, j: nat, k: nat, n: nat)
    requires i <= j <= |s| && k + n <= j - i
    ensures s[i..j][k..k + n] == s[i + k..i + k + n]
  {
    var a, b := s[i..j][k..k + n], s[i + k..i + k + n];
    assert forall m :: 0 <= m < |a| ==> a[m] == b[m];
  }

  /** A slice of a string free of `sep` is free of `sep`. */
  lemma FreeOfSlice(s: string, sep: string, i: nat, j: nat)
    requires i <= j <= |s| && FreeOf(s, sep)
    ensures FreeOf(s[i..j], sep)
  {
    forall k | 0 <= k <= j - i
      ensures !OccursAt(s[i..j], sep, k)
    {
      if OccursAt(s[i..j], sep, k) {
        SliceOfSlice(s, i, j, k, |sep|);
        assert OccursAt(s, sep, i + k);
      }
    }
  }

  /** A string free of `sep` does not start with it. */
  lemma FreeOfNotStartsWith(s: string, sep: string)
    requires FreeOf(s, sep)
    ensures !StartsWith(s, sep)
  {
    assert !OccursAt(s, sep, 0);
    if |sep| <= |s| {
      assert s[..|sep|] == s[0..|sep|];
    }
  }

  /** Stripping a string free of `sep` leaves it free of `sep`. */
  lemma StripKeepsFreeOf(s: string, sep: string)
    requires FreeOf(s, sep)
    ensures FreeOf(Strip(s), sep)
  {
    var a := |s| - |LStrip(s)|;
    FreeOfSlice(s, sep, a, a + |Strip(s)|);
  }

  /** No piece of a split contains the separator. */
  lemma {:induction false} SplitPiecesFreeOfSep(s: string, sep: string)
    requires sep != []
    ensures forall p :: p in Split(s, sep) ==> FreeOf(p, sep)
    decreases |s|
  {
    match Find(s, sep, 0)
    case None =>
      assert Split(s, sep) == [s];
    case Some(i) =>
      var tail := s[i + |sep|..];
      SplitPiecesFreeOfSep(tail, sep);
      assert Split(s, sep) == [s[..i]] + Split(tail, sep);
      forall k | 0 <= k <= i
        ensures !OccursAt(s[..i], sep, k)
      {
        if k + |sep| <= i {
          assert !OccursAt(s, sep, k);
          SliceOfSlice(s, 0, i, k, |sep|);
          assert s[..i] == s[0..i];
        }
      }
  }

  /** A string that starts with `sep` splits into an empty first piece and a second piece
      that runs from after the opening `sep` up to the next occurrence of `sep`
      (or to the end when there is none). */
  lemma SplitAfterLeadingSep(s: string, sep: string)
    requires sep != [] && StartsWith(s, sep)
    ensures |Split(s, sep)| >= 2 && Split(s, sep)[0] == ""
    ensures var tail := s[|sep|..];
      Split(s, sep)[1] == match Find(tail, sep, 0) case Some(j) => tail[..j] case None => tail
  {
  }
}
