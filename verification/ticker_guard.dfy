/** The check made on the ticker before anything is fetched: a ticker that
    is empty once Python's `str.strip()` has removed surrounding whitespace
    is rejected. */
module TickerGuard {

  /** Python's `str.isspace()` for one character: the ASCII whitespace and
      separator controls, NEL, NO-BREAK SPACE and the Unicode space
      separators. */
  predicate IsSpace(c: char) {
    var n := c as int;
    (0x09 <= n <= 0x0D) || (0x1C <= n <= 0x20) || n == 0x85 || n == 0xA0
    || n == 0x1680 || (0x2000 <= n <= 0x200A) || n == 0x2028 || n == 0x2029
    || n == 0x202F || n == 0x205F || n == 0x3000
  }

  predicate AllSpace(s: string) {
    forall i :: 0 <= i < |s| ==> IsSpace(s[i])
  }

  /** `str.lstrip()`: the longest suffix of `s` that does not start with
      whitespace; everything dropped is whitespace. */
  function StripLeft(s: string): (r: string)
    ensures |r| <= |s| && r == s[|s| - |r|..]
    ensures forall i :: 0 <= i < |s| - |r| ==> IsSpace(s[i])
    ensures r == [] || !IsSpace(r[0])
    decreases |s|
  {
    if |s| > 0 && IsSpace(s[0]) then StripLeft(s[1..]) else s
  }

  /** `str.rstrip()`: the longest prefix of `s` that does not end with
      whitespace; everything dropped is whitespace. */
  function StripRight(s: string): (r: string)
    ensures |r| <= |s| && r == s[..|r|]
    ensures forall i :: |r| <= i < |s| ==> IsSpace(s[i])
    ensures r == [] || !IsSpace(r[|r| - 1])
    decreases |s|
  {
    if |s| > 0 && IsSpace(s[|s| - 1]) then StripRight(s[..|s| - 1]) else s
  }

  /** `str.strip()`. */
  function Strip(s: string): (r: string)
    ensures r == [] || (!IsSpace(r[0]) && !IsSpace(r[|r| - 1]))
  {
    StripRight(StripLeft(s))
  }

  /** What `strip` removes: `s` is whitespace, then the stripped text, then
      whitespace. */
  predicate Trims(s: string, i: nat, j: nat) {
    i <= j <= |s| && AllSpace(s[..i]) && AllSpace(s[j..])
  }

  lemma StripIsTrimmedSlice(s: string)
    ensures exists i: nat, j: nat :: Trims(s, i, j) && Strip(s) == s[i..j]
  {
    var l := StripLeft(s);
    var r := StripRight(l);
    var i := |s| - |l|;
    var j := i + |r|;
    assert r == s[i..j];
    assert AllSpace(s[j..]) by {
      forall k | 0 <= k < |s| - j
        ensures IsSpace(s[j..][k])
      {
        assert s[j..][k] == l[|r| + k];
      }
    }
    assert Trims(s, i, j);
  }

  /** `not ticker.strip()`: the guard that selects the validation error. */
  predicate IsBlank(ticker: string) {
    Strip(ticker) == []
  }

  /** A ticker is rejected exactly when every character is whitespace
      (the empty ticker included). */
  lemma {:induction false} BlankIffAllSpace(s: string)
    ensures IsBlank(s) <==> AllSpace(s)
  {
    var l := StripLeft(s);
    if l == [] {
      assert AllSpace(s);
    } else {
      assert !IsSpace(l[0]);
      assert s[|s| - |l|] == l[0];
    }
  }

  /** Stripping twice changes nothing more. */
  lemma {:induction false} StripIdempotent(s: string)
    ensures Strip(Strip(s)) == Strip(s)
  {
    var t := Strip(s);
    if t != [] {
      assert StripLeft(t) == t;
      assert StripRight(t) == t;
    }
  }
}
