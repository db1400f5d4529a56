/**
 Python's character-trimming string methods: `str.strip()` (whitespace),
 `str.rstrip('/')` and `str.strip('/')`, as used by the loader to build
 collection URLs and to normalise names.
 */
module Text {

  /** The characters for which Python's `str.isspace()` holds. */
  predicate IsSpace(c: char) {
    var n := c as int;
    || 0x09 <= n <= 0x0D
    || 0x1C <= n <= 0x20
    || n == 0x85 || n == 0xA0 || n == 0x1680
    || 0x2000 <= n <= 0x200A
    || n == 0x2028 || n == 0x2029 || n == 0x202F || n == 0x205F || n == 0x3000
  }

  predicate IsSlash(c: char) {
    c == '/'
  }

  /** `s.rstrip(chars)`: the longest prefix of `s` not ending in a dropped character. */
  function TrimEnd(s: string, drop: char -> bool): (r: string)
    ensures r <= s
    ensures r == [] || !drop(r[|r| - 1])
    ensures forall i :: |r| <= i < |s| ==> drop(s[i])
  {
    if s != [] && drop(s[|s| - 1]) then TrimEnd(s[..|s| - 1], drop) else s
  }

  /** `s.lstrip(chars)`: the longest suffix of `s` not starting with a dropped character. */
  function TrimStart(s: string, drop: char -> bool): (r: string)
    ensures |r| <= |s| && r == s[|s| - |r|..]
    ensures r == [] || !drop(r[0])
    ensures forall i :: 0 <= i < |s| - |r| ==> drop(s[i])
  {
    if s != [] && drop(s[0]) then TrimStart(s[1..], drop) else s
  }

  /** `s.strip(chars)`: both ends trimmed. */
  function Trim(s: string, drop: char -> bool): (r: string)
  {
    TrimStart(TrimEnd(s, drop), drop)
  }

  /** `s.strip()` with no argument: surrounding whitespace removed. */
  function Strip(s: string): (r: string)
  {
    Trim(s, IsSpace)
  }

  /** The result of a trim is the infix `s[lo..hi]` of the input that starts
      and ends with a kept character, cut only at dropped characters. */
  lemma TrimInfix(s: string, drop: char -> bool) returns (lo: nat, hi: nat)
    ensures lo <= hi <= |s| && Trim(s, drop) == s[lo..hi]
    ensures forall i :: 0 <= i < lo ==> drop(s[i])
    ensures forall i :: hi <= i < |s| ==> drop(s[i])
    ensures lo < hi ==> !drop(s[lo]) && !drop(s[hi - 1])
  {
    var e := TrimEnd(s, drop);
    var r := TrimStart(e, drop);
    lo, hi := |e| - |r|, |e|;
    assert e == s[..hi];
    assert r == e[lo..];
    assert r == s[lo..hi];
    if lo < hi {
      assert r[|r| - 1] == e[|e| - 1];
    }
  }

  /** A string of dropped characters only trims to the empty string. */
  lemma TrimAllDropped(s: string, drop: char -> bool)
    requires forall i :: 0 <= i < |s| ==> drop(s[i])
    ensures Trim(s, drop) == []
  {
    var lo, hi := TrimInfix(s, drop);
  }

  /** Trimming is idempotent: a trimmed string has nothing left to trim. */
  lemma TrimIdempotent(s: string, drop: char -> bool)
    ensures Trim(Trim(s, drop), drop) == Trim(s, drop)
  {
    var r := Trim(s, drop);
    TrimEndNoop(r, drop);
    TrimStartNoop(r, drop);
  }

  lemma TrimEndNoop(s: string, drop: char -> bool)
    requires s == [] || !drop(s[|s| - 1])
    ensures TrimEnd(s, drop) == s
  {
  }

  lemma TrimStartNoop(s: string, drop: char -> bool)
    requires s == [] || !drop(s[0])
    ensures TrimStart(s, drop) == s
  {
  }

  /** Appending dropped characters does not change `rstrip`. */
  lemma {:induction false} TrimEndAppend(s: string, t: string, drop: char -> bool)
    requires forall i :: 0 <= i < |t| ==> drop(t[i])
    ensures TrimEnd(s + t, drop) == TrimEnd(s, drop)
    decreases |t|
  {
    if t != [] {
      var t' := t[..|t| - 1];
      assert (s + t)[..|s + t| - 1] == s + t';
      TrimEndAppend(s, t', drop);
    } else {
      assert s + t == s;
    }
  }

  /** Prepending dropped characters does not change `lstrip`. */
  lemma {:induction false} TrimStartPrepend(t: string, s: string, drop: char -> bool)
    requires forall i :: 0 <= i < |t| ==> drop(t[i])
    ensures TrimStart(t + s, drop) == TrimStart(s, drop)
    decreases |t|
  {
    if t != [] {
      assert (t + s)[1..] == t[1..] + s;
      TrimStartPrepend(t[1..], s, drop);
    } else {
      assert t + s == s;
    }
  }
}
