/**
 * The Python string operations the sidecar relies on: `str.strip()` with no
 * argument, `str.lower()` (ASCII letters only), `str.split(sep)` with an
 * explicit separator, and `sep.join(items)`.
 */
module Text {

  /** The code points that Python's `str.strip()` removes by default (`str.isspace`). */
  predicate IsSpace(c: char) {
    var n := c as int;
    (0x09 <= n <= 0x0D) || (0x1C <= n <= 0x20) || n == 0x85 || n == 0xA0 || n == 0x1680
    || (0x2000 <= n <= 0x200A) || n == 0x2028 || n == 0x2029 || n == 0x202F || n == 0x205F
    || n == 0x3000
  }

  predicate AllSpace(s: string) {
    forall i :: 0 <= i < |s| ==> IsSpace(s[i])
  }

  /** Neither begins nor ends with whitespace (the empty string is trimmed). */
  predicate IsTrimmed(s: string) {
    s == [] || (!IsSpace(s[0]) && !IsSpace(s[|s| - 1]))
  }

  /** `s.lstrip()`: drops leading whitespace and nothing else. */
  function LStrip(s: string): (r: string)
    ensures |r| <= |s| && r == s[|s| - |r|..]
    ensures AllSpace(s[..|s| - |r|])
    ensures r == [] || !IsSpace(r[0])
    decreases |s|
  {
    if s != [] && IsSpace(s[0]) then
      var r := LStrip(s[1..]);
      assert s[..|s| - |r|] == [s[0]] + s[1..][..|s| - 1 - |r|];
      r
    else s
  }

  /** `s.rstrip()`: drops trailing whitespace and nothing else. */
  function RStrip(s: string): (r: string)
    ensures |r| <= |s| && r == s[..|r|]
    ensures AllSpace(s[|r|..])
    ensures r == [] || !IsSpace(r[|r| - 1])
    decreases |s|
  {
    if s != [] && IsSpace(s[|s| - 1]) then
      var r := RStrip(s[..|s| - 1]);
      assert s[|r|..] == s[..|s| - 1][|r|..] + [s[|s| - 1]];
      r
    else s
  }

  /** `r` is the piece of `s` starting at `lead`, with only whitespace before and after it. */
  predicate CutFrom(s: string, r: string, lead: int) {
    && 0 <= lead <= |s| - |r| && s[lead..lead + |r|] == r
    && AllSpace(s[..lead]) && AllSpace(s[lead + |r|..])
  }

  /** `s.strip()`: drops leading and trailing whitespace. */
  function Strip(s: string): (r: string)
    ensures IsTrimmed(r) && |r| <= |s|
  {
    RStrip(LStrip(s))
  }

  /** What `strip()` returns is a contiguous piece of its input with only whitespace around it. */
  lemma StripCut(s: string)
    ensures exists lead :: CutFrom(s, Strip(s), lead)
  {
    var l := LStrip(s);
    CutFromParts(s, l, RStrip(l));
    assert CutFrom(s, Strip(s), |s| - |l|);
  }

  /** Whitespace cut from the front of `s`, then from the back, leaves `r` cut from `s`. */
  lemma CutFromParts(s: string, l: string, r: string)
    requires |l| <= |s| && l == s[|s| - |l|..] && AllSpace(s[..|s| - |l|])
    requires |r| <= |l| && r == l[..|r|] && AllSpace(l[|r|..])
    ensures CutFrom(s, r, |s| - |l|)
  {
    var lead := |s| - |l|;
    assert s[lead..lead + |r|] == r;
    assert s[lead + |r|..] == l[|r|..];
  }

  lemma {:induction false} LStripOfSpaces(a: string, rest: string)
    requires AllSpace(a)
    requires rest == [] || !IsSpace(rest[0])
    ensures LStrip(a + rest) == rest
    decreases |a|
  {
    if a != [] {
      assert (a + rest)[1..] == a[1..] + rest;
      LStripOfSpaces(a[1..], rest);
    }
  }

  lemma {:induction false} RStripOfSpaces(rest: string, b: string)
    requires AllSpace(b)
    requires rest == [] || !IsSpace(rest[|rest| - 1])
    ensures RStrip(rest + b) == rest
    decreases |b|
  {
    if b != [] {
      assert (rest + b)[..|rest + b| - 1] == rest + b[..|b| - 1];
      RStripOfSpaces(rest, b[..|b| - 1]);
    }
  }

  /**
   * `Strip` is characterised without reference to how it is computed: whatever
   * whitespace surrounds a trimmed string, stripping gives that string back.
   */
  lemma StripUnique(a: string, t: string, b: string)
    requires AllSpace(a) && AllSpace(b) && IsTrimmed(t)
    ensures Strip(a + t + b) == t
  {
    if t == [] {
      assert a + t + b == a + b;
      assert AllSpace(a + b);
      LStripOfSpaces(a + b, []);
      assert a + b + [] == a + b;
    } else {
      assert a + t + b == a + (t + b);
      LStripOfSpaces(a, t + b);
      RStripOfSpaces(t, b);
    }
  }

  /** A trimmed string is its own strip. */
  lemma StripTrimmed(t: string)
    requires IsTrimmed(t)
    ensures Strip(t) == t
  {
    assert [] + t + [] == t;
    StripUnique([], t, []);
  }

  /** Stripping twice is stripping once. */
  lemma StripIdempotent(s: string)
    ensures Strip(Strip(s)) == Strip(s)
  {
    StripTrimmed(Strip(s));
  }

  function LowerChar(c: char): char {
    if 'A' <= c <= 'Z' then (c as int + 32) as char else c
  }

  /** `s.lower()`, restricted to the ASCII letters. */
  function Lower(s: string): (r: string)
    ensures |r| == |s|
    ensures forall i :: 0 <= i < |s| ==> r[i] == LowerChar(s[i])
  {
    if s == [] then [] else [LowerChar(s[0])] + Lower(s[1..])
  }

  /** No ASCII upper-case letter at any position. */
  predicate IsLower(s: string) {
    forall i :: 0 <= i < |s| ==> !('A' <= s[i] <= 'Z')
  }

  /** `IsLower` read through membership, which is how it is checked on a string literal. */
  lemma {:induction false} IsLowerByMembers(s: string)
    requires forall c :: c in s ==> !('A' <= c <= 'Z')
    ensures IsLower(s)
  {
    forall i | 0 <= i < |s| ensures !('A' <= s[i] <= 'Z') {
      assert s[i] in s;
    }
  }

  /** A lower-case string is left unchanged by `lower()`. */
  lemma LowerFixed(s: string)
    requires IsLower(s)
    ensures Lower(s) == s
  {
    forall i | 0 <= i < |s| ensures Lower(s)[i] == s[i] {
      assert LowerChar(s[i]) == s[i];
    }
  }

  /** Lower-casing leaves no upper-case letter, keeps the whitespace pattern and introduces no comma. */
  lemma LowerProperties(s: string)
    ensures IsLower(Lower(s))
    ensures IsTrimmed(s) ==> IsTrimmed(Lower(s))
    ensures ',' !in s ==> ',' !in Lower(s)
  {
    var r := Lower(s);
    if ',' in Lower(s) {
      var i :| 0 <= i < |r| && r[i] == ',';
      assert s[i] == ',';
    }
  }

  /** `s.split(sep)`: the pieces between the leftmost non-overlapping occurrences of `sep`. */
  function SplitOn(s: string, sep: string): (r: seq<string>)
    requires |sep| > 0
    ensures |r| >= 1
    ensures |r| == 1 ==> r[0] == s
    decreases |s|
  {
    if sep <= s then [""] + SplitOn(s[|sep|..], sep)
    else if s == [] then [""]
    else
      var rest := SplitOn(s[1..], sep);
      [[s[0]] + rest[0]] + rest[1..]
  }

  /** The summed length of the pieces. */
  function TotalLength(xs: seq<string>): nat {
    if xs == [] then 0 else |xs[0]| + TotalLength(xs[1..])
  }

  /** `sep.join(xs)`: every piece once, in order, with one separator between neighbours. */
  function Join(xs: seq<string>, sep: string): (r: string)
    ensures xs == [] ==> r == ""
    ensures xs != [] ==> |r| == TotalLength(xs) + (|xs| - 1) * |sep|
    decreases |xs|
  {
    if |xs| == 0 then "" else if |xs| == 1 then xs[0] else xs[0] + sep + Join(xs[1..], sep)
  }

  /** Prepending a character to the first piece prepends it to the join. */
  lemma JoinConsChar(c: char, ys: seq<string>, sep: string)
    requires |ys| >= 1
    ensures Join([[c] + ys[0]] + ys[1..], sep) == [c] + Join(ys, sep)
  {
    var r := [[c] + ys[0]] + ys[1..];
    if |ys| > 1 {
      assert r[1..] == ys[1..];
    }
  }

  /** An empty first piece puts the separator at the front of the join. */
  lemma JoinConsEmpty(ys: seq<string>, sep: string)
    requires |ys| >= 1
    ensures Join([""] + ys, sep) == sep + Join(ys, sep)
  {
    assert ([""] + ys)[1..] == ys;
  }

  /** Joining the pieces of a split with the same separator gives back the original string. */
  lemma {:induction false} JoinSplit(s: string, sep: string)
    requires |sep| > 0
    ensures Join(SplitOn(s, sep), sep) == s
    decreases |s|
  {
    if sep <= s {
      var tail := s[|sep|..];
      JoinSplit(tail, sep);
      assert SplitOn(s, sep) == [""] + SplitOn(tail, sep);
      JoinConsEmpty(SplitOn(tail, sep), sep);
      assert s == sep + tail;
    } else if s != [] {
      var tail := s[1..];
      JoinSplit(tail, sep);
      var ys := SplitOn(tail, sep);
      assert SplitOn(s, sep) == [[s[0]] + ys[0]] + ys[1..];
      JoinConsChar(s[0], ys, sep);
      assert s == [s[0]] + tail;
    }
  }

  /** A piece free of the separator's first character is split off whole. */
  lemma {:induction false} SplitFreePiece(x: string, sep: string, rest: string)
    requires |sep| > 0 && sep[0] !in x
    ensures SplitOn(x + sep + rest, sep) == [x] + SplitOn(rest, sep)
    ensures SplitOn(x, sep) == [x]
    decreases |x|
  {
    if x == [] {
      assert x + sep + rest == sep + rest;
      assert (sep + rest)[|sep|..] == rest;
      assert !(sep <= x);
    } else {
      var s := x + sep + rest;
      assert s[0] == x[0] && x[0] != sep[0];
      assert !(sep <= s);
      assert s[1..] == x[1..] + sep + rest;
      SplitFreePiece(x[1..], sep, rest);
      assert [x[0]] + x[1..] == x;
      assert !(sep <= x);
    }
  }

  /** Splitting a join gives back the pieces, provided no piece holds the separator's first character. */
  lemma {:induction false} SplitJoin(xs: seq<string>, sep: string)
    requires |sep| > 0 && |xs| >= 1
    requires forall i :: 0 <= i < |xs| ==> sep[0] !in xs[i]
    ensures SplitOn(Join(xs, sep), sep) == xs
    decreases |xs|
  {
    if |xs| == 1 {
      SplitFreePiece(xs[0], sep, "");
    } else {
      var tail := xs[1..];
      forall i | 0 <= i < |tail| ensures sep[0] !in tail[i] {
        assert tail[i] == xs[i + 1];
      }
      SplitJoin(tail, sep);
      assert Join(xs, sep) == xs[0] + sep + Join(tail, sep);
      SplitFreePiece(xs[0], sep, Join(tail, sep));
      HeadTail(xs);
    }
  }

  /** A character that is in neither the separator nor any piece is not in the join. */
  lemma {:induction false} JoinAvoids(xs: seq<string>, sep: string, c: char)
    requires c !in sep
    requires forall i :: 0 <= i < |xs| ==> c !in xs[i]
    ensures c !in Join(xs, sep)
    decreases |xs|
  {
    if |xs| > 1 {
      JoinAvoids(xs[1..], sep, c);
    }
  }

  lemma HeadTail<T>(xs: seq<T>)
    requires xs != []
    ensures [xs[0]] + xs[1..] == xs
  {
  }
}
