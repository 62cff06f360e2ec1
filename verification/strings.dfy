/** The Python string operations the core relies on: `sep.join(parts)`,
    splitting on one character, `str.strip()`, `str.lower()` and
    `str.endswith`, each with the facts the rest of the model needs. */
module Strings {

  /** `sep.join(parts)`. */
  function Join(parts: seq<string>, sep: string): string
  {
    if |parts| == 0 then ""
    else if |parts| == 1 then parts[0]
    else parts[0] + sep + Join(parts[1..], sep)
  }

  /** `s.split(c)` for a one-character separator: the pieces between the
      occurrences of `c`, always at least one. */
  function Split(s: string, c: char): (r: seq<string>)
    ensures |r| >= 1
    decreases |s|
  {
    if s == [] then [""]
    else if s[0] == c then [""] + Split(s[1..], c)
    else
      var rest := Split(s[1..], c);
      [[s[0]] + rest[0]] + rest[1..]
  }

  lemma {:induction false} SplitWithoutSeparator(p: string, c: char)
    requires c !in p
    ensures Split(p, c) == [p]
    decreases |p|
  {
    if p != [] {
      SplitWithoutSeparator(p[1..], c);
      assert [p[0]] + p[1..] == p;
    }
  }

  lemma {:induction false} SplitAfterPiece(p: string, c: char, t: string)
    requires c !in p
    ensures Split(p + [c] + t, c) == [p] + Split(t, c)
    decreases |p|
  {
    if p == [] {
      assert p + [c] + t == [c] + t;
      assert ([c] + t)[1..] == t;
    } else {
      var s := p + [c] + t;
      assert s[0] == p[0];
      assert s[1..] == p[1..] + [c] + t;
      SplitAfterPiece(p[1..], c, t);
      assert [p[0]] + p[1..] == p;
    }
  }

  /** The first piece of a split is the text up to the first separator. */
  lemma {:induction false} SplitHead(s: string, c: char)
    ensures StartsWith(s, Split(s, c)[0])
    ensures c !in Split(s, c)[0]
    decreases |s|
  {
    if s != [] && s[0] != c {
      SplitHead(s[1..], c);
    }
  }

  /** Joining on a one-character separator that no part contains is undone
      by splitting on it: the parts come back, in order and unchanged. */
  lemma {:induction false} SplitJoin(parts: seq<string>, c: char)
    requires |parts| >= 1
    requires forall i :: 0 <= i < |parts| ==> c !in parts[i]
    ensures Split(Join(parts, [c]), c) == parts
  {
    if |parts| == 1 {
      SplitWithoutSeparator(parts[0], c);
    } else {
      SplitJoin(parts[1..], c);
      SplitAfterPiece(parts[0], c, Join(parts[1..], [c]));
      assert [parts[0]] + parts[1..] == parts;
    }
  }

  /** Where the `i`-th part starts in `Join(parts, sep)`. */
  function Offset(parts: seq<string>, sep: string, i: nat): nat
    requires i <= |parts|
  {
    if i == 0 then 0 else |parts[0]| + |sep| + Offset(parts[1..], sep, i - 1)
  }

  /** Every part stands verbatim in the joined string, at its offset. */
  lemma {:induction false} JoinPartAt(parts: seq<string>, sep: string, i: nat)
    requires i < |parts|
    ensures OccursAt(Join(parts, sep), parts[i], Offset(parts, sep, i))
  {
    if |parts| == 1 {
      assert parts[0][0..|parts[0]|] == parts[0];
    } else {
      var j := Join(parts[1..], sep);
      JoinHead(parts, sep);
      if i == 0 {
        assert parts[0][0..|parts[0]|] == parts[0];
        OccursInContext([], parts[0], sep + j, parts[0], 0);
        assert [] + parts[0] + (sep + j) == Join(parts, sep);
      } else {
        JoinPartAt(parts[1..], sep, i - 1);
        assert parts[1..][i - 1] == parts[i];
        var o := Offset(parts[1..], sep, i - 1);
        assert Offset(parts, sep, i) == |parts[0] + sep| + o;
        OccursInContext(parts[0] + sep, j, [], parts[i], o);
      }
    }
  }

  /** Between neighbouring parts the joined string holds exactly the
      separator, and the next part starts right after it: the parts keep
      their order. */
  lemma {:induction false} JoinSeparatorAt(parts: seq<string>, sep: string, i: nat)
    requires i + 1 < |parts|
    ensures Offset(parts, sep, i) + |parts[i]| + |sep| == Offset(parts, sep, i + 1)
    ensures OccursAt(Join(parts, sep), sep, Offset(parts, sep, i) + |parts[i]|)
  {
    var j := Join(parts[1..], sep);
    JoinHead(parts, sep);
    if i == 0 {
      assert sep[0..|sep|] == sep;
      OccursInContext(parts[0], sep, j, sep, 0);
    } else {
      JoinSeparatorAt(parts[1..], sep, i - 1);
      assert parts[1..][i - 1] == parts[i];
      var o := Offset(parts[1..], sep, i - 1);
      assert Offset(parts, sep, i) + |parts[i]| == |parts[0] + sep| + (o + |parts[i]|);
      OccursInContext(parts[0] + sep, j, [], sep, o + |parts[i]|);
    }
  }

  /** A join of two or more parts is the first part, the separator, and the
      join of the rest. */
  lemma JoinHead(parts: seq<string>, sep: string)
    requires |parts| > 1
    ensures Join(parts, sep) == parts[0] + sep + Join(parts[1..], sep)
    ensures Join(parts, sep) == parts[0] + sep + Join(parts[1..], sep) + []
  {
  }

  /** What stands in `m` at some index stands in `a + m + c` at that index
      shifted by `|a|`. */
  lemma OccursInContext(a: string, m: string, c: string, t: string, at: nat)
    requires OccursAt(m, t, at)
    ensures OccursAt(a + m + c, t, |a| + at)
  {
    SliceInMiddle(a, m, c, at, at + |t|);
  }

  /** A slice of the middle part of `a + m + c`, shifted by `|a|`, is the
      same slice of `m`. */
  lemma SliceInMiddle(a: string, m: string, c: string, lo: nat, hi: nat)
    requires lo <= hi <= |m|
    ensures |a| + hi <= |a + m + c|
    ensures (a + m + c)[|a| + lo..|a| + hi] == m[lo..hi]
  {
    assert (a + m + c)[|a|..|a| + |m|] == m;
  }

  /** `a + m + c` starts with `a` and ends with `c`. */
  lemma FramedBy(a: string, m: string, c: string)
    ensures StartsWith(a + m + c, a)
    ensures EndsWith(a + m + c, c)
  {
    assert (a + m + c)[..|a|] == a;
    assert (a + m + c)[|a + m|..] == c;
  }

  /** A text ending with `t` ends with every ending of `t`. */
  lemma EndsWithTransitive(s: string, t: string, u: string)
    requires EndsWith(s, t) && EndsWith(t, u)
    ensures EndsWith(s, u)
  {
    assert s[|s| - |u|..] == s[|s| - |t|..][|t| - |u|..];
  }

  /** In `a + b + c + d + e`: the text starts with `a` and ends with `e`,
      and `b`, `c` and `d` stand at the positions the lengths before them
      give. */
  lemma FivePartsAt(a: string, b: string, c: string, d: string, e: string)
    ensures StartsWith(a + b + c + d + e, a)
    ensures EndsWith(a + b + c + d + e, e)
    ensures OccursAt(a + b + c + d + e, b, |a|)
    ensures OccursAt(a + b + c + d + e, c, |a| + |b|)
    ensures OccursAt(a + b + c + d + e, d, |a| + |b| + |c|)
  {
    var s := a + b + c + d + e;
    assert s == (a + b + c + d) + e;
    assert (a + b + c + d)[|a|..|a| + |b|] == b;
    assert (a + b + c + d)[|a| + |b|..|a| + |b| + |c|] == c;
    FramedBy(a, b + c + d, e);
    assert a + (b + c + d) + e == s;
  }

  /** `intro + sep.join(parts) + tail`: parts joined inside a fixed frame. */
  function Framed(intro: string, parts: seq<string>, sep: string, tail: string): string
  {
    intro + Join(parts, sep) + tail
  }

  /** Where part `i` starts in a framed join. */
  function PartPosition(intro: string, parts: seq<string>, sep: string, i: nat): nat
    requires i <= |parts|
  {
    |intro| + Offset(parts, sep, i)
  }

  /** Where part `i` ends in a framed join. */
  function PartEnd(intro: string, parts: seq<string>, sep: string, i: nat): nat
    requires i < |parts|
  {
    PartPosition(intro, parts, sep, i) + |parts[i]|
  }

  /** In a framed join part `i` stands verbatim at its position. */
  lemma JoinedPartInFrame(intro: string, parts: seq<string>, sep: string, tail: string, i: nat)
    requires i < |parts|
    ensures OccursAt(Framed(intro, parts, sep, tail), parts[i], PartPosition(intro, parts, sep, i))
  {
    JoinPartAt(parts, sep, i);
    OccursInContext(intro, Join(parts, sep), tail, parts[i], Offset(parts, sep, i));
  }

  /** In a framed join exactly the separator lies between part `i` and
      part `i + 1`, which starts right after it. */
  lemma JoinedSeparatorInFrame(intro: string, parts: seq<string>, sep: string, tail: string, i: nat)
    requires i + 1 < |parts|
    ensures PartEnd(intro, parts, sep, i) + |sep| == PartPosition(intro, parts, sep, i + 1)
    ensures OccursAt(Framed(intro, parts, sep, tail), sep, PartEnd(intro, parts, sep, i))
  {
    JoinSeparatorAt(parts, sep, i);
    var e := Offset(parts, sep, i) + |parts[i]|;
    OccursInContext(intro, Join(parts, sep), tail, sep, e);
    assert PartEnd(intro, parts, sep, i) == |intro| + e;
  }

  /** A framed join starts with its introduction and ends with its tail. */
  lemma FramedStartsAndEnds(intro: string, parts: seq<string>, sep: string, tail: string)
    ensures StartsWith(Framed(intro, parts, sep, tail), intro)
    ensures EndsWith(Framed(intro, parts, sep, tail), tail)
  {
    FramedBy(intro, Join(parts, sep), tail);
  }

  /** Python's `str.isspace` for one character: the Unicode white space
      characters (bidirectional class WS, B or S, or category Zs). */
  predicate IsSpace(c: char)
  {
    var n := c as int;
    (0x09 <= n <= 0x0D) || (0x1C <= n <= 0x20) || n == 0x85 || n == 0xA0
    || n == 0x1680 || (0x2000 <= n <= 0x200A) || n == 0x2028 || n == 0x2029
    || n == 0x202F || n == 0x205F || n == 0x3000
  }

  predicate AllSpace(s: string)
  {
    forall k :: 0 <= k < |s| ==> IsSpace(s[k])
  }

  function TrimStart(s: string): (r: string)
    ensures |r| <= |s| && r == s[|s| - |r|..]
    ensures AllSpace(s[..|s| - |r|])
    ensures r != [] ==> !IsSpace(r[0])
  {
    if s != [] && IsSpace(s[0]) then TrimStart(s[1..]) else s
  }

  function TrimEnd(s: string): (r: string)
    ensures |r| <= |s| && r == s[..|r|]
    ensures AllSpace(s[|r|..])
    ensures r != [] ==> !IsSpace(r[|r| - 1])
  {
    if s != [] && IsSpace(s[|s| - 1]) then TrimEnd(s[..|s| - 1]) else s
  }

  /** Where the text `s.strip()` keeps begins: right after the leading
      white space. */
  function StripStart(s: string): (i: nat)
    ensures i <= |s|
  {
    |s| - |TrimStart(s)|
  }

  /** `s.strip()`: white space trimmed from both ends. What it keeps is no
      longer than `s` and neither starts nor ends with white space. */
  function Strip(s: string): (r: string)
    ensures |r| <= |s|
    ensures r != [] ==> !IsSpace(r[0]) && !IsSpace(r[|r| - 1])
  {
    TrimEnd(TrimStart(s))
  }

  /** `s.strip()` is an infix of `s`: it starts where the leading white
      space ends, and everything cut away on either side is white space. */
  lemma {:induction false} StripCutsOnlySpace(s: string)
    ensures StripStart(s) + |Strip(s)| <= |s| && Strip(s) == s[StripStart(s)..StripStart(s) + |Strip(s)|]
    ensures AllSpace(s[..StripStart(s)]) && AllSpace(s[StripStart(s) + |Strip(s)|..])
  {
    StripIsInfix(s);
    StripCutsEnds(s);
  }

  lemma {:induction false} StripIsInfix(s: string)
    ensures StripStart(s) + |Strip(s)| <= |s| && Strip(s) == s[StripStart(s)..StripStart(s) + |Strip(s)|]
  {
    var t := TrimStart(s);
    var r := TrimEnd(t);
    var i := |s| - |t|;
    assert r == Strip(s) && i == StripStart(s);
    InfixOfSuffix(s, t, r, i);
  }

  lemma {:induction false} StripCutsEnds(s: string)
    ensures AllSpace(s[..StripStart(s)]) && AllSpace(s[StripStart(s) + |Strip(s)|..])
  {
    var t := TrimStart(s);
    InfixOfSuffix(s, t, TrimEnd(t), |s| - |t|);
  }

  /** `r`, a prefix of the suffix `t` of `s` from `i` on, stands in `s` at
      `i`, and what `t` has after `r` is what `s` has after it. */
  lemma InfixOfSuffix(s: string, t: string, r: string, i: nat)
    requires i <= |s| && t == s[i..] && |r| <= |t| && r == t[..|r|]
    ensures i + |r| <= |s| && r == s[i..i + |r|] && t[|r|..] == s[i + |r|..]
  {
  }

  /** `s.strip()` is empty exactly when `s` is all white space. */
  lemma StripEmptyIffAllSpace(s: string)
    ensures Strip(s) == "" <==> AllSpace(s)
  {
    var r := Strip(s);
    StripCutsOnlySpace(s);
    var i := StripStart(s);
    if r == "" {
      forall k | 0 <= k < |s| ensures IsSpace(s[k]) {
        assert s[..i][k] == s[k];
      }
    } else {
      assert s[i] == r[0];
    }
  }

  /** `s.strip()` leaves `s` unchanged exactly when `s` is empty or starts
      and ends with a character that is not white space. */
  lemma StripUnchangedIff(s: string)
    ensures Strip(s) == s <==> s == [] || (!IsSpace(s[0]) && !IsSpace(s[|s| - 1]))
  {
    StripCutsOnlySpace(s);
    if s != [] && !IsSpace(s[0]) && !IsSpace(s[|s| - 1]) {
      assert TrimStart(s) == s;
      assert TrimEnd(s) == s;
    }
  }

  /** `s.lower()` on the ASCII letters; other characters are kept. */
  function Lower(s: string): (r: string)
    ensures |r| == |s|
    ensures forall k :: 0 <= k < |s| ==> r[k] == LowerChar(s[k])
  {
    if s == [] then [] else [LowerChar(s[0])] + Lower(s[1..])
  }

  function LowerChar(c: char): char
  {
    if 'A' <= c <= 'Z' then (c as int + 32) as char else c
  }

  /** `s.endswith(suffix)`. */
  predicate EndsWith(s: string, suffix: string)
  {
    |suffix| <= |s| && s[|s| - |suffix|..] == suffix
  }

  /** `s.replace(pat, rep)` for a non-empty `pat`: the occurrences of
      `pat` are found from left to right, without overlapping, and each is
      replaced by `rep`. */
  function Replace(s: string, pat: string, rep: string): string
    requires pat != []
    decreases |s|
  {
    if |s| < |pat| then s
    else if s[..|pat|] == pat then rep + Replace(s[|pat|..], pat, rep)
    else [s[0]] + Replace(s[1..], pat, rep)
  }

  /** Replacing one character: the head is replaced or kept, and the rest
      is replaced on its own. */
  lemma ReplaceCharHead(c: char, x: string, pat: char, rep: string)
    ensures Replace([c] + x, [pat], rep) == (if c == pat then rep else [c]) + Replace(x, [pat], rep)
  {
    assert ([c] + x)[..1] == [c] && ([c] + x)[1..] == x;
  }

  /** `s.startswith(prefix)`. */
  predicate StartsWith(s: string, prefix: string)
  {
    |prefix| <= |s| && s[..|prefix|] == prefix
  }

  /** `t` stands verbatim in `s` from index `at` on. */
  predicate OccursAt(s: string, t: string, at: nat)
  {
    at + |t| <= |s| && s[at..at + |t|] == t
  }

  /** `s.rfind(c)`: the last index holding `c`, or -1. */
  function LastIndexOf(s: string, c: char): (r: int)
    ensures -1 <= r < |s|
    ensures r >= 0 ==> s[r] == c
    ensures forall j :: r < j < |s| ==> s[j] != c
  {
    if s == [] then -1
    else if s[|s| - 1] == c then |s| - 1
    else LastIndexOf(s[..|s| - 1], c)
  }
}
