/** Sequence and string helpers shared by the model: Python-style slicing and `str.join`,
    flattening, ceiling division and infix search. */
module Text {
  function Min(a: int, b: int): int { if a <= b then a else b }

  /** The number of steps of length `b` needed to cover `a`: the ceiling of a / b. */
  function CeilDiv(a: nat, b: nat): nat
    requires b > 0
    decreases a
  {
    if a == 0 then 0 else if a <= b then 1 else 1 + CeilDiv(a - b, b)
  }

  /** CeilDiv is the ceiling of a / b: the least count of `b`-steps that reaches `a`. */
  lemma {:induction false} CeilDivIsCeiling(a: nat, b: nat)
    requires b > 0
    ensures CeilDiv(a, b) * b >= a
    ensures CeilDiv(a, b) == 0 || (CeilDiv(a, b) - 1) * b < a
    decreases a
  {
    if a > b {
      CeilDivIsCeiling(a - b, b);
      var c := CeilDiv(a - b, b);
      assert (c + 1) * b == c * b + b;
    }
  }

  lemma CeilDivStep(a: nat, b: nat)
    requires b > 0
    ensures CeilDiv(a + b, b) == CeilDiv(a, b) + 1
  {
  }

  /** Python's `s[lo:hi]` for non-negative bounds: both ends are clipped to the length, and
      an empty sequence results when `hi <= lo`. */
  function Slice<T>(s: seq<T>, lo: nat, hi: nat): (r: seq<T>)
    ensures |r| == if lo >= Min(hi, |s|) then 0 else Min(hi, |s|) - lo
    ensures forall i :: 0 <= i < |r| ==> r[i] == s[lo + i]
  {
    var h := Min(hi, |s|);
    s[Min(lo, h)..h]
  }

  lemma SliceShift<T>(s: seq<T>, d: nat, lo: nat, hi: nat)
    requires d <= |s|
    ensures Slice(s[d..], lo, hi) == Slice(s, lo + d, hi + d)
  {
  }

  /** Python's `c[n:]` for non-negative `n`. */
  function Drop<T>(c: seq<T>, n: nat): (r: seq<T>)
    ensures n <= |c| ==> r == c[n..]
    ensures n >= |c| ==> r == []
  {
    if n <= |c| then c[n..] else []
  }

  /** Python's `sep.join(parts)`. */
  function Join(sep: string, parts: seq<string>): string
    decreases |parts|
  {
    if |parts| == 0 then ""
    else if |parts| == 1 then parts[0]
    else parts[0] + sep + Join(sep, parts[1..])
  }

  function Flatten<T>(ss: seq<seq<T>>): seq<T>
    decreases |ss|
  {
    if |ss| == 0 then [] else ss[0] + Flatten(ss[1..])
  }

  /** `x` occurs as a contiguous piece of `s` (Python's `x in s` on strings). */
  predicate IsInfix<T(==)>(x: seq<T>, s: seq<T>) {
    exists k :: 0 <= k <= |s| && x <= s[k..]
  }

  lemma InfixOfConcat<T>(p: seq<T>, x: seq<T>, q: seq<T>)
    ensures IsInfix(x, p + x + q)
  {
    var s := p + x + q;
    assert x <= s[|p|..];
  }

  lemma InfixTransitive<T>(x: seq<T>, y: seq<T>, s: seq<T>)
    requires IsInfix(x, y) && IsInfix(y, s)
    ensures IsInfix(x, s)
  {
    var j :| 0 <= j <= |y| && x <= y[j..];
    var k :| 0 <= k <= |s| && y <= s[k..];
    assert x <= s[k + j..];
  }

  lemma InfixWiden<T>(x: seq<T>, p: seq<T>, s: seq<T>, q: seq<T>)
    requires IsInfix(x, s)
    ensures IsInfix(x, p + s + q)
  {
    InfixOfConcat(p, s, q);
    InfixTransitive(x, s, p + s + q);
  }

  /** A piece of `s` holds only characters of `s`. */
  lemma InfixMembers<T>(x: seq<T>, s: seq<T>, c: T)
    requires IsInfix(x, s) && c in x
    ensures c in s
  {
    var k :| 0 <= k <= |s| && x <= s[k..];
    var i :| 0 <= i < |x| && x[i] == c;
    assert s[k + i] == c;
  }

  /** Every part of a join appears in it as one piece. */
  lemma {:induction false} JoinHasPart(sep: string, parts: seq<string>, i: nat)
    requires i < |parts|
    ensures IsInfix(parts[i], Join(sep, parts))
    decreases |parts|
  {
    if |parts| == 1 {
      InfixOfConcat([], parts[0], []);
      assert [] + parts[0] + [] == parts[0];
    } else if i == 0 {
      InfixOfConcat([], parts[0], sep + Join(sep, parts[1..]));
      assert [] + parts[0] + (sep + Join(sep, parts[1..])) == Join(sep, parts);
    } else {
      JoinHasPart(sep, parts[1..], i - 1);
      InfixWiden(parts[i], parts[0] + sep, Join(sep, parts[1..]), []);
      assert parts[0] + sep + Join(sep, parts[1..]) + [] == Join(sep, parts);
    }
  }

  /** A character of a join comes from the separator or from one of the parts. */
  lemma {:induction false} JoinMembers(sep: string, parts: seq<string>, c: char)
    requires c in Join(sep, parts)
    ensures c in sep || exists i :: 0 <= i < |parts| && c in parts[i]
    decreases |parts|
  {
    if |parts| > 1 && c !in parts[0] && c !in sep {
      assert c in Join(sep, parts[1..]);
      JoinMembers(sep, parts[1..], c);
      var i :| 0 <= i < |parts[1..]| && c in parts[1..][i];
      assert c in parts[i + 1];
    }
  }

  /** Every piece of a flattened sequence, and every two adjacent pieces together, appear in it. */
  lemma FlattenHasPieces<T>(ss: seq<seq<T>>, i: nat)
    requires i < |ss|
    ensures IsInfix(ss[i], Flatten(ss))
    ensures i + 1 < |ss| ==> IsInfix(ss[i] + ss[i + 1], Flatten(ss))
  {
    var k := FlattenOffset(ss, i);
    assert ss[i] <= Flatten(ss)[k..];
    if i + 1 < |ss| {
      assert ss[i] + ss[i + 1] <= Flatten(ss)[k..];
    }
  }

  /** Where piece `i` starts in the flattened sequence: the rest of the flattened sequence from
      there is piece `i` followed by the flattened later pieces. */
  lemma {:induction false} FlattenOffset<T>(ss: seq<seq<T>>, i: nat) returns (k: nat)
    requires i < |ss|
    ensures k <= |Flatten(ss)|
    ensures Flatten(ss)[k..] == ss[i] + Flatten(ss[i + 1..])
    decreases i
  {
    if i == 0 {
      k := 0;
    } else {
      var k' := FlattenOffset(ss[1..], i - 1);
      assert ss[1..][i - 1] == ss[i] && ss[1..][i..] == ss[i + 1..];
      k := |ss[0]| + k';
      assert Flatten(ss)[k..] == Flatten(ss[1..])[k'..];
    }
  }

  /** An element of a flattened sequence comes from one of its pieces. */
  lemma {:induction false} FlattenMembers<T>(ss: seq<seq<T>>, c: T)
    requires c in Flatten(ss)
    ensures exists i :: 0 <= i < |ss| && c in ss[i]
    decreases |ss|
  {
    if c !in ss[0] {
      FlattenMembers(ss[1..], c);
      var i :| 0 <= i < |ss[1..]| && c in ss[1..][i];
      assert c in ss[i + 1];
    }
  }
}
