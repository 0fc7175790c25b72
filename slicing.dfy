/** Fixed-size windows over a sequence that overlap by a fixed amount: the cut made by the
    ingestion splitter (ingestion-batch/batch/processor.py), and, with no overlap, the grouping
    of ranked passages made by the answer synthesizer (search-api/api/llm.py). */
module Slicing {
  import opened Text

  /** The windows of `s`: the first `size` elements, then the windows of what follows the first
      `size - overlap` elements, until a window reaches the end of `s`. */
  function Windows<T>(s: seq<T>, size: nat, overlap: nat): seq<seq<T>>
    requires overlap < size
    decreases |s|
  {
    if |s| == 0 then []
    else if |s| <= size then [s]
    else [s[..size]] + Windows(s[size - overlap..], size, overlap)
  }

  /** How many windows there are: none for an empty sequence, one when it fits in a window,
      and otherwise the ceiling of (|s| - overlap) / (size - overlap). */
  lemma {:induction false} WindowsCount<T>(s: seq<T>, size: nat, overlap: nat)
    requires overlap < size
    ensures |s| == 0 ==> Windows(s, size, overlap) == []
    ensures 0 < |s| <= size ==> Windows(s, size, overlap) == [s]
    ensures 0 < |s| <= overlap ==> |Windows(s, size, overlap)| == 1
    ensures |s| > overlap ==> |Windows(s, size, overlap)| == CeilDiv(|s| - overlap, size - overlap)
    decreases |s|
  {
    var step := size - overlap;
    if |s| > size {
      WindowsCount(s[step..], size, overlap);
      CeilDivStep(|s| - step - overlap, step);
    } else if |s| > overlap {
      assert CeilDiv(|s| - overlap, step) == 1;
    }
  }

  /** Window k starts at k * (size - overlap) and is the slice of `size` elements from there,
      clipped at the end of `s`. */
  lemma WindowAt<T>(s: seq<T>, size: nat, overlap: nat, k: nat)
    requires overlap < size
    requires k < |Windows(s, size, overlap)|
    ensures k * (size - overlap) < |s|
    ensures Windows(s, size, overlap)[k] == Slice(s, k * (size - overlap), k * (size - overlap) + size)
  {
    WindowAtOffset(s, size, overlap, k);
    OffsetIsProduct(k, size - overlap);
  }

  /** `k` steps of length `step`, counted one step at a time. */
  function Offset(k: nat, step: nat): nat {
    if k == 0 then 0 else Offset(k - 1, step) + step
  }

  lemma {:induction false} OffsetIsProduct(k: nat, step: nat)
    ensures Offset(k, step) == k * step
  {
    if k > 0 {
      OffsetIsProduct(k - 1, step);
    }
  }

  lemma {:induction false} WindowAtOffset<T>(s: seq<T>, size: nat, overlap: nat, k: nat)
    requires overlap < size
    requires k < |Windows(s, size, overlap)|
    ensures Offset(k, size - overlap) < |s|
    ensures Windows(s, size, overlap)[k] == Slice(s, Offset(k, size - overlap), Offset(k, size - overlap) + size)
    decreases |s|
  {
    var step := size - overlap;
    if k > 0 {
      var rest := s[step..];
      WindowAtOffset(rest, size, overlap, k - 1);
      var a := Offset(k - 1, step);
      SliceShift(s, step, a, a + size);
      assert Windows(s, size, overlap)[k] == Windows(rest, size, overlap)[k - 1];
    }
  }

  /** Every window but the last holds exactly `size` elements. */
  lemma {:induction false} WindowsFull<T>(s: seq<T>, size: nat, overlap: nat, k: nat)
    requires overlap < size
    requires k + 1 < |Windows(s, size, overlap)|
    ensures |Windows(s, size, overlap)[k]| == size
    decreases |s|
  {
    if k > 0 {
      WindowsFull(s[size - overlap..], size, overlap, k - 1);
    }
  }

  /** The last window is non-empty, no longer than `size`, and is the whole rest of `s` from
      its start, so it ends exactly at the end of `s`. */
  lemma WindowsLast<T>(s: seq<T>, size: nat, overlap: nat)
    requires overlap < size
    requires |s| > 0
    ensures var w := Windows(s, size, overlap);
      && |w| > 0
      && 0 < |w[|w| - 1]| <= size
      && (|w| - 1) * (size - overlap) + |w[|w| - 1]| == |s|
      && w[|w| - 1] == s[(|w| - 1) * (size - overlap)..]
  {
    WindowsLastOffset(s, size, overlap);
    OffsetIsProduct(|Windows(s, size, overlap)| - 1, size - overlap);
  }

  lemma {:induction false} WindowsLastOffset<T>(s: seq<T>, size: nat, overlap: nat)
    requires overlap < size
    requires |s| > 0
    ensures var w := Windows(s, size, overlap);
      && |w| > 0
      && 0 < |w[|w| - 1]| <= size
      && Offset(|w| - 1, size - overlap) + |w[|w| - 1]| == |s|
      && w[|w| - 1] == s[Offset(|w| - 1, size - overlap)..]
    decreases |s|
  {
    var step := size - overlap;
    if |s| > size {
      var rest := s[step..];
      WindowsLastOffset(rest, size, overlap);
      var w' := Windows(rest, size, overlap);
      var w := Windows(s, size, overlap);
      assert w == [s[..size]] + w';
      assert |w| - 1 == |w'| && w[|w| - 1] == w'[|w'| - 1];
      assert Offset(|w| - 1, step) == Offset(|w'| - 1, step) + step;
    }
  }

  /** Consecutive windows share exactly `overlap` elements: the tail of window k after its first
      `size - overlap` elements is the head of window k + 1. */
  lemma {:induction false} WindowsOverlap<T>(s: seq<T>, size: nat, overlap: nat, k: nat)
    requires overlap < size
    requires k + 1 < |Windows(s, size, overlap)|
    ensures |Windows(s, size, overlap)[k]| == size
    ensures overlap <= |Windows(s, size, overlap)[k + 1]|
    ensures Windows(s, size, overlap)[k][size - overlap..] == Windows(s, size, overlap)[k + 1][..overlap]
    decreases |s|
  {
    var step := size - overlap;
    var rest := s[step..];
    if k > 0 {
      WindowsOverlap(rest, size, overlap, k - 1);
    } else {
      assert |rest| > overlap;
      var w' := Windows(rest, size, overlap);
      assert w'[0] == if |rest| <= size then rest else rest[..size];
    }
  }

  /** The elements a later window adds to what came before: all but its first `overlap`. */
  function Tails<T>(cs: seq<seq<T>>, overlap: nat): seq<T>
    decreases |cs|
  {
    if |cs| == 0 then [] else Drop(cs[0], overlap) + Tails(cs[1..], overlap)
  }

  /** The first window followed by every later window without its first `overlap` elements. */
  function Reassemble<T>(cs: seq<seq<T>>, overlap: nat): seq<T> {
    if |cs| == 0 then [] else cs[0] + Tails(cs[1..], overlap)
  }

  /** Reassembling the windows gives back the sequence they were cut from. */
  lemma {:induction false} WindowsReassemble<T>(s: seq<T>, size: nat, overlap: nat)
    requires overlap < size
    ensures Reassemble(Windows(s, size, overlap), overlap) == s
    decreases |s|
  {
    if |s| > size {
      var rest := s[size - overlap..];
      var w' := Windows(rest, size, overlap);
      WindowsReassemble(rest, size, overlap);
      WindowsFirst(rest, size, overlap);
      DropFront(w'[0], Tails(w'[1..], overlap), rest, overlap);
      assert rest[overlap..] == s[size..];
      assert Windows(s, size, overlap)[1..] == w';
    }
  }

  /** The first window of a sequence longer than `overlap` holds at least `overlap` elements. */
  lemma WindowsFirst<T>(s: seq<T>, size: nat, overlap: nat)
    requires overlap < size && |s| > overlap
    ensures |Windows(s, size, overlap)| > 0
    ensures Reassemble(Windows(s, size, overlap), overlap) ==
      Windows(s, size, overlap)[0] + Tails(Windows(s, size, overlap)[1..], overlap)
    ensures |Windows(s, size, overlap)[0]| >= overlap
  {
  }

  lemma DropFront<T>(a: seq<T>, b: seq<T>, r: seq<T>, n: nat)
    requires a + b == r && n <= |a|
    ensures Drop(a, n) + b == r[n..]
  {
    assert a[n..] + b == (a + b)[n..];
  }

  /** With no overlap, reassembling is plain concatenation. */
  lemma {:induction false} ReassembleNoOverlap<T>(cs: seq<seq<T>>)
    ensures Reassemble(cs, 0) == Flatten(cs)
  {
    if |cs| > 0 {
      TailsNoOverlap(cs[1..]);
    }
  }

  lemma {:induction false} TailsNoOverlap<T>(cs: seq<seq<T>>)
    ensures Tails(cs, 0) == Flatten(cs)
    decreases |cs|
  {
    if |cs| > 0 {
      TailsNoOverlap(cs[1..]);
    }
  }
}
