/** Copying words one at a time between overlapping places. */
module WordCopy {
  import opened Bits
  import opened Mfm
  import opened Blitter

  /** Memories of a copy that moves the word at `src + os[i]` to `dst + os[i]` in step i. */
  ghost predicate Copying(ms: seq<seq<bool>>, os: seq<int>, src: int, dst: int)
  {
    |ms| == |os| + 1 && forall i {:trigger CopyAt(ms, os, src, dst, i)} :: 0 <= i < |os| ==> CopyAt(ms, os, src, dst, i)
  }

  predicate CopyAt(ms: seq<seq<bool>>, os: seq<int>, src: int, dst: int, i: nat)
    requires |ms| == |os| + 1 && i < |os|
  {
    InMem(ms[i], src + os[i]) && InMem(ms[i], dst + os[i]) &&
    ms[i + 1] == Overwrite(ms[i], 8 * (dst + os[i]), WordAt(ms[i], 8 * (src + os[i])))
  }

  /** The words do not overlap each other, and the walk goes away from what it still has to read. */
  ghost predicate Away(os: seq<int>, src: int, dst: int)
  {
    (dst <= src && forall i, j :: 0 <= i < j < |os| ==> os[i] + 2 <= os[j]) ||
    (dst >= src && forall i, j :: 0 <= i < j < |os| ==> os[j] + 2 <= os[i])
  }

  /** Bit p lies in one of the first k destination words. */
  ghost predicate Touched(os: seq<int>, dst: int, k: nat, p: int)
    requires k <= |os|
  {
    exists i :: 0 <= i < k && Within(os[i], dst, p)
  }

  predicate Within(o: int, dst: int, p: int) { 8 * (dst + o) <= p < 8 * (dst + o) + 16 }

  /** The first k words have arrived and nothing else has changed. */
  ghost predicate Moved(ms: seq<seq<bool>>, os: seq<int>, src: int, dst: int, k: nat)
    requires k <= |os| && |ms| == |os| + 1
  {
    |ms[k]| == |ms[0]| &&
    (forall p {:trigger Touched(os, dst, k, p)} :: 0 <= p < |ms[0]| && !Touched(os, dst, k, p) ==> ms[k][p] == ms[0][p]) &&
    (forall i, b {:trigger Arrived(ms[0], ms[k], os[i], src, dst, b)} :: 0 <= i < k && 0 <= b < 16 ==>
       Arrived(ms[0], ms[k], os[i], src, dst, b))
  }

  /** Bit b of the word at offset o has been moved. */
  predicate Arrived(before: seq<bool>, after: seq<bool>, o: int, src: int, dst: int, b: int)
  {
    0 <= 8 * (src + o) + b < |before| && 0 <= 8 * (dst + o) + b < |after| &&
    after[8 * (dst + o) + b] == before[8 * (src + o) + b]
  }

  lemma {:induction false} OverwriteBit(s: seq<bool>, p: nat, w: Word, q: nat)
    requires p + 16 <= |s| && q < |s|
    ensures Overwrite(s, p, w)[q] == if p <= q < p + 16 then w[15 - (q - p)] else s[q]
  {
  }

  /** The word read in step k is still the original one. */
  lemma {:induction false} SourceIntact(ms: seq<seq<bool>>, os: seq<int>, src: int, dst: int, k: nat, b: nat)
    requires Copying(ms, os, src, dst) && Away(os, src, dst) && k < |os| && b < 16 && Moved(ms, os, src, dst, k)
    ensures InMem(ms[k], src + os[k]) && ms[k][8 * (src + os[k]) + b] == ms[0][8 * (src + os[k]) + b]
  {
    assert CopyAt(ms, os, src, dst, k);
    var p := 8 * (src + os[k]) + b;
    assert !Touched(os, dst, k, p);
  }

  lemma {:induction false} StepMoves(ms: seq<seq<bool>>, os: seq<int>, src: int, dst: int, k: nat)
    requires Copying(ms, os, src, dst) && Away(os, src, dst) && k < |os| && Moved(ms, os, src, dst, k)
    ensures Moved(ms, os, src, dst, k + 1)
  {
    assert CopyAt(ms, os, src, dst, k);
    var w, at := WordAt(ms[k], 8 * (src + os[k])), 8 * (dst + os[k]);
    forall p {:trigger Touched(os, dst, k + 1, p)} | 0 <= p < |ms[0]| && !Touched(os, dst, k + 1, p)
      ensures ms[k + 1][p] == ms[0][p]
    {
      assert !Within(os[k], dst, p) && !Touched(os, dst, k, p);
      OverwriteBit(ms[k], at, w, p);
    }
    forall i, b {:trigger Arrived(ms[0], ms[k + 1], os[i], src, dst, b)} | 0 <= i < k + 1 && 0 <= b < 16
      ensures Arrived(ms[0], ms[k + 1], os[i], src, dst, b)
    {
      if i == k {
        SourceIntact(ms, os, src, dst, k, b);
        OverwriteBit(ms[k], at, w, at + b);
      } else {
        assert Arrived(ms[0], ms[k], os[i], src, dst, b);
        OverwriteBit(ms[k], at, w, 8 * (dst + os[i]) + b);
      }
    }
  }

  /** Main result: whatever the overlap, every destination word gets its source word's original value. */
  lemma {:induction false} CopyMoves(ms: seq<seq<bool>>, os: seq<int>, src: int, dst: int, k: nat)
    requires Copying(ms, os, src, dst) && Away(os, src, dst) && k <= |os|
    ensures Moved(ms, os, src, dst, k)
  {
    if k > 0 {
      CopyMoves(ms, os, src, dst, k - 1);
      StepMoves(ms, os, src, dst, k - 1);
    }
  }
}
