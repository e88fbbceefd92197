/** An unshifted, fully masked A-to-D blit is a memmove of a rectangle. */
module AreaCopy {
  import opened Bits
  import opened Mfm
  import opened Blitter
  import opened AreaRun
  import opened Iteration
  import WordCopy

  /** A straight copy from A to D with equal modulos. */
  predicate CopySetup(e: Engine)
  {
    var r := e.regs;
    r.con0[11] && r.con0[8] && Field(r.con0, 12) == 0 && !r.con1[3] && !r.con1[4] &&
    !r.con0[0] && !r.con0[1] && !r.con0[2] && !r.con0[3] && r.con0[4] && r.con0[5] && r.con0[6] && r.con0[7] &&
    r.afwm == Ones(16) && r.alwm == Ones(16) && r.amod == r.dmod && 0 <= r.amod
  }

  // ---------- one word ----------

  lemma {:induction false} AndOnes(w: Word)
    ensures And(w, Ones(16)) == w
  {
  }

  lemma {:induction false} FetchMasks(e: Engine)
    ensures Fetch(e).a0 == MaskedA(e.regs, e.area, e.mem)
  {
  }

  lemma {:induction false} MintermA(table: Word, a: Word, b: Word, c: Word)
    requires forall i :: 0 <= i < 8 ==> table[i] == (i >= 4)
    ensures Minterm(table, a, b, c) == a
  {
  }

  lemma {:induction false} CopiesWord(e: Engine, w: Word4)
    requires CopySetup(e) && Fetched(e, w) && w.a0 == MaskedA(e.regs, e.area, e.mem)
    ensures w.d == Peek(e.mem, e.area.apt)
  {
    AndOnes(Peek(e.mem, e.area.apt));
    MintermA(e.regs.con0, w.a, w.b, w.c);
  }

  /** Both pointers step together: by a word, and at a row end that is not the last by the modulo too. */
  predicate PointersStep(e: Engine, q: Engine)
  {
    var sgn := if e.regs.con1[1] then -1 else 1;
    var turn := if e.area.x + 1 >= e.area.width && e.area.y + 1 < e.area.height then e.regs.amod else 0;
    q.area.apt == e.area.apt + sgn * (2 + turn) && q.area.dpt == e.area.dpt + sgn * (2 + turn)
  }

  lemma {:induction false} StepPointers(e: Engine)
    requires CopySetup(e) && e.area.active && e.area.remaining > 0
    ensures PointersStep(e, AreaStep(e))
  {
  }

  // ---------- offsets ----------

  /** The byte offset of word (y, x) of the rectangle in processing order. */
  function Offset(e: Engine, y: int, x: int): int
  {
    (if e.regs.con1[1] then -1 else 1) * (y * (2 * e.area.width + e.regs.amod) + 2 * x)
  }

  ghost predicate Aimed(e: Engine, q: Engine)
  {
    q.area.apt == e.area.apt + Offset(e, q.area.y, q.area.x) && q.area.dpt == e.area.dpt + Offset(e, q.area.y, q.area.x)
  }

  lemma {:induction false} RowsLeft(w: nat, h: nat, y: int, k: int)
    requires w > 0 && k == (y + 1) * w && k < w * h
    ensures y + 1 < h
  {
    MulGap(w, h - 1, y + 1);
    assert w * (h - 1) == w * h - w;
    assert w * (y + 1) == (y + 1) * w;
  }

  lemma {:induction false} OffsetStep(stride: int, y: int)
    ensures (y + 1) * stride == y * stride + stride
  {
  }

  lemma {:induction false} AimedStep(e: Engine, q: Engine, w: Word4, q': Engine, k: nat)
    requires Fresh(e) && CopySetup(e) && Standing(e, q, k) && Standing(e, q', k + 1) && Stepped(q, w, q') && PointersStep(q, q')
    requires Aimed(e, q) && k + 1 < e.area.remaining
    ensures Aimed(e, q')
  {
    OffsetStep(2 * e.area.width + e.regs.amod, q.area.y);
    if q.area.x + 1 >= e.area.width {
      RowsLeft(e.area.width, e.area.height, q.area.y, k + 1);
    }
  }

  // ---------- the run ----------

  /** Everything step k of a copy does, in terms of the start. */
  ghost predicate CopyStep(e: Engine, q: Engine, q': Engine, k: nat)
  {
    Standing(e, q, k) && Aimed(e, q) && PointersStep(q, q') && SameBlit(e, q) &&
    q'.mem == Poke(q.mem, q.area.dpt, Peek(q.mem, q.area.apt))
  }

  lemma {:induction false} SameSetup(e: Engine, q: Engine)
    requires CopySetup(e) && SameBlit(e, q)
    ensures CopySetup(q)
  {
  }

  lemma {:induction false} CopyStepOf(e: Engine, q: Engine, k: nat)
    requires Fresh(e) && CopySetup(e) && Standing(e, q, k) && k < e.area.remaining && Aimed(e, q)
    ensures CopyStep(e, q, AreaStep(q), k)
  {
    SameSetup(e, q);
    StepIs(q, Fetch(q), AreaStep(q));
    FetchIs(q);
    FetchMasks(q);
    CopiesWord(q, Fetch(q));
    StepPointers(q);
  }

  lemma {:induction false} CopyRun(e: Engine, n: nat, es: seq<Engine>, k: nat)
    requires Fresh(e) && CopySetup(e) && n == e.area.remaining && es == Run(e, n) && k < n
    ensures CopyStep(e, es[k], es[k + 1], k)
  {
    RunBlits(e, n);
    StandsAt(es, Words(es), k);
    StatesStep(AreaStep, e, n, k);
    if k > 0 {
      CopyRun(e, n, es, k - 1);
      assert StepAt(es, Words(es), k - 1);
      AimedStep(e, es[k - 1], Words(es)[k - 1], es[k], k - 1);
    }
    CopyStepOf(e, es[k], k);
  }

  /** The states of a whole copy. */
  ghost predicate Copying(e: Engine, n: nat, es: seq<Engine>)
  {
    Fresh(e) && CopySetup(e) && n == e.area.remaining && |es| == n + 1 && es[0] == e &&
    forall k {:trigger StepHere(e, es, k)} :: 0 <= k < n ==> StepHere(e, es, k)
  }

  ghost predicate StepHere(e: Engine, es: seq<Engine>, k: nat)
    requires k + 1 < |es|
  {
    CopyStep(e, es[k], es[k + 1], k)
  }

  lemma {:induction false} RunIsCopy(e: Engine, n: nat, es: seq<Engine>)
    requires Fresh(e) && CopySetup(e) && n == e.area.remaining && es == Run(e, n)
    ensures Copying(e, n, es)
  {
    forall k | 0 <= k < n
      ensures StepHere(e, es, k)
    {
      CopyRun(e, n, es, k);
    }
  }

  // ---------- memory ----------

  function Memories(es: seq<Engine>): seq<seq<bool>> { seq(|es|, i requires 0 <= i < |es| => es[i].mem) }

  /** The offsets of the words a run processes. */
  function Offsets(es: seq<Engine>): (os: seq<int>)
    requires es != []
  {
    seq(|es| - 1, i requires 0 <= i < |es| - 1 => es[i].area.apt - es[0].area.apt)
  }

  /** Source and destination rectangle lie in memory. */
  ghost predicate InView(e: Engine)
  {
    forall y, x {:trigger Offset(e, y, x)} :: 0 <= y < e.area.height && 0 <= x < e.area.width ==>
      InMem(e.mem, e.area.apt + Offset(e, y, x)) && InMem(e.mem, e.area.dpt + Offset(e, y, x))
  }

  lemma {:induction false} RowInRange(e: Engine, q: Engine, k: nat)
    requires Fresh(e) && Standing(e, q, k) && k < e.area.remaining
    ensures 0 <= q.area.y < e.area.height && 0 <= q.area.x < e.area.width
  {
    MulGap(e.area.width, e.area.height - 1, q.area.y);
    assert e.area.width * (e.area.height - 1) == e.area.width * e.area.height - e.area.width;
    assert e.area.width * q.area.y == q.area.y * e.area.width;
  }

  lemma {:induction false} StepCopies(e: Engine, q: Engine, q': Engine, k: nat)
    requires Fresh(e) && CopyStep(e, q, q', k) && InView(e) && k < e.area.remaining
    ensures InMem(q.mem, q.area.apt) && InMem(q.mem, q.area.dpt)
    ensures q'.mem == Overwrite(q.mem, 8 * q.area.dpt, WordAt(q.mem, 8 * q.area.apt))
    ensures q.area.dpt - e.area.dpt == q.area.apt - e.area.apt
  {
    RowInRange(e, q, k);
    assert InMem(e.mem, e.area.apt + Offset(e, q.area.y, q.area.x));
  }

  lemma {:induction false} RunCopies(e: Engine, n: nat, es: seq<Engine>)
    requires Copying(e, n, es) && InView(e)
    ensures WordCopy.Copying(Memories(es), Offsets(es), e.area.apt, e.area.dpt)
  {
    var ms, os := Memories(es), Offsets(es);
    forall i | 0 <= i < n
      ensures WordCopy.CopyAt(ms, os, e.area.apt, e.area.dpt, i)
    {
      assert StepHere(e, es, i);
      StepCopies(e, es[i], es[i + 1], i);
    }
  }

  lemma {:induction false} OffsetsApart(e: Engine, n: nat, es: seq<Engine>, i: nat, j: nat)
    requires Copying(e, n, es) && i < j < n
    ensures if e.regs.con1[1] then Offsets(es)[j] + 2 <= Offsets(es)[i] else Offsets(es)[i] + 2 <= Offsets(es)[j]
  {
    if i + 1 < j {
      OffsetsApart(e, n, es, i, j - 1);
    }
    assert StepHere(e, es, j - 1);
  }

  /** Bit p lies in the destination rectangle. */
  ghost predicate InTarget(e: Engine, p: int)
  {
    exists y, x {:trigger Offset(e, y, x)} :: 0 <= y < e.area.height && 0 <= x < e.area.width &&
      WordCopy.Within(Offset(e, y, x), e.area.dpt, p)
  }

  /** The order of the walk suits the overlap. */
  predicate Suited(e: Engine)
  {
    if e.regs.con1[1] then e.area.dpt >= e.area.apt else e.area.dpt <= e.area.apt
  }

  lemma {:induction false} RunMoves(e: Engine, n: nat, es: seq<Engine>)
    requires Copying(e, n, es) && InView(e) && Suited(e)
    ensures WordCopy.Moved(Memories(es), Offsets(es), e.area.apt, e.area.dpt, n)
  {
    RunCopies(e, n, es);
    forall i, j {:trigger Offsets(es)[i], Offsets(es)[j]} | 0 <= i < j < n
      ensures if e.regs.con1[1] then Offsets(es)[j] + 2 <= Offsets(es)[i] else Offsets(es)[i] + 2 <= Offsets(es)[j]
    {
      OffsetsApart(e, n, es, i, j);
    }
    WordCopy.CopyMoves(Memories(es), Offsets(es), e.area.apt, e.area.dpt, n);
  }

  lemma {:induction false} IndexInRange(w: nat, h: nat, y: nat, x: nat)
    requires y < h && x < w
    ensures y * w + x < w * h
  {
    MulGap(w, y, h);
    assert w * y == y * w;
  }

  lemma {:induction false} WordPosition(e: Engine, q: Engine, k: nat, y: nat, x: nat)
    requires Standing(e, q, k) && k == y * e.area.width + x && x < e.area.width
    ensures q.area.y == y && q.area.x == x
  {
    var w := e.area.width;
    assert w * y == y * w && w * q.area.y == q.area.y * w;
    DivUnique(k, w, y, x);
    DivUnique(k, w, q.area.y, q.area.x);
  }

  /** The step that handles word (y, x). */
  lemma {:induction false} StepOfWord(e: Engine, n: nat, es: seq<Engine>, y: nat, x: nat) returns (k: nat)
    requires Copying(e, n, es) && y < e.area.height && x < e.area.width
    ensures k < n && Offsets(es)[k] == Offset(e, y, x)
  {
    k := y * e.area.width + x;
    IndexInRange(e.area.width, e.area.height, y, x);
    assert StepHere(e, es, k);
    WordPosition(e, es[k], k, y, x);
  }

  lemma {:induction false} WordArrives(e: Engine, n: nat, es: seq<Engine>, y: nat, x: nat, b: nat)
    requires Copying(e, n, es) && InView(e) && Suited(e) && y < e.area.height && x < e.area.width && b < 16
    ensures WordCopy.Arrived(e.mem, es[n].mem, Offset(e, y, x), e.area.apt, e.area.dpt, b)
  {
    var k := StepOfWord(e, n, es, y, x);
    RunMoves(e, n, es);
    assert WordCopy.Arrived(Memories(es)[0], Memories(es)[n], Offsets(es)[k], e.area.apt, e.area.dpt, b);
  }

  lemma {:induction false} RestStays(e: Engine, n: nat, es: seq<Engine>, p: nat)
    requires Copying(e, n, es) && InView(e) && Suited(e) && p < |e.mem| && !InTarget(e, p)
    ensures |es[n].mem| == |e.mem| && es[n].mem[p] == e.mem[p]
  {
    RunMoves(e, n, es);
    var os := Offsets(es);
    forall i | 0 <= i < n
      ensures !WordCopy.Within(os[i], e.area.dpt, p)
    {
      assert StepHere(e, es, i);
      RowInRange(e, es[i], i);
      assert os[i] == Offset(e, es[i].area.y, es[i].area.x);
    }
    assert !WordCopy.Touched(os, e.area.dpt, n, p);
  }

  /** Main result: after a copy in the order that suits the overlap, every word of the destination rectangle holds its source
      word's original value. */
  lemma {:induction false} CopyIsMove(e: Engine, n: nat, es: seq<Engine>, y: nat, x: nat, b: nat)
    requires Fresh(e) && CopySetup(e) && InView(e) && Suited(e) && n == e.area.remaining && es == Run(e, n)
    requires y < e.area.height && x < e.area.width && b < 16
    ensures WordCopy.Arrived(e.mem, es[n].mem, Offset(e, y, x), e.area.apt, e.area.dpt, b)
  {
    RunIsCopy(e, n, es);
    WordArrives(e, n, es, y, x, b);
  }

  /** Main result: every bit outside the destination rectangle is unchanged. */
  lemma {:induction false} CopyKeepsRest(e: Engine, n: nat, es: seq<Engine>, p: nat)
    requires Fresh(e) && CopySetup(e) && InView(e) && Suited(e) && n == e.area.remaining && es == Run(e, n)
    requires p < |e.mem| && !InTarget(e, p)
    ensures |es[n].mem| == |e.mem| && es[n].mem[p] == e.mem[p]
  {
    RunIsCopy(e, n, es);
    RestStays(e, n, es, p);
  }
}
