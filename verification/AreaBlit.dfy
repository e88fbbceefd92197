/** Every word of a launched area blit in terms of memory at the launch: where each channel reads it, how it is masked, shifted,
    combined and filled, and where it is written. */
module AreaBlit {
  import opened Bits
  import opened Mfm
  import opened Blitter
  import opened AreaRun
  import opened AreaCopy
  import opened Iteration
  import DiskWrite
  import WordCopy

  // ---------- what word (y, x) should be ----------

  /** The address of word (y, x) of a channel in processing order: rows are a width and a modulo apart. */
  function Aim(e: Engine, base: int, mod: int, y: int, x: int): int
  {
    base + (if e.regs.con1[1] then -1 else 1) * (y * (2 * e.area.width + mod) + 2 * x)
  }

  function AimA(e: Engine, y: int, x: int): int { Aim(e, e.area.apt, e.regs.amod, y, x) }

  function AimB(e: Engine, y: int, x: int): int { Aim(e, e.area.bpt, e.regs.bmod, y, x) }

  function AimC(e: Engine, y: int, x: int): int { Aim(e, e.area.cpt, e.regs.cmod, y, x) }

  function AimD(e: Engine, y: int, x: int): int { Aim(e, e.area.dpt, e.regs.dmod, y, x) }

  /** BLTAFWM cuts the first word of a row and BLTALWM the last, in processing order. */
  function Cut(e: Engine, a: Word, x: int): Word
  {
    And(And(a, if x == 0 then e.regs.afwm else Ones(16)), if x == e.area.width - 1 then e.regs.alwm else Ones(16))
  }

  /** With channel A off, BLTADAT goes through the masks again and again: from the first word on it has lost what BLTAFWM
      clears, and from the end of the first row on what BLTALWM clears. */
  function Worn(e: Engine, y: int, x: int): Word
  {
    And(And(e.regs.adat, e.regs.afwm), if y > 0 || x == e.area.width - 1 then e.regs.alwm else Ones(16))
  }

  function SourceA(e: Engine, y: int, x: int): Word
  {
    if e.regs.con0[11] then Cut(e, Peek(e.mem, AimA(e, y, x)), x) else Worn(e, y, x)
  }

  function SourceB(e: Engine, y: int, x: int): Word
  {
    if e.regs.con0[10] then Peek(e.mem, AimB(e, y, x)) else e.regs.bdat
  }

  function SourceC(e: Engine, y: int, x: int): Word
  {
    if e.regs.con0[9] then Peek(e.mem, AimC(e, y, x)) else e.regs.cdat
  }

  /** The word a channel processed before (y, x): to its left, at the end of the row above, or none. */
  function BeforeA(e: Engine, y: int, x: int): Word
  {
    if x > 0 then SourceA(e, y, x - 1) else if y > 0 then SourceA(e, y - 1, e.area.width - 1) else Zeros(16)
  }

  function BeforeB(e: Engine, y: int, x: int): Word
  {
    if x > 0 then SourceB(e, y, x - 1) else if y > 0 then SourceB(e, y - 1, e.area.width - 1) else Zeros(16)
  }

  function ShiftedA(e: Engine, y: int, x: int): Word
  {
    Shift(BeforeA(e, y, x), SourceA(e, y, x), Field(e.regs.con0, 12), e.regs.con1[1])
  }

  function ShiftedB(e: Engine, y: int, x: int): Word
  {
    Shift(BeforeB(e, y, x), SourceB(e, y, x), Field(e.regs.con1, 12), e.regs.con1[1])
  }

  /** Each bit is looked up in BLTCON0 by its A, B and C bits. */
  function Combined(e: Engine, y: int, x: int): Word
  {
    var a, b, c := ShiftedA(e, y, x), ShiftedB(e, y, x), SourceC(e, y, x);
    seq(16, i requires 0 <= i < 16 =>
      e.regs.con0[(if a[i] then 4 else 0) + (if b[i] then 2 else 0) + (if c[i] then 1 else 0)])
  }

  /** The fill carry into word x of row y: FCI, flipped by every bit to its right. */
  function CarryInto(e: Engine, y: int, x: int): bool
    decreases x
  {
    if x <= 0 then e.regs.con1[2] else Parity(Combined(e, y, x - 1), CarryInto(e, y, x - 1))
  }

  predicate Filling(e: Engine) { e.regs.con1[3] || e.regs.con1[4] }

  /** The word written for (y, x). */
  function Result(e: Engine, y: int, x: int): Word
  {
    if Filling(e) then Fill(Combined(e, y, x), CarryInto(e, y, x), e.regs.con1[3]) else Combined(e, y, x)
  }

  // ---------- one step ----------

  /** What one step reads. */
  predicate Reads(q: Engine, w: Word4)
  {
    && w.a0 == Cut(q, if q.regs.con0[11] then Peek(q.mem, q.area.apt) else q.regs.adat, q.area.x)
    && w.b0 == (if q.regs.con0[10] then Peek(q.mem, q.area.bpt) else q.regs.bdat)
    && w.c == (if q.regs.con0[9] then Peek(q.mem, q.area.cpt) else q.regs.cdat)
  }

  lemma {:induction false} StepReads(q: Engine)
    ensures Reads(q, Fetch(q))
  {
    var a := if q.regs.con0[11] then Peek(q.mem, q.area.apt) else q.regs.adat;
    AndOnes(a);
    AndOnes(And(a, q.regs.afwm));
  }

  /** A channel that is on moves by a word, and at a row end that is not the last by its modulo too. */
  function Onward(q: Engine, on: bool, p: int, mod: int): int
  {
    var turn := if q.area.x + 1 >= q.area.width && q.area.y + 1 < q.area.height then mod else 0;
    if on then p + (if q.regs.con1[1] then -1 else 1) * (2 + turn) else p
  }

  /** What one step leaves behind besides memory. */
  predicate Leaves(q: Engine, w: Word4, q': Engine)
  {
    && q'.area.apt == Onward(q, q.regs.con0[11], q.area.apt, q.regs.amod)
    && q'.area.bpt == Onward(q, q.regs.con0[10], q.area.bpt, q.regs.bmod)
    && q'.area.cpt == Onward(q, q.regs.con0[9], q.area.cpt, q.regs.cmod)
    && q'.area.dpt == Onward(q, q.regs.con0[8], q.area.dpt, q.regs.dmod)
    && q'.regs.adat == w.a0 && q'.regs.bdat == w.b0 && q'.regs.cdat == w.c
    && q'.nonzero == (q.nonzero || (q.regs.con0[8] && w.d != Zeros(16))) && Shown(q')
  }

  /** The pointer registers show where the channels are. */
  predicate Shown(q: Engine)
  {
    q.regs.apt == q.area.apt && q.regs.bpt == q.area.bpt && q.regs.cpt == q.area.cpt && q.regs.dpt == q.area.dpt
  }

  lemma {:induction false} TurnTimes(turn: int, mod: int)
    requires turn == 0 || turn == 1
    ensures turn * mod == if turn == 1 then mod else 0
  {
  }

  lemma {:induction false} PointersMove(q: Engine, w: Word4, s': Area)
    requires s' == NextArea(q.regs, q.area, w)
    ensures s'.apt == Onward(q, q.regs.con0[11], q.area.apt, q.regs.amod)
    ensures s'.bpt == Onward(q, q.regs.con0[10], q.area.bpt, q.regs.bmod)
    ensures s'.cpt == Onward(q, q.regs.con0[9], q.area.cpt, q.regs.cmod)
    ensures s'.dpt == Onward(q, q.regs.con0[8], q.area.dpt, q.regs.dmod)
  {
    var turn := if q.area.x + 1 >= q.area.width && q.area.y + 1 < q.area.height then 1 else 0;
    TurnTimes(turn, q.regs.amod);
    TurnTimes(turn, q.regs.bmod);
    TurnTimes(turn, q.regs.cmod);
    TurnTimes(turn, q.regs.dmod);
  }

  /** The parts of a step that are not memory. */
  lemma {:induction false} StepParts(q: Engine, w: Word4, s': Area)
    requires q.area.active && q.area.remaining > 0 && w == Fetch(q) && s' == NextArea(q.regs, q.area, w)
    ensures var q' := AreaStep(q);
            && q'.area.apt == s'.apt && q'.area.bpt == s'.bpt && q'.area.cpt == s'.cpt && q'.area.dpt == s'.dpt
            && q'.regs.adat == w.a0 && q'.regs.bdat == w.b0 && q'.regs.cdat == w.c
            && q'.nonzero == (q.nonzero || (q.regs.con0[8] && w.d != Zeros(16))) && Shown(q')
  {
  }

  lemma {:induction false} StepLeaves(q: Engine, w: Word4, q': Engine)
    requires q.area.active && q.area.remaining > 0 && w == Fetch(q) && q' == AreaStep(q)
    ensures Leaves(q, w, q')
  {
    var s' := NextArea(q.regs, q.area, w);
    StepParts(q, w, s');
    PointersMove(q, w, s');
  }

  // ---------- a whole run ----------

  /** Step k of the blit launched as `e`. */
  ghost predicate BlitStep(e: Engine, q: Engine, w: Word4, q': Engine, k: nat)
  {
    Standing(e, q, k) && Standing(e, q', k + 1) && Fetched(q, w) && Stepped(q, w, q') && Reads(q, w) && Leaves(q, w, q')
  }

  ghost predicate StepOn(e: Engine, es: seq<Engine>, ws: seq<Word4>, k: nat)
    requires |es| == |ws| + 1 && k < |ws|
  {
    BlitStep(e, es[k], ws[k], es[k + 1], k)
  }

  /** The states and words of a whole blit. */
  ghost predicate Whole(e: Engine, es: seq<Engine>, ws: seq<Word4>)
  {
    && Fresh(e) && |ws| == e.area.remaining && |es| == |ws| + 1 && es[0] == e
    && forall k {:trigger StepOn(e, es, ws, k)} :: 0 <= k < |ws| ==> StepOn(e, es, ws, k)
  }

  lemma {:induction false} StepIsOn(e: Engine, n: nat, es: seq<Engine>, ws: seq<Word4>, k: nat)
    requires Fresh(e) && n == e.area.remaining && es == Run(e, n) && ws == Words(es) && Blitting(es, ws) && k < n
    ensures StepOn(e, es, ws, k)
  {
    StandsAt(es, ws, k);
    StandsAt(es, ws, k + 1);
    assert StepAt(es, ws, k);
    StatesStep(AreaStep, e, n, k);
    StepReads(es[k]);
    StepLeaves(es[k], ws[k], es[k + 1]);
  }

  lemma {:induction false} RunIsWhole(e: Engine, n: nat, es: seq<Engine>)
    requires Fresh(e) && n == e.area.remaining && es == Run(e, n)
    ensures Whole(e, es, Words(es))
  {
    RunBlits(e, n);
    forall k | 0 <= k < n
      ensures StepOn(e, es, Words(es), k)
    {
      StepIsOn(e, n, es, Words(es), k);
    }
  }

  // ---------- where the pointers are ----------

  /** Every channel that is on stands at its own word (y, x). */
  ghost predicate OnAim(e: Engine, q: Engine)
  {
    && (e.regs.con0[11] ==> q.area.apt == AimA(e, q.area.y, q.area.x))
    && (e.regs.con0[10] ==> q.area.bpt == AimB(e, q.area.y, q.area.x))
    && (e.regs.con0[9] ==> q.area.cpt == AimC(e, q.area.y, q.area.x))
    && (e.regs.con0[8] ==> q.area.dpt == AimD(e, q.area.y, q.area.x))
  }

  /** The word after (y, x). */
  ghost predicate NextWord(e: Engine, q: Engine, q': Engine)
  {
    && SameBlit(e, q) && 0 <= q.area.x < e.area.width && 0 <= q.area.y
    && (if q.area.x + 1 < e.area.width then q'.area.x == q.area.x + 1 && q'.area.y == q.area.y
        else q'.area.x == 0 && q'.area.y == q.area.y + 1 && q.area.y + 1 < e.area.height)
  }

  lemma {:induction false} WordFollows(e: Engine, q: Engine, w: Word4, q': Engine, k: nat)
    requires Fresh(e) && Standing(e, q, k) && Stepped(q, w, q') && k + 1 < e.area.remaining
    ensures NextWord(e, q, q')
  {
    if q.area.x + 1 >= e.area.width {
      OffsetStep(e.area.width, q.area.y);
      RowsLeft(e.area.width, e.area.height, q.area.y, k + 1);
    }
  }

  lemma {:induction false} AimNext(e: Engine, q: Engine, q': Engine, base: int, mod: int)
    requires NextWord(e, q, q')
    ensures Onward(q, true, Aim(e, base, mod, q.area.y, q.area.x), mod) == Aim(e, base, mod, q'.area.y, q'.area.x)
  {
    OffsetStep(2 * e.area.width + mod, q.area.y);
  }

  lemma {:induction false} OnAimNext(e: Engine, q: Engine, w: Word4, q': Engine)
    requires NextWord(e, q, q') && Leaves(q, w, q') && OnAim(e, q)
    ensures OnAim(e, q')
  {
    AimNext(e, q, q', e.area.apt, e.regs.amod);
    AimNext(e, q, q', e.area.bpt, e.regs.bmod);
    AimNext(e, q, q', e.area.cpt, e.regs.cmod);
    AimNext(e, q, q', e.area.dpt, e.regs.dmod);
  }

  lemma {:induction false} AimsAt(e: Engine, es: seq<Engine>, ws: seq<Word4>, k: nat)
    requires Whole(e, es, ws) && k < |ws|
    ensures OnAim(e, es[k])
  {
    if k > 0 {
      AimsAt(e, es, ws, k - 1);
      assert StepOn(e, es, ws, k - 1);
      WordFollows(e, es[k - 1], ws[k - 1], es[k], k - 1);
      OnAimNext(e, es[k - 1], ws[k - 1], es[k]);
    }
  }

  /** Main result: before every word the pointer registers of the channels that are on show the addresses of that word. */
  lemma {:induction false} PointersShow(e: Engine, n: nat, es: seq<Engine>, k: nat)
    requires Fresh(e) && Shown(e) && n == e.area.remaining && es == Run(e, n) && k < n
    ensures k == es[k].area.y * e.area.width + es[k].area.x && 0 <= es[k].area.x < e.area.width
    ensures OnAim(e, es[k]) && Shown(es[k])
  {
    var ws := Words(es);
    RunIsWhole(e, n, es);
    assert StepOn(e, es, ws, k);
    AimsAt(e, es, ws, k);
    if k > 0 {
      assert StepOn(e, es, ws, k - 1);
    }
  }

  // ---------- what memory still holds ----------

  predicate Apart(a: int, b: int) { a + 2 <= b || b + 2 <= a }

  lemma {:induction false} PokeApart(mem: seq<bool>, d: int, w: Word, a: int)
    requires Apart(d, a)
    ensures Peek(Poke(mem, d, w), a) == Peek(mem, a)
  {
    if InMem(mem, d) && InMem(mem, a) {
      DiskWrite.OverwriteElsewhere(mem, 8 * d, w, 8 * a);
    }
  }

  /** Step i does not write at `a`. */
  ghost predicate Misses(es: seq<Engine>, i: nat, a: int)
    requires i < |es|
  {
    es[i].regs.con0[8] ==> Apart(es[i].area.dpt, a)
  }

  lemma {:induction false} WordStays(e: Engine, es: seq<Engine>, ws: seq<Word4>, j: nat, k: nat, a: int)
    requires Whole(e, es, ws) && j <= k <= |ws| && forall i {:trigger Misses(es, i, a)} :: j <= i < k ==> Misses(es, i, a)
    ensures Peek(es[k].mem, a) == Peek(es[j].mem, a)
  {
    if j < k {
      WordStays(e, es, ws, j, k - 1, a);
      assert StepOn(e, es, ws, k - 1) && Misses(es, k - 1, a);
      if e.regs.con0[8] {
        PokeApart(es[k - 1].mem, es[k - 1].area.dpt, ws[k - 1].d, a);
      }
    }
  }

  // ---------- processing order ----------

  predicate Precedes(y: int, x: int, y': int, x': int) { y < y' || (y == y' && x < x') }

  predicate InShape(e: Engine, y: int, x: int) { 0 <= y < e.area.height && 0 <= x < e.area.width }

  lemma {:induction false} OrderOfSteps(e: Engine, q: Engine, i: nat, q': Engine, k: nat)
    requires Fresh(e) && Standing(e, q, i) && Standing(e, q', k) && i < k < e.area.remaining
    ensures InShape(e, q.area.y, q.area.x) && InShape(e, q'.area.y, q'.area.x)
    ensures Precedes(q.area.y, q.area.x, q'.area.y, q'.area.x)
  {
    var w := e.area.width;
    RowInRange(e, q, i);
    RowInRange(e, q', k);
    MulGap(w, q'.area.y, q.area.y);
    assert w * q.area.y == q.area.y * w && w * q'.area.y == q'.area.y * w;
  }

  /** Writing at `d` leaves the sources of word (y, x) alone. */
  predicate Spares(e: Engine, d: int, y: int, x: int)
  {
    && (e.regs.con0[11] ==> Apart(d, AimA(e, y, x)))
    && (e.regs.con0[10] ==> Apart(d, AimB(e, y, x)))
    && (e.regs.con0[9] ==> Apart(d, AimC(e, y, x)))
  }

  /** No word is written over a source word that is read later. */
  ghost predicate ReadsFirst(e: Engine)
  {
    e.regs.con0[8] ==>
      forall y, x, y', x' {:trigger Spares(e, AimD(e, y, x), y', x')} ::
        InShape(e, y, x) && InShape(e, y', x') && Precedes(y, x, y', x') ==> Spares(e, AimD(e, y, x), y', x')
  }

  lemma {:induction false} StepSpares(e: Engine, es: seq<Engine>, ws: seq<Word4>, i: nat, k: nat)
    requires Whole(e, es, ws) && ReadsFirst(e) && i < k < |ws| && e.regs.con0[8]
    ensures Spares(e, es[i].area.dpt, es[k].area.y, es[k].area.x)
  {
    assert StepOn(e, es, ws, i) && StepOn(e, es, ws, k);
    OrderOfSteps(e, es[i], i, es[k], k);
    AimsAt(e, es, ws, i);
    assert Spares(e, AimD(e, es[i].area.y, es[i].area.x), es[k].area.y, es[k].area.x);
  }

  /** A source word is still what it was at the launch when its turn comes. */
  lemma {:induction false} SourceStays(e: Engine, es: seq<Engine>, ws: seq<Word4>, k: nat, a: int)
    requires Whole(e, es, ws) && ReadsFirst(e) && k < |ws|
    requires var y, x := es[k].area.y, es[k].area.x;
      (e.regs.con0[11] && a == AimA(e, y, x)) || (e.regs.con0[10] && a == AimB(e, y, x)) || (e.regs.con0[9] && a == AimC(e, y, x))
    ensures Peek(es[k].mem, a) == Peek(e.mem, a)
  {
    forall i | 0 <= i < k
      ensures Misses(es, i, a)
    {
      assert StepOn(e, es, ws, i);
      if e.regs.con0[8] {
        StepSpares(e, es, ws, i, k);
      }
    }
    WordStays(e, es, ws, 0, k, a);
  }

  // ---------- what each step computes ----------

  /** What the shifters, the data registers of channels that are off and the fill carry hold before word (y, x). */
  ghost predicate Carries(e: Engine, q: Engine)
  {
    var y, x := q.area.y, q.area.x;
    && q.area.prevA == BeforeA(e, y, x) && q.area.prevB == BeforeB(e, y, x)
    && (!e.regs.con0[11] ==> q.regs.adat == if y <= 0 && x <= 0 then e.regs.adat else BeforeA(e, y, x))
    && (!e.regs.con0[10] ==> q.regs.bdat == e.regs.bdat) && (!e.regs.con0[9] ==> q.regs.cdat == e.regs.cdat)
    && (Filling(e) && x > 0 ==> q.area.fill == CarryInto(e, y, x))
  }

  /** The three sources of word (y, x) are those of the launch. */
  ghost predicate Sourced(e: Engine, w: Word4, y: int, x: int)
  {
    w.a0 == SourceA(e, y, x) && w.b0 == SourceB(e, y, x) && w.c == SourceC(e, y, x)
  }

  lemma {:induction false} MasksSettle(a: Word, f: Word, l: Word)
    ensures And(And(And(And(a, f), l), f), l) == And(And(a, f), l)
    ensures And(And(And(And(a, f), l), Ones(16)), l) == And(And(a, f), l)
    ensures And(And(And(And(a, f), l), f), Ones(16)) == And(And(a, f), l)
    ensures And(And(And(And(a, f), l), Ones(16)), Ones(16)) == And(And(a, f), l)
  {
  }

  lemma {:induction false} MasksAdd(a: Word, f: Word, l: Word)
    ensures And(And(And(And(a, f), Ones(16)), Ones(16)), l) == And(And(a, f), l)
    ensures And(And(And(And(a, f), Ones(16)), Ones(16)), Ones(16)) == And(And(a, f), Ones(16))
  {
  }

  /** BLTADAT, masked once more, is what the masks so far have left of it. */
  lemma {:induction false} WornAgain(e: Engine, y: int, x: int)
    requires !e.regs.con0[11] && 0 <= y && 0 <= x < e.area.width
    ensures Cut(e, if y <= 0 && x <= 0 then e.regs.adat else BeforeA(e, y, x), x) == Worn(e, y, x)
  {
    MasksSettle(e.regs.adat, e.regs.afwm, e.regs.alwm);
    MasksAdd(e.regs.adat, e.regs.afwm, e.regs.alwm);
  }

  lemma {:induction false} ReadsSources(e: Engine, q: Engine, w: Word4)
    requires SameBlit(e, q) && Reads(q, w) && OnAim(e, q) && Carries(e, q) && 0 <= q.area.y && 0 <= q.area.x < e.area.width
    requires e.regs.con0[11] ==> Peek(q.mem, q.area.apt) == Peek(e.mem, q.area.apt)
    requires e.regs.con0[10] ==> Peek(q.mem, q.area.bpt) == Peek(e.mem, q.area.bpt)
    requires e.regs.con0[9] ==> Peek(q.mem, q.area.cpt) == Peek(e.mem, q.area.cpt)
    ensures Sourced(e, w, q.area.y, q.area.x)
  {
    if !e.regs.con0[11] {
      WornAgain(e, q.area.y, q.area.x);
    }
  }

  lemma {:induction false} CombinedIs(e: Engine, y: int, x: int)
    ensures Combined(e, y, x) == Minterm(e.regs.con0, ShiftedA(e, y, x), ShiftedB(e, y, x), SourceC(e, y, x))
  {
  }

  lemma {:induction false} ComputesResult(e: Engine, q: Engine, w: Word4)
    requires SameBlit(e, q) && Fetched(q, w) && Carries(e, q) && 0 <= q.area.x && Sourced(e, w, q.area.y, q.area.x)
    ensures w.d == Result(e, q.area.y, q.area.x)
    ensures Filling(e) ==> w.carry == Parity(Combined(e, q.area.y, q.area.x), CarryInto(e, q.area.y, q.area.x))
  {
    CombinedIs(e, q.area.y, q.area.x);
  }

  lemma {:induction false} BeforeNext(e: Engine, q: Engine, q': Engine)
    requires NextWord(e, q, q')
    ensures BeforeA(e, q'.area.y, q'.area.x) == SourceA(e, q.area.y, q.area.x)
    ensures BeforeB(e, q'.area.y, q'.area.x) == SourceB(e, q.area.y, q.area.x)
  {
  }

  lemma {:induction false} CarryNext(e: Engine, q: Engine, q': Engine)
    requires NextWord(e, q, q') && q'.area.x > 0
    ensures CarryInto(e, q'.area.y, q'.area.x) == Parity(Combined(e, q.area.y, q.area.x), CarryInto(e, q.area.y, q.area.x))
  {
  }

  lemma {:induction false} OffStays(e: Engine, q: Engine, w: Word4, q': Engine)
    requires Leaves(q, w, q') && Sourced(e, w, q.area.y, q.area.x)
    ensures q'.regs.adat == SourceA(e, q.area.y, q.area.x)
    ensures (!e.regs.con0[10] ==> q'.regs.bdat == e.regs.bdat) && (!e.regs.con0[9] ==> q'.regs.cdat == e.regs.cdat)
  {
  }

  lemma {:induction false} CarriesOn(e: Engine, q: Engine, w: Word4, q': Engine)
    requires NextWord(e, q, q') && Stepped(q, w, q') && Leaves(q, w, q') && Sourced(e, w, q.area.y, q.area.x)
    requires Filling(e) ==> w.carry == Parity(Combined(e, q.area.y, q.area.x), CarryInto(e, q.area.y, q.area.x))
    ensures Carries(e, q')
  {
    BeforeNext(e, q, q');
    OffStays(e, q, w, q');
    if q'.area.x > 0 {
      CarryNext(e, q, q');
    }
  }

  /** Step k of a blit reads the sources of its word and writes its result. */
  ghost predicate Right(e: Engine, es: seq<Engine>, ws: seq<Word4>, k: nat)
    requires k < |es| && k < |ws|
  {
    Carries(e, es[k]) && Sourced(e, ws[k], es[k].area.y, es[k].area.x) && ws[k].d == Result(e, es[k].area.y, es[k].area.x)
  }

  lemma {:induction false} RightIf(e: Engine, es: seq<Engine>, ws: seq<Word4>, k: nat)
    requires Whole(e, es, ws) && ReadsFirst(e) && k < |ws| && Carries(e, es[k])
    ensures Right(e, es, ws, k)
    ensures Filling(e) ==>
      ws[k].carry == Parity(Combined(e, es[k].area.y, es[k].area.x), CarryInto(e, es[k].area.y, es[k].area.x))
  {
    assert StepOn(e, es, ws, k);
    AimsAt(e, es, ws, k);
    if e.regs.con0[11] {
      SourceStays(e, es, ws, k, es[k].area.apt);
    }
    if e.regs.con0[10] {
      SourceStays(e, es, ws, k, es[k].area.bpt);
    }
    if e.regs.con0[9] {
      SourceStays(e, es, ws, k, es[k].area.cpt);
    }
    ReadsSources(e, es[k], ws[k]);
    ComputesResult(e, es[k], ws[k]);
  }

  lemma {:induction false} CarriesNext(e: Engine, es: seq<Engine>, ws: seq<Word4>, k: nat)
    requires Whole(e, es, ws) && ReadsFirst(e) && k + 1 < |ws| && Carries(e, es[k])
    ensures Carries(e, es[k + 1])
  {
    RightIf(e, es, ws, k);
    assert StepOn(e, es, ws, k);
    WordFollows(e, es[k], ws[k], es[k + 1], k);
    CarriesOn(e, es[k], ws[k], es[k + 1]);
  }

  lemma {:induction false} FreshCarries(e: Engine)
    requires Fresh(e)
    ensures Carries(e, e)
  {
  }

  lemma {:induction false} EveryStepCarries(e: Engine, es: seq<Engine>, ws: seq<Word4>, k: nat)
    requires Whole(e, es, ws) && ReadsFirst(e) && k < |ws|
    ensures Carries(e, es[k])
  {
    if k > 0 {
      EveryStepCarries(e, es, ws, k - 1);
      CarriesNext(e, es, ws, k - 1);
    } else {
      FreshCarries(e);
    }
  }

  lemma {:induction false} EveryStepRight(e: Engine, es: seq<Engine>, ws: seq<Word4>, k: nat)
    requires Whole(e, es, ws) && ReadsFirst(e) && k < |ws|
    ensures Right(e, es, ws, k)
  {
    EveryStepCarries(e, es, ws, k);
    RightIf(e, es, ws, k);
  }

  // ---------- what the blit leaves ----------

  lemma {:induction false} StepAtWord(e: Engine, es: seq<Engine>, ws: seq<Word4>, k: nat, y: nat, x: nat)
    requires Whole(e, es, ws) && k < |ws| && k == y * e.area.width + x && x < e.area.width
    ensures es[k].area.y == y && es[k].area.x == x
  {
    assert StepOn(e, es, ws, k);
    WordPosition(e, es[k], k, y, x);
  }

  lemma {:induction false} StepOfWord(e: Engine, es: seq<Engine>, ws: seq<Word4>, y: nat, x: nat) returns (k: nat)
    requires Whole(e, es, ws) && InShape(e, y, x)
    ensures k < |ws| && es[k].area.y == y && es[k].area.x == x
  {
    k := y * e.area.width + x;
    IndexInRange(e.area.width, e.area.height, y, x);
    StepAtWord(e, es, ws, k, y, x);
  }

  /** No later word is written over word (y, x). */
  ghost predicate Lasts(e: Engine, y: int, x: int)
  {
    forall y', x' {:trigger AimD(e, y', x')} :: InShape(e, y', x') && Precedes(y, x, y', x') ==>
      Apart(AimD(e, y', x'), AimD(e, y, x))
  }

  lemma {:induction false} PokeHere(mem: seq<bool>, d: int, w: Word)
    requires InMem(mem, d)
    ensures Peek(Poke(mem, d, w), d) == w
  {
    DiskWrite.OverwriteWord(mem, 8 * d, w);
  }

  lemma {:induction false} LaterMisses(e: Engine, es: seq<Engine>, ws: seq<Word4>, k: nat, i: nat)
    requires Whole(e, es, ws) && k < i < |ws| && Lasts(e, es[k].area.y, es[k].area.x)
    ensures Misses(es, i, AimD(e, es[k].area.y, es[k].area.x))
  {
    assert StepOn(e, es, ws, k) && StepOn(e, es, ws, i);
    OrderOfSteps(e, es[k], k, es[i], i);
    AimsAt(e, es, ws, i);
  }

  lemma {:induction false} WordWritten(e: Engine, es: seq<Engine>, ws: seq<Word4>, k: nat, d: int)
    requires Whole(e, es, ws) && ReadsFirst(e) && k < |ws| && e.regs.con0[8]
    requires d == AimD(e, es[k].area.y, es[k].area.x) && InMem(e.mem, d)
    ensures Peek(es[k + 1].mem, d) == Result(e, es[k].area.y, es[k].area.x)
  {
    EveryStepRight(e, es, ws, k);
    AimsAt(e, es, ws, k);
    assert StepOn(e, es, ws, k);
    PokeHere(es[k].mem, d, ws[k].d);
  }

  /** Main result: when no word is written over a source still to be read, every word of the destination that no later word
      covers ends as the combination of the words its channels had in memory at the launch. */
  lemma {:induction false} WordBlitted(e: Engine, n: nat, es: seq<Engine>, y: nat, x: nat)
    requires Fresh(e) && n == e.area.remaining && es == Run(e, n) && ReadsFirst(e) && e.regs.con0[8]
    requires InShape(e, y, x) && Lasts(e, y, x) && InMem(e.mem, AimD(e, y, x))
    ensures Peek(es[n].mem, AimD(e, y, x)) == Result(e, y, x)
  {
    var ws := Words(es);
    RunIsWhole(e, n, es);
    var k := StepOfWord(e, es, ws, y, x);
    WordWritten(e, es, ws, k, AimD(e, y, x));
    forall i | k + 1 <= i < n
      ensures Misses(es, i, AimD(e, y, x))
    {
      LaterMisses(e, es, ws, k, i);
    }
    WordStays(e, es, ws, k + 1, n, AimD(e, y, x));
  }

  // ---------- the rest of memory ----------

  predicate Inside(a: int, p: int) { 8 * a <= p < 8 * a + 16 }

  /** Bit p lies in a word the blit writes. */
  ghost predicate Covered(e: Engine, p: int)
  {
    e.regs.con0[8] && exists y, x {:trigger AimD(e, y, x)} :: InShape(e, y, x) && Inside(AimD(e, y, x), p)
  }

  lemma {:induction false} PokeBit(mem: seq<bool>, d: int, w: Word, p: nat)
    requires p < |mem| && !Inside(d, p)
    ensures Poke(mem, d, w)[p] == mem[p]
  {
    if InMem(mem, d) {
      WordCopy.OverwriteBit(mem, 8 * d, w, p);
    }
  }

  lemma {:induction false} StepKeepsBit(e: Engine, q: Engine, w: Word4, q': Engine, p: nat)
    requires Stepped(q, w, q') && SameBlit(e, q) && OnAim(e, q) && InShape(e, q.area.y, q.area.x)
    requires p < |q.mem| && !Covered(e, p)
    ensures |q'.mem| == |q.mem| && q'.mem[p] == q.mem[p]
  {
    if e.regs.con0[8] {
      assert !Inside(AimD(e, q.area.y, q.area.x), p);
      PokeBit(q.mem, q.area.dpt, w.d, p);
    }
  }

  lemma {:induction false} BitStays(e: Engine, es: seq<Engine>, ws: seq<Word4>, k: nat, p: nat)
    requires Whole(e, es, ws) && k <= |ws| && p < |e.mem| && !Covered(e, p)
    ensures |es[k].mem| == |e.mem| && es[k].mem[p] == e.mem[p]
  {
    if k > 0 {
      BitStays(e, es, ws, k - 1, p);
      assert StepOn(e, es, ws, k - 1);
      AimsAt(e, es, ws, k - 1);
      RowInRange(e, es[k - 1], k - 1);
      StepKeepsBit(e, es[k - 1], ws[k - 1], es[k], p);
    }
  }

  /** Main result: every bit outside the destination words, and all of memory when channel D is off, is unchanged. */
  lemma {:induction false} RestUnblitted(e: Engine, n: nat, es: seq<Engine>, p: nat)
    requires Fresh(e) && n == e.area.remaining && es == Run(e, n) && p < |e.mem| && !Covered(e, p)
    ensures |es[n].mem| == |e.mem| && es[n].mem[p] == e.mem[p]
  {
    RunIsWhole(e, n, es);
    BitStays(e, es, Words(es), n, p);
  }

  // ---------- the zero flag ----------

  /** Some word of the blit is not zero. */
  ghost predicate SomeNonzero(e: Engine)
  {
    e.regs.con0[8] && exists y, x {:trigger Result(e, y, x)} :: InShape(e, y, x) && Result(e, y, x) != Zeros(16)
  }

  /** One of the first k words is not zero. */
  ghost predicate Marked(ws: seq<Word4>, k: nat)
    requires k <= |ws|
  {
    exists i :: 0 <= i < k && ws[i].d != Zeros(16)
  }

  lemma {:induction false} MarkedNext(ws: seq<Word4>, k: nat)
    requires k < |ws|
    ensures Marked(ws, k + 1) <==> Marked(ws, k) || ws[k].d != Zeros(16)
  {
  }

  lemma {:induction false} FlagNext(e: Engine, es: seq<Engine>, ws: seq<Word4>, k: nat)
    requires Whole(e, es, ws) && k < |ws|
    ensures es[k + 1].nonzero <==> es[k].nonzero || (e.regs.con0[8] && ws[k].d != Zeros(16))
  {
    assert StepOn(e, es, ws, k);
  }

  lemma {:induction false} FlagRises(e: Engine, es: seq<Engine>, ws: seq<Word4>, k: nat)
    requires Whole(e, es, ws) && k <= |ws| && !e.nonzero
    ensures es[k].nonzero <==> e.regs.con0[8] && Marked(ws, k)
  {
    if k > 0 {
      FlagRises(e, es, ws, k - 1);
      FlagNext(e, es, ws, k - 1);
      MarkedNext(ws, k - 1);
    }
  }

  /** Main result: the zero flag is down after a blit just when a word that was written was not zero. */
  lemma {:induction false} FlagTells(e: Engine, n: nat, es: seq<Engine>)
    requires Fresh(e) && n == e.area.remaining && es == Run(e, n) && ReadsFirst(e) && !e.nonzero
    ensures es[n].nonzero <==> SomeNonzero(e)
  {
    var ws := Words(es);
    RunIsWhole(e, n, es);
    FlagRises(e, es, ws, n);
    if es[n].nonzero {
      var i :| 0 <= i < n && ws[i].d != Zeros(16);
      EveryStepRight(e, es, ws, i);
      assert StepOn(e, es, ws, i);
      RowInRange(e, es[i], i);
      assert Result(e, es[i].area.y, es[i].area.x) != Zeros(16);
    }
    if SomeNonzero(e) {
      var y, x :| InShape(e, y, x) && Result(e, y, x) != Zeros(16);
      var k := StepOfWord(e, es, ws, y, x);
      EveryStepRight(e, es, ws, k);
    }
  }
}
