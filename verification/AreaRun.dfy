/** A whole area blit: where it stands after k words, what passed through its shifters, and its fill rows. */
module AreaRun {
  import opened Bits
  import opened Blitter
  import opened AreaShift
  import opened Iteration

  /** A freshly launched area blit. */
  predicate Fresh(e: Engine)
  {
    e.area.active && e.area.width >= 1 && e.area.height >= 1 && e.area.x == 0 && e.area.y == 0 &&
    e.area.prevA == Zeros(16) && e.area.prevB == Zeros(16) && e.area.remaining == e.area.width * e.area.height
  }

  lemma {:induction false} LaunchIsFresh(e: Engine, width: int, height: int)
    requires !e.regs.con1[0] && width >= 1 && height >= 1
    ensures Fresh(Launch(e, width, height)) && Launch(e, width, height).busy
  {
  }

  // ---------- one word ----------

  /** The control registers and shape stay put. */
  predicate SameBlit(e: Engine, q: Engine)
  {
    q.regs.con0 == e.regs.con0 && q.regs.con1 == e.regs.con1 && q.regs.afwm == e.regs.afwm && q.regs.alwm == e.regs.alwm &&
    q.regs.amod == e.regs.amod && q.regs.bmod == e.regs.bmod && q.regs.cmod == e.regs.cmod && q.regs.dmod == e.regs.dmod &&
    q.area.width == e.area.width && q.area.height == e.area.height && |q.mem| == |e.mem|
  }

  /** The shifted, combined and filled words of one step. */
  predicate Fetched(e: Engine, w: Word4)
  {
    w.a == Shift(e.area.prevA, w.a0, Field(e.regs.con0, 12), e.regs.con1[1]) &&
    w.b == Shift(e.area.prevB, w.b0, Field(e.regs.con1, 12), e.regs.con1[1]) &&
    w.m == Minterm(e.regs.con0, w.a, w.b, w.c) && Filled(e, w)
  }

  predicate Filled(e: Engine, w: Word4)
  {
    var carry := if e.area.x == 0 then e.regs.con1[2] else e.area.fill;
    if e.regs.con1[3] || e.regs.con1[4] then w.d == Fill(w.m, carry, e.regs.con1[3]) && w.carry == Parity(w.m, carry)
    else w.d == w.m
  }

  /** The state after one step. */
  predicate Stepped(e: Engine, w: Word4, q: Engine)
  {
    e.area.active && e.area.remaining > 0 && SameBlit(e, q) &&
    q.area.remaining == e.area.remaining - 1 && q.area.active == (e.area.remaining > 1) &&
    q.area.prevA == w.a0 && q.area.prevB == w.b0 && q.area.fill == w.carry &&
    (if e.area.x + 1 >= e.area.width then q.area.x == 0 && q.area.y == e.area.y + 1
     else q.area.x == e.area.x + 1 && q.area.y == e.area.y) &&
    q.mem == (if e.regs.con0[8] then Poke(e.mem, e.area.dpt, w.d) else e.mem)
  }

  /** What the area record becomes. */
  predicate Advanced(s: Area, w: Word4, s': Area)
  {
    s'.width == s.width && s'.height == s.height && s'.prevA == w.a0 && s'.prevB == w.b0 && s'.fill == w.carry &&
    (if s.x + 1 >= s.width then s'.x == 0 && s'.y == s.y + 1 else s'.x == s.x + 1 && s'.y == s.y)
  }

  lemma {:induction false} NextAdvances(r: Regs, s: Area, w: Word4, s': Area)
    requires s' == NextArea(r, s, w)
    ensures Advanced(s, w, s') && s'.remaining == s.remaining - 1 && s'.active == s.active
  {
  }

  lemma {:induction false} StepShape(e: Engine, w: Word4, s': Area)
    requires e.area.active && e.area.remaining > 0 && w == Fetch(e) && s' == NextArea(e.regs, e.area, w)
    ensures var q := AreaStep(e);
      && q.area == s'.(active := s'.active && s'.remaining > 0) && q.regs == NextRegs(e.regs, s', w)
      && q.mem == (if e.regs.con0[8] then Poke(e.mem, e.area.dpt, w.d) else e.mem)
  {
  }

  lemma {:induction false} StepIs(e: Engine, w: Word4, q: Engine)
    requires e.area.active && e.area.remaining > 0 && w == Fetch(e) && q == AreaStep(e)
    ensures Stepped(e, w, q)
  {
    var s' := NextArea(e.regs, e.area, w);
    NextAdvances(e.regs, e.area, w, s');
    StepShape(e, w, s');
  }

  lemma {:induction false} FetchIs(e: Engine)
    ensures Fetched(e, Fetch(e))
  {
  }

  // ---------- runs ----------

  /** The states of a blit, one more than the words it has processed. */
  ghost predicate Blitting(es: seq<Engine>, ws: seq<Word4>)
  {
    |es| == |ws| + 1 && forall i {:trigger StepAt(es, ws, i)} :: 0 <= i < |ws| ==> StepAt(es, ws, i)
  }

  predicate StepAt(es: seq<Engine>, ws: seq<Word4>, i: nat)
    requires |es| == |ws| + 1 && i < |ws|
  {
    Stepped(es[i], ws[i], es[i + 1]) && Fetched(es[i], ws[i])
  }

  /** The states of `k` steps from `e`. */
  function Run(e: Engine, k: nat): (es: seq<Engine>)
    ensures |es| == k + 1 && es[0] == e
  {
    States(AreaStep, e, k)
  }

  function Words(es: seq<Engine>): (ws: seq<Word4>)
    requires es != []
    ensures |ws| == |es| - 1
  {
    seq(|es| - 1, i requires 0 <= i < |es| - 1 => Fetch(es[i]))
  }

  /** Where the blit stands after k words. */
  ghost predicate Standing(e: Engine, q: Engine, k: nat)
  {
    SameBlit(e, q) && q.area.remaining == e.area.remaining - k && (q.area.active <==> k < e.area.remaining) &&
    k == q.area.y * e.area.width + q.area.x && 0 <= q.area.x < e.area.width && 0 <= q.area.y
  }

  lemma {:induction false} StandingStep(e: Engine, q: Engine, w: Word4, q': Engine, k: nat)
    requires Standing(e, q, k) && Stepped(q, w, q')
    ensures Standing(e, q', k + 1)
  {
    assert (q.area.y + 1) * e.area.width == q.area.y * e.area.width + e.area.width;
  }

  lemma {:induction false} StandsAt(es: seq<Engine>, ws: seq<Word4>, k: nat)
    requires Blitting(es, ws) && Fresh(es[0]) && k <= |ws|
    ensures Standing(es[0], es[k], k)
  {
    if k > 0 {
      StandsAt(es, ws, k - 1);
      assert StepAt(es, ws, k - 1);
      StandingStep(es[0], es[k - 1], ws[k - 1], es[k], k - 1);
    } else {
      StartStands(es[0]);
    }
  }

  /** What a step does to a blit that has words left. */
  ghost predicate WorksAt(es: seq<Engine>, ws: seq<Word4>, i: nat)
    requires |es| == |ws| + 1 && i < |ws|
  {
    es[i].area.active && es[i].area.remaining > 0 ==> StepAt(es, ws, i)
  }

  lemma {:induction false} WorksOn(es: seq<Engine>, ws: seq<Word4>, k: nat)
    requires |es| == |ws| + 1 && Fresh(es[0]) && k <= |ws| && k <= es[0].area.remaining
    requires forall i {:trigger WorksAt(es, ws, i)} :: 0 <= i < k ==> WorksAt(es, ws, i)
    ensures Standing(es[0], es[k], k) && forall i {:trigger StepAt(es, ws, i)} :: 0 <= i < k ==> StepAt(es, ws, i)
  {
    if k > 0 {
      WorksOn(es, ws, k - 1);
      assert WorksAt(es, ws, k - 1);
      StandingStep(es[0], es[k - 1], ws[k - 1], es[k], k - 1);
    } else {
      StartStands(es[0]);
    }
  }

  lemma {:induction false} StartStands(e: Engine)
    requires Fresh(e)
    ensures Standing(e, e, 0)
  {
    assert e.area.width * e.area.height > 0;
  }

  lemma {:induction false} RunWorks(e: Engine, k: nat, es: seq<Engine>, i: nat)
    requires es == Run(e, k) && i < k
    ensures WorksAt(es, Words(es), i)
  {
    StatesStep(AreaStep, e, k, i);
    if es[i].area.active && es[i].area.remaining > 0 {
      StepIs(es[i], Words(es)[i], es[i + 1]);
      FetchIs(es[i]);
    }
  }

  /** Running the engine from a fresh launch is such a run. */
  lemma {:induction false} RunBlits(e: Engine, k: nat)
    requires Fresh(e) && k <= e.area.remaining
    ensures Blitting(Run(e, k), Words(Run(e, k)))
  {
    var es := Run(e, k);
    forall i | 0 <= i < k
      ensures WorksAt(es, Words(es), i)
    {
      RunWorks(e, k, es, i);
    }
    WorksOn(es, Words(es), k);
  }

  // ---------- the shifters ----------

  function InA(t: seq<Word4>): seq<Word> { seq(|t|, i requires 0 <= i < |t| => t[i].a0) }

  function OutA(t: seq<Word4>): seq<Word> { seq(|t|, i requires 0 <= i < |t| => t[i].a) }

  function InB(t: seq<Word4>): seq<Word> { seq(|t|, i requires 0 <= i < |t| => t[i].b0) }

  function OutB(t: seq<Word4>): seq<Word> { seq(|t|, i requires 0 <= i < |t| => t[i].b) }

  /** Each word is shifted against the word before it, from zero. */
  ghost predicate Chained(from: seq<Word>, to: seq<Word>, k: nat, desc: bool)
    requires k < 16
  {
    |to| == |from| &&
    forall i {:trigger to[i]} :: 0 <= i < |from| ==> to[i] == Shift(if i == 0 then Zeros(16) else from[i - 1], from[i], k, desc)
  }

  lemma {:induction false} ChainedIsShifted(from: seq<Word>, to: seq<Word>, k: nat, desc: bool)
    requires k < 16 && Chained(from, to, k, desc)
    ensures to == Shifted(from, k, desc)
  {
    if from != [] {
      var n := |from| - 1;
      ChainedIsShifted(from[..n], to[..n], k, desc);
      assert to == to[..n] + [to[n]];
    }
  }

  lemma {:induction false} TraceChains(es: seq<Engine>, ws: seq<Word4>)
    requires Blitting(es, ws) && Fresh(es[0])
    ensures Chained(InA(ws), OutA(ws), Field(es[0].regs.con0, 12), es[0].regs.con1[1])
    ensures Chained(InB(ws), OutB(ws), Field(es[0].regs.con1, 12), es[0].regs.con1[1])
  {
    forall i | 0 <= i < |ws|
      ensures OutA(ws)[i] == Shift(if i == 0 then Zeros(16) else InA(ws)[i - 1], InA(ws)[i],
                                   Field(es[0].regs.con0, 12), es[0].regs.con1[1])
      ensures OutB(ws)[i] == Shift(if i == 0 then Zeros(16) else InB(ws)[i - 1], InB(ws)[i],
                                   Field(es[0].regs.con1, 12), es[0].regs.con1[1])
    {
      StandsAt(es, ws, i);
      assert StepAt(es, ws, i);
      if i > 0 {
        assert StepAt(es, ws, i - 1);
      }
    }
  }

  /** Main result: over a whole blit each source channel is one big integer, shifted by its amount. */
  lemma {:induction false} BlitShifts(es: seq<Engine>, ws: seq<Word4>)
    requires Blitting(es, ws) && Fresh(es[0])
    ensures var ash, bsh := Field(es[0].regs.con0, 12), Field(es[0].regs.con1, 12);
      if es[0].regs.con1[1]
      then NumberUp(OutA(ws)) == (Pow2(ash) * NumberUp(InA(ws))) % Pow2(16 * |ws|) &&
           NumberUp(OutB(ws)) == (Pow2(bsh) * NumberUp(InB(ws))) % Pow2(16 * |ws|)
      else NumberDown(OutA(ws)) == NumberDown(InA(ws)) / Pow2(ash) &&
           NumberDown(OutB(ws)) == NumberDown(InB(ws)) / Pow2(bsh)
  {
    var ash, bsh, desc := Field(es[0].regs.con0, 12), Field(es[0].regs.con1, 12), es[0].regs.con1[1];
    TraceChains(es, ws);
    ChainedIsShifted(InA(ws), OutA(ws), ash, desc);
    ChainedIsShifted(InB(ws), OutB(ws), bsh, desc);
    if desc {
      DescendingMultiplies(InA(ws), ash);
      DescendingMultiplies(InB(ws), bsh);
    } else {
      AscendingDivides(InA(ws), ash);
      AscendingDivides(InB(ws), bsh);
    }
  }
}
