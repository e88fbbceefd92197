/** A blit stepped from the slots of many scanlines is the blit run in one go. */
module BlitterRun {
  import opened Bits
  import opened Blitter
  import opened DmaSlots
  import opened Iteration

  /** One DMA slot's worth of work. */
  function EngineStep(e: Engine): Engine
  {
    if e.line.active then LineStep(e) else if e.area.active then AreaStep(e) else e
  }

  function Steps(e: Engine, k: nat): Engine
  {
    Iterate(EngineStep, e, k)
  }

  /** Words or pixels the engine still has to do. */
  function Left(e: Engine): (n: int)
  {
    if e.line.active then e.line.remaining else if e.area.active then e.area.remaining else 0
  }

  /** At most one engine runs, it has work left, and busy says so. */
  predicate Consistent(e: Engine)
  {
    !(e.line.active && e.area.active) && (e.line.active ==> e.line.remaining > 0) &&
    (e.area.active ==> e.area.remaining > 0) && e.busy == (e.line.active || e.area.active)
  }

  /** A launch leaves one engine running with all its work ahead, whatever ran before, if and only if it does not start a line
      over a running area blit. */
  lemma {:induction false} LaunchConsistent(e: Engine, width: int, height: int)
    requires width >= 1 && height >= 1
    ensures Consistent(Launch(e, width, height)) <==> !(e.regs.con1[0] && e.area.active)
    ensures Launch(e, width, height).busy
    ensures Left(Launch(e, width, height)) == if e.regs.con1[0] then height else width * height
  {
    MulGap(width, 0, height);
  }

  /** One step: a word less, and with the last one busy drops and the BLIT interrupt is raised. */
  predicate Stepped(e: Engine, q: Engine)
  {
    Consistent(q) &&
    if Left(e) > 0 then Left(q) == Left(e) - 1 && q.busy == (Left(q) > 0) && q.blit == (e.blit || Left(q) == 0) else q == e
  }

  lemma {:induction false} DrawCounts(e: Engine)
    ensures var q := Draw(e);
      q.line.active == e.line.active && q.line.remaining == e.line.remaining - 1 && q.area == e.area && q.busy == e.busy && q.blit == e.blit
  {
  }

  lemma {:induction false} LineStepped(e: Engine)
    requires Consistent(e) && e.line.active
    ensures Stepped(e, LineStep(e))
  {
    DrawCounts(e);
    CountsDown(e, Draw(e), LineStep(e));
  }

  lemma {:induction false} CountsDown(e: Engine, q: Engine, r: Engine)
    requires Consistent(e) && e.line.active && r == if q.line.remaining > 0 then q else EndLine(q)
    requires q.line.active && q.line.remaining == e.line.remaining - 1 && q.area == e.area && q.busy == e.busy && q.blit == e.blit
    ensures Stepped(e, r)
  {
  }

  lemma {:induction false} AreaStepped(e: Engine)
    requires Consistent(e) && e.area.active
    ensures Stepped(e, AreaStep(e))
  {
  }

  lemma {:induction false} EngineStepped(e: Engine)
    requires Consistent(e)
    ensures Stepped(e, EngineStep(e))
  {
    if e.line.active {
      LineStepped(e);
    } else if e.area.active {
      AreaStepped(e);
    }
  }

  function Max0(n: int): nat { if n < 0 then 0 else n }

  /** After k steps: the count went down by k, and busy and the interrupt follow it. */
  ghost predicate Ran(e: Engine, q: Engine, k: nat)
  {
    Consistent(q) && Left(q) == Max0(Left(e) - k) && q.busy == (Left(e) > k) &&
    q.blit == (e.blit || (Left(e) > 0 && k >= Left(e)))
  }

  lemma {:induction false} RanStep(e: Engine, q: Engine, q': Engine, k: nat)
    requires Consistent(e) && Ran(e, q, k) && Stepped(q, q')
    ensures Ran(e, q', k + 1)
  {
  }

  lemma {:induction false} OneMoreStep(e: Engine, q: Engine, k: nat)
    requires Consistent(e) && Ran(e, q, k)
    ensures Ran(e, EngineStep(q), k + 1)
  {
    EngineStepped(q);
    RanStep(e, q, EngineStep(q), k);
  }

  ghost predicate RunsOn(f: Engine -> Engine, e: Engine, i: nat)
  {
    Ran(e, Iterate(f, e, i), i) ==> Ran(e, f(Iterate(f, e, i)), i + 1)
  }

  lemma {:induction false} RanAlong(f: Engine -> Engine, e: Engine, k: nat)
    requires Consistent(e) && forall i {:trigger RunsOn(f, e, i)} :: 0 <= i < k ==> RunsOn(f, e, i)
    ensures Ran(e, Iterate(f, e, k), k)
  {
    if k > 0 {
      RanAlong(f, e, k - 1);
      assert RunsOn(f, e, k - 1);
    }
  }

  lemma {:induction false} StepsRan(e: Engine, k: nat)
    requires Consistent(e)
    ensures Ran(e, Steps(e, k), k)
  {
    forall i | 0 <= i < k
      ensures RunsOn(EngineStep, e, i)
    {
      if Ran(e, Iterate(EngineStep, e, i), i) {
        OneMoreStep(e, Iterate(EngineStep, e, i), i);
      }
    }
    RanAlong(EngineStep, e, k);
  }

  /** Steps past the end change nothing. */
  lemma {:induction false} StepsPastEnd(e: Engine, k: nat)
    requires Consistent(e) && k >= Left(e)
    ensures Steps(e, k) == Steps(e, Max0(Left(e)))
  {
    var n := Max0(Left(e));
    StepsRan(e, n);
    EngineStepped(Steps(e, n));
    Settled(EngineStep, e, n, k);
  }

  // ---------- scanlines ----------

  /** The part of a scanline the blitter sees: the table offered to it and whether it has priority. */
  datatype Scanline = Scanline(table: seq<Channel>, priority: bool)

  /** The slots of a scanline the blitter may use. */
  function Room(s: Scanline): nat { EligibleBefore(s.table, s.priority, |s.table|) }

  /** One scanline: as many steps as there are words left and eligible slots. */
  function AfterLine(e: Engine, s: Scanline): Engine
  {
    Steps(e, Max0(if Left(e) < Room(s) then Left(e) else Room(s)))
  }

  function AfterLines(e: Engine, ss: seq<Scanline>): Engine
  {
    if ss == [] then e else AfterLine(AfterLines(e, ss[..|ss| - 1]), ss[|ss| - 1])
  }

  function TotalRoom(ss: seq<Scanline>): nat
  {
    if ss == [] then 0 else TotalRoom(ss[..|ss| - 1]) + Room(ss[|ss| - 1])
  }

  lemma {:induction false} LineIsRoom(e: Engine, s: Scanline)
    requires Consistent(e)
    ensures AfterLine(e, s) == Steps(e, Room(s))
  {
    if Left(e) < Room(s) {
      StepsRan(e, 0);
      StepsPastEnd(e, Room(s));
    }
  }

  lemma {:induction false} StepsConsistent(e: Engine, k: nat)
    requires Consistent(e)
    ensures Consistent(Steps(e, k))
  {
    StepsRan(e, k);
  }

  /** A scanline starting at step k ends at step n. */
  lemma {:induction false} LineAfterSteps(e: Engine, q: Engine, k: nat, s: Scanline, r: nat, n: nat)
    requires Consistent(q) && q == Steps(e, k) && r == Room(s) && n == k + r
    ensures AfterLine(q, s) == Steps(e, n)
  {
    LineIsRoom(q, s);
    ComposeTo(EngineStep, e, q, k, r, n);
  }

  /** Main result: over any scanlines, the state at every line boundary is the state after that many back-to-back steps. */
  lemma {:induction false} SlotsRefine(e: Engine, ss: seq<Scanline>)
    requires Consistent(e)
    ensures AfterLines(e, ss) == Steps(e, TotalRoom(ss))
  {
    if ss != [] {
      var rest, last := ss[..|ss| - 1], ss[|ss| - 1];
      SlotsRefine(e, rest);
      StepsConsistent(e, TotalRoom(rest));
      LineAfterSteps(e, AfterLines(e, rest), TotalRoom(rest), last, Room(last), TotalRoom(ss));
    }
  }

  /** At every line boundary the engine's own count, busy and the interrupt agree with the slots offered so far. */
  lemma {:induction false} SlotsCount(e: Engine, ss: seq<Scanline>)
    requires Consistent(e)
    ensures Ran(e, AfterLines(e, ss), TotalRoom(ss))
  {
    SlotsRefine(e, ss);
    StepsRan(e, TotalRoom(ss));
  }

  /** Main result: once the lines have offered enough slots, memory, registers and pointers are those of the one-shot run,
      busy is down, and the interrupt came in the very line that did the last step. */
  lemma {:induction false} SlotsComplete(e: Engine, ss: seq<Scanline>, s: Scanline)
    requires Consistent(e) && e.busy && TotalRoom(ss) < Left(e) <= TotalRoom(ss) + Room(s)
    ensures AfterLines(e, ss).busy && AfterLines(e, ss).blit == e.blit
    ensures var q := AfterLines(e, ss + [s]); q == Steps(e, Left(e)) && !q.busy && q.blit && Left(q) == 0
  {
    SlotsCount(e, ss);
    SlotsRefine(e, ss + [s]);
    assert (ss + [s])[..|ss|] == ss;
    StepsPastEnd(e, TotalRoom(ss + [s]));
    StepsRan(e, Left(e));
  }
}
