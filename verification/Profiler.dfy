/** The sampling profiler's table: open addressing with eight probes, no deletion, and a report by repeated selection. */
module Profiler {

  const SLOTS := 4096
  const PROBES := 8

  /** `rip` 0 marks an empty slot. */
  datatype Slot = Slot(rip: nat, count: nat, task: nat)

  datatype Sample = Sample(rip: nat, task: nat)

  datatype Table = Table(slots: seq<Slot>, samples: nat, collisions: nat)

  predicate Valid(t: Table) { |t.slots| == SLOTS }

  function At(home: nat, i: nat): nat { (home + i) % SLOTS }

  /** The first probe from `i` on that ends the search for `rip`, or `PROBES`. */
  function Probe(slots: seq<Slot>, home: nat, rip: nat, i: nat): (r: nat)
    requires |slots| == SLOTS && i <= PROBES
    ensures i <= r <= PROBES
    ensures forall k :: i <= k < r ==> slots[At(home, k)].rip != rip && slots[At(home, k)].rip != 0
    ensures r < PROBES ==> slots[At(home, r)].rip == rip || slots[At(home, r)].rip == 0
    decreases PROBES - i
  {
    if i == PROBES || slots[At(home, i)].rip == rip || slots[At(home, i)].rip == 0 then i
    else Probe(slots, home, rip, i + 1)
  }

  /** The multiplicative hash of an instruction pointer. */
  function Home(rip: nat): nat { rip * 0x9E3779B97F4A7C15 % 0x1_0000_0000_0000_0000 / 0x1_0000_0000 % SLOTS }

  function Record(t: Table, home: nat -> nat, s: Sample): (r: Table)
    requires Valid(t)
    ensures Valid(r)
  {
    if s.rip == 0 then t
    else
      var h := home(s.rip);
      var i := Probe(t.slots, h, s.rip, 0);
      if i == PROBES then t.(collisions := t.collisions + 1, samples := t.samples + 1)
      else
        var j := At(h, i);
        var count := if t.slots[j].rip == s.rip then t.slots[j].count + 1 else 1;
        t.(slots := t.slots[j := Slot(s.rip, count, s.task)], samples := t.samples + 1)
  }

  function Start(): (r: Table)
    ensures Valid(r)
  {
    Table(seq(SLOTS, _ => Slot(0, 0, 0)), 0, 0)
  }

  function Run(home: nat -> nat, stream: seq<Sample>): (r: Table)
    ensures Valid(r)
  {
    if stream == [] then Start() else Record(Run(home, stream[..|stream| - 1]), home, stream[|stream| - 1])
  }

  // ---------- what the stream says ----------

  function Seen(stream: seq<Sample>, rip: nat): nat
  {
    if stream == [] then 0
    else Seen(stream[..|stream| - 1], rip) + if stream[|stream| - 1].rip == rip then 1 else 0
  }

  /** The task of the last sample at `rip`. */
  function LastTask(stream: seq<Sample>, rip: nat): nat
  {
    if stream == [] then 0
    else if stream[|stream| - 1].rip == rip then stream[|stream| - 1].task
    else LastTask(stream[..|stream| - 1], rip)
  }

  function Taken(stream: seq<Sample>): nat
  {
    if stream == [] then 0
    else Taken(stream[..|stream| - 1]) + if stream[|stream| - 1].rip != 0 then 1 else 0
  }

  function Total(slots: seq<Slot>): nat
  {
    if slots == [] then 0 else slots[0].count + Total(slots[1..])
  }

  // ---------- exact or silent ----------

  /** Slot `j` is where a search for its `rip` ends, and holds all of its samples. */
  ghost predicate Exact(t: Table, home: nat -> nat, stream: seq<Sample>, j: nat)
    requires Valid(t) && j < SLOTS
  {
    var s := t.slots[j];
    var h := home(s.rip);
    var i := Probe(t.slots, h, s.rip, 0);
    i < PROBES && j == At(h, i) && s.count == Seen(stream, s.rip) > 0 && s.task == LastTask(stream, s.rip)
  }

  /** `rip` has been sampled but its eight probes are all taken by others. */
  ghost predicate Crowded(t: Table, home: nat -> nat, rip: nat)
    requires Valid(t)
  {
    forall i {:trigger At(home(rip), i)} :: 0 <= i < PROBES ==>
      var s := t.slots[At(home(rip), i)]; s.rip != 0 && s.rip != rip
  }

  ghost predicate Placed(t: Table, home: nat -> nat, stream: seq<Sample>, rip: nat)
    requires Valid(t)
  {
    var h := home(rip);
    var i := Probe(t.slots, h, rip, 0);
    rip != 0 && Seen(stream, rip) > 0 ==> i == PROBES || t.slots[At(h, i)].rip == rip
  }

  ghost predicate Kept(t: Table, home: nat -> nat, stream: seq<Sample>)
    requires Valid(t)
  {
    && (forall j {:trigger t.slots[j]} :: 0 <= j < SLOTS && t.slots[j].rip != 0 ==> Exact(t, home, stream, j))
    && (forall rip {:trigger Placed(t, home, stream, rip)} :: Placed(t, home, stream, rip))
  }

  /** Filling an empty slot, or refreshing a taken one, does not move the end of anyone else's search. */
  lemma {:induction false} ProbeKept(slots: seq<Slot>, j: nat, s: Slot, home: nat, rip: nat, i: nat)
    requires |slots| == SLOTS && j < SLOTS && i <= PROBES && s.rip != 0
    requires slots[j].rip == s.rip || (slots[j].rip == 0 && rip != s.rip)
    requires var p := Probe(slots, home, rip, i); p == PROBES || slots[At(home, p)].rip == rip != 0
    ensures Probe(slots[j := s], home, rip, i) == Probe(slots, home, rip, i)
    decreases PROBES - i
  {
    if i < PROBES && slots[At(home, i)].rip != rip && slots[At(home, i)].rip != 0 {
      ProbeKept(slots, j, s, home, rip, i + 1);
    }
  }

  lemma {:induction false} ProbeFilled(slots: seq<Slot>, j: nat, s: Slot, home: nat, i: nat)
    requires |slots| == SLOTS && i <= PROBES && s.rip != 0
    requires var p := Probe(slots, home, s.rip, i); p < PROBES && j == At(home, p)
    ensures Probe(slots[j := s], home, s.rip, i) == Probe(slots, home, s.rip, i)
    decreases PROBES - i
  {
    if slots[At(home, i)].rip != s.rip && slots[At(home, i)].rip != 0 {
      ProbeFilled(slots, j, s, home, i + 1);
    }
  }

  lemma {:induction false} Appended(stream: seq<Sample>, x: Sample, rip: nat)
    ensures Seen(stream + [x], rip) == Seen(stream, rip) + if x.rip == rip then 1 else 0
    ensures LastTask(stream + [x], rip) == if x.rip == rip then x.task else LastTask(stream, rip)
    ensures Taken(stream + [x]) == Taken(stream) + if x.rip != 0 then 1 else 0
  {
    assert (stream + [x])[..|stream|] == stream;
  }

  lemma {:induction false} DropKeeps(t: Table, home: nat -> nat, stream: seq<Sample>, x: Sample)
    requires Valid(t) && Kept(t, home, stream) && (x.rip == 0 || Probe(t.slots, home(x.rip), x.rip, 0) == PROBES)
    ensures Kept(t, home, stream + [x])
  {
    forall j | 0 <= j < SLOTS && t.slots[j].rip != 0
      ensures Exact(t, home, stream + [x], j)
    {
      assert Exact(t, home, stream, j);
      Appended(stream, x, t.slots[j].rip);
    }
    forall rip
      ensures Placed(t, home, stream + [x], rip)
    {
      assert Placed(t, home, stream, rip);
      Appended(stream, x, rip);
    }
  }

  /** The slot written. */
  lemma {:induction false} WrittenExact(t: Table, home: nat -> nat, stream: seq<Sample>, x: Sample, u: Table, i: nat)
    requires Valid(t) && Kept(t, home, stream) && x.rip != 0 && u == Record(t, home, x)
    requires i == Probe(t.slots, home(x.rip), x.rip, 0) < PROBES
    ensures Exact(u, home, stream + [x], At(home(x.rip), i)) && Placed(u, home, stream + [x], x.rip)
  {
    var j := At(home(x.rip), i);
    ProbeFilled(t.slots, j, u.slots[j], home(x.rip), 0);
    Appended(stream, x, x.rip);
    assert Placed(t, home, stream, x.rip);
    if t.slots[j].rip == x.rip {
      assert Exact(t, home, stream, j);
    }
  }

  /** The slots not written. */
  lemma {:induction false} OtherExact(t: Table, home: nat -> nat, stream: seq<Sample>, x: Sample, u: Table, i: nat, k: nat)
    requires Valid(t) && Kept(t, home, stream) && x.rip != 0 && u == Record(t, home, x)
    requires i == Probe(t.slots, home(x.rip), x.rip, 0) < PROBES && k < SLOTS && k != At(home(x.rip), i) && t.slots[k].rip != 0
    ensures Exact(u, home, stream + [x], k)
  {
    var j, r := At(home(x.rip), i), t.slots[k].rip;
    assert Exact(t, home, stream, k);
    ProbeKept(t.slots, j, u.slots[j], home(r), r, 0);
    Appended(stream, x, r);
  }

  lemma {:induction false} OtherPlaced(t: Table, home: nat -> nat, stream: seq<Sample>, x: Sample, u: Table, i: nat, rip: nat)
    requires Valid(t) && Kept(t, home, stream) && x.rip != 0 && u == Record(t, home, x)
    requires i == Probe(t.slots, home(x.rip), x.rip, 0) < PROBES && rip != x.rip
    ensures Placed(u, home, stream + [x], rip)
  {
    var j := At(home(x.rip), i);
    assert Placed(t, home, stream, rip);
    Appended(stream, x, rip);
    if rip != 0 && Seen(stream, rip) > 0 {
      ProbeKept(t.slots, j, u.slots[j], home(rip), rip, 0);
    }
  }

  lemma {:induction false} WriteKeeps(t: Table, home: nat -> nat, stream: seq<Sample>, x: Sample, u: Table, i: nat)
    requires Valid(t) && Kept(t, home, stream) && x.rip != 0 && u == Record(t, home, x)
    requires i == Probe(t.slots, home(x.rip), x.rip, 0) < PROBES
    ensures Kept(u, home, stream + [x])
  {
    WrittenExact(t, home, stream, x, u, i);
    forall k | 0 <= k < SLOTS && u.slots[k].rip != 0
      ensures Exact(u, home, stream + [x], k)
    {
      if k != At(home(x.rip), i) {
        OtherExact(t, home, stream, x, u, i, k);
      }
    }
    forall rip
      ensures Placed(u, home, stream + [x], rip)
    {
      if rip != x.rip {
        OtherPlaced(t, home, stream, x, u, i, rip);
      }
    }
  }

  // ---------- conservation ----------

  lemma {:induction false} TotalUpdate(slots: seq<Slot>, j: nat, s: Slot)
    requires j < |slots|
    ensures Total(slots[j := s]) == Total(slots) - slots[j].count + s.count
  {
    if j == 0 {
      assert slots[j := s][1..] == slots[1..];
    } else {
      assert slots[j := s][1..] == slots[1..][j - 1 := s];
      TotalUpdate(slots[1..], j - 1, s);
    }
  }

  lemma {:induction false} TotalEmpty(slots: seq<Slot>)
    requires forall j :: 0 <= j < |slots| ==> slots[j].count == 0
    ensures Total(slots) == 0
  {
    if slots != [] {
      TotalEmpty(slots[1..]);
    }
  }

  /** Empty slots count nothing, and counts and drops add up to the samples. */
  ghost predicate Balanced(t: Table, stream: seq<Sample>)
    requires Valid(t)
  {
    && (forall j :: 0 <= j < SLOTS && t.slots[j].rip == 0 ==> t.slots[j].count == 0)
    && Total(t.slots) + t.collisions == t.samples == Taken(stream)
  }

  lemma {:induction false} RecordBalances(t: Table, home: nat -> nat, stream: seq<Sample>, x: Sample)
    requires Valid(t) && Balanced(t, stream)
    ensures Balanced(Record(t, home, x), stream + [x])
  {
    Appended(stream, x, 0);
    if x.rip != 0 {
      var h := home(x.rip);
      var i := Probe(t.slots, h, x.rip, 0);
      if i < PROBES {
        TotalUpdate(t.slots, At(h, i), Record(t, home, x).slots[At(h, i)]);
      }
    }
  }

  lemma {:induction false} RunKeeps(home: nat -> nat, stream: seq<Sample>)
    ensures Kept(Run(home, stream), home, stream) && Balanced(Run(home, stream), stream)
  {
    if stream == [] {
      TotalEmpty(Start().slots);
    } else {
      var before, x := stream[..|stream| - 1], stream[|stream| - 1];
      RunKeeps(home, before);
      var t := Run(home, before);
      assert before + [x] == stream;
      RecordBalances(t, home, before, x);
      if x.rip != 0 && Probe(t.slots, home(x.rip), x.rip, 0) < PROBES {
        WriteKeeps(t, home, before, x, Record(t, home, x), Probe(t.slots, home(x.rip), x.rip, 0));
      } else {
        DropKeeps(t, home, before, x);
        SameSlots(t, Record(t, home, x), home, stream);
      }
    }
  }

  lemma {:induction false} SameSlots(t: Table, u: Table, home: nat -> nat, stream: seq<Sample>)
    requires Valid(t) && Valid(u) && u.slots == t.slots && Kept(t, home, stream)
    ensures Kept(u, home, stream)
  {
    forall j | 0 <= j < SLOTS && u.slots[j].rip != 0
      ensures Exact(u, home, stream, j)
    {
      assert Exact(t, home, stream, j);
    }
    forall rip
      ensures Placed(u, home, stream, rip)
    {
      assert Placed(t, home, stream, rip);
    }
  }

  /** Main result: for every stream of samples and every hash, an instruction pointer has at most one slot, which then counts
      every one of its samples and names the last task seen there; one that was sampled and has no slot had all its samples
      dropped; and counts and drops together make up all samples. */
  lemma {:induction false} ExactOrSilent(home: nat -> nat, stream: seq<Sample>)
    ensures var t := Run(home, stream);
      && (forall j, k :: 0 <= j < k < SLOTS && t.slots[j].rip != 0 ==> t.slots[j].rip != t.slots[k].rip)
      && (forall j :: 0 <= j < SLOTS && t.slots[j].rip != 0 ==>
            t.slots[j].count == Seen(stream, t.slots[j].rip) > 0 && t.slots[j].task == LastTask(stream, t.slots[j].rip))
      && (forall rip :: rip != 0 && Seen(stream, rip) > 0 && (forall j :: 0 <= j < SLOTS ==> t.slots[j].rip != rip) ==> Crowded(t, home, rip))
      && Total(t.slots) + t.collisions == t.samples == Taken(stream)
  {
    RunKeeps(home, stream);
    var t := Run(home, stream);
    forall j, k | 0 <= j < k < SLOTS && t.slots[j].rip != 0
      ensures t.slots[j].rip != t.slots[k].rip
    {
      assert Exact(t, home, stream, j) && (t.slots[k].rip != 0 ==> Exact(t, home, stream, k));
    }
    forall j | 0 <= j < SLOTS && t.slots[j].rip != 0
      ensures t.slots[j].count == Seen(stream, t.slots[j].rip) > 0 && t.slots[j].task == LastTask(stream, t.slots[j].rip)
    {
      assert Exact(t, home, stream, j);
    }
    forall rip | rip != 0 && Seen(stream, rip) > 0 && (forall j :: 0 <= j < SLOTS ==> t.slots[j].rip != rip)
      ensures Crowded(t, home, rip)
    {
      assert Placed(t, home, stream, rip);
    }
  }
}
