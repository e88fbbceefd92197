/** The profiler as the kernel keeps it, and its report. */
module ProfilerUnit {
  import opened Profiler

  // ---------- the report ----------

  /** Slot `i` is listed before slot `j`: larger count, or equal count and lower index. */
  predicate Before(slots: seq<Slot>, i: nat, j: nat)
    requires i < |slots| && j < |slots|
  {
    slots[i].count > slots[j].count || (slots[i].count == slots[j].count && i < j)
  }

  predicate Listable(slots: seq<Slot>, i: nat)
    requires i < |slots|
  {
    slots[i].rip != 0 && slots[i].count > 0
  }

  /** `order` lists the front of the ranking: in rank order, and nothing left out ranks before anything listed. */
  ghost predicate Ranked(slots: seq<Slot>, order: seq<nat>)
  {
    && (forall a :: 0 <= a < |order| ==> order[a] < |slots| && Listable(slots, order[a]))
    && (forall a, b :: 0 <= a < b < |order| ==> Before(slots, order[a], order[b]))
    && (forall a, i :: 0 <= a < |order| && 0 <= i < |slots| && Listable(slots, i) && i !in order ==> Before(slots, order[a], i))
  }

  method InOrder(used: seq<nat>, i: nat) returns (dup: bool)
    ensures dup <==> i in used
  {
    for j := 0 to |used|
      invariant i !in used[..j]
    {
      if used[j] == i {
        return true;
      }
    }
    return false;
  }

  /** The best slot not yet listed, or -1. */
  method Best(slots: array<Slot>, order: seq<nat>) returns (best: int)
    ensures best == -1 ==> forall i :: 0 <= i < slots.Length && slots[i].rip != 0 ==> i in order
    ensures best != -1 ==> 0 <= best < slots.Length && slots[best].rip != 0 && best !in order
    ensures best != -1 ==>
      forall i :: 0 <= i < slots.Length && slots[i].rip != 0 && i !in order && i != best ==> Before(slots[..], best, i)
  {
    best := -1;
    for i := 0 to slots.Length
      invariant -1 <= best < i
      invariant best == -1 ==> forall k :: 0 <= k < i && slots[k].rip != 0 ==> k in order
      invariant best != -1 ==> slots[best].rip != 0 && best !in order
      invariant best != -1 ==>
        forall k :: 0 <= k < i && slots[k].rip != 0 && k !in order && k != best ==> Before(slots[..], best, k)
    {
      if slots[i].rip != 0 {
        var dup := InOrder(order, i);
        if !dup && (best < 0 || slots[i].count > slots[best].count) {
          best := i;
        }
      }
    }
  }

  lemma {:induction false} RankedOn(slots: seq<Slot>, order: seq<nat>, best: nat)
    requires Ranked(slots, order) && best < |slots| && Listable(slots, best) && best !in order
    requires forall i :: 0 <= i < |slots| && slots[i].rip != 0 && i !in order && i != best ==> Before(slots, best, i)
    ensures Ranked(slots, order + [best])
  {
  }

  /** The listed slots, at most `top` and never more than 64. */
  method Report(slots: array<Slot>, samples: nat, top: int) returns (order: seq<nat>)
    ensures Ranked(slots[..], order)
    ensures |order| <= 64 && (|order| <= top || order == [])
    ensures samples > 0 && |order| < 64 && |order| < top ==>
      forall i :: 0 <= i < slots.Length && Listable(slots[..], i) ==> i in order
    ensures samples == 0 ==> order == []
  {
    order := [];
    if samples == 0 {
      return;
    }
    var n := if top > 64 then 64 else top;
    var pass := 0;
    while pass < n
      invariant Ranked(slots[..], order) && |order| == pass && (pass <= n || pass == 0)
      decreases n - pass
    {
      var best := Best(slots, order);
      if best < 0 || slots[best].count == 0 {
        return;
      }
      RankedOn(slots[..], order, best);
      order := order + [best];
      pass := pass + 1;
    }
  }

  // ---------- the table in place ----------

  class Sampler {
    const slots: array<Slot>
    var samples: nat
    var collisions: nat
    var on: bool

    ghost function View(): Table
      reads this, slots
    {
      Table(slots[..], samples, collisions)
    }

    constructor ()
      ensures View() == Start() && !on && fresh(slots)
    {
      slots := new Slot[SLOTS](_ => Slot(0, 0, 0));
      samples, collisions, on := 0, 0, false;
      new;
      assert slots[..] == Start().slots;
    }

    method Begin()
      requires slots.Length == SLOTS
      modifies this, slots
      ensures View() == Start() && on
    {
      for i := 0 to SLOTS
        invariant forall k :: 0 <= k < i ==> slots[k] == Slot(0, 0, 0)
      {
        slots[i] := Slot(0, 0, 0);
      }
      samples, collisions, on := 0, 0, true;
      assert slots[..] == Start().slots;
    }

    /** One timer tick: `rip` is 0 when no interrupted frame is known. */
    method Tick(rip: nat, task: nat)
      requires slots.Length == SLOTS
      modifies this, slots
      ensures on == old(on)
      ensures View() == if on then Record(old(View()), Home, Sample(rip, task)) else old(View())
    {
      if !on || rip == 0 {
        return;
      }
      var h := Home(rip);
      ghost var was := slots[..];
      for i := 0 to PROBES
        invariant slots[..] == was && samples == old(samples) && collisions == old(collisions) && on
        invariant Probe(was, h, rip, 0) == Probe(was, h, rip, i)
      {
        var j := (h + i) % SLOTS;
        assert j == At(h, i) && slots[j] == was[j];
        if slots[j].rip == rip {
          slots[j] := Slot(rip, slots[j].count + 1, task);
          samples := samples + 1;
          return;
        }
        if slots[j].rip == 0 {
          slots[j] := Slot(rip, 1, task);
          samples := samples + 1;
          return;
        }
      }
      collisions := collisions + 1;
      samples := samples + 1;
    }
  }
}
