/** The path search as the driver runs it: recursion and loops that fill the path in place, proved to compute `Search`. */
module CodecFinder {
  import opened Bits
  import opened CodecPath

  class Path {
    const nids: array<Nat8>
    const idx: array<Nat8>
    var n: nat

    constructor ()
      ensures Sized(this) && n == 0 && fresh(nids) && fresh(idx)
    {
      nids := new Nat8[LIMIT](_ => 0);
      idx := new Nat8[LIMIT](_ => 0);
      n := 0;
    }
  }

  ghost predicate Sized(path: Path)
  {
    path.nids.Length == LIMIT && path.idx.Length == LIMIT && path.nids != path.idx
  }

  /** From `depth` on, the path holds the route `r`. */
  ghost predicate Holds(path: Path, depth: nat, r: Route)
    requires Sized(path)
    reads path, path.nids, path.idx
  {
    r.Route? && depth < path.n <= LIMIT && path.nids[depth..path.n] == r.nodes && path.idx[depth..path.n] == r.idx
  }

  method InPrefix(nids: array<Nat8>, depth: nat, nid: Nat8) returns (dup: bool)
    requires depth <= nids.Length
    ensures dup <==> nid in nids[..depth]
  {
    dup := false;
    for d := 0 to depth
      invariant dup <==> nid in nids[..d]
    {
      if nids[d] == nid {
        dup := true;
      }
    }
  }

  method Record(path: Path, depth: nat, nid: Nat8, i: Nat8)
    requires Sized(path) && depth < LIMIT
    modifies path.nids, path.idx
    ensures path.nids[..depth] == old(path.nids[..depth]) && path.idx[..depth] == old(path.idx[..depth])
    ensures path.nids[..depth + 1] == old(path.nids[..depth]) + [nid] && path.idx[..depth + 1] == old(path.idx[..depth]) + [i]
  {
    path.nids[depth] := nid;
    path.idx[depth] := i;
  }

  /** Slices of a sequence one element apart. */
  lemma {:induction false} SliceOn(s: seq<Nat8>, a: nat, b: nat, up: seq<Nat8>, x: Nat8)
    requires a < b <= |s| && |up| == a && s[..a + 1] == up + [x]
    ensures s[a..b] == [x] + s[a + 1..b] && s[..a] == up
  {
    assert s[a] == s[..a + 1][a] && s[..a] == s[..a + 1][..a];
  }

  /** Follows entry `i` of a widget's list. */
  method TryHop(g: Codec, nid: Nat8, depth: nat, path: Path, i: Nat8) returns (ok: bool)
    requires Sized(path) && depth < LIMIT && i < |g[nid].conns|
    modifies path, path.nids, path.idx
    ensures path.nids[..depth] == old(path.nids[..depth]) && path.idx[..depth] == old(path.idx[..depth])
    ensures var next := Search(g, g[nid].conns[i], depth + 1, old(path.nids[..depth]) + [nid]);
            if next.Route? then ok && Holds(path, depth, Route([nid] + next.nodes, [i] + next.idx)) else !ok
    decreases LIMIT - depth, 0
  {
    ghost var up, labels := path.nids[..depth], path.idx[..depth];
    Record(path, depth, nid, i);
    var r := FindDac(g, g[nid].conns[i], depth + 1, path);
    ok := r > 0;
    SliceOn(path.nids[..], depth, if ok then path.n else LIMIT, up, nid);
    SliceOn(path.idx[..], depth, if ok then path.n else LIMIT, labels, i);
  }

  /** The search with the nodes above `nid` in `path.nids[..depth]`: a positive result leaves the route in the path. */
  method FindDac(g: Codec, nid: Nat8, depth: nat, path: Path) returns (r: int)
    requires Sized(path) && depth <= LIMIT
    modifies path, path.nids, path.idx
    ensures path.nids[..depth] == old(path.nids[..depth]) && path.idx[..depth] == old(path.idx[..depth])
    ensures var s := Search(g, nid, depth, old(path.nids[..depth]));
            if s.Route? then r > 0 && Holds(path, depth, s) else r <= 0
    decreases LIMIT - depth, 2
  {
    if depth >= LIMIT {
      return -1;
    }
    if g[nid].dac {
      ghost var up, labels := path.nids[..depth], path.idx[..depth];
      Record(path, depth, nid, 0);
      path.n := depth + 1;
      SliceOn(path.nids[..], depth, depth + 1, up, nid);
      SliceOn(path.idx[..], depth, depth + 1, labels, 0);
      return depth + 1;
    }
    if g[nid].listed {
      var ok := TryAll(g, nid, depth, path);
      if ok {
        return 1;
      }
    }
    return -1;
  }

  /** Tries a widget's connections in order, leaving out those already on the path. */
  method TryAll(g: Codec, nid: Nat8, depth: nat, path: Path) returns (ok: bool)
    requires Sized(path) && depth < LIMIT
    modifies path, path.nids, path.idx
    ensures path.nids[..depth] == old(path.nids[..depth]) && path.idx[..depth] == old(path.idx[..depth])
    ensures var s := SearchFrom(g, nid, depth, old(path.nids[..depth]), 0);
            if s.Route? then ok && Holds(path, depth, s) else !ok
    decreases LIMIT - depth, 1
  {
    var conns := g[nid].conns;
    ghost var prefix := path.nids[..depth];
    for i := 0 to |conns|
      invariant path.nids[..depth] == prefix && path.idx[..depth] == old(path.idx[..depth])
      invariant SearchFrom(g, nid, depth, prefix, 0) == SearchFrom(g, nid, depth, prefix, i)
    {
      var dup := InPrefix(path.nids, depth, conns[i]);
      if !dup {
        ok := TryHop(g, nid, depth, path, i);
        if ok {
          return;
        }
      }
    }
    return false;
  }

  /** Main result: the search from a pin succeeds if and only if a simple path of at most six nodes leads to a DAC; the path it
      fills in is then the one `Search` finds, a labelled walk from the pin to a DAC. */
  method FindFromPin(g: Codec, pin: Nat8, path: Path) returns (ok: bool)
    requires Sized(path)
    modifies path, path.nids, path.idx
    ensures ok <==> exists p :: Candidate(g, pin, 0, [], p)
    ensures ok ==> Holds(path, 0, Search(g, pin, 0, [])) && Good(g, pin, 0, [], Search(g, pin, 0, []))
  {
    assert path.nids[..0] == [];
    var r := FindDac(g, pin, 0, path);
    ok := r > 0;
    SearchIff(g, pin, 0, []);
    SearchSound(g, pin, 0, []);
  }
}
