/** The search for an output path through an audio codec: from a pin along connection lists to a converter (DAC). */
module CodecPath {
  import opened Bits

  /** A widget: whether it is a DAC, whether it has a connection list, and the list (at most 16 entries are read). */
  datatype Widget = Widget(dac: bool, listed: bool, conns: seq<Nat8>)

  type Codec = g: seq<Widget> | |g| == 256 && forall i :: 0 <= i < |g| ==> |g[i].conns| <= 16
    witness seq(256, _ => Widget(false, false, []))

  const LIMIT := 6

  predicate Links(g: Codec, a: Nat8, b: Nat8)
  {
    !g[a].dac && g[a].listed && b in g[a].conns
  }

  /** A walk along connection lists that ends in a DAC. */
  predicate Walk(g: Codec, p: seq<Nat8>)
  {
    |p| > 0 && g[p[|p| - 1]].dac && forall i :: 0 <= i < |p| - 1 ==> Links(g, p[i], p[i + 1])
  }

  predicate Simple(p: seq<Nat8>)
  {
    forall i, j :: 0 <= i < j < |p| ==> p[i] != p[j]
  }

  /** `idx` names the entry taken at each hop, and is 0 at the end. */
  predicate Labels(g: Codec, p: seq<Nat8>, idx: seq<Nat8>)
  {
    && |idx| == |p| && (p != [] ==> idx[|p| - 1] == 0)
    && forall i :: 0 <= i < |p| - 1 ==> idx[i] < |g[p[i]].conns| && g[p[i]].conns[idx[i]] == p[i + 1]
  }

  /** A simple path from `nid` to a DAC that fits below `depth` and, after its first node, avoids `prefix`. */
  ghost predicate Candidate(g: Codec, nid: Nat8, depth: nat, prefix: seq<Nat8>, p: seq<Nat8>)
  {
    Walk(g, p) && Simple(p) && p[0] == nid && depth + |p| <= LIMIT && forall i :: 1 <= i < |p| ==> p[i] !in prefix
  }

  ghost predicate NoCandidate(g: Codec, nid: Nat8, depth: nat, prefix: seq<Nat8>)
  {
    forall p :: !Candidate(g, nid, depth, prefix, p)
  }

  // ---------- the search ----------

  datatype Route = NoRoute | Route(nodes: seq<Nat8>, idx: seq<Nat8>)

  /** Depth-first search from `nid`, below the nodes in `prefix`. */
  function Search(g: Codec, nid: Nat8, depth: nat, prefix: seq<Nat8>): Route
    decreases LIMIT - depth, 1, 0
  {
    if depth >= LIMIT then NoRoute
    else if g[nid].dac then Route([nid], [0])
    else if !g[nid].listed then NoRoute
    else SearchFrom(g, nid, depth, prefix, 0)
  }

  /** The search through the connections of `nid` from entry `i` on, leaving out nodes in `prefix`. */
  function SearchFrom(g: Codec, nid: Nat8, depth: nat, prefix: seq<Nat8>, i: nat): Route
    requires depth < LIMIT && i <= |g[nid].conns|
    decreases LIMIT - depth, 0, |g[nid].conns| - i
  {
    if i == |g[nid].conns| then NoRoute
    else if g[nid].conns[i] in prefix then SearchFrom(g, nid, depth, prefix, i + 1)
    else
      var r := Search(g, g[nid].conns[i], depth + 1, prefix + [nid]);
      if r.NoRoute? then SearchFrom(g, nid, depth, prefix, i + 1) else Route([nid] + r.nodes, [i] + r.idx)
  }

  // ---------- soundness ----------

  /** No node comes back, except that a widget listing itself may be visited twice in a row. */
  predicate Apart(p: seq<Nat8>)
  {
    forall a, b :: 0 <= a && a + 2 <= b < |p| ==> p[a] != p[b]
  }

  /** A labelled walk from `nid` to a DAC that fits and, after its first node, avoids `prefix`. */
  ghost predicate Good(g: Codec, nid: Nat8, depth: nat, prefix: seq<Nat8>, r: Route)
  {
    && r.Route? && Walk(g, r.nodes) && Labels(g, r.nodes, r.idx) && r.nodes[0] == nid && Apart(r.nodes)
    && depth + |r.nodes| <= LIMIT && forall k :: 1 <= k < |r.nodes| ==> r.nodes[k] !in prefix
  }

  lemma {:induction false} WalkOn(g: Codec, p: seq<Nat8>, idx: seq<Nat8>, nid: Nat8, i: Nat8)
    requires Walk(g, p) && Labels(g, p, idx)
    requires !g[nid].dac && g[nid].listed && i < |g[nid].conns| && g[nid].conns[i] == p[0]
    ensures Walk(g, [nid] + p) && Labels(g, [nid] + p, [i] + idx)
  {
    var q, x := [nid] + p, [i] + idx;
    forall k | 0 <= k < |q| - 1
      ensures Links(g, q[k], q[k + 1])
    {
      if k > 0 {
        assert Links(g, p[k - 1], p[k]);
      }
    }
    forall k | 0 <= k < |q| - 1
      ensures x[k] < |g[q[k]].conns| && g[q[k]].conns[x[k]] == q[k + 1]
    {
      if k > 0 {
        assert q[k] == p[k - 1] && q[k + 1] == p[k] && x[k] == idx[k - 1];
      }
    }
  }

  lemma {:induction false} GoodOn(g: Codec, nid: Nat8, depth: nat, prefix: seq<Nat8>, i: Nat8, r: Route)
    requires !g[nid].dac && g[nid].listed && i < |g[nid].conns| && g[nid].conns[i] !in prefix
    requires Good(g, g[nid].conns[i], depth + 1, prefix + [nid], r)
    ensures Good(g, nid, depth, prefix, Route([nid] + r.nodes, [i] + r.idx))
  {
    WalkOn(g, r.nodes, r.idx, nid, i);
    forall k | 1 <= k < |r.nodes|
      ensures r.nodes[k] !in prefix && r.nodes[k] != nid
    {
      assert r.nodes[k] !in prefix + [nid];
    }
  }

  lemma {:induction false} SearchSound(g: Codec, nid: Nat8, depth: nat, prefix: seq<Nat8>)
    ensures var r := Search(g, nid, depth, prefix); r.NoRoute? || Good(g, nid, depth, prefix, r)
    decreases LIMIT - depth, 1, 0
  {
    if depth < LIMIT && !g[nid].dac && g[nid].listed {
      FromSound(g, nid, depth, prefix, 0);
    }
  }

  lemma {:induction false} FromSound(g: Codec, nid: Nat8, depth: nat, prefix: seq<Nat8>, i: nat)
    requires depth < LIMIT && i <= |g[nid].conns| && !g[nid].dac && g[nid].listed
    ensures var r := SearchFrom(g, nid, depth, prefix, i); r.NoRoute? || Good(g, nid, depth, prefix, r)
    decreases LIMIT - depth, 0, |g[nid].conns| - i
  {
    if i < |g[nid].conns| {
      FromSound(g, nid, depth, prefix, i + 1);
      if g[nid].conns[i] !in prefix {
        SearchSound(g, g[nid].conns[i], depth + 1, prefix + [nid]);
        var r := Search(g, g[nid].conns[i], depth + 1, prefix + [nid]);
        if r.Route? {
          GoodOn(g, nid, depth, prefix, i, r);
        }
      }
    }
  }

  // ---------- completeness ----------

  /** The tail of a candidate is a candidate one level down. */
  lemma {:induction false} TailCandidate(g: Codec, nid: Nat8, depth: nat, prefix: seq<Nat8>, p: seq<Nat8>)
    requires Candidate(g, nid, depth, prefix, p) && !g[nid].dac
    ensures |p| > 1 && g[nid].listed && p[1] in g[nid].conns && p[1] !in prefix
    ensures Candidate(g, p[1], depth + 1, prefix + [nid], p[1..])
  {
    if |p| > 1 {
      assert Links(g, p[0], p[1]);
      forall i | 0 <= i < |p[1..]| - 1
        ensures Links(g, p[1..][i], p[1..][i + 1])
      {
        assert Links(g, p[i + 1], p[i + 2]);
      }
    }
  }

  /** Entry `i` of a widget's list leads to a DAC. */
  ghost predicate Live(g: Codec, nid: Nat8, depth: nat, prefix: seq<Nat8>, i: nat)
    requires i < |g[nid].conns|
  {
    g[nid].conns[i] !in prefix && !NoCandidate(g, g[nid].conns[i], depth + 1, prefix + [nid])
  }

  lemma {:induction false} LiveEntry(g: Codec, nid: Nat8, depth: nat, prefix: seq<Nat8>, p: seq<Nat8>) returns (i: nat)
    requires Candidate(g, nid, depth, prefix, p) && !g[nid].dac
    ensures g[nid].listed && i < |g[nid].conns| && Live(g, nid, depth, prefix, i)
  {
    TailCandidate(g, nid, depth, prefix, p);
    i :| 0 <= i < |g[nid].conns| && g[nid].conns[i] == p[1];
    assert Candidate(g, g[nid].conns[i], depth + 1, prefix + [nid], p[1..]);
  }

  lemma {:induction false} NoneLive(g: Codec, nid: Nat8, depth: nat, prefix: seq<Nat8>)
    requires !g[nid].dac && (g[nid].listed ==> forall i :: 0 <= i < |g[nid].conns| ==> !Live(g, nid, depth, prefix, i))
    ensures NoCandidate(g, nid, depth, prefix)
  {
    forall p | Candidate(g, nid, depth, prefix, p)
      ensures false
    {
      var i := LiveEntry(g, nid, depth, prefix, p);
    }
  }

  lemma {:induction false} CutLoop(g: Codec, p: seq<Nat8>, i: nat, j: nat)
    requires Walk(g, p) && i < j < |p| && p[i] == p[j]
    ensures Walk(g, p[..i] + p[j..]) && (p[..i] + p[j..])[0] == p[0]
  {
    var q := p[..i] + p[j..];
    forall k | 0 <= k < |q| - 1
      ensures Links(g, q[k], q[k + 1])
    {
      if k < i {
        assert Links(g, p[k], p[k + 1]);
      } else {
        assert Links(g, p[k - i + j], p[k - i + j + 1]);
      }
    }
  }

  /** Every walk contains a simple one with the same ends. */
  lemma {:induction false} Straighten(g: Codec, p: seq<Nat8>) returns (q: seq<Nat8>)
    requires Walk(g, p)
    ensures Walk(g, q) && Simple(q) && q[0] == p[0] && |q| <= |p| && forall x :: x in q ==> x in p
    decreases |p|
  {
    if Simple(p) {
      return p;
    }
    var i, j :| 0 <= i < j < |p| && p[i] == p[j];
    CutLoop(g, p, i, j);
    q := Straighten(g, p[..i] + p[j..]);
  }

  lemma {:induction false} GoodIsCandidate(g: Codec, nid: Nat8, depth: nat, prefix: seq<Nat8>, r: Route)
    requires Good(g, nid, depth, prefix, r)
    ensures !NoCandidate(g, nid, depth, prefix)
  {
    var q := Straighten(g, r.nodes);
    forall i | 1 <= i < |q|
      ensures q[i] !in prefix
    {
      assert q[i] in q;
      var k :| 0 <= k < |r.nodes| && r.nodes[k] == q[i];
      assert q[i] != q[0];
    }
    assert Candidate(g, nid, depth, prefix, q);
  }

  /** The first live entry from `i` on, or the length of the list. */
  ghost predicate FirstLive(g: Codec, nid: Nat8, depth: nat, prefix: seq<Nat8>, i: nat, k: nat)
  {
    && i <= k <= |g[nid].conns| && (k < |g[nid].conns| ==> Live(g, nid, depth, prefix, k))
    && forall j :: i <= j < k ==> !Live(g, nid, depth, prefix, j)
  }

  /** Main result: at every node the search succeeds if and only if a simple path that fits leads on to a DAC. */
  lemma {:induction false} SearchIff(g: Codec, nid: Nat8, depth: nat, prefix: seq<Nat8>)
    ensures Search(g, nid, depth, prefix).Route? <==> !NoCandidate(g, nid, depth, prefix)
    decreases LIMIT - depth, 1, 0
  {
    if depth < LIMIT {
      if g[nid].dac {
        assert Candidate(g, nid, depth, prefix, [nid]);
      } else {
        SearchSound(g, nid, depth, prefix);
        if Search(g, nid, depth, prefix).Route? {
          GoodIsCandidate(g, nid, depth, prefix, Search(g, nid, depth, prefix));
        } else {
          if g[nid].listed {
            TakesFirstLive(g, nid, depth, prefix, 0);
          }
          NoneLive(g, nid, depth, prefix);
        }
      }
    }
  }

  /** Main result: which path is found. The search through a list takes its first live entry. */
  lemma {:induction false} TakesFirstLive(g: Codec, nid: Nat8, depth: nat, prefix: seq<Nat8>, i: nat)
    requires depth < LIMIT && i <= |g[nid].conns|
    ensures var r := SearchFrom(g, nid, depth, prefix, i);
            if r.NoRoute? then FirstLive(g, nid, depth, prefix, i, |g[nid].conns|)
            else |r.idx| > 0 && FirstLive(g, nid, depth, prefix, i, r.idx[0]) && r.idx[0] < |g[nid].conns| &&
                 var next := Search(g, g[nid].conns[r.idx[0]], depth + 1, prefix + [nid]);
                 next.Route? && r == Route([nid] + next.nodes, [r.idx[0]] + next.idx)
    decreases LIMIT - depth, 0, |g[nid].conns| - i
  {
    if i < |g[nid].conns| {
      TakesFirstLive(g, nid, depth, prefix, i + 1);
      SearchIff(g, g[nid].conns[i], depth + 1, prefix + [nid]);
    }
  }

  // ---------- repeated nodes ----------

  /** The first live entry of a widget's list is the widget itself. */
  ghost predicate SelfFirst(g: Codec, nid: Nat8, depth: nat, prefix: seq<Nat8>)
  {
    !g[nid].dac && g[nid].listed &&
    exists k :: 0 <= k < |g[nid].conns| && g[nid].conns[k] == nid && FirstLive(g, nid, depth, prefix, 0, k)
  }

  /** Main result: a found path visits `nid` twice in a row if and only if the first live entry of `nid` is `nid` itself. */
  lemma {:induction false} SelfHopIff(g: Codec, nid: Nat8, depth: nat, prefix: seq<Nat8>)
    requires depth < LIMIT
    ensures var r := Search(g, nid, depth, prefix);
            r.Route? && |r.nodes| > 1 && r.nodes[1] == nid <==> SelfFirst(g, nid, depth, prefix)
  {
    if !g[nid].dac && g[nid].listed {
      TakesFirstLive(g, nid, depth, prefix, 0);
      var r := SearchFrom(g, nid, depth, prefix, 0);
      if r.Route? {
        var k := r.idx[0];
        SearchSound(g, g[nid].conns[k], depth + 1, prefix + [nid]);
        assert r.nodes[1] == g[nid].conns[k];
        if SelfFirst(g, nid, depth, prefix) {
          var j :| 0 <= j < |g[nid].conns| && g[nid].conns[j] == nid && FirstLive(g, nid, depth, prefix, 0, j);
          assert j == k;
        }
      }
    }
  }

  /** From each of its nodes on, a found path is what the search finds there. */
  lemma {:induction false} SearchSuffix(g: Codec, nid: Nat8, depth: nat, prefix: seq<Nat8>, k: nat)
    requires var r := Search(g, nid, depth, prefix); r.Route? && k < |r.nodes| && depth < LIMIT
    ensures var r := Search(g, nid, depth, prefix);
            |r.idx| == |r.nodes| && depth + k < LIMIT &&
            Search(g, r.nodes[k], depth + k, prefix + r.nodes[..k]) == Route(r.nodes[k..], r.idx[k..])
    decreases k
  {
    var r := Search(g, nid, depth, prefix);
    SearchSound(g, nid, depth, prefix);
    if k == 0 {
      assert prefix + r.nodes[..0] == prefix && r.nodes[0..] == r.nodes && r.idx[0..] == r.idx;
    } else {
      var c, i := NextNode(g, nid, depth, prefix);
      SearchSuffix(g, c, depth + 1, prefix + [nid], k - 1);
      TailSlices(nid, i, Search(g, c, depth + 1, prefix + [nid]), prefix, k);
    }
  }

  /** The first hop of a found path, and the search that goes on from there. */
  lemma {:induction false} NextNode(g: Codec, nid: Nat8, depth: nat, prefix: seq<Nat8>) returns (c: Nat8, i: Nat8)
    requires var r := Search(g, nid, depth, prefix); r.Route? && |r.nodes| > 1
    ensures depth < LIMIT
    ensures var next := Search(g, c, depth + 1, prefix + [nid]);
            next.Route? && Search(g, nid, depth, prefix) == Route([nid] + next.nodes, [i] + next.idx)
  {
    TakesFirstLive(g, nid, depth, prefix, 0);
    i := Search(g, nid, depth, prefix).idx[0];
    c := g[nid].conns[i];
  }

  lemma {:induction false} TailSlices(nid: Nat8, i: Nat8, next: Route, prefix: seq<Nat8>, k: nat)
    requires next.Route? && |next.idx| == |next.nodes| && 1 <= k <= |next.nodes|
    ensures ([nid] + next.nodes)[k..] == next.nodes[k - 1..] && ([i] + next.idx)[k..] == next.idx[k - 1..]
    ensures ([nid] + next.nodes)[k] == next.nodes[k - 1]
    ensures prefix + ([nid] + next.nodes)[..k] == prefix + [nid] + next.nodes[..k - 1]
  {
  }

  /** Main result: a found path is free of repeats if and only if none of its nodes has itself as its first live entry. */
  lemma {:induction false} SimpleIff(g: Codec, pin: Nat8)
    requires Search(g, pin, 0, []).Route?
    ensures var p := Search(g, pin, 0, []).nodes;
            Simple(p) <==> forall k :: 0 <= k < |p| ==> !SelfFirst(g, p[k], k, p[..k])
  {
    var p := Search(g, pin, 0, []).nodes;
    SearchSound(g, pin, 0, []);
    ApartSimple(p);
    if Simple(p) {
      forall k | 0 <= k < |p|
        ensures !SelfFirst(g, p[k], k, p[..k])
      {
        SelfFirstAt(g, pin, p, k);
      }
    } else {
      var k :| 0 <= k < |p| - 1 && p[k + 1] == p[k];
      SelfFirstAt(g, pin, p, k);
    }
  }

  lemma {:induction false} SelfFirstAt(g: Codec, pin: Nat8, p: seq<Nat8>, k: nat)
    requires var r := Search(g, pin, 0, []); r.Route? && p == r.nodes && k < |p|
    ensures SelfFirst(g, p[k], k, p[..k]) <==> k + 1 < |p| && p[k + 1] == p[k]
  {
    SearchSuffix(g, pin, 0, [], k);
    assert [] + p[..k] == p[..k];
    SelfHopIff(g, p[k], k, p[..k]);
    assert k + 1 < |p| ==> p[k..][1] == p[k + 1];
  }

  lemma {:induction false} ApartSimple(p: seq<Nat8>)
    requires Apart(p)
    ensures Simple(p) <==> forall k :: 0 <= k < |p| - 1 ==> p[k + 1] != p[k]
  {
    if forall k :: 0 <= k < |p| - 1 ==> p[k + 1] != p[k] {
      forall i, j | 0 <= i < j < |p|
        ensures p[i] != p[j]
      {
        if j == i + 1 {
          assert p[i + 1] != p[i];
        }
      }
    } else {
      var k :| 0 <= k < |p| - 1 && p[k + 1] == p[k];
      assert p[k] == p[k + 1];
    }
  }

  /** In a codec in which no widget lists itself, every found path is simple. */
  lemma {:induction false} NoSelfListing(g: Codec, pin: Nat8)
    requires Search(g, pin, 0, []).Route? && forall w: Nat8 :: w !in g[w].conns
    ensures Simple(Search(g, pin, 0, []).nodes)
  {
    SimpleIff(g, pin);
  }

  /** Widget 1 lists itself and then the DAC 2. */
  function SelfLister(): Codec
  {
    seq(256, i => if i == 1 then Widget(false, true, [1, 2]) else Widget(i == 2, false, []))
  }

  /** The search does visit a node already on the path: from widget 1 it finds 1, 1, 2. */
  lemma {:induction false} SelfHopTaken()
    ensures Search(SelfLister(), 1, 0, []) == Route([1, 1, 2], [0, 1, 0])
  {
    var g := SelfLister();
    assert g[1].conns == [1, 2] && g[2].dac;
    assert Search(g, 2, 2, [1, 1]) == Route([2], [0]);
    assert [1] + [1] == [1, 1];
    assert SearchFrom(g, 1, 1, [1], 1) == Route([1] + [2], [1] + [0]);
    assert SearchFrom(g, 1, 1, [1], 0) == Route([1, 2], [1, 0]);
    assert [] + [1] == [1];
    assert SearchFrom(g, 1, 0, [], 0) == Route([1] + [1, 2], [0] + [1, 0]);
  }
}
