/** Line mode draws the line: where the k-th pixel of a Bresenham walk is, in all eight octants. */
module LineGeometry {
  import opened Bits
  import opened Blitter

  function Walks(l: Line, k: nat): Line
  {
    if k == 0 then l else Walk(Walks(l, k - 1))
  }

  /** The linear pixel address the line state points at. */
  function Pixel(p: Spot): int { 8 * p.cpt + p.ash }

  function Sign(neg: bool, v: int): int { if neg then -v else v }

  /** The change of pixel address in one major step, and in one minor step. */
  function Major(l: Line): int { Sign(l.majorNeg, if l.xMajor then 1 else 8 * l.cmod) }

  function Minor(l: Line): int { Sign(l.minorNeg, if l.xMajor then 8 * l.cmod else 1) }

  /** The standard programming for major delta M and minor delta m. */
  predicate Programmed(l: Line, m: int, M: int)
  {
    0 <= m <= M && 1 <= M <= 1023 &&
    l.acc == 4 * m - 2 * M && l.amod == 4 * (m - M) && l.bmod == 4 * m && l.sign == (l.acc < 0)
  }

  /** Minor steps made in k pixels: k * m / M rounded to nearest, halves up. */
  function Rounded(k: nat, m: nat, M: nat): nat
    requires M > 0
  {
    (2 * (k * m) + M) / (2 * M)
  }

  /** The parts of a line state that no step changes. */
  predicate SamePlan(l: Line, w: Line)
  {
    w.amod == l.amod && w.bmod == l.bmod && w.cmod == l.cmod && w.xMajor == l.xMajor && w.majorNeg == l.majorNeg &&
    w.minorNeg == l.minorNeg && w.sing == l.sing && w.active == l.active
  }

  /** A step moves the pixel address by `delta` and keeps the channels together. */
  predicate Moved(p: Spot, q: Spot, delta: int)
  {
    Pixel(q) == Pixel(p) + delta && q.dpt - q.cpt == p.dpt - p.cpt
  }

  lemma {:induction false} MinorMoves(l: Line, p: Spot)
    ensures Moved(p, MinorStep(l, p), Minor(l))
  {
  }

  lemma {:induction false} MajorMoves(l: Line, p: Spot)
    ensures Moved(p, MajorStep(l, p), Major(l))
  {
  }

  /** One step of the walk. */
  predicate Walked(l: Line, w: Line)
  {
    SamePlan(l, w) && w.remaining == l.remaining - 1 &&
    Moved(l.spot, w.spot, Major(l) + (if l.sign then 0 else Minor(l))) &&
    w.acc == Int16(l.acc + (if l.sign then l.bmod else l.amod)) && w.sign == (w.acc < 0)
  }

  lemma {:induction false} WalkMoves(l: Line)
    ensures Walked(l, Walk(l))
  {
    MinorMoves(l, l.spot);
    MajorMoves(l, if l.sign then l.spot else MinorStep(l, l.spot));
  }

  /** The accumulator determines the rounding. */
  lemma {:induction false} RoundedIs(km: int, m: nat, M: nat, n: int)
    requires M > 0 && 0 <= km && 4 * m - 4 * M <= 4 * m - 2 * M + 4 * km - 4 * (M * n) < 4 * m
    ensures n == (2 * km + M) / (2 * M)
  {
    var q, r := (2 * km + M) / (2 * M), (2 * km + M) % (2 * M);
    assert 2 * km + M == 2 * M * q + r;
    assert 2 * M * q == 2 * (M * q);
    MulGap(M, n, q);
    MulGap(M, q, n);
  }

  /** After k pixels: the walk is k major steps and Rounded(k, m, M) minor steps from the start. */
  ghost predicate Arrived(l: Line, w: Line, m: nat, M: nat, k: nat)
    requires M > 0
  {
    var n := Rounded(k, m, M);
    SamePlan(l, w) && w.remaining == l.remaining - k && Moved(l.spot, w.spot, k * Major(l) + n * Minor(l)) &&
    w.acc == 4 * m - 2 * M + 4 * (k * m) - 4 * (M * n) && 4 * m - 4 * M <= w.acc < 4 * m && w.sign == (w.acc < 0)
  }

  lemma {:induction false} RoundedZero(m: nat, M: nat)
    requires M > 0
    ensures Rounded(0, m, M) == 0
  {
  }

  /** One step of the rounding: up by one exactly when the accumulator is not negative. */
  lemma {:induction false} RoundedStep(k: nat, m: nat, M: nat, acc: int)
    requires m <= M && M > 0
    requires acc == 4 * m - 2 * M + 4 * (k * m) - 4 * (M * Rounded(k, m, M)) && 4 * m - 4 * M <= acc < 4 * m
    ensures Rounded(k + 1, m, M) == Rounded(k, m, M) + (if acc < 0 then 0 else 1)
    ensures var acc' := acc + (if acc < 0 then 4 * m else 4 * (m - M));
      acc' == 4 * m - 2 * M + 4 * ((k + 1) * m) - 4 * (M * Rounded(k + 1, m, M)) && 4 * m - 4 * M <= acc' < 4 * m
  {
    var n := Rounded(k, m, M) + (if acc < 0 then 0 else 1);
    assert (k + 1) * m == k * m + m;
    assert M * (Rounded(k, m, M) + 1) == M * Rounded(k, m, M) + M;
    RoundedIs((k + 1) * m, m, M, n);
  }

  lemma {:induction false} Int16Small(x: int)
    requires -32768 <= x < 32768
    ensures Int16(x) == x
  {
  }

  lemma {:induction false} MulSucc(k: int, v: int)
    ensures (k + 1) * v == k * v + v
  {
  }

  lemma {:induction false} ArrivedStep(l: Line, w: Line, w': Line, m: nat, M: nat, k: nat)
    requires Programmed(l, m, M) && Arrived(l, w, m, M, k) && Walked(w, w')
    ensures Arrived(l, w', m, M, k + 1)
  {
    RoundedStep(k, m, M, w.acc);
    Int16Small(w.acc + (if w.sign then w.bmod else w.amod));
    MulSucc(k, Major(l));
    MulSucc(Rounded(k, m, M), Minor(l));
    assert Major(w) == Major(l) && Minor(w) == Minor(l);
  }

  /** Main result: for every octant, slope and pixel of a line, the walk is exactly where rounding says,
      and the accumulator stays where 16 bits hold it. */
  lemma {:induction false} Geometry(l: Line, m: nat, M: nat, k: nat)
    requires Programmed(l, m, M)
    ensures Arrived(l, Walks(l, k), m, M, k)
  {
    if k == 0 {
      RoundedZero(m, M);
    } else {
      Geometry(l, m, M, k - 1);
      WalkMoves(Walks(l, k - 1));
      ArrivedStep(l, Walks(l, k - 1), Walks(l, k), m, M, k - 1);
    }
  }

  lemma {:induction false} RoundedAll(m: nat, M: nat)
    requires M > 0
    ensures Rounded(M, m, M) == m
  {
    assert M * m == m * M;
    RoundedIs(M * m, m, M, m);
  }

  /** The last pixel is the far end point. */
  lemma {:induction false} EndPoint(l: Line, m: nat, M: nat)
    requires Programmed(l, m, M)
    ensures Pixel(Walks(l, M).spot) == Pixel(l.spot) + M * Major(l) + m * Minor(l)
  {
    Geometry(l, m, M, M);
    RoundedAll(m, M);
  }

  // ---------- one pixel per row ----------

  /** With SING on an X-major line, a pixel is drawn exactly when it is the first of its row. */
  lemma {:induction false} SingleFirst(l: Line, m: nat, M: nat, k: nat)
    requires Programmed(l, m, M) && l.sing && l.xMajor && !l.suppress
    ensures Walks(l, k).suppress <==> k > 0 && Rounded(k, m, M) == Rounded(k - 1, m, M)
  {
    if k > 0 {
      Geometry(l, m, M, k - 1);
      var w := Walks(l, k - 1);
      RoundedStep(k - 1, m, M, w.acc);
      WalkMoves(w);
    }
  }

  /** Without SING, or on a Y-major line, every pixel is drawn. */
  lemma {:induction false} AllDrawn(l: Line, k: nat)
    requires (!l.sing || !l.xMajor) && !l.suppress
    ensures !Walks(l, k).suppress && SamePlan(l, Walks(l, k))
  {
    if k > 0 {
      AllDrawn(l, k - 1);
      WalkMoves(Walks(l, k - 1));
    }
  }
}
