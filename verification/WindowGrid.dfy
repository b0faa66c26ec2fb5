/**
  The window grid: which grid point `align` finds, which sliding indices
  `sliding_range` finds, how many there are, and the invariant that ties every
  core to the grid while the clock does not go backwards.
*/
module WindowGrid {
  import opened WindowCore

  function GridPoint(g: Grid, step: nat, n: nat): int { g.anchor + n * step }

  predicate OnGrid(g: Grid, step: nat, t: int) {
    exists n: nat :: n <= Since(t, g.anchor) && t == GridPoint(g, step, n)
  }

  lemma Quotient(a: nat, b: nat)
    requires 0 < b
    ensures a / b * b <= a < a / b * b + b
  {
  }

  lemma ScaleUp(a: nat, b: nat)
    requires 0 < b
    ensures a <= a * b
  {
  }

  lemma DivBounds(a: nat, b: nat)
    requires 0 < b
    ensures a / b * b <= a < a / b * b + b
    ensures a / b <= a
  {
    Quotient(a, b);
    ScaleUp(a / b, b);
  }

  lemma {:induction false} MulMonotone(a: nat, b: nat, c: nat)
    requires a <= b
    ensures a * c <= b * c
  {
    assert b * c == a * c + (b - a) * c;
  }

  /** A multiple of `b` lies at or below `a` exactly if it is at most the quotient. */
  lemma DivUnique(k: nat, a: nat, b: nat)
    requires 0 < b
    ensures k * b <= a <==> k <= a / b
  {
    DivBounds(a, b);
    if k <= a / b {
      MulMonotone(k, a / b, b);
    } else {
      MulMonotone(a / b + 1, k, b);
    }
  }

  lemma QuotientIsUnique(a: nat, b: nat, q: nat)
    requires 0 < b && q * b <= a < q * b + b
    ensures a / b == q
  {
    DivBounds(a, b);
    DivUnique(q, a, b);
    var p := a / b;
    if q < p {
      MulMonotone(q + 1, p, b);
    }
  }

  /** `align` finds the last grid point not after `now`; the fallback is never used. */
  lemma AlignFindsGridPoint(g: Grid, now: int, size: nat)
    requires 0 < size && g.anchor <= now <= g.horizon
    ensures Align(g, now, size) <= now < Align(g, now, size) + size
    ensures OnGrid(g, size, Align(g, now, size))
  {
    var e := Since(now, g.anchor);
    var n := e / size;
    DivBounds(e, size);
    assert Align(g, now, size) == GridPoint(g, size, n);
    if n > n * size {
      MulMonotone(1, size, n);
    }
  }

  /** The grid point of a window that contains `now` is the one `align` finds. */
  lemma AlignIsUnique(g: Grid, now: int, size: nat, s: int)
    requires 0 < size && g.anchor <= now <= g.horizon
    requires OnGrid(g, size, s) && s <= now < s + size
    ensures Align(g, now, size) == s
  {
    var n: nat :| n <= Since(s, g.anchor) && s == GridPoint(g, size, n);
    assert n * size == s - g.anchor;
    QuotientIsUnique(Since(now, g.anchor), size, n);
  }

  /** The window with index `k` contains the offset `e`. */
  predicate Covers(size: nat, slide: nat, k: nat, e: nat) {
    k * slide <= e < k * slide + size
  }

  /** `sliding_range` is exactly the set of windows that contain `now`. */
  lemma RangeIsExact(g: Grid, now: int, size: nat, slide: nat, k: nat)
    requires 0 < slide && g.anchor <= now
    ensures KMin(g, now, size, slide) <= k <= KMax(g, now, slide) <==> Covers(size, slide, k, now - g.anchor)
    ensures k < KMin(g, now, size, slide) <==> k * slide + size <= now - g.anchor
    ensures k <= KMax(g, now, slide) <==> k * slide <= now - g.anchor
  {
    var e := now - g.anchor;
    DivUnique(k, e, slide);
    if size <= e {
      DivUnique(k, e - size, slide);
    }
  }

  /** `sliding_range` only moves forward while the clock does. */
  lemma RangeIsMonotone(g: Grid, t: int, u: int, size: nat, slide: nat)
    requires 0 < slide && g.anchor <= t <= u
    ensures KMin(g, t, size, slide) <= KMin(g, u, size, slide)
    ensures KMax(g, t, slide) <= KMax(g, u, slide)
  {
    RangeIsExact(g, u, size, slide, KMax(g, t, slide));
    RangeIsExact(g, t, size, slide, KMax(g, t, slide));
    if KMin(g, u, size, slide) < KMin(g, t, size, slide) {
      RangeIsExact(g, t, size, slide, KMin(g, u, size, slide));
      RangeIsExact(g, u, size, slide, KMin(g, u, size, slide));
    }
  }

  /** How many windows an arrival at `now` joins. */
  function Joined(g: Grid, now: int, size: nat, slide: nat): int {
    KMax(g, now, slide) - KMin(g, now, size, slide) + 1
  }

  /**
    Once the grid has been running for `size - slide` (which the shifted origin
    arranges for the first item), every arrival joins the floor or the ceiling of
    `size / slide` windows, and exactly `size / slide` when `slide` divides `size`.
    The documentation's `ceil(size / slide)` is exact only in that case.
  */
  lemma JoinedIsFloorOrCeil(g: Grid, now: int, size: nat, slide: nat)
    requires 0 < slide <= size
    requires g.anchor + (CeilDiv(size, slide) - 1) * slide <= now
    ensures size / slide <= Joined(g, now, size, slide) <= CeilDiv(size, slide)
    ensures size % slide == 0 ==> Joined(g, now, size, slide) == CeilDiv(size, slide)
  {
    var q, c := size / slide, CeilDiv(size, slide);
    var lo, hi := KMin(g, now, size, slide), KMax(g, now, slide);
    QuotientBounds(size, slide);
    RangeIsExact(g, now, size, slide, c - 1);
    // The last `q` windows up to `hi` all contain `now` ...
    if hi + 1 - q < lo {
      RangeIsExact(g, now, size, slide, hi);
      RangeIsExact(g, now, size, slide, hi + 1);
      RangeIsExact(g, now, size, slide, hi + 1 - q);
      Distribute(hi + 1 - q, q, slide);
    }
    // ... and the one `c` positions before the last has ended.
    if lo < hi + 1 - c {
      RangeIsExact(g, now, size, slide, hi);
      RangeIsExact(g, now, size, slide, hi - c);
      Distribute(hi - c, c, slide);
    }
  }

  /**
    Exactly when the documentation's `ceil(size / slide)` is right for an arrival: if the
    grid has been running for long enough, and `slide` divides `size`, or the arrival lies
    less than the remainder of that division past a grid point.
  */
  lemma JoinedIsCeilExactlyWhen(g: Grid, now: int, size: nat, slide: nat)
    requires 0 < slide <= size && g.anchor <= now
    ensures Joined(g, now, size, slide) == CeilDiv(size, slide)
       <==> && g.anchor + (CeilDiv(size, slide) - 1) * slide <= now
            && (size % slide == 0 || (now - g.anchor) % slide < size % slide)
  {
    var e := now - g.anchor;
    var q, s, a, r := size / slide, size % slide, e / slide, e % slide;
    if e < (CeilDiv(size, slide) - 1) * slide {
      QuotientBounds(size, slide);
      RangeIsExact(g, now, size, slide, CeilDiv(size, slide) - 1);
      return;
    }
    JoinedIsFloorOrCeil(g, now, size, slide);
    if s != 0 {
      QuotientBounds(size, slide);
      DivisionOf(size, slide);
      DivisionOf(e, slide);
      assert q <= a by { DivUnique(q, e, slide); }
      // Window a - q is the one in question: it is the first of q + 1 up to a.
      RangeIsExact(g, now, size, slide, a - q);
      Distribute(a - q, q, slide);
    }
  }

  /**
    The shifted origin does what it is for: if it is representable, the first item joins
    ceil(size / slide) windows, and it and every later arrival meet the hypothesis above.
  */
  lemma OriginIsFarEnough(first: int, lowest: int, now: int, horizon: int, size: nat, slide: nat)
    requires 0 < slide <= size && first <= now
    requires lowest <= first - (CeilDiv(size, slide) - 1) * slide
    ensures var g := Grid(GridOrigin(Sliding(size, slide), first, lowest), horizon);
      && g.anchor + (CeilDiv(size, slide) - 1) * slide <= now
      && Joined(g, first, size, slide) == CeilDiv(size, slide)
      && size / slide <= Joined(g, now, size, slide) <= CeilDiv(size, slide)
  {
    QuotientBounds(size, slide);
    var c := CeilDiv(size, slide);
    var g := Grid(GridOrigin(Sliding(size, slide), first, lowest), horizon);
    assert Max(c - 1, 0) == c - 1 && Max(slide, 1) == slide;
    JoinedIsFloorOrCeil(g, first, size, slide);
    JoinedIsFloorOrCeil(g, now, size, slide);
    JoinedIsCeilExactlyWhen(g, first, size, slide);
    if size % slide != 0 {
      QuotientIsUnique((c - 1) * slide, slide, c - 1);
      DivisionOf((c - 1) * slide, slide);
    }
  }

  /** If the shifted origin is not representable, the first item joins one window only. */
  lemma OriginFallsBack(first: int, lowest: int, horizon: int, size: nat, slide: nat)
    requires 0 < slide <= size && first - (CeilDiv(size, slide) - 1) * slide < lowest
    ensures Joined(Grid(GridOrigin(Sliding(size, slide), first, lowest), horizon), first, size, slide) == 1
  {
    QuotientBounds(size, slide);
    assert Max(slide, 1) == slide && Max(CeilDiv(size, slide) - 1, 0) == CeilDiv(size, slide) - 1;
  }

  /** An arrival that joins one window fewer: size 3, slide 2, offset 3 joins one window, not two. */
  lemma OneWindowFewer()
    ensures Joined(Grid(0, 100), 3, 3, 2) == 1 && CeilDiv(3, 2) == 2
  {
    assert KMin(Grid(0, 100), 3, 3, 2) == 1 && KMax(Grid(0, 100), 3, 2) == 1;
  }

  lemma DivisionOf(a: nat, b: nat)
    requires 0 < b
    ensures a == a / b * b + a % b && a % b < b
  {
  }

  lemma Distribute(a: nat, b: nat, c: nat)
    ensures (a + b) * c == a * c + b * c
  {
  }

  lemma QuotientBounds(size: nat, slide: nat)
    requires 0 < slide <= size
    ensures size / slide * slide <= size <= CeilDiv(size, slide) * slide
    ensures 1 <= size / slide <= CeilDiv(size, slide)
  {
    var q := size / slide;
    DivBounds(size, slide);
    DivUnique(1, size, slide);
    Distribute(q, 1, slide);
  }
}
