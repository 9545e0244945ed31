/** Deterministic sizing: caps are applied in layers, each of which can only shrink weights, so the returned
    book meets all of them at once. Trimmed weight becomes cash. */
module Sizing {
  import opened RealArith
  import opened Wrappers

  /** A name with its weight in the book. */
  datatype Position = Position(id: int, sector: int, sigma: real, weight: real)

  datatype Limits = Limits(maxPosition: real, maxSector: real, minPosition: real, volTarget: real)
  {
    predicate Valid() { 0.0 < minPosition < maxPosition <= maxSector && volTarget > 0.0 }
  }

  // ----- sums over a book

  function Gross(ps: seq<Position>): real { if ps == [] then 0.0 else Gross(ps[..|ps| - 1]) + ps[|ps| - 1].weight }

  function SectorSum(ps: seq<Position>, s: int): real {
    if ps == [] then 0.0
    else SectorSum(ps[..|ps| - 1], s) + if ps[|ps| - 1].sector == s then ps[|ps| - 1].weight else 0.0
  }

  /** The diagonal-covariance variance of the book. */
  function Squares(ps: seq<Position>): real {
    if ps == [] then 0.0 else Squares(ps[..|ps| - 1]) + Square(ps[|ps| - 1])
  }

  function Square(p: Position): real { Times(Times(p.weight, p.sigma), Times(p.weight, p.sigma)) }

  predicate Long(ps: seq<Position>) { forall p | p in ps :: p.weight >= 0.0 }

  /** The same names with no larger weights. */
  ghost predicate Shrunk(ps: seq<Position>, qs: seq<Position>) {
    && |ps| == |qs|
    && forall i | 0 <= i < |ps| :: qs[i] == ps[i].(weight := qs[i].weight) && 0.0 <= qs[i].weight <= ps[i].weight
  }

  lemma SquareMono(p: Position, q: Position)
    requires q == p.(weight := q.weight) && 0.0 <= q.weight <= p.weight
    ensures 0.0 <= Square(q) <= Square(p)
  {
    var s := p.sigma;
    assert Square(p) == (p.weight * p.weight) * (s * s);
    assert Square(q) == (q.weight * q.weight) * (s * s);
    MulMono(q.weight, p.weight, q.weight);
    MulMono(q.weight, p.weight, p.weight);
    SquareNonNeg(s);
    MulMono(q.weight * q.weight, p.weight * p.weight, s * s);
    SquareNonNeg(q.weight);
    MulNonNeg(q.weight * q.weight, s * s);
  }

  lemma {:induction false} ShrunkSums(ps: seq<Position>, qs: seq<Position>, s: int)
    requires Shrunk(ps, qs)
    ensures Gross(qs) <= Gross(ps) && SectorSum(qs, s) <= SectorSum(ps, s) && Squares(qs) <= Squares(ps)
  {
    hide Square;
    if ps != [] {
      var n := |ps| - 1;
      ShrunkSums(ps[..n], qs[..n], s);
      SquareMono(ps[n], qs[n]);
    }
  }

  lemma {:induction false} LongSums(ps: seq<Position>, s: int)
    requires Long(ps)
    ensures 0.0 <= SectorSum(ps, s) <= Gross(ps) && Squares(ps) >= 0.0
  {
    hide Square;
    if ps != [] {
      LongSums(ps[..|ps| - 1], s);
      SquareMono(ps[|ps| - 1], ps[|ps| - 1]);
    }
  }

  // ----- one scale for all names

  function Rescaled(ps: seq<Position>, c: real): (qs: seq<Position>)
    ensures |qs| == |ps|
  {
    seq(|ps|, i requires 0 <= i < |ps| => ps[i].(weight := Times(ps[i].weight, c)))
  }

  lemma {:induction false} RescaledSums(ps: seq<Position>, c: real)
    ensures Gross(Rescaled(ps, c)) == Times(Gross(ps), c)
    ensures Squares(Rescaled(ps, c)) == Times(Squares(ps), Times(c, c))
  {
    hide Times, Square;
    if ps == [] {
      TimesZero(c);
      TimesZero(Times(c, c));
    } else {
      var n := |ps| - 1;
      RescaledSums(ps[..n], c);
      assert Rescaled(ps, c)[..n] == Rescaled(ps[..n], c);
      TimesAdd(Gross(ps[..n]), ps[n].weight, c);
      TimesAdd(Squares(ps[..n]), Square(ps[n]), Times(c, c));
      SquareRescaled(ps[n], c);
    }
  }

  lemma SquareRescaled(p: Position, c: real)
    ensures Square(p.(weight := Times(p.weight, c))) == Times(Square(p), Times(c, c))
  {
    var x, s := p.weight, p.sigma;
    assert (x * c) * s == (x * s) * c;
    assert ((x * s) * c) * ((x * s) * c) == ((x * s) * (x * s)) * (c * c);
  }

  // ----- sector caps

  function SectorScale(total: real, cap: real): real {
    if total == 0.0 then 1.0 else if cap / total < 1.0 then cap / total else 1.0
  }

  lemma SectorScaleCaps(total: real, cap: real)
    requires total >= 0.0 && cap >= 0.0
    ensures 0.0 <= SectorScale(total, cap) <= 1.0 && Times(total, SectorScale(total, cap)) <= cap
  {
    if total > 0.0 {
      DivNonNeg(cap, total);
      DivMul(cap, total);
      MulMono(SectorScale(total, cap), cap / total, total);
    }
  }

  /** Every over-cap sector scaled pro rata. */
  function Capped(ps: seq<Position>, cap: real): (qs: seq<Position>)
    ensures |qs| == |ps|
  {
    seq(|ps|, i requires 0 <= i < |ps| =>
      ps[i].(weight := Times(ps[i].weight, SectorScale(SectorSum(ps, ps[i].sector), cap))))
  }

  /** A sector whose weights are all scaled by c, whatever the other sectors do. */
  lemma {:induction false} SectorScaled(ps: seq<Position>, qs: seq<Position>, s: int, c: real)
    requires |ps| == |qs|
    requires forall i | 0 <= i < |ps| :: qs[i].sector == ps[i].sector
    requires forall i | 0 <= i < |ps| && ps[i].sector == s :: qs[i].weight == Times(ps[i].weight, c)
    ensures SectorSum(qs, s) == Times(SectorSum(ps, s), c)
  {
    hide Times;
    if ps == [] {
      TimesZero(c);
    } else {
      var n := |ps| - 1;
      SectorScaled(ps[..n], qs[..n], s, c);
      TimesAdd(SectorSum(ps[..n], s), ps[n].weight, c);
    }
  }

  lemma CappedMeetsCaps(ps: seq<Position>, cap: real)
    requires Long(ps) && cap >= 0.0
    ensures Shrunk(ps, Capped(ps, cap)) && forall s :: SectorSum(Capped(ps, cap), s) <= cap
  {
    hide Times, SectorScale;
    forall s ensures SectorSum(Capped(ps, cap), s) <= cap {
      LongSums(ps, s);
      SectorScaleCaps(SectorSum(ps, s), cap);
      SectorScaled(ps, Capped(ps, cap), s, SectorScale(SectorSum(ps, s), cap));
    }
    forall i | 0 <= i < |ps| ensures 0.0 <= Capped(ps, cap)[i].weight <= ps[i].weight {
      LongSums(ps, ps[i].sector);
      var c := SectorScale(SectorSum(ps, ps[i].sector), cap);
      SectorScaleCaps(SectorSum(ps, ps[i].sector), cap);
      TimesMono(c, 1.0, ps[i].weight);
      TimesOne(ps[i].weight);
      TimesMono(0.0, c, ps[i].weight);
      TimesZero(ps[i].weight);
    }
  }

  /** In place, sector by sector, in any order. */
  method CapSectors(cells: array<Position>, cap: real)
    modifies cells
    ensures cells[..] == Capped(old(cells[..]), cap)
  {
    hide Times, SectorScale;
    ghost var was := cells[..];
    var todo := set i | 0 <= i < cells.Length :: cells[i].sector;
    while todo != {}
      invariant forall i | 0 <= i < cells.Length ::
                  cells[i] == if was[i].sector in todo then was[i] else Capped(was, cap)[i]
      decreases |todo|
    {
      var s := Pick(todo);
      var total := SectorSum(cells[..], s);
      SameSector(was, cells[..], s);
      var scale := SectorScale(total, cap);
      for i := 0 to cells.Length
        invariant forall j | 0 <= j < cells.Length ::
                    cells[j] ==
                    if was[j].sector in todo && !(was[j].sector == s && j < i) then was[j] else Capped(was, cap)[j]
      {
        if cells[i].sector == s {
          cells[i] := cells[i].(weight := Times(cells[i].weight, scale));
        }
      }
      todo := todo - {s};
    }
    assert forall i | 0 <= i < cells.Length :: was[i].sector !in todo;
  }

  lemma {:induction false} SameSector(ps: seq<Position>, qs: seq<Position>, s: int)
    requires |ps| == |qs| && forall i | 0 <= i < |ps| :: qs[i].sector == ps[i].sector
    requires forall i | 0 <= i < |ps| && ps[i].sector == s :: qs[i] == ps[i]
    ensures SectorSum(qs, s) == SectorSum(ps, s)
  {
    if ps != [] { SameSector(ps[..|ps| - 1], qs[..|ps| - 1], s); }
  }

  // ----- the volatility target and the gross limit

  function AtMostOne(x: real): real { if x < 1.0 then x else 1.0 }

  /** One scale that brings volatility to the target and gross exposure to one. */
  function RiskScale(ps: seq<Position>, target: real, root: real -> real): real {
    var vol := Root(root, Squares(ps));
    var s := if vol != 0.0 then AtMostOne(target / vol) else 1.0;
    if Gross(ps) != 0.0 then if 1.0 / Gross(ps) < s then 1.0 / Gross(ps) else s else s
  }

  lemma RiskScaleWorks(ps: seq<Position>, target: real, root: real -> real)
    requires Long(ps) && target > 0.0 && IsRoot(root)
    ensures var c := RiskScale(ps, target, root);
            0.0 < c <= 1.0 && Times(Gross(ps), c) <= 1.0 && Times(Squares(ps), Times(c, c)) <= Times(target, target)
  {
    LongSums(ps, 0);
    hide Square, Squares, Gross;
    var g, q := Gross(ps), Squares(ps);
    var vol := Root(root, q);
    var c := RiskScale(ps, target, root);
    if g > 0.0 {
      DivSign(1.0, g);
      DivMul(1.0, g);
    }
    if vol > 0.0 {
      DivSign(target, vol);
      DivMul(target, vol);
    }
    ScaleGross(g, c);
    ScaleVol(q, vol, c, target);
  }

  lemma ScaleGross(g: real, c: real)
    requires g >= 0.0 && (g > 0.0 ==> c <= 1.0 / g)
    ensures Times(g, c) <= 1.0
  {
    if g > 0.0 {
      DivMul(1.0, g);
      MulMono(c, 1.0 / g, g);
    }
  }

  lemma ScaleVol(q: real, vol: real, c: real, target: real)
    requires vol >= 0.0 && Times(vol, vol) == q && 0.0 <= c && target > 0.0 && (vol > 0.0 ==> c <= target / vol)
    ensures Times(q, Times(c, c)) <= Times(target, target)
  {
    var v := vol * c;
    MulNonNeg(vol, c);
    if vol > 0.0 {
      DivMul(target, vol);
      MulMono(c, target / vol, vol);
    } else {
      assert v == 0.0;
    }
    assert v <= target;
    MulMono(v, target, v);
    MulMono(v, target, target);
    assert q * (c * c) == v * v;
  }

  // ----- the final book

  /** Everything a returned book satisfies at once. */
  ghost predicate InLimits(ps: seq<Position>, lim: Limits) {
    && (forall p | p in ps :: lim.minPosition <= p.weight <= lim.maxPosition)
    && (forall s :: SectorSum(ps, s) <= lim.maxSector)
    && Gross(ps) <= 1.0
    && Squares(ps) <= Times(lim.volTarget, lim.volTarget)
  }

  predicate Kept(w: real, least: real) { w >= least }

  function Dusted(ps: seq<Position>, c: real, least: real): (qs: seq<Position>)
    ensures |qs| == |ps|
  {
    seq(|ps|, i requires 0 <= i < |ps| =>
      ps[i].(weight := if Kept(Times(ps[i].weight, c), least) then Times(ps[i].weight, c) else 0.0))
  }

  /** The names with a weight. */
  function Held(ps: seq<Position>): (qs: seq<Position>)
  {
    if ps == [] then []
    else if ps[|ps| - 1].weight > 0.0 then Held(ps[..|ps| - 1]) + [ps[|ps| - 1]]
    else Held(ps[..|ps| - 1])
  }

  lemma {:induction false} HeldSums(ps: seq<Position>, s: int)
    requires Long(ps)
    ensures Gross(Held(ps)) == Gross(ps) && SectorSum(Held(ps), s) == SectorSum(ps, s)
              && Squares(Held(ps)) == Squares(ps)
  {
    hide Square;
    if ps != [] {
      var n := |ps| - 1;
      HeldSums(ps[..n], s);
      if ps[n].weight > 0.0 {
        assert (Held(ps[..n]) + [ps[n]])[..|Held(ps[..n])|] == Held(ps[..n]);
      } else {
        WeightlessSquare(ps[n]);
      }
    }
  }

  lemma WeightlessSquare(p: Position)
    requires p.weight == 0.0
    ensures Square(p) == 0.0
  {
    assert p.weight * p.sigma == 0.0;
  }

  /** A name is held exactly if it has a weight left. */
  lemma {:induction false} HeldMembers(ps: seq<Position>)
    ensures forall p :: p in Held(ps) <==> p in ps && p.weight > 0.0
  {
    if ps != [] {
      HeldMembers(ps[..|ps| - 1]);
      assert ps == ps[..|ps| - 1] + [ps[|ps| - 1]];
    }
  }

  /** p is a name of the raw book with no larger a weight. */
  ghost predicate Trimmed(p: Position, ps: seq<Position>) {
    exists q | q in ps :: p == q.(weight := p.weight) && p.weight <= q.weight
  }

  lemma DustedShrinks(ps: seq<Position>, c: real, least: real)
    requires Long(ps) && 0.0 <= c <= 1.0
    ensures Shrunk(Rescaled(ps, c), Dusted(ps, c, least)) && Shrunk(ps, Dusted(ps, c, least))
    ensures Long(Dusted(ps, c, least))
    ensures forall p | p in Dusted(ps, c, least) && p.weight > 0.0 :: p.weight >= least
  {
    hide Times;
    forall i | 0 <= i < |ps| ensures 0.0 <= Times(ps[i].weight, c) <= ps[i].weight {
      TimesMono(c, 1.0, ps[i].weight);
      TimesOne(ps[i].weight);
      TimesMono(0.0, ps[i].weight, c);
      TimesZero(c);
    }
  }

  lemma HeldWithin(dusted: seq<Position>, ps: seq<Position>, raw: seq<Position>, least: real, most: real)
    requires Shrunk(raw, ps) && Shrunk(ps, dusted) && forall p | p in ps :: p.weight <= most
    requires forall p | p in dusted && p.weight > 0.0 :: p.weight >= least
    ensures forall p | p in Held(dusted) :: least <= p.weight <= most && Trimmed(p, raw)
  {
    hide Held, Trimmed, Shrunk;
    HeldMembers(dusted);
    forall p | p in Held(dusted) ensures least <= p.weight <= most && Trimmed(p, raw) {
      TrimmedMember(raw, ps, dusted, p);
    }
  }

  lemma TrimmedMember(raw: seq<Position>, ps: seq<Position>, qs: seq<Position>, p: Position)
    requires Shrunk(raw, ps) && Shrunk(ps, qs) && p in qs
    ensures Trimmed(p, raw) && exists q | q in ps :: p.weight <= q.weight
  {
    var i :| 0 <= i < |qs| && qs[i] == p;
    assert raw[i] in raw && ps[i] in ps;
    assert p == raw[i].(weight := p.weight) && p.weight <= raw[i].weight;
  }

  /** Volatility, gross and dust, then the names that keep a weight. */
  lemma FinalBook(raw: seq<Position>, ps: seq<Position>, lim: Limits, root: real -> real)
    requires lim.Valid() && IsRoot(root) && Long(ps) && Shrunk(raw, ps)
    requires (forall p | p in ps :: p.weight <= lim.maxPosition) && forall s :: SectorSum(ps, s) <= lim.maxSector
    ensures var book := Held(Dusted(ps, RiskScale(ps, lim.volTarget, root), lim.minPosition));
            InLimits(book, lim) && forall p | p in book :: Trimmed(p, raw)
  {
    var c := RiskScale(ps, lim.volTarget, root);
    RiskScaleWorks(ps, lim.volTarget, root);
    hide Times, Square, RiskScale, Gross, SectorSum, Squares, Held, Dusted, Rescaled, Shrunk, IsRoot, Trimmed;
    var scaled, dusted := Rescaled(ps, c), Dusted(ps, c, lim.minPosition);
    DustedShrinks(ps, c, lim.minPosition);
    RescaledSums(ps, c);
    ShrunkSums(scaled, dusted, 0);
    forall s ensures SectorSum(Held(dusted), s) <= lim.maxSector {
      ShrunkSums(ps, dusted, s);
      HeldSums(dusted, s);
    }
    HeldSums(dusted, 0);
    HeldWithin(dusted, ps, raw, lim.minPosition, lim.maxPosition);
  }

  // ----- from raw weights to a book

  datatype SizeError = NO_DECISIONS | MISSING_SECTOR | MISSING_VOLATILITY | NO_BASE_RATE

  predicate ById(ps: seq<Position>) { forall i, j | 0 <= i < j < |ps| :: ps[i].id < ps[j].id }

  function InsertId(ids: seq<int>, x: int): (r: seq<int>)
    requires Increasing(ids)
    ensures Increasing(r) && forall y :: y in r <==> y in ids || y == x
  {
    if ids == [] || x < ids[0] then [x] + ids
    else if x == ids[0] then ids
    else
      assert ids == [ids[0]] + ids[1..];
      var rest := InsertId(ids[1..], x);
      assert forall y | y in rest :: ids[0] < y;
      assert forall j | 0 <= j < |rest| :: rest[j] in rest;
      [ids[0]] + rest
  }

  /** Every name's cell, with its sector, volatility and weight. */
  ghost predicate CellsOf(
    cells: seq<Position>, ids: seq<int>, weights: map<int, real>, sectors: map<int, int>, vols: map<int, real>)
  {
    && |cells| == |ids|
    && forall i | 0 <= i < |ids| ::
         && ids[i] in weights && ids[i] in sectors && ids[i] in vols
         && cells[i] == Position(ids[i], sectors[ids[i]], vols[ids[i]], weights[ids[i]])
  }

  /** The layers in order. */
  function LayeredBook(raw: seq<Position>, lim: Limits, root: real -> real, early: bool): seq<Position> {
    var capped := Capped(raw, lim.maxSector);
    var floored := if early then Dusted(capped, 1.0, lim.minPosition) else capped;
    Held(Dusted(floored, RiskScale(floored, lim.volTarget, root), lim.minPosition))
  }

  /** Sector caps, the early floor of the committee book, then the risk scale and the dust; raw is the book
      before any of them. */
  method FinishBook(
    ids: seq<int>, weights: map<int, real>, sectors: map<int, int>, vols: map<int, real>,
    lim: Limits, root: real -> real, early: bool)
    returns (r: Result<seq<Position>, SizeError>, ghost raw: seq<Position>)
    requires lim.Valid() && IsRoot(root) && Increasing(ids) && forall x :: x in weights <==> x in ids
    requires forall x | x in weights :: 0.0 <= weights[x] <= lim.maxPosition
    ensures r == Err(MISSING_SECTOR) <==> exists x :: x in ids && x !in sectors
    ensures r == Err(MISSING_VOLATILITY) <==>
              (forall x | x in ids :: x in sectors) && exists x :: x in ids && x !in vols
    ensures r.Err? ==> r.error in {MISSING_SECTOR, MISSING_VOLATILITY}
    ensures r.Ok? ==> CellsOf(raw, ids, weights, sectors, vols) && r.value == LayeredBook(raw, lim, root, early)
    ensures r.Ok? ==> InLimits(r.value, lim) && ById(r.value)
    ensures r.Ok? ==> forall p | p in r.value ::
              p.id in weights && p.weight <= weights[p.id] && p.sector == sectors[p.id] && p.sigma == vols[p.id]
  {
    raw := [];
    if exists x :: x in ids && x !in sectors { return Err(MISSING_SECTOR), []; }
    if exists x :: x in ids && x !in vols { return Err(MISSING_VOLATILITY), []; }
    assert forall i | 0 <= i < |ids| :: ids[i] in ids;
    var cells := new Position[|ids|](i requires 0 <= i < |ids| =>
      Position(ids[i], sectors[ids[i]], vols[ids[i]], weights[ids[i]]));
    raw := cells[..];
    assert CellsOf(raw, ids, weights, sectors, vols);
    hide InLimits, IsRoot, Held, RiskScale, Dusted, Capped, Limits.Valid, CellsOf, ById;
    CapSectors(cells, lim.maxSector);
    var capped := cells[..];
    var floored := if early then Dusted(capped, 1.0, lim.minPosition) else capped;
    var book := Held(Dusted(floored, RiskScale(floored, lim.volTarget, root), lim.minPosition));
    BookIsRight(raw, ids, weights, sectors, vols, lim, root, early);
    r := Ok(book);
  }

  lemma BookIsRight(
    raw: seq<Position>, ids: seq<int>, weights: map<int, real>, sectors: map<int, int>, vols: map<int, real>,
    lim: Limits, root: real -> real, early: bool)
    requires lim.Valid() && IsRoot(root) && Increasing(ids) && CellsOf(raw, ids, weights, sectors, vols)
    requires forall x | x in weights :: 0.0 <= weights[x] <= lim.maxPosition
    ensures var book := LayeredBook(raw, lim, root, early);
            && InLimits(book, lim) && ById(book)
            && forall p | p in book ::
                 p.id in weights && p.weight <= weights[p.id] && p.id in sectors && p.sector == sectors[p.id]
                 && p.id in vols && p.sigma == vols[p.id]
  {
    hide InLimits, IsRoot, Held, RiskScale, Limits.Valid;
    RawIsLong(raw, ids, weights, sectors, vols, lim.maxPosition);
    BookWithinLimits(raw, lim, root, early);
    BookNames(raw, LayeredBook(raw, lim, root, early), ids, weights, sectors, vols);
    var capped := Capped(raw, lim.maxSector);
    var floored := if early then Dusted(capped, 1.0, lim.minPosition) else capped;
    HeldById(Dusted(floored, RiskScale(floored, lim.volTarget, root), lim.minPosition));
  }

  lemma RawIsLong(
    raw: seq<Position>, ids: seq<int>, weights: map<int, real>, sectors: map<int, int>, vols: map<int, real>,
    most: real)
    requires CellsOf(raw, ids, weights, sectors, vols) && forall x | x in weights :: 0.0 <= weights[x] <= most
    ensures Long(raw) && forall p | p in raw :: p.weight <= most
  {
  }

  lemma BookWithinLimits(raw: seq<Position>, lim: Limits, root: real -> real, early: bool)
    requires lim.Valid() && IsRoot(root) && Long(raw) && forall p | p in raw :: p.weight <= lim.maxPosition
    ensures InLimits(LayeredBook(raw, lim, root, early), lim)
    ensures forall p | p in LayeredBook(raw, lim, root, early) :: Trimmed(p, raw)
  {
    hide InLimits, Held, RiskScale, SectorSum, Gross, Squares, Capped, Dusted, IsRoot, Trimmed, SectorScale, Times;
    var capped := Capped(raw, lim.maxSector);
    CappedMeetsCaps(raw, lim.maxSector);
    var floored := if early then Dusted(capped, 1.0, lim.minPosition) else capped;
    ShrunkIsLong(raw, capped, lim.maxPosition);
    if early {
      DustedShrinks(capped, 1.0, lim.minPosition);
      forall s ensures SectorSum(floored, s) <= lim.maxSector { ShrunkSums(capped, floored, s); }
      ShrunkTwice(raw, capped, floored);
    }
    ShrunkIsLong(raw, floored, lim.maxPosition);
    FinalBook(raw, floored, lim, root);
  }

  lemma ShrunkIsLong(ps: seq<Position>, qs: seq<Position>, most: real)
    requires Shrunk(ps, qs) && forall p | p in ps :: p.weight <= most
    ensures Long(qs) && forall p | p in qs :: p.weight <= most
  {
  }

  lemma ShrunkTwice(ps: seq<Position>, qs: seq<Position>, rs: seq<Position>)
    requires Shrunk(ps, qs) && Shrunk(qs, rs)
    ensures Shrunk(ps, rs)
  {
  }

  lemma {:induction false} HeldById(ps: seq<Position>)
    requires ById(ps)
    ensures ById(Held(ps))
  {
    if ps != [] {
      HeldById(ps[..|ps| - 1]);
      HeldMembers(ps[..|ps| - 1]);
    }
  }

  lemma BookNames(raw: seq<Position>, book: seq<Position>, ids: seq<int>, weights: map<int, real>,
                  sectors: map<int, int>, vols: map<int, real>)
    requires CellsOf(raw, ids, weights, sectors, vols) && forall p | p in book :: Trimmed(p, raw)
    ensures forall p | p in book ::
              p.id in weights && p.weight <= weights[p.id] && p.id in sectors && p.sector == sectors[p.id]
              && p.id in vols && p.sigma == vols[p.id]
  {
    forall p | p in book
      ensures p.id in weights && p.weight <= weights[p.id] && p.id in sectors && p.sector == sectors[p.id]
              && p.id in vols && p.sigma == vols[p.id]
    {
      var q :| q in raw && p == q.(weight := p.weight) && p.weight <= q.weight;
    }
  }

  // ----- the quant baseline

  datatype Decision = Decision(id: int, pooledP: real, dispersion: real, bear: real)

  datatype Baseline = Baseline(entry: real, k: real, lambda: real)

  function AtLeastZero(x: real): real { if x > 0.0 then x else 0.0 }

  /** The weight before any cap. */
  function BaselineRaw(d: Decision, vols: map<int, real>, cfg: Baseline): real {
    var sigma := if d.id in vols then vols[d.id] else 0.0;
    var edge := d.pooledP - 0.5;
    if d.pooledP < cfg.entry || sigma <= 0.0 || edge <= 0.0 then 0.0
    else cfg.k * edge / sigma * (AtLeastZero(1.0 - cfg.lambda * d.dispersion) * d.bear)
  }

  function Clipped(raw: real, lim: Limits): real {
    var w := if raw < lim.maxPosition then raw else lim.maxPosition;
    if w < lim.minPosition then 0.0 else w
  }

  lemma ClippedBounds(raw: real, lim: Limits)
    requires lim.Valid()
    ensures 0.0 <= Clipped(raw, lim) <= lim.maxPosition
    ensures Clipped(raw, lim) > 0.0 ==> lim.minPosition <= Clipped(raw, lim) <= raw
  {
  }

  /** The last decision of name x among the first n is the j-th. */
  ghost predicate LastOf(x: int, j: nat, n: nat, ds: seq<Decision>) {
    j < n <= |ds| && ds[j].id == x && forall k | j < k < n :: ds[k].id != x
  }

  /** w is the clipped weight of the name's last decision among the first n. */
  ghost predicate FromDecision(
    x: int, w: real, n: nat, ds: seq<Decision>, vols: map<int, real>, cfg: Baseline, lim: Limits)
  {
    exists j: nat :: LastOf(x, j, n, ds) && w == Clipped(BaselineRaw(ds[j], vols, cfg), lim)
  }

  /** The book is the layered book of one clipped weight per decided name, its last, so it is within all limits at
      once and never above a raw weight; every decided name needs a sector and a volatility, even one that
      gets no weight. */
  method SizeBook(
    ds: seq<Decision>, sectors: map<int, int>, vols: map<int, real>, cfg: Baseline, lim: Limits, root: real -> real)
    returns (r: Result<seq<Position>, SizeError>, ghost raw: seq<Position>)
    requires lim.Valid() && IsRoot(root)
    ensures r == Err(NO_DECISIONS) <==> ds == []
    ensures r == Err(MISSING_SECTOR) <==> exists d :: d in ds && d.id !in sectors
    ensures r == Err(MISSING_VOLATILITY) <==>
            ds != [] && (forall d | d in ds :: d.id in sectors) && exists d :: d in ds && d.id !in vols
    ensures r.Ok? ==> r.value == LayeredBook(raw, lim, root, false)
    ensures r.Ok? ==> forall p | p in raw :: FromDecision(p.id, p.weight, |ds|, ds, vols, cfg, lim)
    ensures r.Ok? ==> forall d | d in ds :: exists p :: p in raw && p.id == d.id
    ensures r.Ok? ==> InLimits(r.value, lim) && ById(r.value)
    ensures r.Ok? ==>
              forall p | p in r.value :: exists d :: d in ds && d.id == p.id && p.weight <= BaselineRaw(d, vols, cfg)
  {
    hide InLimits, BaselineRaw, Clipped, IsRoot, FromDecision, LayeredBook;
    raw := [];
    if ds == [] { return Err(NO_DECISIONS), []; }
    var weights: map<int, real> := map[];
    var ids: seq<int> := [];
    for i := 0 to |ds|
      invariant Increasing(ids) && (forall x :: x in weights <==> x in ids)
      invariant forall x :: x in ids <==> exists j :: 0 <= j < i && ds[j].id == x
      invariant forall x | x in weights :: 0.0 <= weights[x] <= lim.maxPosition
      invariant forall x | x in weights :: FromDecision(x, weights[x], i, ds, vols, cfg, lim)
    {
      var d := ds[i];
      ClippedBounds(BaselineRaw(d, vols, cfg), lim);
      DecisionGives(i, ds, vols, cfg, lim);
      forall x | x in weights && x != d.id ensures FromDecision(x, weights[x], i + 1, ds, vols, cfg, lim) {
        OtherDecision(x, weights[x], i, ds, vols, cfg, lim);
      }
      weights := weights[d.id := Clipped(BaselineRaw(d, vols, cfg), lim)];
      ids := InsertId(ids, d.id);
    }
    r, raw := FinishBook(ids, weights, sectors, vols, lim, root, false);
    if r.Ok? {
      CellsAreNamed(raw, ids, weights, sectors, vols);
      forall d | d in ds ensures exists p :: p in raw && p.id == d.id {
        assert d.id in ids;
      }
      forall p | p in r.value ensures exists d :: d in ds && d.id == p.id && p.weight <= BaselineRaw(d, vols, cfg) {
        HeldIsPositive(r.value, p, lim);
        WeightOfDecision(p.id, p.weight, weights[p.id], |ds|, ds, vols, cfg, lim);
      }
    }
  }

  lemma DecisionGives(i: nat, ds: seq<Decision>, vols: map<int, real>, cfg: Baseline, lim: Limits)
    requires i < |ds|
    ensures FromDecision(ds[i].id, Clipped(BaselineRaw(ds[i], vols, cfg), lim), i + 1, ds, vols, cfg, lim)
  {
    assert LastOf(ds[i].id, i, i + 1, ds);
  }

  lemma OtherDecision(
    x: int, w: real, i: nat, ds: seq<Decision>, vols: map<int, real>, cfg: Baseline, lim: Limits)
    requires i < |ds| && ds[i].id != x && FromDecision(x, w, i, ds, vols, cfg, lim)
    ensures FromDecision(x, w, i + 1, ds, vols, cfg, lim)
  {
    hide BaselineRaw, Clipped;
    var j: nat :| LastOf(x, j, i, ds) && w == Clipped(BaselineRaw(ds[j], vols, cfg), lim);
    assert LastOf(x, j, i + 1, ds);
  }

  lemma WeightOfDecision(
    x: int, held: real, w: real, n: nat, ds: seq<Decision>, vols: map<int, real>, cfg: Baseline, lim: Limits)
    requires lim.Valid() && FromDecision(x, w, n, ds, vols, cfg, lim) && 0.0 < held <= w
    ensures exists d :: d in ds && d.id == x && held <= BaselineRaw(d, vols, cfg)
  {
    hide BaselineRaw, Clipped;
    var j: nat :| LastOf(x, j, n, ds) && w == Clipped(BaselineRaw(ds[j], vols, cfg), lim);
    ClippedBounds(BaselineRaw(ds[j], vols, cfg), lim);
    assert ds[j] in ds;
  }

  lemma CellsAreNamed(
    cells: seq<Position>, ids: seq<int>, weights: map<int, real>, sectors: map<int, int>, vols: map<int, real>)
    requires CellsOf(cells, ids, weights, sectors, vols)
    ensures forall p | p in cells :: p.id in weights && p.weight == weights[p.id]
    ensures forall x | x in ids :: exists p :: p in cells && p.id == x
  {
    forall x | x in ids ensures exists p :: p in cells && p.id == x {
      var i :| 0 <= i < |ids| && ids[i] == x;
      assert cells[i] in cells;
    }
  }

  lemma HeldIsPositive(ps: seq<Position>, p: Position, lim: Limits)
    requires lim.Valid() && InLimits(ps, lim) && p in ps
    ensures p.weight > 0.0
  {
  }

  // ----- the committee book

  datatype Scored = Scored(id: int, logit: real, dispersion: real)

  datatype Committee = Committee(topM: nat, hurdle: real, k: real, lambda: real, bears: map<int, real>, low: real)

  datatype Calibration = Calibration(alpha: real, beta: real, active: bool, baseRate: Option<real>)

  /** Higher logit first, then lower id. */
  predicate Outranks(a: Scored, b: Scored) { a.logit > b.logit || (a.logit == b.logit && a.id < b.id) }

  function InsertRank(x: Scored, s: seq<Scored>): seq<Scored> {
    if s == [] || Outranks(x, s[0]) then [x] + s else [s[0]] + InsertRank(x, s[1..])
  }

  function ByRank(s: seq<Scored>): seq<Scored> {
    if s == [] then [] else InsertRank(s[0], ByRank(s[1..]))
  }

  ghost predicate Ranked(s: seq<Scored>) { forall i, j | 0 <= i < j < |s| :: Outranks(s[i], s[j]) }

  ghost predicate DistinctIds(s: seq<Scored>) { forall i, j | 0 <= i < j < |s| :: s[i].id != s[j].id }

  lemma {:induction false} InsertRankKeeps(x: Scored, s: seq<Scored>)
    requires Ranked(s) && forall y | y in s :: y.id != x.id
    ensures Ranked(InsertRank(x, s)) && |InsertRank(x, s)| == |s| + 1
    ensures forall y :: y in InsertRank(x, s) <==> y == x || y in s
  {
    if s != [] && !Outranks(x, s[0]) {
      assert s == [s[0]] + s[1..];
      InsertRankKeeps(x, s[1..]);
      var rest := InsertRank(x, s[1..]);
      forall j | 0 <= j < |rest| ensures Outranks(s[0], rest[j]) {
        assert rest[j] in rest;
      }
    }
  }

  lemma {:induction false} ByRankSorts(s: seq<Scored>)
    requires DistinctIds(s)
    ensures Ranked(ByRank(s)) && |ByRank(s)| == |s|
    ensures forall y :: y in ByRank(s) <==> y in s
  {
    if s != [] {
      ByRankSorts(s[1..]);
      assert s == [s[0]] + s[1..];
      InsertRankKeeps(s[0], ByRank(s[1..]));
    }
  }

  function Top(s: seq<Scored>, m: nat): (t: seq<Scored>)
  {
    if m < |ByRank(s)| then ByRank(s)[..m] else ByRank(s)
  }

  /** The chosen names are the best m: every chosen one outranks every other. */
  lemma TopIsBest(s: seq<Scored>, m: nat, a: Scored, b: Scored)
    requires DistinctIds(s) && a in Top(s, m) && b in s && b !in Top(s, m)
    ensures Outranks(a, b) && |Top(s, m)| == m
  {
    ByRankSorts(s);
    var all := ByRank(s);
    var i :| 0 <= i < |Top(s, m)| && Top(s, m)[i] == a;
    var j :| 0 <= j < |all| && all[j] == b;
    assert forall q | 0 <= q < |Top(s, m)| :: Top(s, m)[q] == all[q] && Top(s, m)[q] in Top(s, m);
    assert all[i] == a;
  }

  /** A name whose volatility is known and positive. */
  predicate Volatile(x: Scored, vols: map<int, real>) { x.id in vols && vols[x.id] > 0.0 }

  function Inverses(top: seq<Scored>, vols: map<int, real>): real
    requires forall x | x in top :: x.id in vols && vols[x.id] > 0.0
    decreases |top|
  {
    if top == [] then 0.0 else Inverses(top[..|top| - 1], vols) + 1.0 / vols[top[|top| - 1].id]
  }

  lemma {:induction false} InversesPositive(top: seq<Scored>, vols: map<int, real>)
    requires forall x | x in top :: x.id in vols && vols[x.id] > 0.0
    ensures Inverses(top, vols) >= 0.0 && (top != [] ==> Inverses(top, vols) > 0.0)
  {
    if top != [] {
      InversesPositive(top[..|top| - 1], vols);
      DivSign(1.0, vols[top[|top| - 1].id]);
    }
  }

  function BearOf(cfg: Committee, id: int): real { if id in cfg.bears then cfg.bears[id] else cfg.low }

  function RankWeight(sigma: real, total: real, bear: real): real
    requires sigma > 0.0 && total != 0.0
  {
    1.0 / sigma / total * bear
  }

  function EdgeWeight(edge: real, sigma: real, dispersion: real, bear: real, cfg: Committee): real
    requires sigma > 0.0
  {
    cfg.k * edge / sigma * AtLeastZero(1.0 - cfg.lambda * dispersion) * bear
  }

  function Probability(fit: Calibration, sigmoid: real -> real, logit: real): real {
    sigmoid(fit.alpha + Times(fit.beta, logit))
  }

  function Eligible(pooled: seq<Scored>, vols: map<int, real>): (e: seq<Scored>)
  {
    if pooled == [] then []
    else
      var x := pooled[|pooled| - 1];
      if Volatile(x, vols) then Eligible(pooled[..|pooled| - 1], vols) + [x]
      else Eligible(pooled[..|pooled| - 1], vols)
  }

  lemma {:induction false} EligibleIs(pooled: seq<Scored>, vols: map<int, real>)
    ensures forall x :: x in Eligible(pooled, vols) <==> x in pooled && Volatile(x, vols)
  {
    hide Volatile;
    if pooled != [] {
      EligibleIs(pooled[..|pooled| - 1], vols);
      assert pooled == pooled[..|pooled| - 1] + [pooled[|pooled| - 1]];
    }
  }

  lemma {:induction false} EligibleDistinct(pooled: seq<Scored>, vols: map<int, real>)
    requires DistinctIds(pooled)
    ensures DistinctIds(Eligible(pooled, vols))
  {
    hide Volatile;
    if pooled != [] {
      var init, x := pooled[..|pooled| - 1], pooled[|pooled| - 1];
      EligibleDistinct(init, vols);
      EligibleIs(init, vols);
      forall i | 0 <= i < |Eligible(init, vols)| ensures Eligible(init, vols)[i].id != x.id {
        assert Eligible(init, vols)[i] in init;
      }
    }
  }

  /** The m best of the volatile names, or all of them if there are no more. */
  ghost predicate Chosen(top: seq<Scored>, pooled: seq<Scored>, vols: map<int, real>, m: nat) {
    && DistinctIds(top) && |top| <= m
    && (forall x | x in top :: x in pooled && x.id in vols && vols[x.id] > 0.0)
    && (forall b | b in pooled && Volatile(b, vols) && b !in top :: |top| == m && forall a | a in top :: Outranks(a, b))
  }

  lemma TopIsChosen(pooled: seq<Scored>, vols: map<int, real>, m: nat)
    requires DistinctIds(pooled)
    ensures Chosen(Top(Eligible(pooled, vols), m), pooled, vols, m)
  {
    var eligible := Eligible(pooled, vols);
    var top := Top(eligible, m);
    EligibleIs(pooled, vols);
    EligibleDistinct(pooled, vols);
    ByRankSorts(eligible);
    RankedIsDistinct(ByRank(eligible), eligible);
    assert forall x | x in top :: x in ByRank(eligible);
    forall a, b | a in top && b in pooled && Volatile(b, vols) && b !in top ensures Outranks(a, b) {
      TopIsBest(eligible, m, a, b);
    }
  }

  lemma RankedIsDistinct(r: seq<Scored>, s: seq<Scored>)
    requires Ranked(r) && DistinctIds(s) && forall y | y in r :: y in s
    ensures DistinctIds(r)
  {
    forall i, j | 0 <= i < j < |r| ensures r[i].id != r[j].id {
      assert r[i] in r && r[j] in r && Outranks(r[i], r[j]);
    }
  }

  /** Rank weights: each chosen name has its part of the summed inverse volatilities, times its multiplier. */
  ghost predicate RankWeighted(raw: map<int, real>, top: seq<Scored>, vols: map<int, real>, cfg: Committee) {
    && (forall x | x in top :: x.id in vols && vols[x.id] > 0.0) && (top != [] ==> Inverses(top, vols) > 0.0)
    && (forall x | x in top ::
          x.id in raw && raw[x.id] == RankWeight(vols[x.id], Inverses(top, vols), BearOf(cfg, x.id)))
    && (forall id | id in raw :: exists x :: x in top && x.id == id)
  }

  /** Calibrated weights: a volatile name has one exactly if its edge reaches the hurdle. */
  ghost predicate EdgeWeighted(
    raw: map<int, real>, pooled: seq<Scored>, vols: map<int, real>, fit: Calibration, sigmoid: real -> real,
    cfg: Committee)
    requires fit.baseRate.Some?
  {
    && (forall x | x in pooled ::
          var edge := Probability(fit, sigmoid, x.logit) - fit.baseRate.value;
          && (x.id in raw <==> Volatile(x, vols) && edge >= cfg.hurdle)
          && (x.id in raw ==> raw[x.id] == EdgeWeight(edge, vols[x.id], x.dispersion, BearOf(cfg, x.id), cfg)))
    && (forall id | id in raw :: exists x :: x in pooled && x.id == id)
  }

  /** The weights before any cap, in the mode the calibration is in. */
  ghost predicate CommitteeWeighted(
    raw: map<int, real>, top: seq<Scored>, pooled: seq<Scored>, vols: map<int, real>, fit: Calibration,
    sigmoid: real -> real, cfg: Committee)
    requires fit.active ==> fit.baseRate.Some?
  {
    if fit.active then EdgeWeighted(raw, pooled, vols, fit, sigmoid, cfg)
    else Chosen(top, pooled, vols, cfg.topM) && RankWeighted(raw, top, vols, cfg)
  }

  /** What the chosen names weigh together. */
  function WeightSum(raw: map<int, real>, top: seq<Scored>): real {
    if top == [] then 0.0
    else
      var x := top[|top| - 1];
      WeightSum(raw, top[..|top| - 1]) + if x.id in raw then raw[x.id] else 0.0
  }

  /** Rank weights together are at most the largest bear multiplier, so never above one with the usual ones. */
  lemma RankWeightsSum(raw: map<int, real>, top: seq<Scored>, vols: map<int, real>, cfg: Committee, most: real)
    requires RankWeighted(raw, top, vols, cfg) && most >= 0.0
    requires forall x | x in top :: 0.0 <= BearOf(cfg, x.id) <= most
    ensures WeightSum(raw, top) <= most
  {
    if top != [] {
      var total := Inverses(top, vols);
      hide Inverses, WeightSum, RankWeight, BearOf, Times;
      WeightSumBound(raw, top, vols, total, cfg, most);
      SelfQuotient(total);
      TimesOne(most);
    }
  }

  lemma {:induction false} WeightSumBound(
    raw: map<int, real>, part: seq<Scored>, vols: map<int, real>, total: real, cfg: Committee, most: real)
    requires total > 0.0 && forall x | x in part :: x.id in vols && vols[x.id] > 0.0
    requires forall x | x in part ::
               && x.id in raw && raw[x.id] == RankWeight(vols[x.id], total, BearOf(cfg, x.id))
               && 0.0 <= BearOf(cfg, x.id) <= most
    ensures WeightSum(raw, part) <= Times(most, Inverses(part, vols) / total)
  {
    if part == [] {
      TimesZero(most);
      assert 0.0 / total == 0.0;
    } else {
      hide Times, RankWeight, BearOf;
      var n := |part| - 1;
      var x := part[n];
      WeightSumBound(raw, part[..n], vols, total, cfg, most);
      var share := 1.0 / vols[x.id] / total;
      assert x in part;
      DivNonNeg(1.0, vols[x.id]);
      DivNonNeg(1.0 / vols[x.id], total);
      TimesMono(BearOf(cfg, x.id), most, share);
      TimesAdd(Inverses(part[..n], vols) / total, share, most);
      QuotientAdd(Inverses(part[..n], vols), 1.0 / vols[x.id], total);
      TimesCommutes(most, (Inverses(part[..n], vols) + 1.0 / vols[x.id]) / total);
      TimesCommutes(most, Inverses(part[..n], vols) / total);
      RankWeightShare(vols[x.id], total, BearOf(cfg, x.id));
    }
  }

  lemma RankWeightShare(sigma: real, total: real, bear: real)
    requires sigma > 0.0 && total != 0.0
    ensures RankWeight(sigma, total, bear) == Times(1.0 / sigma / total, bear)
  {
  }

  lemma SelfQuotient(a: real)
    requires a != 0.0
    ensures a / a == 1.0
  {
  }

  lemma QuotientAdd(a: real, b: real, c: real)
    requires c != 0.0
    ensures (a + b) / c == a / c + b / c
  {
  }

  method CalibratedWeights(
    pooled: seq<Scored>, vols: map<int, real>, fit: Calibration, sigmoid: real -> real, cfg: Committee)
    returns (raw: map<int, real>)
    requires DistinctIds(pooled) && fit.baseRate.Some?
    ensures EdgeWeighted(raw, pooled, vols, fit, sigmoid, cfg)
  {
    hide EdgeWeight, Probability;
    raw := map[];
    for i := 0 to |pooled|
      invariant EdgeWeighted(raw, pooled[..i], vols, fit, sigmoid, cfg)
    {
      var x := pooled[i];
      assert pooled[..i + 1] == pooled[..i] + [x];
      assert forall y | y in pooled[..i] :: y.id != x.id;
      if Volatile(x, vols) {
        var edge := Probability(fit, sigmoid, x.logit) - fit.baseRate.value;
        if edge >= cfg.hurdle {
          raw := raw[x.id := EdgeWeight(edge, vols[x.id], x.dispersion, BearOf(cfg, x.id), cfg)];
        }
      }
    }
    assert pooled[..|pooled|] == pooled;
  }

  method RankWeights(top: seq<Scored>, vols: map<int, real>, cfg: Committee) returns (raw: map<int, real>)
    requires DistinctIds(top) && forall x | x in top :: x.id in vols && vols[x.id] > 0.0
    ensures RankWeighted(raw, top, vols, cfg)
  {
    hide Inverses, RankWeight;
    InversesPositive(top, vols);
    raw := map[];
    if top == [] { return; }
    var total := Inverses(top, vols);
    for i := 0 to |top|
      invariant forall x | x in top[..i] ::
                  x.id in raw && raw[x.id] == RankWeight(vols[x.id], total, BearOf(cfg, x.id))
      invariant forall id | id in raw :: exists x :: x in top && x.id == id
    {
      var x := top[i];
      assert top[..i + 1] == top[..i] + [x];
      assert forall y | y in top[..i] :: y.id != x.id;
      raw := raw[x.id := RankWeight(vols[x.id], total, BearOf(cfg, x.id))];
    }
    assert top[..|top|] == top;
  }

  /** The raw weights in either mode; top is whom rank mode chose. */
  method RawWeights(
    pooled: seq<Scored>, vols: map<int, real>, fit: Calibration, sigmoid: real -> real, cfg: Committee)
    returns (raw: map<int, real>, ghost top: seq<Scored>)
    requires DistinctIds(pooled) && (fit.active ==> fit.baseRate.Some?)
    ensures CommitteeWeighted(raw, top, pooled, vols, fit, sigmoid, cfg)
    ensures forall id | id in raw :: id in vols
  {
    hide EdgeWeight, Probability, Inverses, RankWeight, ByRank, Top, Eligible;
    top := [];
    if fit.active {
      raw := CalibratedWeights(pooled, vols, fit, sigmoid, cfg);
    } else {
      var best := Top(Eligible(pooled, vols), cfg.topM);
      TopIsChosen(pooled, vols, cfg.topM);
      raw := RankWeights(best, vols, cfg);
      top := best;
    }
  }

  function Bounded(raw: real, most: real): real {
    var w := if raw > 0.0 then raw else 0.0;
    if w < most then w else most
  }

  method InOrder(names: set<int>) returns (ids: seq<int>)
    ensures Increasing(ids) && forall x :: x in ids <==> x in names
  {
    ids := [];
    var rest := names;
    while rest != {}
      invariant rest <= names && Increasing(ids) && forall x :: x in ids <==> x in names - rest
      decreases |rest|
    {
      var x := Pick(rest);
      ids := InsertId(ids, x);
      rest := rest - {x};
    }
  }

  /** Committee sizing: the layered book of either kind of raw weight, each between nothing and the position
      cap. It fails exactly without a base rate or a sector; a weighted name always has a volatility. */
  method SizeCommitteeBook(
    pooled: seq<Scored>, sectors: map<int, int>, vols: map<int, real>, fit: Calibration, sigmoid: real -> real,
    cfg: Committee, lim: Limits, root: real -> real)
    returns (r: Result<seq<Position>, SizeError>, ghost raw: map<int, real>, ghost top: seq<Scored>,
             ghost cells: seq<Position>)
    requires lim.Valid() && IsRoot(root) && DistinctIds(pooled)
    ensures r == Err(NO_BASE_RATE) <==> fit.active && fit.baseRate.None?
    ensures !(fit.active && fit.baseRate.None?) ==>
              && CommitteeWeighted(raw, top, pooled, vols, fit, sigmoid, cfg)
              && (r == Err(MISSING_SECTOR) <==> exists x :: x in raw && x !in sectors)
    ensures r.Err? ==> r.error in {NO_BASE_RATE, MISSING_SECTOR}
    ensures r.Ok? ==> r.value == LayeredBook(cells, lim, root, true)
    ensures r.Ok? ==> forall p | p in cells :: p.id in raw && p.weight == Bounded(raw[p.id], lim.maxPosition)
    ensures r.Ok? ==> forall x | x in raw :: exists p :: p in cells && p.id == x
    ensures r.Ok? ==> InLimits(r.value, lim) && ById(r.value)
    ensures r.Ok? ==> forall p | p in r.value :: p.id in raw && p.weight <= raw[p.id]
  {
    hide InLimits, IsRoot, CommitteeWeighted, LayeredBook, CellsOf, ById;
    cells, top, raw := [], [], map[];
    if fit.active && fit.baseRate.None? { r := Err(NO_BASE_RATE); return; }
    var before, chosen := RawWeights(pooled, vols, fit, sigmoid, cfg);
    raw, top := before, chosen;
    var weights: map<int, real> := map x | x in before :: Bounded(before[x], lim.maxPosition);
    var ids := InOrder(before.Keys);
    r, cells := FinishBook(ids, weights, sectors, vols, lim, root, true);
    if r.Ok? {
      CellsAreNamed(cells, ids, weights, sectors, vols);
      forall x | x in raw ensures exists p :: p in cells && p.id == x {
        assert x in ids;
      }
      forall p | p in r.value ensures p.id in raw && p.weight <= raw[p.id] {
        HeldIsPositive(r.value, p, lim);
      }
    }
  }
}
