/** How the horizontal and the vertical box layout share out space along their axis:
    fixed children first, the rest in equal parts, the remainder to the last
    stretchable child. */
module BoxLayout {

  datatype Axis = Horizontal | Vertical

  /** A child as seen along the axis: its padding before and after, its fixed size,
      its limits, and what EstimateSize returns in the first and the second pass. */
  datatype Child = Child(visible: bool, floating: bool, before: int, after: int, fixed: int,
                         min: int, max: int, estimate1: int, estimate2: int)

  predicate Takes(c: Child) { c.visible && !c.floating }

  /** The children that take part, in order. */
  function Placed(items: seq<Child>): seq<Child>
  {
    if items == [] then []
    else Placed(items[..|items| - 1]) + (if Takes(items[|items| - 1]) then [items[|items| - 1]] else [])
  }

  function Max(a: int, b: int): int { if a < b then b else a }

  /** Raised to the minimum, then lowered to the maximum. */
  function Clamp(c: Child, size: int): int
  {
    var s := if size < c.min then c.min else size;
    if s > c.max then c.max else s
  }

  /** The size w is what is offered, or the limit that is in its way. The maximum comes
      last: it holds even where it is below the minimum. */
  predicate WithinLimits(c: Child, offer: int, w: int)
  {
    if c.min > c.max then w == c.max
    else c.min <= w <= c.max && (w < offer ==> w == c.max) && (w > offer ==> w == c.min)
  }

  lemma ClampIs(c: Child, offer: int)
    ensures forall w :: WithinLimits(c, offer, w) <==> w == Clamp(c, offer)
  {
  }

  /** A child without a size of its own. */
  predicate Stretches(axis: Axis, c: Child, estimate: int)
  {
    (axis == Horizontal && c.fixed == 0) || estimate == 0
  }

  predicate Stretchable(axis: Axis, c: Child) { Stretches(axis, c, c.estimate1) }

  /** The estimate is the same in both passes. A horizontal layout asks a child of
      fixed size 0 only once, and does not use the answer. */
  predicate Steady(axis: Axis, c: Child)
  {
    c.estimate1 == c.estimate2 || (axis == Horizontal && c.fixed == 0)
  }

  /** Padding, and the size unless it can stretch. */
  function FixedPart(axis: Axis, c: Child): int
  {
    c.before + c.after + (if Stretchable(axis, c) then 0 else Clamp(c, c.estimate1))
  }

  function FixedSum(axis: Axis, p: seq<Child>): int
  {
    if p == [] then 0 else FixedSum(axis, p[..|p| - 1]) + FixedPart(axis, p[|p| - 1])
  }

  function StretchCount(axis: Axis, p: seq<Child>): (n: nat)
    ensures n <= |p|
  {
    if p == [] then 0 else StretchCount(axis, p[..|p| - 1]) + (if Stretchable(axis, p[|p| - 1]) then 1 else 0)
  }

  /** Sizes and padding of the first children. */
  function Used(p: seq<Child>, ws: seq<int>): int
    requires |ws| == |p|
  {
    if p == [] then 0
    else Used(p[..|p| - 1], ws[..|p| - 1]) + p[|p| - 1].before + p[|p| - 1].after + ws[|p| - 1]
  }

  /** C's division. */
  function Quotient(a: int, b: nat): int
    requires b > 0
  {
    if a >= 0 then a / b else -((-a) / b)
  }

  /** The total of paddings, gaps and fixed sizes. */
  function Fixed(axis: Axis, p: seq<Child>, gap: int): int
  {
    FixedSum(axis, p) + (|p| - 1) * gap
  }

  /** The equal share of a stretchable child. */
  function Share(axis: Axis, p: seq<Child>, gap: int, avail: int): int
  {
    var n := StretchCount(axis, p);
    if n > 0 then Max(0, Quotient(avail - Fixed(axis, p, gap), n)) else 0
  }

  /** Child i is the last stretchable one. */
  predicate LastStretch(axis: Axis, p: seq<Child>, i: nat)
    requires i < |p|
  {
    Stretchable(axis, p[i]) && StretchCount(axis, p[..i]) + 1 == StretchCount(axis, p)
  }

  lemma PlacedStep(items: seq<Child>, i: nat)
    requires i < |items|
    ensures Placed(items[..i + 1]) == if Takes(items[i]) then Placed(items[..i]) + [items[i]] else Placed(items[..i])
  {
    assert items[..i + 1][..i] == items[..i];
  }

  lemma FixedStep(axis: Axis, p: seq<Child>, c: Child)
    ensures FixedSum(axis, p + [c]) == FixedSum(axis, p) + FixedPart(axis, c)
    ensures StretchCount(axis, p + [c]) == StretchCount(axis, p) + (if Stretchable(axis, c) then 1 else 0)
  {
    assert (p + [c])[..|p|] == p;
  }

  lemma UsedStep(p: seq<Child>, ws: seq<int>, c: Child, w: int)
    requires |ws| == |p|
    ensures Used(p + [c], ws + [w]) == Used(p, ws) + c.before + c.after + w
  {
    assert (p + [c])[..|p|] == p && (ws + [w])[..|p|] == ws;
  }

  // ---------- the first pass ----------

  /** Measure the fixed sizes and count the stretchable children. */
  method Measure(items: seq<Child>, axis: Axis, gap: int)
    returns (cxFixed: int, nAdjustables: nat, nEstimateNum: nat)
    ensures nEstimateNum == |Placed(items)| && nAdjustables == StretchCount(axis, Placed(items))
    ensures cxFixed == Fixed(axis, Placed(items), gap)
  {
    cxFixed, nAdjustables, nEstimateNum := 0, 0, 0;
    var it: nat := 0;
    while it < |items|
      invariant it <= |items|
      invariant nEstimateNum == |Placed(items[..it])|
      invariant nAdjustables == StretchCount(axis, Placed(items[..it]))
      invariant cxFixed == FixedSum(axis, Placed(items[..it]))
    {
      var c := items[it];
      PlacedStep(items, it);
      FixedStep(axis, Placed(items[..it]), c);
      it := it + 1;
      if !c.visible { continue; }
      if c.floating { continue; }
      var size := 0;
      if axis == Horizontal && c.fixed == 0 {
        nAdjustables := nAdjustables + 1;
      } else {
        size := c.estimate1;
        if size == 0 { nAdjustables := nAdjustables + 1; }
        else { size := Clamp(c, size); }
      }
      cxFixed := cxFixed + size + c.before + c.after;
      nEstimateNum := nEstimateNum + 1;
    }
    assert items[..it] == items;
    cxFixed := cxFixed + (nEstimateNum - 1) * gap;
  }

  // ---------- the second pass ----------

  /** How far the rectangles extend along the axis. */
  function Extents(rects: seq<(int, int)>): (ws: seq<int>)
    ensures |ws| == |rects|
  {
    seq(|rects|, i requires 0 <= i < |rects| => rects[i].1 - rects[i].0)
  }

  /** What the first children get: positions one after the other; every fixed child its
      own size, every stretchable child but the last the share, all within limits. */
  ghost predicate Laid(axis: Axis, p: seq<Child>, n: nat, rects: seq<(int, int)>, ws: seq<int>,
                       left: int, gap: int, share: int)
  {
    && n <= |p| && |rects| == |ws| == n
    && forall i | 0 <= i < n ::
         && rects[i].0 == left + Used(p[..i], ws[..i]) + i * gap + p[i].before
         && rects[i].1 == rects[i].0 + ws[i]
         && (!Stretchable(axis, p[i]) ==> ws[i] == Clamp(p[i], p[i].estimate1))
         && (Stretchable(axis, p[i]) && !LastStretch(axis, p, i) ==> ws[i] == Clamp(p[i], share))
  }

  /** What the last stretchable child is offered: the space the others leave. */
  ghost predicate LastGets(axis: Axis, p: seq<Child>, ws: seq<int>, left: int)
    requires |ws| == |p|
  {
    forall i | 0 <= i < |p| && LastStretch(axis, p, i) :: ws[i] == Clamp(p[i], Max(0, left + ws[i]))
  }

  lemma {:induction false} PlacedPrefix(items: seq<Child>, i: nat)
    requires i <= |items|
    ensures |Placed(items[..i])| <= |Placed(items)| && Placed(items[..i]) == Placed(items)[..|Placed(items[..i])|]
    decreases |items| - i
  {
    if i < |items| {
      PlacedStep(items, i);
      PlacedPrefix(items, i + 1);
    } else {
      assert items[..i] == items;
    }
  }

  lemma {:induction false} CountGrows(axis: Axis, p: seq<Child>, i: nat, j: nat)
    requires i < j <= |p| && Stretchable(axis, p[i])
    ensures StretchCount(axis, p[..j]) >= StretchCount(axis, p[..i]) + 1
    decreases j
  {
    assert p[..j] == p[..j - 1] + [p[j - 1]];
    FixedStep(axis, p[..j - 1], p[j - 1]);
    if j - 1 > i { CountGrows(axis, p, i, j - 1); }
  }

  lemma OneLast(axis: Axis, p: seq<Child>, i: nat, j: nat)
    requires i < |p| && j < |p| && LastStretch(axis, p, i) && LastStretch(axis, p, j)
    ensures i == j
  {
    if i < j { CountGrows(axis, p, i, j); }
    if j < i { CountGrows(axis, p, j, i); }
  }

  lemma Times(n: int, gap: int)
    ensures (n + 1) * gap == n * gap + gap
  {
  }

  /** The state of the second pass: the space remaining, the fixed space still to come,
      the position, and how many children were placed. */
  datatype Pass = Pass(szRemaining: int, cxFixedRemaining: int, iPos: int, iEstimate: nat, iAdjustable: nat,
                       cxNeeded: int)

  /** The numbers of the pass after the children p, which got ws. */
  ghost predicate Numbers(axis: Axis, p: seq<Child>, ws: seq<int>, s: Pass, left: int, avail: int, cxFixed: int,
                          gap: int)
  {
    && |ws| == |p| && s.iEstimate == |p| && s.iAdjustable == StretchCount(axis, p)
    && s.cxNeeded == Used(p, ws)
    && s.szRemaining == avail - Used(p, ws) - |p| * gap
    && s.iPos == left + Used(p, ws) + |p| * gap
    && s.cxFixedRemaining == cxFixed - FixedSum(axis, p) - (if p == [] then 0 else (|p| - 1) * gap)
  }

  /** One turn of the second loop. raw is what the last stretchable child is offered. */
  method PlaceOne(c: Child, axis: Axis, gap: int, cxExpand: int, nAdjustables: nat, s: Pass,
                  ghost p: seq<Child>, ghost ws: seq<int>, ghost left: int, ghost avail: int, ghost cxFixed: int)
    returns (rect: (int, int), s': Pass, w: int, ghost raw: int)
    requires Steady(axis, c) && Numbers(axis, p, ws, s, left, avail, cxFixed, gap)
    ensures Numbers(axis, p + [c], ws + [w], s', left, avail, cxFixed, gap)
    ensures rect == (left + Used(p, ws) + |p| * gap + c.before, left + Used(p, ws) + |p| * gap + c.before + w)
    ensures !Stretchable(axis, c) ==> w == Clamp(c, c.estimate1)
    ensures Stretchable(axis, c) && StretchCount(axis, p) + 1 != nAdjustables ==> w == Clamp(c, cxExpand)
    ensures Stretchable(axis, c) && StretchCount(axis, p) + 1 == nAdjustables ==>
              && w == Clamp(c, Max(0, raw))
              && Used(p + [c], ws + [w]) == avail - cxFixed + FixedSum(axis, p + [c]) + (w - raw)
  {
    FixedStep(axis, p, c);
    Times(|p|, gap);
    Times(|p| - 1, gap);
    var remaining := s.szRemaining - c.before;
    var fixedRemaining := s.cxFixedRemaining - (c.before + c.after);
    var iEstimate := s.iEstimate + 1;
    if iEstimate > 1 { fixedRemaining := fixedRemaining - gap; }
    var iAdjustable := s.iAdjustable;
    w := c.estimate2;
    raw := 0;
    if (axis == Horizontal && c.fixed == 0) || w == 0 {
      iAdjustable := iAdjustable + 1;
      w := cxExpand;
      if iAdjustable == nAdjustables {
        raw := remaining - c.after - fixedRemaining;
        w := Max(0, remaining - c.after - fixedRemaining);
      }
      w := Clamp(c, w);
    } else {
      w := Clamp(c, w);
      fixedRemaining := fixedRemaining - w;
    }
    UsedStep(p, ws, c, w);
    rect := (s.iPos + c.before, s.iPos + w + c.before);
    s' := Pass(remaining - (w + gap + c.after), fixedRemaining, s.iPos + w + gap + c.before + c.after,
               iEstimate, iAdjustable, s.cxNeeded + w + c.before + c.after);
  }

  /** The sizes of the children placed so far, once the last stretchable one is among them. */
  ghost predicate LastDone(axis: Axis, q: seq<Child>, n: nat, ws: seq<int>, last: nat, raw: int, avail: int,
                           cxFixed: int)
    requires |ws| == n <= |q|
  {
    && last < n && LastStretch(axis, q, last)
    && ws[last] == Clamp(q[last], Max(0, raw))
    && Used(q[..n], ws) == avail - cxFixed + FixedSum(axis, q[..n]) + (ws[last] - raw)
  }

  lemma LastKeeps(axis: Axis, q: seq<Child>, n: nat, ws: seq<int>, last: nat, raw: int, avail: int, cxFixed: int,
                  w: int)
    requires |ws| == n < |q| && LastDone(axis, q, n, ws, last, raw, avail, cxFixed)
    requires !Stretchable(axis, q[n]) && w == Clamp(q[n], q[n].estimate1)
    ensures LastDone(axis, q, n + 1, ws + [w], last, raw, avail, cxFixed)
  {
    hide Clamp, LastStretch;
    assert q[..n + 1] == q[..n] + [q[n]];
    FixedStep(axis, q[..n], q[n]);
    UsedStep(q[..n], ws, q[n], w);
  }

  lemma LastNew(axis: Axis, q: seq<Child>, n: nat, ws: seq<int>, raw: int, avail: int, cxFixed: int, w: int)
    requires |ws| == n < |q| && LastStretch(axis, q, n) && w == Clamp(q[n], Max(0, raw))
    requires Used(q[..n] + [q[n]], ws + [w]) == avail - cxFixed + FixedSum(axis, q[..n] + [q[n]]) + (w - raw)
    ensures LastDone(axis, q, n + 1, ws + [w], n, raw, avail, cxFixed)
  {
    assert q[..n + 1] == q[..n] + [q[n]];
  }

  /** Nothing is placed yet. */
  lemma AtStart(axis: Axis, q: seq<Child>, left: int, avail: int, cxFixed: int, gap: int, share: int)
    ensures Numbers(axis, q[..0], [], Pass(avail, cxFixed, left, 0, 0, 0), left, avail, cxFixed, gap)
    ensures Laid(axis, q, 0, [], [], left, gap, share)
  {
  }

  /** Everything is placed. */
  lemma AtEnd(axis: Axis, q: seq<Child>, ws: seq<int>, last: nat, raw: int, avail: int, gap: int)
    requires |ws| == |q|
    requires StretchCount(axis, q) > 0 ==> LastDone(axis, q, |q|, ws, last, raw, avail, Fixed(axis, q, gap))
    ensures LastGets(axis, q, ws, avail - (Used(q, ws) + (|q| - 1) * gap))
  {
    hide Clamp;
    assert q[..|q|] == q;
    if StretchCount(axis, q) > 0 {
      forall i | 0 <= i < |q| && LastStretch(axis, q, i)
        ensures i == last
      {
        OneLast(axis, q, i, last);
      }
    }
  }

  lemma ExtentsAre(axis: Axis, p: seq<Child>, rects: seq<(int, int)>, ws: seq<int>, left: int, gap: int, share: int)
    requires Laid(axis, p, |p|, rects, ws, left, gap, share)
    ensures Extents(rects) == ws
  {
    hide Clamp, Used;
  }

  /** SetPos along the axis: each child gets its rectangle, and needed is the sum of all
      sizes, paddings and gaps. It is exactly the space available when the last
      stretchable child gets what it is offered, and only then. */
  method SetPos(items: seq<Child>, axis: Axis, gap: int, left: int, avail: int)
    returns (rects: seq<(int, int)>, needed: int)
    requires forall i | 0 <= i < |items| :: Steady(axis, items[i])
    ensures var p, ws := Placed(items), Extents(rects);
            && |rects| == |p|
            && Laid(axis, p, |p|, rects, ws, left, gap, Share(axis, p, gap, avail))
            && needed == (if items == [] then 0 else Used(p, ws) + (|p| - 1) * gap)
            && LastGets(axis, p, ws, avail - needed)
            && forall i | 0 <= i < |p| && LastStretch(axis, p, i) ::
                 needed == avail <==> TakesOffer(p[i], avail - (needed - ws[i]))
    ensures var p, ws := Placed(items), Extents(rects);
            Limited(axis, p, ws, Share(axis, p, gap, avail), avail - needed)
  {
    hide Limited, Clamp, FixedPart, FixedSum, StretchCount, Used, Placed, Laid, Numbers, LastDone, Stretchable;
    if items == [] {
      NoChildren(axis, left, gap, avail);
      AllLimited(axis, [], [], [], left, gap, Share(axis, [], gap, avail), avail);
      return [], 0;
    }
    var cxFixed, nAdjustables, nEstimateNum := Measure(items, axis, gap);
    ghost var q := Placed(items);
    var cxExpand := 0;
    if nAdjustables > 0 { cxExpand := Max(0, Quotient(avail - cxFixed, nAdjustables)); }
    var s := Pass(avail, cxFixed, left, 0, 0, 0);
    rects := [];
    ghost var ws: seq<int> := [];
    ghost var last: nat, raw: int := 0, 0;
    AtStart(axis, q, left, avail, cxFixed, gap, cxExpand);
    NonePlaced(items);
    var it: nat := 0;
    while it < |items|
      invariant it <= |items| && |rects| == |ws| <= |q| && Placed(items[..it]) == q[..|ws|]
      invariant Numbers(axis, q[..|ws|], ws, s, left, avail, cxFixed, gap)
      invariant Laid(axis, q, |ws|, rects, ws, left, gap, cxExpand)
      invariant StretchCount(axis, q[..|ws|]) == nAdjustables > 0
                ==> LastDone(axis, q, |ws|, ws, last, raw, avail, cxFixed)
    {
      var c := items[it];
      PlacedStep(items, it);
      PlacedPrefix(items, it + 1);
      it := it + 1;
      if !c.visible { continue; }
      if c.floating { continue; }
      ghost var n := |ws|;
      ghost var p := q[..n];
      assert Placed(items[..it]) == p + [c] == q[..n + 1];
      assert q[n] == (p + [c])[n] == c;
      var rect, w;
      ghost var r;
      rect, s, w, r := PlaceOne(c, axis, gap, cxExpand, nAdjustables, s, p, ws, left, avail, cxFixed);
      FixedStep(axis, p, c);
      LaidStep(axis, q, n, rects, ws, left, gap, cxExpand, rect, w);
      if StretchCount(axis, p + [c]) == nAdjustables > 0 {
        if Stretchable(axis, c) {
          LastNew(axis, q, n, ws, r, avail, cxFixed, w);
          last, raw := n, r;
        } else {
          LastKeeps(axis, q, n, ws, last, raw, avail, cxFixed, w);
        }
      }
      rects, ws := rects + [rect], ws + [w];
    }
    assert items[..it] == items && q[..|q|] == q;
    needed := s.cxNeeded + (nEstimateNum - 1) * gap;
    AllUsed(axis, q, ws, s, left, avail, cxFixed, gap);
    AtEnd(axis, q, ws, last, raw, avail, gap);
    ExtentsAre(axis, q, rects, ws, left, gap, cxExpand);
    AllLimited(axis, q, rects, ws, left, gap, cxExpand, avail - needed);
    forall i | 0 <= i < |q| && LastStretch(axis, q, i)
      ensures needed == avail <==> TakesOffer(q[i], avail - (needed - ws[i]))
    {
      Conserved(axis, q, ws, needed, avail, i);
    }
  }

  /** Every child gets its estimate, the share, or what the others leave, within its limits:
      that itself where it lies within them. */
  ghost predicate Limited(axis: Axis, p: seq<Child>, ws: seq<int>, share: int, spare: int)
    requires |ws| == |p|
  {
    forall i | 0 <= i < |p| ::
      && WithinLimits(p[i], SizeOffered(axis, p, ws, share, spare, i), ws[i])
      && ws[i] <= p[i].max && (p[i].min <= p[i].max ==> p[i].min <= ws[i])
      && (p[i].min <= SizeOffered(axis, p, ws, share, spare, i) <= p[i].max ==>
            ws[i] == SizeOffered(axis, p, ws, share, spare, i))
  }

  function SizeOffered(axis: Axis, p: seq<Child>, ws: seq<int>, share: int, spare: int, i: nat): int
    requires |ws| == |p| && i < |p|
  {
    if !Stretchable(axis, p[i]) then p[i].estimate1
    else if LastStretch(axis, p, i) then (if spare + ws[i] >= 0 then spare + ws[i] else 0)
    else share
  }

  lemma AllLimited(axis: Axis, p: seq<Child>, rects: seq<(int, int)>, ws: seq<int>, left: int, gap: int, share: int,
                   spare: int)
    requires |ws| == |p| && Laid(axis, p, |p|, rects, ws, left, gap, share) && LastGets(axis, p, ws, spare)
    ensures Limited(axis, p, ws, share, spare)
  {
    hide Clamp, Used, StretchCount, WithinLimits;
    forall i | 0 <= i < |p|
      ensures WithinLimits(p[i], SizeOffered(axis, p, ws, share, spare, i), ws[i])
    {
      ClampIs(p[i], SizeOffered(axis, p, ws, share, spare, i));
    }
    LimitsMean(axis, p, ws, share, spare);
  }

  lemma LimitsMean(axis: Axis, p: seq<Child>, ws: seq<int>, share: int, spare: int)
    requires |ws| == |p|
    requires forall i | 0 <= i < |p| :: WithinLimits(p[i], SizeOffered(axis, p, ws, share, spare, i), ws[i])
    ensures Limited(axis, p, ws, share, spare)
  {
    hide SizeOffered;
  }

  lemma NonePlaced(items: seq<Child>)
    ensures Placed(items[..0]) == []
  {
  }

  lemma AllUsed(axis: Axis, p: seq<Child>, ws: seq<int>, s: Pass, left: int, avail: int, cxFixed: int, gap: int)
    requires Numbers(axis, p, ws, s, left, avail, cxFixed, gap)
    ensures |ws| == |p| && s.cxNeeded == Used(p, ws)
  {
  }

  lemma LaidStep(axis: Axis, p: seq<Child>, n: nat, rects: seq<(int, int)>, ws: seq<int>, left: int, gap: int,
                 share: int,
                 rect: (int, int), w: int)
    requires Laid(axis, p, n, rects, ws, left, gap, share) && n < |p|
    requires rect == (left + Used(p[..n], ws) + n * gap + p[n].before,
                      left + Used(p[..n], ws) + n * gap + p[n].before + w)
    requires !Stretchable(axis, p[n]) ==> w == Clamp(p[n], p[n].estimate1)
    requires Stretchable(axis, p[n]) && !LastStretch(axis, p, n) ==> w == Clamp(p[n], share)
    ensures Laid(axis, p, n + 1, rects + [rect], ws + [w], left, gap, share)
  {
    hide Clamp;
    forall i | 0 <= i < n
      ensures (ws + [w])[..i] == ws[..i]
    {
    }
    assert (ws + [w])[..n] == ws;
  }

  // ---------- what follows ----------

  /** The child's limits let it have this much. */
  predicate TakesOffer(c: Child, offer: int)
  {
    Clamp(c, Max(0, offer)) == offer
  }

  lemma Conserved(axis: Axis, p: seq<Child>, ws: seq<int>, needed: int, avail: int, i: nat)
    requires |ws| == |p| && LastGets(axis, p, ws, avail - needed)
    requires i < |p| && LastStretch(axis, p, i)
    ensures needed == avail <==> TakesOffer(p[i], avail - (needed - ws[i]))
  {
  }

  lemma NoChildren(axis: Axis, left: int, gap: int, avail: int)
    ensures Placed([]) == [] && Extents([]) == []
    ensures Laid(axis, [], 0, [], [], left, gap, Share(axis, [], gap, avail)) && LastGets(axis, [], [], avail)
  {
  }

  /** The space a stretchable child is offered: the common share, or for the last one
      what the others leave. */
  function Offer(axis: Axis, p: seq<Child>, ws: seq<int>, share: int, spare: int, i: nat): int
    requires |ws| == |p| && i < |p|
  {
    if LastStretch(axis, p, i) then spare + ws[i] else share
  }

  /** No stretchable child's limits change what it is offered. */
  ghost predicate Unclamped(axis: Axis, p: seq<Child>, ws: seq<int>, share: int, spare: int)
    requires |ws| == |p|
  {
    forall i | 0 <= i < |p| && Stretchable(axis, p[i]) ::
      var offer := Offer(axis, p, ws, share, spare, i);
      0 <= offer && Clamp(p[i], offer) == offer
  }

  /** Every stretchable child gets what it is offered. */
  ghost predicate AsOffered(axis: Axis, p: seq<Child>, ws: seq<int>, share: int, spare: int)
    requires |ws| == |p|
  {
    forall i | 0 <= i < |p| && Stretchable(axis, p[i]) :: ws[i] == Offer(axis, p, ws, share, spare, i)
  }

  lemma OfferTaken(axis: Axis, p: seq<Child>, ws: seq<int>, rects: seq<(int, int)>, left: int, gap: int, share: int,
                   spare: int)
    requires |ws| == |p| && Laid(axis, p, |p|, rects, ws, left, gap, share) && LastGets(axis, p, ws, spare)
    requires Unclamped(axis, p, ws, share, spare)
    ensures AsOffered(axis, p, ws, share, spare) && forall i | 0 <= i < |p| && Stretchable(axis, p[i]) :: ws[i] >= 0
  {
    hide Used, StretchCount;
    forall i | 0 <= i < |p| && Stretchable(axis, p[i])
      ensures ws[i] == Offer(axis, p, ws, share, spare, i) >= 0
    {
    }
  }

  function Copies(n: nat, x: int): int
  {
    if n == 0 then 0 else Copies(n - 1, x) + x
  }

  lemma {:induction false} CopiesIs(n: nat, x: int)
    ensures Copies(n, x) == n * x
  {
    if n > 0 {
      CopiesIs(n - 1, x);
      Times(n - 1, x);
    }
  }

  /** Before the last stretchable child every other one got the share. */
  lemma {:induction false} UsedBefore(axis: Axis, p: seq<Child>, n: nat, ws: seq<int>, rects: seq<(int, int)>,
                                      left: int, gap: int, share: int, spare: int, last: nat)
    requires |ws| == |p| && Laid(axis, p, |p|, rects, ws, left, gap, share)
    requires AsOffered(axis, p, ws, share, spare) && n <= last < |p| && LastStretch(axis, p, last)
    ensures Used(p[..n], ws[..n]) == FixedSum(axis, p[..n]) + Copies(StretchCount(axis, p[..n]), share)
  {
    hide Clamp, FixedSum, StretchCount, Used, Laid;
    if n > 0 {
      UsedBefore(axis, p, n - 1, ws, rects, left, gap, share, spare, last);
      var c := p[n - 1];
      assert p[..n] == p[..n - 1] + [c] && ws[..n] == ws[..n - 1] + [ws[n - 1]];
      FixedStep(axis, p[..n - 1], c);
      UsedStep(p[..n - 1], ws[..n - 1], c, ws[n - 1]);
      SizeAt(axis, p, ws, rects, left, gap, share, n - 1);
      if LastStretch(axis, p, n - 1) { OneLast(axis, p, n - 1, last); }
    } else {
      Nothing(axis, p[..0], ws[..0]);
    }
  }

  lemma Nothing(axis: Axis, p: seq<Child>, ws: seq<int>)
    requires p == [] && ws == []
    ensures Used(p, ws) == 0 && FixedSum(axis, p) == 0 && StretchCount(axis, p) == 0
  {
  }

  lemma SizeAt(axis: Axis, p: seq<Child>, ws: seq<int>, rects: seq<(int, int)>, left: int, gap: int, share: int, i: nat)
    requires |ws| == |p| && Laid(axis, p, |p|, rects, ws, left, gap, share) && i < |p|
    ensures !Stretchable(axis, p[i]) ==> p[i].before + p[i].after + ws[i] == FixedPart(axis, p[i])
    ensures Stretchable(axis, p[i]) ==> p[i].before + p[i].after == FixedPart(axis, p[i])
  {
    hide Clamp, Used;
  }

  /** After it there are only fixed children. */
  lemma {:induction false} UsedAfter(axis: Axis, p: seq<Child>, n: nat, ws: seq<int>, rects: seq<(int, int)>,
                                     left: int, gap: int, share: int, spare: int, last: nat)
    requires |ws| == |p| && Laid(axis, p, |p|, rects, ws, left, gap, share)
    requires AsOffered(axis, p, ws, share, spare) && last < n <= |p| && LastStretch(axis, p, last)
    ensures StretchCount(axis, p[..n]) == StretchCount(axis, p)
    ensures Used(p[..n], ws[..n])
            == FixedSum(axis, p[..n]) + Copies(StretchCount(axis, p) - 1, share) + ws[last]
  {
    hide Clamp, FixedSum, StretchCount, Used, Laid;
    var c := p[n - 1];
    SizeAt(axis, p, ws, rects, left, gap, share, n - 1);
    assert p[..n] == p[..n - 1] + [c] && ws[..n] == ws[..n - 1] + [ws[n - 1]];
    FixedStep(axis, p[..n - 1], c);
    UsedStep(p[..n - 1], ws[..n - 1], c, ws[n - 1]);
    if n - 1 == last {
      UsedBefore(axis, p, last, ws, rects, left, gap, share, spare, last);
    } else {
      UsedAfter(axis, p, n - 1, ws, rects, left, gap, share, spare, last);
      if Stretchable(axis, c) {
        assert p[..|p|] == p;
        CountGrows(axis, p, n - 1, |p|);
      }
    }
  }

  lemma Division(d: int, n: nat)
    requires n > 0 && d >= 0
    ensures 0 <= d - (n - 1) * (d / n) - d / n < n
  {
    assert d == n * (d / n) + d % n;
    Times(n - 1, d / n);
  }

  /** Then the last one gets the common share and the remainder of the division. */
  lemma EqualShares(axis: Axis, p: seq<Child>, ws: seq<int>, rects: seq<(int, int)>, left: int, gap: int, avail: int,
                    needed: int, last: nat)
    requires |ws| == |p| && last < |p| && LastStretch(axis, p, last)
    requires var share := Share(axis, p, gap, avail);
             Laid(axis, p, |p|, rects, ws, left, gap, share) && Unclamped(axis, p, ws, share, avail - needed)
    requires LastGets(axis, p, ws, avail - needed)
    requires needed == Used(p, ws) + (|p| - 1) * gap
    ensures needed == avail
    ensures 0 <= ws[last] - Share(axis, p, gap, avail) < StretchCount(axis, p)
  {
    hide Clamp, Laid, Used, FixedSum, StretchCount, Share, LastGets, Unclamped;
    OfferTaken(axis, p, ws, rects, left, gap, Share(axis, p, gap, avail), avail - needed);
    var share, n := Share(axis, p, gap, avail), StretchCount(axis, p);
    UsedAfter(axis, p, |p|, ws, rects, left, gap, share, avail - needed, last);
    assert p[..|p|] == p && ws[..|p|] == ws;
    CopiesIs(n - 1, share);
    var d := avail - Fixed(axis, p, gap);
    assert ws[last] == d - (n - 1) * share;
    ShareIs(axis, p, gap, avail);
    if d >= 0 {
      Division(d, n);
    }
  }

  lemma ShareIs(axis: Axis, p: seq<Child>, gap: int, avail: int)
    requires StretchCount(axis, p) > 0
    ensures var d := avail - Fixed(axis, p, gap);
            Share(axis, p, gap, avail) == if d >= 0 then d / StretchCount(axis, p) else 0
  {
    hide Fixed, StretchCount, Quotient, Max;
    QuotientIs(avail - Fixed(axis, p, gap), StretchCount(axis, p));
  }

  lemma QuotientIs(d: int, n: nat)
    requires n > 0
    ensures Max(0, Quotient(d, n)) == if d >= 0 then d / n else 0
  {
    if d < 0 { NoShare(d, n); } else { assert d / n >= 0; }
  }

  lemma NoShare(d: int, n: nat)
    requires n > 0 && d < 0
    ensures Max(0, Quotient(d, n)) == 0
  {
    assert (-d) / n >= 0;
  }
}
