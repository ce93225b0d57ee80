// Pipes of the Flappy Bird panel: their geometry, how a pair is spawned, how
// the list scrolls and recycles, the rectangle overlap used for collisions and
// the scan that finds the next pipe to score.

module FlappyPipes {

  const PanelWidth := 800
  const PanelHeight := 600
  const PipeGap := 250
  const PipeWidth := 70
  const PipeSpeed := 3
  const MinHeight := 60
  const MaxHeight := 300
  /** Number of values `random.nextInt(MaxHeight - MinHeight)` can draw. */
  const HeightRange := MaxHeight - MinHeight
  /** Horizontal distance between consecutive spawned pairs, also the spawn threshold. */
  const PipeSpacing := 350

  /** One pipe rectangle; `passed` is set once the bird has scored it. */
  datatype Pipe = Pipe(x: int, y: int, width: int, height: int, passed: bool)

  datatype Rect = Rect(x: int, y: int, width: int, height: int)

  function PipeRect(p: Pipe): Rect {
    Rect(p.x, p.y, p.width, p.height)
  }

  /** Overlap of two rectangles as `java.awt.Rectangle.intersects` decides it
      (empty rectangles never overlap), on unbounded integers. */
  predicate Intersects(a: Rect, b: Rect) {
    && a.width > 0 && a.height > 0 && b.width > 0 && b.height > 0
    && b.x + b.width > a.x && b.y + b.height > a.y
    && a.x + a.width > b.x && a.y + a.height > b.y
  }

  /** The pixel (px, py) lies inside r. */
  predicate Covers(r: Rect, px: int, py: int) {
    r.x <= px < r.x + r.width && r.y <= py < r.y + r.height
  }

  /** Reference definition of overlap: the two rectangles share a pixel. */
  lemma IntersectsIffSharedPixel(a: Rect, b: Rect)
    ensures Intersects(a, b) <==> exists px, py :: Covers(a, px, py) && Covers(b, px, py)
  {
    if Intersects(a, b) {
      var px := if a.x < b.x then b.x else a.x;
      var py := if a.y < b.y then b.y else a.y;
      assert Covers(a, px, py) && Covers(b, px, py);
    }
  }

  /** Some pipe of `ps` overlaps `box`. */
  predicate HitsPipe(box: Rect, ps: seq<Pipe>) {
    exists i :: 0 <= i < |ps| && Intersects(box, PipeRect(ps[i]))
  }

  /** The pipe loop of `checkCollisions`: stops at the first pipe that overlaps. */
  method PipeHit(box: Rect, ps: seq<Pipe>) returns (hit: bool)
    ensures hit <==> HitsPipe(box, ps)
  {
    var i := 0;
    while i < |ps|
      invariant 0 <= i <= |ps|
      invariant forall j :: 0 <= j < i ==> !Intersects(box, PipeRect(ps[j]))
    {
      if Intersects(box, PipeRect(ps[i])) {
        return true;
      }
      i := i + 1;
    }
    return false;
  }

  // ---------------------------------------------------------------------------
  // Pairs

  /** `top` and `bottom` are a pair as `addPipe` creates it: same x, width 70,
      a top pipe from y = 0 with height in [60, 300), a gap of 250, and a bottom
      pipe reaching the bottom of the panel; only a top pipe is ever scored. */
  predicate IsPair(top: Pipe, bottom: Pipe) {
    && top.y == 0 && top.width == PipeWidth && MinHeight <= top.height < MaxHeight
    && bottom.x == top.x && bottom.width == PipeWidth
    && bottom.y == top.height + PipeGap
    && bottom.height == PanelHeight - top.height - PipeGap
    && !bottom.passed
  }

  /** The list is a sequence of top/bottom pairs. */
  predicate WellFormed(ps: seq<Pipe>)
    decreases |ps|
  {
    if ps == [] then true
    else |ps| >= 2 && IsPair(ps[|ps| - 2], ps[|ps| - 1]) && WellFormed(ps[..|ps| - 2])
  }

  /** Every pipe lies between just off the left edge and the spawn column. */
  predicate InRange(ps: seq<Pipe>) {
    forall p :: p in ps ==> -PipeWidth <= p.x <= PanelWidth
  }

  /** The two pipes `addPipe` appends for a drawn `draw` = `random.nextInt(240)`. */
  function PairAt(x: int, draw: nat): (pair: seq<Pipe>)
    requires draw < HeightRange
    ensures |pair| == 2 && IsPair(pair[0], pair[1])
    ensures pair[0].x == x && !pair[0].passed
    ensures pair[0].height == MinHeight + draw
    ensures pair[0].height + PipeGap + pair[1].height == PanelHeight
  {
    var height := MinHeight + draw;
    [Pipe(x, 0, PipeWidth, height, false),
     Pipe(x, height + PipeGap, PipeWidth, PanelHeight - height - PipeGap, false)]
  }

  /** Where `addPipe` puts the new pair: the right edge when starting or when
      the list is empty, otherwise 350 to the right of the last pipe. */
  function SpawnPosition(ps: seq<Pipe>, start: bool): int {
    if start || ps == [] then PanelWidth else ps[|ps| - 1].x + PipeSpacing
  }

  lemma AppendPairWellFormed(ps: seq<Pipe>, pair: seq<Pipe>)
    requires WellFormed(ps) && |pair| == 2 && IsPair(pair[0], pair[1])
    ensures WellFormed(ps + pair)
  {
    var r := ps + pair;
    assert r[..|r| - 2] == ps;
    assert r[|r| - 2] == pair[0] && r[|r| - 1] == pair[1];
  }

  // ---------------------------------------------------------------------------
  // Scrolling and recycling (`movePipes`)

  function Shifted(p: Pipe): Pipe {
    p.(x := p.x - PipeSpeed)
  }

  predicate OffScreen(p: Pipe) {
    p.x + PipeWidth < 0
  }

  /** What one pipe becomes in the loop of `movePipes`: shifted, and dropped if
      it is then off screen. */
  function Survivor(p: Pipe): seq<Pipe> {
    var q := Shifted(p);
    if OffScreen(q) then [] else [q]
  }

  /** The list after the loop of `movePipes`. */
  function Scrolled(ps: seq<Pipe>): seq<Pipe>
    decreases |ps|
  {
    if ps == [] then [] else Scrolled(ps[..|ps| - 1]) + Survivor(ps[|ps| - 1])
  }

  /** A pipe survives scrolling exactly when it is the shift of some pipe that
      is not off screen after the shift. */
  lemma {:induction false} ScrolledMembers(ps: seq<Pipe>, q: Pipe)
    ensures q in Scrolled(ps) <==> exists i :: 0 <= i < |ps| && q == Shifted(ps[i]) && !OffScreen(q)
    decreases |ps|
  {
    if ps != [] {
      var n := |ps|;
      var init := ps[..n - 1];
      ScrolledMembers(init, q);
      assert Scrolled(ps) == Scrolled(init) + Survivor(ps[n - 1]);
      if q in Scrolled(ps) {
        if q in Scrolled(init) {
          var i :| 0 <= i < n - 1 && q == Shifted(init[i]) && !OffScreen(q);
          assert init[i] == ps[i];
        } else {
          assert q == Shifted(ps[n - 1]) && !OffScreen(q);
        }
      } else {
        forall i | 0 <= i < n && q == Shifted(ps[i])
          ensures OffScreen(q)
        {
          if i < n - 1 {
            assert init[i] == ps[i];
          }
        }
      }
    }
  }

  /** One step of the loop of `movePipes`, when `kept` is what the loop has
      produced from the first `done` pipes and the rest are still untouched:
      the pipe at index |kept| is the next original one, and replacing it by
      its shift, then removing it if it is off screen, leaves what the loop
      has produced from `done + 1` pipes followed by the untouched rest. */
  lemma ScrollStep(kept: seq<Pipe>, ps: seq<Pipe>, done: nat, pipe: Pipe)
    requires done < |ps| && kept == Scrolled(ps[..done]) && pipe == Shifted(ps[done])
    ensures (kept + ps[done..])[|kept|] == ps[done]
    ensures var l, next := (kept + ps[done..])[|kept| := pipe], Scrolled(ps[..done + 1]);
      if OffScreen(pipe) then
        |next| == |kept| && l[..|kept|] + l[|kept| + 1..] == next + ps[done + 1..]
      else
        |next| == |kept| + 1 && l == next + ps[done + 1..]
  {
    assert ps[..done + 1][..done] == ps[..done];
    var l := (kept + ps[done..])[|kept| := pipe];
    assert l == kept + [pipe] + ps[done + 1..];
    assert l[..|kept|] == kept;
    assert l[|kept| + 1..] == ps[done + 1..];
  }

  /** Scrolling works pipe by pipe: the survivors keep their relative order. */
  lemma {:induction false} ScrolledAppend(a: seq<Pipe>, b: seq<Pipe>)
    ensures Scrolled(a + b) == Scrolled(a) + Scrolled(b)
    decreases |b|
  {
    if b == [] {
      assert a + b == a;
    } else {
      var n := |b|;
      ScrolledAppend(a, b[..n - 1]);
      assert (a + b)[..|a + b| - 1] == a + b[..n - 1];
      assert (a + b)[|a + b| - 1] == b[n - 1];
    }
  }

  /** Both pipes of a pair share x, so a pair is kept or dropped as a whole. */
  lemma {:induction false} ScrolledWellFormed(ps: seq<Pipe>)
    requires WellFormed(ps)
    ensures WellFormed(Scrolled(ps))
    decreases |ps|
  {
    if ps != [] {
      var n := |ps|;
      var pre := ps[..n - 2];
      ScrolledWellFormed(pre);
      assert ps[..n - 1][..n - 2] == pre;
      assert Scrolled(ps) == Scrolled(pre) + Survivor(ps[n - 2]) + Survivor(ps[n - 1]);
      var t, b := Shifted(ps[n - 2]), Shifted(ps[n - 1]);
      if OffScreen(t) {
        assert Scrolled(ps) == Scrolled(pre);
      } else {
        var s := Scrolled(pre) + [t, b];
        assert Scrolled(ps) == s;
        assert s[..|s| - 2] == Scrolled(pre);
      }
    }
  }

  lemma ScrolledInRange(ps: seq<Pipe>)
    requires InRange(ps)
    ensures InRange(Scrolled(ps))
  {
    forall q | q in Scrolled(ps)
      ensures -PipeWidth <= q.x <= PanelWidth
    {
      ScrolledMembers(ps, q);
      var i :| 0 <= i < |ps| && q == Shifted(ps[i]) && !OffScreen(q);
      assert ps[i] in ps;
    }
  }

  /** The last pipe is missing or has crossed the spawn threshold. */
  predicate NeedsPair(ps: seq<Pipe>) {
    ps == [] || ps[|ps| - 1].x < PipeSpacing
  }

  /** The list after `movePipes`: scrolled, then one new pair when needed. */
  function Moved(ps: seq<Pipe>, draw: nat): seq<Pipe>
    requires draw < HeightRange
  {
    var s := Scrolled(ps);
    if NeedsPair(s) then s + PairAt(SpawnPosition(s, false), draw) else s
  }

  /** `movePipes` leaves a non-empty list of pairs that stays in range, and
      appends exactly one pair, after the survivors, when the last survivor
      has crossed the threshold or none survived. */
  lemma MovedKeepsShape(ps: seq<Pipe>, draw: nat)
    requires draw < HeightRange
    requires WellFormed(ps) && InRange(ps)
    ensures Moved(ps, draw) != []
    ensures WellFormed(Moved(ps, draw)) && InRange(Moved(ps, draw))
    ensures var s, r := Scrolled(ps), Moved(ps, draw);
      if NeedsPair(s) then
        |r| == |s| + 2 && r[..|s|] == s && r[|s|..] == PairAt(SpawnPosition(s, false), draw)
      else r == s
  {
    var s := Scrolled(ps);
    ScrolledWellFormed(ps);
    ScrolledInRange(ps);
    if NeedsPair(s) {
      var pair := PairAt(SpawnPosition(s, false), draw);
      AppendPairWellFormed(s, pair);
      if s != [] {
        assert s[|s| - 1] in s;
      }
      forall p | p in s + pair
        ensures -PipeWidth <= p.x <= PanelWidth
      {
        if p !in s {
          assert p == pair[0] || p == pair[1];
        }
      }
    }
  }

  /** A pipe that is still on screen after its shift is kept by `movePipes`. */
  lemma MovedKeepsSurvivor(ps: seq<Pipe>, draw: nat, p: Pipe)
    requires draw < HeightRange && p in ps && !OffScreen(Shifted(p))
    ensures Shifted(p) in Moved(ps, draw)
  {
    var i :| 0 <= i < |ps| && ps[i] == p;
    ScrolledMembers(ps, Shifted(p));
  }

  // ---------------------------------------------------------------------------
  // Scoring (`updateScore`)

  /** A top pipe whose right edge the bird has passed and that has not yet
      been scored. */
  predicate Scorable(p: Pipe, birdX: int) {
    p.y == 0 && birdX > p.x + PipeWidth && !p.passed
  }

  /** Index of the first scorable pipe at or after `from`, or |ps| if none. */
  function FirstScorable(ps: seq<Pipe>, birdX: int, from: nat): (k: nat)
    requires from <= |ps|
    ensures from <= k <= |ps|
    ensures k < |ps| ==> Scorable(ps[k], birdX)
    ensures forall j :: from <= j < k ==> !Scorable(ps[j], birdX)
    decreases |ps| - from
  {
    if from == |ps| then |ps|
    else if Scorable(ps[from], birdX) then from
    else FirstScorable(ps, birdX, from + 1)
  }

  function MarkPassed(ps: seq<Pipe>, k: nat): seq<Pipe>
    requires k < |ps|
  {
    ps[k := ps[k].(passed := true)]
  }

  /** Number of pipes already scored. */
  function PassedCount(ps: seq<Pipe>): (n: nat)
    ensures n <= |ps|
  {
    if ps == [] then 0 else (if ps[0].passed then 1 else 0) + PassedCount(ps[1..])
  }

  /** Marking an unscored pipe adds exactly one to the scored count. */
  lemma {:induction false} PassedCountMark(ps: seq<Pipe>, k: nat)
    requires k < |ps| && !ps[k].passed
    ensures PassedCount(MarkPassed(ps, k)) == PassedCount(ps) + 1
    decreases |ps|
  {
    var r := MarkPassed(ps, k);
    if k == 0 {
      assert r[1..] == ps[1..];
    } else {
      PassedCountMark(ps[1..], k - 1);
      assert r[1..] == MarkPassed(ps[1..], k - 1);
    }
  }

  /** Marking a top pipe as passed keeps the pair structure. */
  lemma {:induction false} MarkPassedWellFormed(ps: seq<Pipe>, k: nat)
    requires WellFormed(ps) && k < |ps| && ps[k].y == 0
    ensures WellFormed(MarkPassed(ps, k))
    decreases |ps|
  {
    var n := |ps|;
    var r := MarkPassed(ps, k);
    if k < n - 2 {
      MarkPassedWellFormed(ps[..n - 2], k);
      assert r[..n - 2] == MarkPassed(ps[..n - 2], k);
    } else {
      assert r[..n - 2] == ps[..n - 2];
    }
  }

  lemma MarkPassedInRange(ps: seq<Pipe>, k: nat)
    requires InRange(ps) && k < |ps|
    ensures |MarkPassed(ps, k)| == |ps|
    ensures forall i :: 0 <= i < |ps| ==> MarkPassed(ps, k)[i].x == ps[i].x
    ensures InRange(MarkPassed(ps, k))
  {
    forall p | p in MarkPassed(ps, k)
      ensures -PipeWidth <= p.x <= PanelWidth
    {
      var i :| 0 <= i < |ps| && MarkPassed(ps, k)[i] == p;
      assert ps[i] in ps;
    }
  }
}
