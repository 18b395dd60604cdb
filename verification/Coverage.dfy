/** Which satellite scenes fill a map view. */
module Coverage {
  import opened Wrappers

  /** West, south, east, north. */
  datatype Rect = Rect(west: real, south: real, east: real, north: real)

  predicate Holds(r: Rect, x: real, y: real) {
    r.west <= x <= r.east && r.south <= y <= r.north
  }

  predicate Within(r: Rect, x: real, y: real) {
    r.west < x < r.east && r.south < y < r.north
  }

  predicate HasArea(r: Rect) {
    r.west < r.east && r.south < r.north
  }

  predicate Covered(covers: seq<Rect>, x: real, y: real) {
    exists i :: 0 <= i < |covers| && Holds(covers[i], x, y)
  }

  // ---- coordinate compression ----------------------------------------------------------

  function Clip(v: real, lo: real, hi: real): (r: real)
    ensures lo <= hi ==> lo <= r <= hi
    ensures lo <= v <= hi ==> r == v
  {
    var up := if v < lo then lo else v;
    if hi < up then hi else up
  }

  predicate Ascending(xs: seq<real>) {
    forall i, j :: 0 <= i < j < |xs| ==> xs[i] < xs[j]
  }

  /** Adds an edge to a set of edges kept in ascending order. */
  function Place(xs: seq<real>, e: real): seq<real> {
    if xs == [] || e < xs[0] then [e] + xs
    else if e == xs[0] then xs
    else [xs[0]] + Place(xs[1..], e)
  }

  lemma {:induction false} PlaceKeeps(xs: seq<real>, e: real)
    requires Ascending(xs)
    ensures forall v :: v in Place(xs, e) <==> v == e || v in xs
    ensures Ascending(Place(xs, e))
  {
    if xs != [] && e > xs[0] {
      var rest := Place(xs[1..], e);
      PlaceKeeps(xs[1..], e);
      assert xs == [xs[0]] + xs[1..];
      forall v | v in rest ensures xs[0] < v {
      }
      forall j | 0 <= j < |rest| ensures xs[0] < rest[j] {
        assert rest[j] in rest;
      }
    }
  }

  predicate Spanned(xs: seq<real>, lo: real, hi: real) {
    lo <= hi ==> forall v :: v in xs ==> lo <= v <= hi
  }

  method AddEdge(xs: seq<real>, v: real, lo: real, hi: real) returns (more: seq<real>)
    requires Ascending(xs) && Spanned(xs, lo, hi)
    ensures Ascending(more) && Spanned(more, lo, hi)
    ensures Clip(v, lo, hi) in more && forall e :: e in xs ==> e in more
  {
    PlaceKeeps(xs, Clip(v, lo, hi));
    more := Place(xs, Clip(v, lo, hi));
  }

  predicate Marked(xs: seq<real>, interval: (real, real), lo: real, hi: real) {
    Clip(interval.0, lo, hi) in xs && Clip(interval.1, lo, hi) in xs
  }

  /** The span's ends and the clipped ends of every interval, ascending. */
  method Cuts(intervals: seq<(real, real)>, lo: real, hi: real) returns (xs: seq<real>)
    ensures Ascending(xs) && lo in xs && hi in xs && Spanned(xs, lo, hi)
    ensures forall i :: 0 <= i < |intervals| ==> Marked(xs, intervals[i], lo, hi)
  {
    PlaceKeeps([lo], hi);
    xs := Place([lo], hi);
    for i := 0 to |intervals|
      invariant Ascending(xs) && lo in xs && hi in xs && Spanned(xs, lo, hi)
      invariant forall j :: 0 <= j < i ==> Marked(xs, intervals[j], lo, hi)
    {
      var first := AddEdge(xs, intervals[i].0, lo, hi);
      var both := AddEdge(first, intervals[i].1, lo, hi);
      forall j | 0 <= j < i ensures Marked(both, intervals[j], lo, hi) {
        assert Marked(xs, intervals[j], lo, hi);
      }
      xs := both;
    }
  }

  lemma Ranks(xs: seq<real>, i: nat, j: nat)
    requires Ascending(xs) && i < |xs| && j < |xs|
    ensures xs[i] < xs[j] <==> i < j
  {
  }

  /** Strictly between two neighbouring edges an interval covers all or nothing. */
  lemma CellIsWhole(xs: seq<real>, k: nat, a: real, b: real, lo: real, hi: real)
    requires Ascending(xs) && k + 1 < |xs| && lo <= xs[k] && xs[k + 1] <= hi
    requires Clip(a, lo, hi) in xs && Clip(b, lo, hi) in xs
    requires a <= (xs[k] + xs[k + 1]) / 2.0 <= b
    ensures a <= xs[k] && xs[k + 1] <= b
  {
    var i: nat :| i < |xs| && xs[i] == Clip(a, lo, hi);
    var j: nat :| j < |xs| && xs[j] == Clip(b, lo, hi);
    Ranks(xs, k, k + 1);
    Ranks(xs, i, k + 1);
    Ranks(xs, k, j);
    Ranks(xs, k, i);
    Ranks(xs, j, k + 1);
  }

  /** Every coordinate of the span lies in some cell. */
  lemma {:induction false} CellOf(xs: seq<real>, x: real) returns (k: nat)
    requires |xs| >= 2 && Ascending(xs) && xs[0] <= x <= xs[|xs| - 1]
    ensures k + 1 < |xs| && xs[k] <= x <= xs[k + 1]
    decreases |xs|
  {
    var n := |xs| - 1;
    if n == 1 || xs[n - 1] <= x {
      k := n - 1;
    } else {
      k := CellOf(xs[..n], x);
    }
  }

  lemma SpanEnds(xs: seq<real>, lo: real, hi: real)
    requires Ascending(xs) && lo in xs && hi in xs && lo < hi && forall v :: v in xs ==> lo <= v <= hi
    ensures |xs| >= 2 && xs[0] == lo && xs[|xs| - 1] == hi
  {
    var i :| 0 <= i < |xs| && xs[i] == lo;
    var j :| 0 <= j < |xs| && xs[j] == hi;
    assert xs[0] in xs && xs[|xs| - 1] in xs;
  }

  function Across(covers: seq<Rect>): (r: seq<(real, real)>)
    ensures |r| == |covers| && forall i :: 0 <= i < |r| ==> r[i] == (covers[i].west, covers[i].east)
  {
    seq(|covers|, i requires 0 <= i < |covers| => (covers[i].west, covers[i].east))
  }

  function Along(covers: seq<Rect>): (r: seq<(real, real)>)
    ensures |r| == |covers| && forall i :: 0 <= i < |r| ==> r[i] == (covers[i].south, covers[i].north)
  {
    seq(|covers|, i requires 0 <= i < |covers| => (covers[i].south, covers[i].north))
  }

  function Middle(xs: seq<real>, k: nat): real
    requires k + 1 < |xs|
  {
    (xs[k] + xs[k + 1]) / 2.0
  }

  /** Edges of a rectangle and of what covers it, in one direction. */
  predicate Edges(xs: seq<real>, intervals: seq<(real, real)>, lo: real, hi: real) {
    && Ascending(xs) && lo in xs && hi in xs && (forall v :: v in xs ==> lo <= v <= hi)
    && forall i :: 0 <= i < |intervals| ==> Marked(xs, intervals[i], lo, hi)
  }

  predicate CellOpen(xs: seq<real>, ys: seq<real>, covers: seq<Rect>, k: nat, l: nat) {
    k + 1 < |xs| && l + 1 < |ys| && !Covered(covers, Middle(xs, k), Middle(ys, l))
  }

  ghost predicate SomePointOpen(rect: Rect, covers: seq<Rect>) {
    exists x, y :: Holds(rect, x, y) && !Covered(covers, x, y)
  }

  /** An open cell shows an open point: its middle. */
  lemma OpenCellOpenPoint(rect: Rect, covers: seq<Rect>, xs: seq<real>, ys: seq<real>, k: nat, l: nat)
    requires Edges(xs, Across(covers), rect.west, rect.east) && Edges(ys, Along(covers), rect.south, rect.north)
    requires CellOpen(xs, ys, covers, k, l)
    ensures SomePointOpen(rect, covers)
  {
    assert xs[k] in xs && xs[k + 1] in xs && ys[l] in ys && ys[l + 1] in ys;
    assert xs[k] < xs[k + 1] && ys[l] < ys[l + 1];
    assert Holds(rect, Middle(xs, k), Middle(ys, l));
  }

  /** A cover of a cell's middle covers the whole cell. */
  lemma CoverOfCell(rect: Rect, covers: seq<Rect>, xs: seq<real>, ys: seq<real>, k: nat, l: nat, i: nat, x: real,
                    y: real)
    requires Edges(xs, Across(covers), rect.west, rect.east) && Edges(ys, Along(covers), rect.south, rect.north)
    requires k + 1 < |xs| && l + 1 < |ys| && xs[k] <= x <= xs[k + 1] && ys[l] <= y <= ys[l + 1] && i < |covers|
    ensures Holds(covers[i], Middle(xs, k), Middle(ys, l)) ==> Holds(covers[i], x, y)
  {
    if Holds(covers[i], Middle(xs, k), Middle(ys, l)) {
      assert xs[k] in xs && xs[k + 1] in xs && ys[l] in ys && ys[l + 1] in ys;
      CellIsWhole(xs, k, Across(covers)[i].0, Across(covers)[i].1, rect.west, rect.east);
      CellIsWhole(ys, l, Along(covers)[i].0, Along(covers)[i].1, rect.south, rect.north);
    }
  }

  lemma OpenPointOpenCell(rect: Rect, covers: seq<Rect>, xs: seq<real>, ys: seq<real>, x: real, y: real)
    returns (k: nat, l: nat)
    requires HasArea(rect) && Holds(rect, x, y) && !Covered(covers, x, y)
    requires Edges(xs, Across(covers), rect.west, rect.east) && Edges(ys, Along(covers), rect.south, rect.north)
    ensures CellOpen(xs, ys, covers, k, l)
  {
    SpanEnds(xs, rect.west, rect.east);
    SpanEnds(ys, rect.south, rect.north);
    k := CellOf(xs, x);
    l := CellOf(ys, y);
    forall i: nat | i < |covers| ensures !Holds(covers[i], Middle(xs, k), Middle(ys, l)) {
      CoverOfCell(rect, covers, xs, ys, k, l, i, x, y);
    }
  }

  method IsCovered(covers: seq<Rect>, x: real, y: real) returns (r: bool)
    ensures r <==> Covered(covers, x, y)
  {
    for i := 0 to |covers|
      invariant forall j :: 0 <= j < i ==> !Holds(covers[j], x, y)
    {
      if Holds(covers[i], x, y) {
        return true;
      }
    }
    return false;
  }

  method SomeCellOpen(xs: seq<real>, ys: seq<real>, covers: seq<Rect>) returns (r: bool)
    ensures r <==> exists k: nat, l: nat :: CellOpen(xs, ys, covers, k, l)
  {
    var k := 0;
    while k + 1 < |xs|
      invariant forall i: nat, j: nat :: i < k ==> !CellOpen(xs, ys, covers, i, j)
    {
      var l := 0;
      while l + 1 < |ys|
        invariant forall j: nat :: j < l ==> !CellOpen(xs, ys, covers, k, j)
      {
        var covered := IsCovered(covers, Middle(xs, k), Middle(ys, l));
        if !covered {
          assert CellOpen(xs, ys, covers, k, l);
          return true;
        }
        l := l + 1;
      }
      k := k + 1;
    }
    return false;
  }

  /** `_uncovered`: whether some point of a rectangle with area lies outside every cover. */
  method Uncovered(rect: Rect, covers: seq<Rect>) returns (r: bool)
    ensures HasArea(rect) ==> (r <==> SomePointOpen(rect, covers))
    ensures rect.west <= rect.east && rect.south <= rect.north && !HasArea(rect) ==> !r
  {
    var xs := Cuts(Across(covers), rect.west, rect.east);
    var ys := Cuts(Along(covers), rect.south, rect.north);
    r := SomeCellOpen(xs, ys, covers);
    if rect.west <= rect.east && rect.south <= rect.north {
      if r {
        var k: nat, l: nat :| CellOpen(xs, ys, covers, k, l);
        OpenCellOpenPoint(rect, covers, xs, ys, k, l);
        assert xs[k] in xs && xs[k + 1] in xs && ys[l] in ys && ys[l + 1] in ys;
        assert xs[k] < xs[k + 1] && ys[l] < ys[l + 1];
      } else if HasArea(rect) && SomePointOpen(rect, covers) {
        var x, y :| Holds(rect, x, y) && !Covered(covers, x, y);
        var k, l := OpenPointOpenCell(rect, covers, xs, ys, x, y);
      }
    }
  }

  // ---- two rectangles -------------------------------------------------------------------

  predicate Overlaps(a: Rect, b: Rect) {
    a.west < b.east && b.west < a.east && a.south < b.north && b.south < a.north
  }

  /** Two rectangles with area overlap exactly when some point is inside both. */
  lemma OverlapsIff(a: Rect, b: Rect)
    ensures (exists x, y :: Within(a, x, y) && Within(b, x, y)) <==> Overlaps(a, b) && HasArea(a) && HasArea(b)
  {
    if Overlaps(a, b) && HasArea(a) && HasArea(b) {
      var x := Between(Max(a.west, b.west), Min(a.east, b.east));
      var y := Between(Max(a.south, b.south), Min(a.north, b.north));
      assert Within(a, x, y) && Within(b, x, y);
    }
  }

  function Max(a: real, b: real): real { if a < b then b else a }

  function Min(a: real, b: real): real { if b < a then b else a }

  function Between(a: real, b: real): (m: real)
    ensures a < b ==> a < m < b
  {
    (a + b) / 2.0
  }

  predicate Meets(b: Option<Rect>, view: Rect) {
    b.Some? && b.value.west <= view.east && b.value.east >= view.west
    && b.value.south <= view.north && b.value.north >= view.south
  }

  /** The part of a scene inside the view. */
  function Part(b: Rect, view: Rect): Rect {
    Rect(Max(b.west, view.west), Max(b.south, view.south), Min(b.east, view.east), Min(b.north, view.north))
  }

  lemma PartHolds(b: Rect, view: Rect, x: real, y: real)
    ensures Holds(Part(b, view), x, y) <==> Holds(b, x, y) && Holds(view, x, y)
    ensures Within(Part(b, view), x, y) <==> Within(b, x, y) && Within(view, x, y)
    ensures Holds(b, x, y) && Holds(view, x, y) ==> Meets(Some(b), view)
  {
  }

  // ---- visibility -------------------------------------------------------------------------

  /** The dates of the passes in order, each with its layers; days count up. */
  datatype Pass = Pass(day: int, layers: seq<nat>)

  /** A date is listed once, and a layer under one date. */
  ghost predicate Apart(passes: seq<Pass>) {
    && (forall i, j :: 0 <= i < j < |passes| ==> passes[i].day != passes[j].day)
    && (forall i, j, id ::
      0 <= i < |passes| && 0 <= j < |passes| && id in passes[i].layers && id in passes[j].layers ==> i == j)
  }

  predicate Scene(passes: seq<Pass>, day: int, id: nat) {
    exists i :: 0 <= i < |passes| && passes[i].day == day && id in passes[i].layers
  }

  /** The scenes of the preferred date that meet the view. */
  ghost predicate PreferredIs(passes: seq<Pass>, bounds: nat -> Option<Rect>, view: Rect, day: int,
                              preferred: seq<Rect>) {
    && (forall id :: Scene(passes, day, id) && Meets(bounds(id), view) ==> bounds(id).value in preferred)
    && (forall c :: c in preferred ==>
      exists id :: Scene(passes, day, id) && Meets(bounds(id), view) && bounds(id).value == c)
  }

  ghost predicate Shows(bounds: nat -> Option<Rect>, view: Rect, day: int, preferred: seq<Rect>, other: int, id: nat,
                        shown: bool) {
    if !Meets(bounds(id), view) then !shown
    else if other == day then shown
    else
      var part := Part(bounds(id).value, view);
      var over := other > day && exists c :: c in preferred && Overlaps(part, c);
      && (over ==> !shown)
      && (!over && HasArea(part) ==> (shown <==> SomePointOpen(part, preferred)))
      && (!over && !HasArea(part) && part.west <= part.east && part.south <= part.north ==> !shown)
  }

  method Preferred(passes: seq<Pass>, bounds: nat -> Option<Rect>, view: Rect, day: int) returns (preferred: seq<Rect>)
    requires Apart(passes)
    ensures PreferredIs(passes, bounds, view, day, preferred)
  {
    preferred := [];
    for i := 0 to |passes|
      invariant preferred == [] && forall j :: 0 <= j < i ==> passes[j].day != day
    {
      if passes[i].day == day {
        for j := 0 to |passes[i].layers|
          invariant forall id :: id in passes[i].layers[..j] && Meets(bounds(id), view) ==>
            bounds(id).value in preferred
          invariant forall c :: c in preferred ==>
            exists id :: id in passes[i].layers && Meets(bounds(id), view) && bounds(id).value == c
        {
          var id := passes[i].layers[j];
          if Meets(bounds(id), view) {
            preferred := preferred + [bounds(id).value];
          }
        }
        assert passes[i].layers[..|passes[i].layers|] == passes[i].layers;
        forall c | c in preferred
          ensures exists id :: Scene(passes, day, id) && Meets(bounds(id), view) && bounds(id).value == c
        {
          var id :| id in passes[i].layers && Meets(bounds(id), view) && bounds(id).value == c;
          assert Scene(passes, day, id);
        }
        return;
      }
    }
  }

  method DrawsOver(part: Rect, preferred: seq<Rect>) returns (r: bool)
    ensures r <==> exists c :: c in preferred && Overlaps(part, c)
  {
    for i := 0 to |preferred|
      invariant forall j :: 0 <= j < i ==> !Overlaps(part, preferred[j])
    {
      if Overlaps(part, preferred[i]) {
        return true;
      }
    }
    return false;
  }

  method Shown(bounds: nat -> Option<Rect>, view: Rect, day: int, preferred: seq<Rect>, other: int, id: nat)
    returns (shown: bool)
    ensures Shows(bounds, view, day, preferred, other, id, shown)
  {
    if !Meets(bounds(id), view) {
      return false;
    } else if other == day {
      return true;
    }
    var part := Part(bounds(id).value, view);
    var over := DrawsOver(part, preferred);
    var open := Uncovered(part, preferred);
    shown := !(other > day && over) && open;
  }

  /** `_orbit_visibility`. */
  method OrbitVisibility(passes: seq<Pass>, bounds: nat -> Option<Rect>, view: Rect, day: int)
    returns (visibility: map<nat, bool>, preferred: seq<Rect>)
    requires Apart(passes)
    ensures PreferredIs(passes, bounds, view, day, preferred)
    ensures forall other, id :: Scene(passes, other, id) ==>
      id in visibility && Shows(bounds, view, day, preferred, other, id, visibility[id])
    ensures forall id :: id in visibility ==> exists other :: Scene(passes, other, id)
  {
    preferred := Preferred(passes, bounds, view, day);
    visibility := map[];
    for i := 0 to |passes|
      invariant forall j, id :: 0 <= j < i && id in passes[j].layers ==>
        id in visibility && Shows(bounds, view, day, preferred, passes[j].day, id, visibility[id])
      invariant forall id :: id in visibility ==> exists j :: 0 <= j < i && id in passes[j].layers
    {
      ghost var before := visibility;
      visibility := ShowPass(passes[i], bounds, view, day, preferred, visibility);
    }
    forall id | id in visibility ensures exists other :: Scene(passes, other, id) {
      var j :| 0 <= j < |passes| && id in passes[j].layers;
      assert Scene(passes, passes[j].day, id);
    }
  }

  method ShowPass(pass: Pass, bounds: nat -> Option<Rect>, view: Rect, day: int, preferred: seq<Rect>,
                  before: map<nat, bool>)
    returns (visibility: map<nat, bool>)
    ensures visibility.Keys == before.Keys + (set id | id in pass.layers)
    ensures forall id :: id in pass.layers ==> Shows(bounds, view, day, preferred, pass.day, id, visibility[id])
    ensures forall id :: id in before && id !in pass.layers ==> visibility[id] == before[id]
  {
    visibility := before;
    for j := 0 to |pass.layers|
      invariant visibility.Keys == before.Keys + (set id | id in pass.layers[..j])
      invariant forall id :: id in pass.layers[..j] ==>
        Shows(bounds, view, day, preferred, pass.day, id, visibility[id])
      invariant forall id :: id in before && id !in pass.layers[..j] ==> visibility[id] == before[id]
    {
      assert pass.layers[..j + 1] == pass.layers[..j] + [pass.layers[j]];
      var shown := Shown(bounds, view, day, preferred, pass.day, pass.layers[j]);
      visibility := visibility[pass.layers[j] := shown];
    }
    assert pass.layers[..|pass.layers|] == pass.layers;
  }

  ghost predicate Result(passes: seq<Pass>, bounds: nat -> Option<Rect>, view: Rect, day: int,
                         preferred: seq<Rect>, visibility: map<nat, bool>) {
    && PreferredIs(passes, bounds, view, day, preferred)
    && forall other, id :: Scene(passes, other, id) ==>
         id in visibility && Shows(bounds, view, day, preferred, other, id, visibility[id])
  }

  ghost predicate VisibleAt(passes: seq<Pass>, bounds: nat -> Option<Rect>, visibility: map<nat, bool>, x: real,
                            y: real) {
    exists other, id :: Scene(passes, other, id) && id in visibility && visibility[id]
                        && bounds(id).Some? && Holds(bounds(id).value, x, y)
  }

  /** No imagery that may be shown is lost: a view point inside a preferred-date scene, or inside an
      older scene whose part of the view has area, lies in a visible scene. */
  lemma NothingLost(passes: seq<Pass>, bounds: nat -> Option<Rect>, view: Rect, day: int, preferred: seq<Rect>,
                    visibility: map<nat, bool>, other: int, id: nat, x: real, y: real)
    requires Result(passes, bounds, view, day, preferred, visibility)
    requires Scene(passes, other, id) && bounds(id).Some? && Holds(bounds(id).value, x, y) && Holds(view, x, y)
    requires other == day || (other < day && HasArea(Part(bounds(id).value, view)))
    ensures VisibleAt(passes, bounds, visibility, x, y)
  {
    var b := bounds(id).value;
    PartHolds(b, view, x, y);
    if !visibility[id] {
      assert Covered(preferred, x, y);
      var i :| 0 <= i < |preferred| && Holds(preferred[i], x, y);
      assert preferred[i] in preferred;
      var first :| Scene(passes, day, first) && Meets(bounds(first), view) && bounds(first).value == preferred[i];
      assert visibility[first];
    }
  }

  /** A visible newer scene shares no area inside the view with a preferred-date scene. */
  lemma NothingDrawnOver(passes: seq<Pass>, bounds: nat -> Option<Rect>, view: Rect, day: int, preferred: seq<Rect>,
                         visibility: map<nat, bool>, other: int, id: nat, first: nat, x: real, y: real)
    requires Result(passes, bounds, view, day, preferred, visibility)
    requires Scene(passes, other, id) && other > day && visibility[id] && bounds(id).Some?
    requires Scene(passes, day, first) && bounds(first).Some?
    ensures !(Within(bounds(id).value, x, y) && Within(bounds(first).value, x, y) && Within(view, x, y))
  {
    var b, c := bounds(id).value, bounds(first).value;
    PartHolds(b, view, x, y);
    PartHolds(c, view, x, y);
    OverlapsIff(Part(b, view), c);
  }

  /** What is shown meets the view, and a scene of another date shows only what the preferred date
      leaves open. */
  lemma NothingIdle(passes: seq<Pass>, bounds: nat -> Option<Rect>, view: Rect, day: int, preferred: seq<Rect>,
                    visibility: map<nat, bool>, other: int, id: nat)
    requires Result(passes, bounds, view, day, preferred, visibility)
    requires Scene(passes, other, id) && visibility[id] && view.west <= view.east && view.south <= view.north
    requires bounds(id).Some? ==>
      bounds(id).value.west <= bounds(id).value.east && bounds(id).value.south <= bounds(id).value.north
    ensures Meets(bounds(id), view)
    ensures other != day ==>
      exists x, y :: Holds(bounds(id).value, x, y) && Holds(view, x, y) && !Covered(preferred, x, y)
  {
    if other != day {
      var b := bounds(id).value;
      var part := Part(b, view);
      assert part.west <= part.east && part.south <= part.north;
      var x, y :| Holds(part, x, y) && !Covered(preferred, x, y);
      PartHolds(b, view, x, y);
    }
  }

  // ---- exactly what shows, point by point -----------------------------------------------------

  /** Some scene of the date holds the point. */
  ghost predicate DayHolds(passes: seq<Pass>, bounds: nat -> Option<Rect>, day: int, x: real, y: real) {
    exists first :: Scene(passes, day, first) && bounds(first).Some? && Holds(bounds(first).value, x, y)
  }

  /** A point of the scene in the view that the date leaves open. */
  ghost predicate Fills(passes: seq<Pass>, bounds: nat -> Option<Rect>, view: Rect, day: int, b: Rect) {
    exists x, y :: Holds(b, x, y) && Holds(view, x, y) && !DayHolds(passes, bounds, day, x, y)
  }

  /** The scene shares area in the view with the scene `first`. */
  ghost predicate SharesArea(bounds: nat -> Option<Rect>, view: Rect, b: Rect, first: nat) {
    bounds(first).Some? && exists x, y :: Within(b, x, y) && Within(view, x, y) && Within(bounds(first).value, x, y)
  }

  ghost predicate Covers(passes: seq<Pass>, bounds: nat -> Option<Rect>, view: Rect, day: int, b: Rect) {
    exists first :: Scene(passes, day, first) && SharesArea(bounds, view, b, first)
  }

  lemma CoveredIff(passes: seq<Pass>, bounds: nat -> Option<Rect>, view: Rect, day: int, preferred: seq<Rect>,
                   x: real, y: real)
    requires PreferredIs(passes, bounds, view, day, preferred) && Holds(view, x, y)
    ensures Covered(preferred, x, y) <==> DayHolds(passes, bounds, day, x, y)
  {
    if Covered(preferred, x, y) {
      var i :| 0 <= i < |preferred| && Holds(preferred[i], x, y);
      assert preferred[i] in preferred;
      var first :| Scene(passes, day, first) && Meets(bounds(first), view) && bounds(first).value == preferred[i];
    }
    if DayHolds(passes, bounds, day, x, y) {
      var first :| Scene(passes, day, first) && bounds(first).Some? && Holds(bounds(first).value, x, y);
      PartHolds(bounds(first).value, view, x, y);
      assert bounds(first).value in preferred;
    }
  }

  lemma FillsIff(passes: seq<Pass>, bounds: nat -> Option<Rect>, view: Rect, day: int, preferred: seq<Rect>, b: Rect)
    requires PreferredIs(passes, bounds, view, day, preferred)
    ensures SomePointOpen(Part(b, view), preferred) <==> Fills(passes, bounds, view, day, b)
  {
    if SomePointOpen(Part(b, view), preferred) {
      var x, y :| Holds(Part(b, view), x, y) && !Covered(preferred, x, y);
      PartHolds(b, view, x, y);
      CoveredIff(passes, bounds, view, day, preferred, x, y);
    }
    if Fills(passes, bounds, view, day, b) {
      var x, y :| Holds(b, x, y) && Holds(view, x, y) && !DayHolds(passes, bounds, day, x, y);
      PartHolds(b, view, x, y);
      CoveredIff(passes, bounds, view, day, preferred, x, y);
    }
  }

  lemma CoversIff(passes: seq<Pass>, bounds: nat -> Option<Rect>, view: Rect, day: int, preferred: seq<Rect>, b: Rect)
    requires PreferredIs(passes, bounds, view, day, preferred) && HasArea(Part(b, view))
    requires forall c :: c in preferred ==> HasArea(c)
    ensures (exists c :: c in preferred && Overlaps(Part(b, view), c)) <==> Covers(passes, bounds, view, day, b)
  {
    if c :| c in preferred && Overlaps(Part(b, view), c) {
      var first :| Scene(passes, day, first) && Meets(bounds(first), view) && bounds(first).value == c;
      OverlapsIff(Part(b, view), c);
      var x, y :| Within(Part(b, view), x, y) && Within(c, x, y);
      PartHolds(b, view, x, y);
      assert SharesArea(bounds, view, b, first);
    }
    if Covers(passes, bounds, view, day, b) {
      var first :| Scene(passes, day, first) && SharesArea(bounds, view, b, first);
      var c := bounds(first).value;
      var x, y :| Within(b, x, y) && Within(view, x, y) && Within(c, x, y);
      PartHolds(c, view, x, y);
      PartHolds(b, view, x, y);
      assert c in preferred;
      OverlapsIff(Part(b, view), c);
    }
  }

  /** A scene with area in the view shows exactly if it is of the preferred date, or it fills a
      point the date leaves open and is older, or newer without sharing area with the date. */
  lemma ShownIff(passes: seq<Pass>, bounds: nat -> Option<Rect>, view: Rect, day: int, preferred: seq<Rect>,
                 visibility: map<nat, bool>, other: int, id: nat)
    requires Result(passes, bounds, view, day, preferred, visibility)
    requires Scene(passes, other, id) && bounds(id).Some? && HasArea(Part(bounds(id).value, view))
    requires forall c :: c in preferred ==> HasArea(c)
    ensures visibility[id] <==>
              || other == day
              || (Fills(passes, bounds, view, day, bounds(id).value)
                  && (other < day || !Covers(passes, bounds, view, day, bounds(id).value)))
  {
    var b := bounds(id).value;
    assert Meets(bounds(id), view);
    FillsIff(passes, bounds, view, day, preferred, b);
    CoversIff(passes, bounds, view, day, preferred, b);
  }
}
