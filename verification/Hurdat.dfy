/** `--refresh-hurdat2`: a new exposure chain is built beside the old one, the map layer is
    swapped onto it, and only then is the old chain deleted. */
module Hurdat {
  import opened Catalog
  import opened Wrappers

  const TRACKS := "Atlantic Hurricane Tracks (HURDAT2, majors since 1950)"
  const LEGS := "Major Hurricane Tracks (Cat 3+ legs, one per storm)"
  const REGIONS := "Atlantic Basin Regions (Natural Earth admin-1)"
  const CORRIDORS := "Major Hurricane Corridors (100 km buffer)"
  const PIECES := "Coastal Regions Inside a Major Hurricane Corridor"
  const EXPOSURE := "Hurricane Exposure by Coastal Region"
  const EXPOSURE_MAP := "Hurricane Exposure - Which Coasts the Major Storms Reach"
  const EXPOSURE_LAYER := "Distinct major storms since 1950"

  /** The exit codes, and the stage at which a run died with an exception. */
  datatype Outcome = NotSeeded | TracksOnly | Finished | DiedBuilding | DiedSwapping | DiedDeleting

  datatype Chain = Chain(corridors: Id, pieces: Id, exposure: Id)

  predicate ChainTitle(title: string) {
    title == CORRIDORS || title == PIECES || title == EXPOSURE
  }

  lemma TitlesDiffer()
    ensures CORRIDORS != PIECES && CORRIDORS != EXPOSURE && PIECES != EXPOSURE
    ensures !ChainTitle(REGIONS) && !ChainTitle(LEGS) && !ChainTitle(TRACKS)
  {
    assert |CORRIDORS| == 41 && |PIECES| == 49 && |EXPOSURE| == 36;
    assert |TRACKS| == 54 && |LEGS| == 51 && |REGIONS| == 46;
  }

  /** The exposure layers of a map. */
  function Exposures(c: Catalog, m: Id): set<Id>
    requires m in c.maps
  {
    set l | l in c.maps[m].layers && c.maps[m].layers[l].name == EXPOSURE_LAYER
  }

  /** The map shows at least one exposure layer over a dataset that exists. */
  ghost predicate Shows(c: Catalog, m: Id) {
    m in c.maps && exists l :: l in Exposures(c, m) && c.maps[m].layers[l].dataset in c.datasets
  }

  /** Exactly one exposure layer, over the newest chain, and one dataset per chain title. */
  ghost predicate Settled(c: Catalog, m: Id) {
    && m in c.maps
    && exists chain: Chain ::
         && OwnTitled(c, CORRIDORS) == [chain.corridors]
         && OwnTitled(c, PIECES) == [chain.pieces]
         && OwnTitled(c, EXPOSURE) == [chain.exposure]
         && exists l :: Exposures(c, m) == {l} && c.maps[m].layers[l].dataset == chain.exposure
  }

  /** Nothing is lost but this account's chain datasets. */
  ghost predicate KeepsOthers(c: Catalog, c': Catalog) {
    forall d :: d in c.datasets && !(c.datasets[d].mine && ChainTitle(c.datasets[d].title)) ==>
      d in c'.datasets && c'.datasets[d] == c.datasets[d]
  }

  /** A step that only adds datasets. */
  ghost predicate Grows(c: Catalog, c': Catalog) {
    && c'.maps == c.maps && c.next <= c'.next
    && forall d :: d in c.datasets ==> d in c'.datasets && c'.datasets[d] == c.datasets[d]
  }

  /** New since the start are at most one dataset of each chain title, and the regions if this
      account had none. */
  ghost predicate AddsOnlyChain(start: Catalog, c: Catalog) {
    && (forall d :: IsNew(start, c, d) ==> OfChain(start, c, d))
    && forall d, e :: OnePerTitle(start, c, d, e)
  }

  predicate IsNew(start: Catalog, c: Catalog, d: Id) {
    d in c.datasets && d !in start.datasets
  }

  ghost predicate OfChain(start: Catalog, c: Catalog, d: Id)
    requires IsNew(start, c, d)
  {
    && c.datasets[d].mine
    && (ChainTitle(c.datasets[d].title) || (c.datasets[d].title == REGIONS && NoRegions(start)))
  }

  predicate OnePerTitle(start: Catalog, c: Catalog, d: Id, e: Id) {
    IsNew(start, c, d) && IsNew(start, c, e) && c.datasets[d].title == c.datasets[e].title ==> d == e
  }

  ghost predicate NoRegions(c: Catalog) {
    forall d :: d in c.datasets ==> !(c.datasets[d].mine && c.datasets[d].title == REGIONS)
  }

  /** None of this title is new. */
  ghost predicate NotYet(start: Catalog, c: Catalog, title: string) {
    forall d :: IsNew(start, c, d) ==> c.datasets[d].title != title
  }

  /** Every layer is as it was, but the exposure layers of the map, and those over this account's
      chain datasets; and none is new but an exposure layer of the map. */
  ghost predicate OtherLayersKept(start: Catalog, c: Catalog, m: Id) {
    && (forall x, k :: LayerKept(start, c, m, x, k))
    && forall x, k :: LayerKnown(start, c, m, x, k)
  }

  predicate HasLayer(c: Catalog, x: Id, k: Id) {
    x in c.maps && k in c.maps[x].layers
  }

  predicate LayerKept(start: Catalog, c: Catalog, m: Id, x: Id, k: Id) {
    HasLayer(start, x, k) && OtherLayer(start, x == m, start.maps[x].layers[k]) ==>
      HasLayer(c, x, k) && c.maps[x].layers[k] == start.maps[x].layers[k]
  }

  predicate LayerKnown(start: Catalog, c: Catalog, m: Id, x: Id, k: Id) {
    HasLayer(c, x, k) ==>
      || (HasLayer(start, x, k) && c.maps[x].layers[k] == start.maps[x].layers[k])
      || (x == m && c.maps[x].layers[k].name == EXPOSURE_LAYER)
  }

  predicate OtherLayer(c: Catalog, here: bool, layer: Layer) {
    && (here ==> layer.name != EXPOSURE_LAYER)
    && layer.dataset in c.datasets
    && !(c.datasets[layer.dataset].mine && ChainTitle(c.datasets[layer.dataset].title))
  }

  /** What the run has added and spared so far. */
  ghost predicate Beside(start: Catalog, c: Catalog, m: Id) {
    AddsOnlyChain(start, c) && OtherLayersKept(start, c, m)
  }

  lemma AddsFewer(start: Catalog, c: Catalog, c': Catalog)
    requires AddsOnlyChain(start, c) && Shrinks(c, c')
    ensures AddsOnlyChain(start, c')
  {
    forall d | IsNew(start, c', d) ensures OfChain(start, c', d) {
      assert IsNew(start, c, d) && OfChain(start, c, d);
    }
    forall d, e ensures OnePerTitle(start, c', d, e) {
      assert OnePerTitle(start, c, d, e);
    }
  }

  lemma BesideLayerOff(start: Catalog, c: Catalog, m: Id, l: Id)
    requires Beside(start, c, m) && m in c.maps && l in Exposures(c, m)
    ensures Beside(start, WithoutLayer(c, m, l), m)
  {
    var c' := WithoutLayer(c, m, l);
    AddsFewer(start, c, c');
    forall x, k ensures LayerKept(start, c', m, x, k) && LayerKnown(start, c', m, x, k) {
      assert LayerKept(start, c, m, x, k) && LayerKnown(start, c, m, x, k);
    }
  }

  lemma BesideLayerOn(start: Catalog, c: Catalog, m: Id, layer: Layer)
    requires AddsOnlyChain(start, c) && c.maps == start.maps && m in c.maps && layer.name == EXPOSURE_LAYER
    requires WellFormed(c)
    ensures Beside(start, WithLayer(c, m, layer), m)
  {
    var c' := WithLayer(c, m, layer);
    AddsFewer(start, c, c');
    forall x, k ensures LayerKept(start, c', m, x, k) && LayerKnown(start, c', m, x, k) {
    }
  }

  lemma BesideDeleted(start: Catalog, c: Catalog, m: Id, d: Id)
    requires Beside(start, c, m) && KeepsOthers(start, c)
    requires d in c.datasets ==> c.datasets[d].mine && ChainTitle(c.datasets[d].title)
    ensures Beside(start, WithoutDataset(c, d), m)
  {
    var c' := WithoutDataset(c, d);
    AddsFewer(start, c, c');
    forall x, k ensures LayerKept(start, c', m, x, k) && LayerKnown(start, c', m, x, k) {
      assert LayerKept(start, c, m, x, k) && LayerKnown(start, c, m, x, k);
    }
  }

  lemma BesideStart(start: Catalog, c: Catalog, m: Id)
    requires AddsOnlyChain(start, c) && c.maps == start.maps
    ensures Beside(start, c, m)
  {
  }

  function Derived(title: string): Dataset {
    Dataset(title, true, false, "", "")
  }

  ghost predicate Holds(c: Catalog, d: Id, title: string) {
    d in c.datasets && c.datasets[d] == Derived(title)
  }

  method Derive(api: Server, title: string) returns (d: Option<Id>)
    requires WellFormed(api.catalog)
    modifies api
    ensures api.failed == (old(api.failed) || d.None?)
    ensures WellFormed(api.catalog) && Grows(old(api.catalog), api.catalog)
    ensures d.Some? ==> Holds(api.catalog, d.value, title) && d.value == old(api.catalog).next
    ensures api.catalog == old(api.catalog) || api.catalog == WithDataset(old(api.catalog), Derived(title))
  {
    DatasetAdded(api.catalog, Derived(title));
    var a, id := api.CreateDataset(Derived(title));
    d := if a.Returned? then Some(id) else None;
  }

  /** One more dataset of a title that is not new yet. */
  lemma AddsOne(start: Catalog, c: Catalog, title: string)
    requires WellFormed(start) && AddsOnlyChain(start, c) && NotYet(start, c, title) && start.next <= c.next
    requires WellFormed(c) && (ChainTitle(title) || (title == REGIONS && NoRegions(start)))
    ensures AddsOnlyChain(start, WithDataset(c, Derived(title)))
  {
    var c' := WithDataset(c, Derived(title));
    forall d | IsNew(start, c', d) ensures OfChain(start, c', d) {
      assert d != c.next ==> IsNew(start, c, d) && OfChain(start, c, d);
    }
    forall d, e ensures OnePerTitle(start, c', d, e) {
      assert OnePerTitle(start, c, d, e);
    }
  }

  lemma RegionsThere(c: Catalog)
    requires WellFormed(c)
    ensures OwnTitled(c, REGIONS) == [] ==> NoRegions(c)
  {
    if OwnTitled(c, REGIONS) == [] {
      forall d | d in c.datasets ensures !(c.datasets[d].mine && c.datasets[d].title == REGIONS) {
        assert d !in OwnTitled(c, REGIONS);
      }
    }
  }

  /** The titles of what is new. */
  ghost predicate NewTitles(start: Catalog, c: Catalog, titles: set<string>) {
    forall d :: IsNew(start, c, d) ==> c.datasets[d].title in titles
  }

  /** One more dataset of the chain, of a title that is not new yet. */
  method DeriveNext(api: Server, title: string, ghost start: Catalog, ghost titles: set<string>) returns (d: Option<Id>)
    requires WellFormed(start) && WellFormed(api.catalog) && Grows(start, api.catalog)
    requires AddsOnlyChain(start, api.catalog) && NewTitles(start, api.catalog, titles) && title !in titles
    requires ChainTitle(title) || (title == REGIONS && NoRegions(start))
    modifies api
    ensures api.failed == (old(api.failed) || d.None?)
    ensures WellFormed(api.catalog) && Grows(old(api.catalog), api.catalog) && Grows(start, api.catalog)
    ensures d.Some? ==> Holds(api.catalog, d.value, title) && d.value !in start.datasets
    ensures AddsOnlyChain(start, api.catalog) && NewTitles(start, api.catalog, titles + {title})
  {
    AddsOne(start, api.catalog, title);
    d := Derive(api, title);
  }

  /** `_build_exposure_chain` with the analyses forced: the regions are reused or ingested,
      the three derived datasets are always new. None is an exception. */
  method BuildChain(api: Server) returns (chain: Option<Chain>)
    requires WellFormed(api.catalog)
    modifies api
    ensures api.failed == (old(api.failed) || chain.None?)
    ensures WellFormed(api.catalog) && Grows(old(api.catalog), api.catalog)
    ensures chain.Some? ==>
      && Holds(api.catalog, chain.value.corridors, CORRIDORS) && Holds(api.catalog, chain.value.pieces, PIECES)
      && Holds(api.catalog, chain.value.exposure, EXPOSURE)
      && chain.value.exposure !in old(api.catalog).datasets
    ensures AddsOnlyChain(old(api.catalog), api.catalog)
  {
    ghost var start := api.catalog;
    ghost var titles := {};
    TitlesDiffer();
    RegionsThere(start);
    if OwnTitled(api.catalog, REGIONS) == [] {
      titles := {REGIONS};
      var regions := DeriveNext(api, REGIONS, start, {});
      if regions.None? {
        return None;
      }
    }
    var corridors := DeriveNext(api, CORRIDORS, start, titles);
    if corridors.None? {
      return None;
    }
    var pieces := DeriveNext(api, PIECES, start, titles + {CORRIDORS});
    if pieces.None? {
      return None;
    }
    var exposure := DeriveNext(api, EXPOSURE, start, titles + {CORRIDORS} + {PIECES});
    if exposure.None? {
      return None;
    }
    return Some(Chain(corridors.value, pieces.value, exposure.value));
  }

  /** What holds from the moment the new layer is on the map. */
  ghost predicate Swapped(start: Catalog, c: Catalog, m: Id, chain: Chain, l: Id) {
    && WellFormed(c) && SameRows(start, c) && KeepsOthers(start, c) && m in c.maps
    && Holds(c, chain.corridors, CORRIDORS)
    && Holds(c, chain.pieces, PIECES)
    && Holds(c, chain.exposure, EXPOSURE)
    && l in Exposures(c, m) && c.maps[m].layers[l].dataset == chain.exposure
    && Beside(start, c, m) && chain.exposure !in start.datasets
  }

  lemma LayerOff(start: Catalog, c: Catalog, m: Id, chain: Chain, l: Id, todo: set<Id>, layer: Id)
    requires Swapped(start, c, m, chain, l) && Exposures(c, m) == todo + {l} && l !in todo && layer in todo
    ensures Swapped(start, WithoutLayer(c, m, layer), m, chain, l)
    ensures Exposures(WithoutLayer(c, m, layer), m) == (todo - {layer}) + {l}
  {
    LayerDeleted(c, m, layer);
    BesideLayerOff(start, c, m, layer);
    assert Exposures(WithoutLayer(c, m, layer), m) == Exposures(c, m) - {layer};
  }

  /** The old exposure layers come off one by one. */
  method RemoveLayers(api: Server, m: Id, stale: set<Id>, ghost start: Catalog, ghost chain: Chain, ghost l: Id)
    returns (ok: bool)
    requires Swapped(start, api.catalog, m, chain, l) && Exposures(api.catalog, m) == stale + {l} && l !in stale
    modifies api
    ensures api.failed == (old(api.failed) || !ok)
    ensures Swapped(start, api.catalog, m, chain, l)
    ensures ok ==> Exposures(api.catalog, m) == {l}
  {
    var todo := stale;
    while todo != {}
      invariant todo <= stale
      invariant Swapped(start, api.catalog, m, chain, l)
      invariant Exposures(api.catalog, m) == todo + {l} && api.failed == old(api.failed)
    {
      var layer :| layer in todo;
      LayerOff(start, api.catalog, m, chain, l, todo, layer);
      var a := api.DeleteLayer(m, layer);
      if !a.Returned? {
        return false;
      }
      todo := todo - {layer};
    }
    return true;
  }

  /** Every dataset of the title but the kept one, newest first. */
  function Superseded(c: Catalog, title: string, keep: Id): seq<Id> {
    Without(OwnTitled(c, title), keep)
  }

  function Without(ids: seq<Id>, keep: Id): (rest: seq<Id>)
    ensures forall d :: d in rest <==> d in ids && d != keep
  {
    if ids == [] then []
    else if ids[0] == keep then Without(ids[1..], keep)
    else [ids[0]] + Without(ids[1..], keep)
  }

  ghost predicate KeptOf(chain: Chain, title: string, keep: Id) {
    || (title == CORRIDORS && keep == chain.corridors)
    || (title == PIECES && keep == chain.pieces)
    || (title == EXPOSURE && keep == chain.exposure)
  }

  method DeleteOne(api: Server, d: Id, title: string, m: Id,
                   ghost keep: Id, ghost start: Catalog, ghost chain: Chain, ghost l: Id)
    returns (a: Answer)
    requires KeptOf(chain, title, keep) && d != keep
    requires d in api.catalog.datasets ==> api.catalog.datasets[d].mine && api.catalog.datasets[d].title == title
    requires Swapped(start, api.catalog, m, chain, l) && Exposures(api.catalog, m) == {l}
    modifies api
    ensures api.failed == (old(api.failed) || !a.Returned?)
    ensures Swapped(start, api.catalog, m, chain, l) && Exposures(api.catalog, m) == {l}
    ensures Shrinks(old(api.catalog), api.catalog)
    ensures a.Returned? ==> d !in api.catalog.datasets
  {
    DeleteStep(start, api.catalog, m, chain, l, title, keep, d);
    a := api.DeleteDataset(d);
  }

  /** The superseded datasets of one title are deleted; a refusal is reported and skipped. */
  method DeleteSuperseded(api: Server, title: string, keep: Id, m: Id,
                          ghost start: Catalog, ghost chain: Chain, ghost l: Id)
    returns (alive: bool, refused: nat)
    requires KeptOf(chain, title, keep)
    requires Swapped(start, api.catalog, m, chain, l) && Exposures(api.catalog, m) == {l}
    modifies api
    ensures api.failed == (old(api.failed) || !alive || refused > 0)
    ensures Swapped(start, api.catalog, m, chain, l) && Exposures(api.catalog, m) == {l}
    ensures Shrinks(old(api.catalog), api.catalog)
    ensures alive && refused == 0 ==> OwnOnly(api.catalog, title, keep)
  {
    var todo := Superseded(api.catalog, title, keep);
    refused := 0;
    for i := 0 to |todo|
      invariant Swapped(start, api.catalog, m, chain, l) && Exposures(api.catalog, m) == {l}
      invariant refused == 0 ==> OwnAmong(api.catalog, title, keep, todo[i..])
      invariant api.failed == (old(api.failed) || refused > 0)
      invariant Shrinks(old(api.catalog), api.catalog)
    {
      assert todo[i] in todo;
      ghost var before := api.catalog;
      var a := DeleteOne(api, todo[i], title, m, keep, start, chain, l);
      if a.Lost? {
        return false, refused;
      }
      if a.Refused? {
        refused := refused + 1;
      } else if refused == 0 {
        FewerLeft(before, api.catalog, title, keep, todo, i);
      }
    }
    alive := true;
  }

  lemma FewerLeft(c: Catalog, c': Catalog, title: string, keep: Id, todo: seq<Id>, i: nat)
    requires i < |todo| && OwnAmong(c, title, keep, todo[i..]) && Shrinks(c, c') && todo[i] !in c'.datasets
    ensures OwnAmong(c', title, keep, todo[i + 1..])
  {
    assert todo[i..] == [todo[i]] + todo[i + 1..];
  }

  /** This account's datasets of the title are `keep` and possibly some of `rest`. */
  ghost predicate OwnAmong(c: Catalog, title: string, keep: Id, rest: seq<Id>) {
    forall d :: d in c.datasets && c.datasets[d].mine && c.datasets[d].title == title ==> d == keep || d in rest
  }

  ghost predicate OwnOnly(c: Catalog, title: string, keep: Id) {
    forall d :: d in c.datasets && c.datasets[d].mine && c.datasets[d].title == title ==> d == keep
  }

  lemma DeleteStep(start: Catalog, c: Catalog, m: Id, chain: Chain, l: Id, title: string, keep: Id, d: Id)
    requires Swapped(start, c, m, chain, l) && Exposures(c, m) == {l} && KeptOf(chain, title, keep)
    requires d != keep && (d in c.datasets ==> c.datasets[d].mine && c.datasets[d].title == title)
    ensures Swapped(start, WithoutDataset(c, d), m, chain, l) && Exposures(WithoutDataset(c, d), m) == {l}
  {
    TitlesDiffer();
    DatasetDeleted(c, d);
    BesideDeleted(start, c, m, d);
    var c' := WithoutDataset(c, d);
    assert d != chain.exposure && d != chain.pieces && d != chain.corridors;
    assert l in Exposures(c', m);
    assert Exposures(c', m) <= Exposures(c, m);
  }

  lemma OnlyAfterShrink(c: Catalog, c': Catalog, title: string, keep: Id)
    requires OwnOnly(c, title, keep) && Shrinks(c, c')
    ensures OwnOnly(c', title, keep)
  {
  }

  lemma OwnTitledIs(c: Catalog, title: string, keep: Id)
    requires WellFormed(c) && OwnOnly(c, title, keep) && Holds(c, keep, title)
    ensures OwnTitled(c, title) == [keep]
  {
    var ids := OwnTitled(c, title);
    assert keep in ids;
    IsElement(ids, 0);
    IsElement(ids, 1);
  }

  lemma IsElement(ids: seq<Id>, k: nat)
    ensures k < |ids| ==> ids[k] in ids
  {
  }

  /** The swap: the new layer goes on before the old ones come off. */
  method Swap(api: Server, m: Id, stale: set<Id>, chain: Chain, ghost start: Catalog) returns (ok: bool, ghost l: Id)
    requires WellFormed(start) && WellFormed(api.catalog) && Grows(start, api.catalog)
    requires m in start.maps && stale == Exposures(start, m)
    requires Holds(api.catalog, chain.corridors, CORRIDORS)
    requires Holds(api.catalog, chain.pieces, PIECES)
    requires Holds(api.catalog, chain.exposure, EXPOSURE)
    requires AddsOnlyChain(start, api.catalog) && chain.exposure !in start.datasets
    modifies api
    ensures api.failed == (old(api.failed) || !ok)
    ensures Swapped(start, api.catalog, m, chain, l) || (!ok && api.catalog == old(api.catalog))
    ensures ok ==> Swapped(start, api.catalog, m, chain, l) && Exposures(api.catalog, m) == {l}
  {
    ghost var before := api.catalog;
    l := before.next;
    var layer := Layer(chain.exposure, EXPOSURE_LAYER, false, 0);
    LayerAdded(before, m, layer);
    BesideLayerOn(start, before, m, layer);
    assert Exposures(WithLayer(before, m, layer), m) == stale + {l};
    var a := api.AddLayer(m, layer);
    if !a.Returned? {
      return false, l;
    }
    ok := RemoveLayers(api, m, stale, start, chain, l);
  }

  /** The deletes, children before parents. */
  method DeleteOldChain(api: Server, m: Id, chain: Chain, ghost start: Catalog, ghost l: Id)
    returns (alive: bool, refused: nat)
    requires Swapped(start, api.catalog, m, chain, l) && Exposures(api.catalog, m) == {l}
    modifies api
    ensures api.failed == (old(api.failed) || !alive || refused > 0)
    ensures Swapped(start, api.catalog, m, chain, l) && Exposures(api.catalog, m) == {l}
    ensures alive && refused == 0 ==>
      && OwnOnly(api.catalog, CORRIDORS, chain.corridors)
      && OwnOnly(api.catalog, PIECES, chain.pieces) && OwnOnly(api.catalog, EXPOSURE, chain.exposure)
  {
    var n;
    alive, refused := DeleteSuperseded(api, EXPOSURE, chain.exposure, m, start, chain, l);
    if !alive {
      return;
    }
    ghost var first := api.catalog;
    alive, n := DeleteSuperseded(api, PIECES, chain.pieces, m, start, chain, l);
    refused := refused + n;
    if !alive {
      return;
    }
    ghost var second := api.catalog;
    alive, n := DeleteSuperseded(api, CORRIDORS, chain.corridors, m, start, chain, l);
    refused := refused + n;
    if refused == 0 {
      OnlyAfterShrink(first, second, EXPOSURE, chain.exposure);
      OnlyAfterShrink(second, api.catalog, EXPOSURE, chain.exposure);
      OnlyAfterShrink(second, api.catalog, PIECES, chain.pieces);
    }
  }

  /** Both track datasets are there to be refreshed. */
  predicate Seeded(c: Catalog) {
    OwnTitled(c, TRACKS) != [] && OwnTitled(c, LEGS) != []
  }

  lemma StaysSeeded(c: Catalog, c': Catalog)
    requires WellFormed(c') && KeepsOthers(c, c') && Seeded(c)
    ensures Seeded(c')
  {
    TitlesDiffer();
    assert OwnTitled(c, TRACKS)[0] in OwnTitled(c, TRACKS) && OwnTitled(c, LEGS)[0] in OwnTitled(c, LEGS);
    assert OwnTitled(c, TRACKS)[0] in OwnTitled(c', TRACKS) && OwnTitled(c, LEGS)[0] in OwnTitled(c', LEGS);
  }

  /** Every exposure layer of the map is over a dataset that was not there at the start. */
  ghost predicate ShowsNew(start: Catalog, c: Catalog, m: Id)
    requires m in c.maps
  {
    forall l :: l in Exposures(c, m) ==> c.maps[m].layers[l].dataset !in start.datasets
  }

  lemma SwappedMeans(start: Catalog, c: Catalog, m: Id, chain: Chain, l: Id)
    requires Swapped(start, c, m, chain, l)
    ensures SameRows(start, c) && KeepsOthers(start, c) && Shows(c, m) && Beside(start, c, m)
    ensures Exposures(c, m) == {l} ==> ShowsNew(start, c, m)
  {
  }

  lemma SettledNow(c: Catalog, m: Id, start: Catalog, chain: Chain, l: Id)
    requires Swapped(start, c, m, chain, l) && Exposures(c, m) == {l}
    requires OwnOnly(c, CORRIDORS, chain.corridors) && OwnOnly(c, PIECES, chain.pieces)
    requires OwnOnly(c, EXPOSURE, chain.exposure)
    ensures Settled(c, m)
  {
    OwnTitledIs(c, CORRIDORS, chain.corridors);
    OwnTitledIs(c, PIECES, chain.pieces);
    OwnTitledIs(c, EXPOSURE, chain.exposure);
  }

  /** The refresh of the chain behind the exposure map. */
  method RefreshMap(api: Server, m: Id) returns (r: Outcome, refused: nat)
    requires WellFormed(api.catalog) && m in api.catalog.maps
    modifies api
    ensures WellFormed(api.catalog) && SameRows(old(api.catalog), api.catalog)
    ensures KeepsOthers(old(api.catalog), api.catalog) && Beside(old(api.catalog), api.catalog, m)
    ensures Shows(old(api.catalog), m) ==> Shows(api.catalog, m)
    ensures r.DiedBuilding? ==> api.catalog.maps == old(api.catalog).maps
    ensures old(api.failed) ==> api.failed
    ensures r.DiedBuilding? || r.DiedSwapping? || r.DiedDeleting? || r.Finished?
    ensures !api.failed ==> refused == 0 && r.Finished?
    ensures r.Finished? ==>
      Shows(api.catalog, m) && ShowsNew(old(api.catalog), api.catalog, m) && (refused == 0 ==> Settled(api.catalog, m))
  {
    ghost var start := api.catalog;
    var stale := Exposures(api.catalog, m);
    var chain := BuildChain(api);
    BesideStart(start, api.catalog, m);
    if chain.None? {
      return DiedBuilding, 0;
    }
    var ok, alive;
    ghost var l;
    ok, l := Swap(api, m, stale, chain.value, start);
    if !ok {
      if Swapped(start, api.catalog, m, chain.value, l) {
        SwappedMeans(start, api.catalog, m, chain.value, l);
      }
      return DiedSwapping, 0;
    }
    alive, refused := DeleteOldChain(api, m, chain.value, start, l);
    SwappedMeans(start, api.catalog, m, chain.value, l);
    if !alive {
      return DiedDeleting, refused;
    }
    if refused == 0 {
      SettledNow(api.catalog, m, start, chain.value, l);
    }
    return Finished, refused;
  }

  /** `refresh_hurdat2`. Whatever call fails, the exposure map keeps its row and never
      stops showing an exposure layer; a run in which no call fails finishes and settles
      the chain. */
  method Refresh(api: Server) returns (r: Outcome, refused: nat)
    requires WellFormed(api.catalog)
    modifies api
    ensures WellFormed(api.catalog) && SameRows(old(api.catalog), api.catalog)
    ensures KeepsOthers(old(api.catalog), api.catalog)
    ensures NewestMap(api.catalog, EXPOSURE_MAP) == NewestMap(old(api.catalog), EXPOSURE_MAP)
    ensures var m := NewestMap(old(api.catalog), EXPOSURE_MAP);
            m.Some? && Shows(old(api.catalog), m.value) ==> Shows(api.catalog, m.value)
    ensures r.DiedBuilding? || r.NotSeeded? || r.TracksOnly? ==> api.catalog.maps == old(api.catalog).maps
    ensures r.NotSeeded? <==> !Seeded(old(api.catalog))
    ensures r.TracksOnly? ==> api.catalog == old(api.catalog)
    ensures AddsOnlyChain(old(api.catalog), api.catalog)
    ensures var m := NewestMap(old(api.catalog), EXPOSURE_MAP);
            if m.None? then api.catalog.maps == old(api.catalog).maps
            else OtherLayersKept(old(api.catalog), api.catalog, m.value)
    ensures old(api.failed) ==> api.failed
    ensures Seeded(old(api.catalog)) && !api.failed ==>
      refused == 0 && r == if NewestMap(old(api.catalog), EXPOSURE_MAP).None? then TracksOnly else Finished
    ensures r.Finished? ==>
      var m := NewestMap(old(api.catalog), EXPOSURE_MAP);
      && m.Some? && Shows(api.catalog, m.value) && ShowsNew(old(api.catalog), api.catalog, m.value)
      && (refused == 0 ==> Settled(api.catalog, m.value))
  {
    ghost var start := api.catalog;
    refused := 0;
    if !Seeded(api.catalog) {
      return NotSeeded, 0;
    }
    var tracks := api.Reupload(OwnTitled(api.catalog, TRACKS)[0]);
    if !tracks.Returned? {
      return DiedBuilding, 0;
    }
    var legs := api.Reupload(OwnTitled(api.catalog, LEGS)[0]);
    if !legs.Returned? {
      return DiedBuilding, 0;
    }
    var mapId := NewestMap(api.catalog, EXPOSURE_MAP);
    if mapId.None? {
      return TracksOnly, 0;
    }
    r, refused := RefreshMap(api, mapId.value);
    SameNewest(start, api.catalog);
  }

  lemma SameNewest(c: Catalog, c': Catalog)
    requires WellFormed(c) && WellFormed(c') && SameRows(c, c')
    ensures NewestMap(c', EXPOSURE_MAP) == NewestMap(c, EXPOSURE_MAP)
  {
    var top := if c.next < c'.next then c'.next else c.next;
    NewestStable(c, EXPOSURE_MAP, c.next, top);
    NewestStable(c', EXPOSURE_MAP, c'.next, top);
    SameRowsSameNewest(c, c', EXPOSURE_MAP, top);
  }

  /** Any number of runs, each dying wherever it may: the map keeps its id and keeps showing
      an exposure layer throughout, and a last run in which no call fails settles the chain.
      `failed` is that of the last run. */
  method Refreshes(api: Server, runs: nat) returns (r: Outcome, refused: nat)
    requires WellFormed(api.catalog)
    modifies api
    ensures WellFormed(api.catalog) && KeepsOthers(old(api.catalog), api.catalog)
    ensures NewestMap(api.catalog, EXPOSURE_MAP) == NewestMap(old(api.catalog), EXPOSURE_MAP)
    ensures var m := NewestMap(old(api.catalog), EXPOSURE_MAP);
            && (m.Some? && Shows(old(api.catalog), m.value) ==> Shows(api.catalog, m.value))
            && (r.Finished? && refused == 0 ==> m.Some? && Settled(api.catalog, m.value))
            && (m.Some? && Seeded(old(api.catalog)) && !api.failed ==> r.Finished? && refused == 0)
  {
    for i := 0 to runs
      invariant WellFormed(api.catalog) && KeepsOthers(old(api.catalog), api.catalog)
      invariant NewestMap(api.catalog, EXPOSURE_MAP) == NewestMap(old(api.catalog), EXPOSURE_MAP)
      invariant var m := NewestMap(old(api.catalog), EXPOSURE_MAP);
        m.Some? && Shows(old(api.catalog), m.value) ==> Shows(api.catalog, m.value)
    {
      var _, _ := Refresh(api);
    }
    api.failed := false;
    if Seeded(old(api.catalog)) {
      StaysSeeded(old(api.catalog), api.catalog);
    }
    r, refused := Refresh(api);
  }
}
