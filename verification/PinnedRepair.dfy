/** `build_sentinel2`: the forced repair of a pinned map deletes its scenes, imports them
    afresh by reference, and rebinds every row of the name in place. */
module PinnedRepair {
  import opened Catalog
  import opened Wrappers

  const NAME := "New York From Orbit - Sentinel-2, by Reference"
  const PREFIX := "Sentinel-2 TCI "
  const PINNED_ITEM := "S2A_T18TWL_20260829T155705_L2A"

  /** A scene selected from the catalog search. */
  datatype Item = Item(id: string, title: string, href: string, caption: string)

  datatype ImportResult = Created(dataset: Id) | Skipped | Error

  /** How the builder ends. Aborted leaves before any write; Died may leave part of the work. */
  datatype Outcome = Kept | Aborted | Died | Built(primary: Id)

  /** What `_sentinel2_items` selects: one scene per tile, so no id and no asset twice,
      and the pinned scene among them. */
  ghost predicate Selection(items: seq<Item>) {
    && (forall i, j :: 0 <= i < j < |items| ==> items[i].id != items[j].id && items[i].href != items[j].href)
    && exists i :: 0 <= i < |items| && items[i].id == PINNED_ITEM
  }

  /** `_keep_existing_map` for a pinned name. */
  predicate KeepExisting(exists_: bool, force: bool, forcePinned: bool) {
    exists_ && (!force || !forcePinned)
  }

  // ---- what the preflight looks at ----------------------------------------------------

  /** Every map of this account under the name. */
  function Stale(c: Catalog): set<Id> {
    set m | m in c.maps && c.maps[m].mine && c.maps[m].name == NAME
  }

  predicate HasLayerOf(row: MapRow, d: Id) {
    exists l :: l in row.layers && row.layers[l].dataset == d
  }

  predicate HasSceneLayer(row: MapRow, d: Id) {
    exists l :: l in row.layers && row.layers[l].dataset == d && row.layers[l].raster
  }

  /** The scenes to delete: own, scene-titled, attached to a stale map, and layered in no
      other map of anyone. */
  function Doomed(c: Catalog): set<Id> {
    set d | d in c.datasets && c.datasets[d].mine && PREFIX <= c.datasets[d].title
            && (exists m :: m in Stale(c) && HasSceneLayer(c.maps[m], d))
            && !(exists m :: m in c.maps && m !in Stale(c) && HasLayerOf(c.maps[m], d))
  }

  /** The dataset holds the asset of one of the items. */
  predicate HoldsAsset(d: Dataset, href: string) {
    d.stac && d.held == href
  }

  /** A holder the rebuild can resolve: own, and still under the seeder's title. */
  predicate Resolvable(d: Dataset, item: Item) {
    d.mine && d.title == item.title
  }

  /** If the dataset survives and holds a selected asset, the rebuild can resolve it. */
  ghost predicate Harmless(c: Catalog, items: seq<Item>, d: Id)
    requires d in c.datasets
  {
    d in Doomed(c)
    || forall i :: 0 <= i < |items| && HoldsAsset(c.datasets[d], items[i].href) ==> Resolvable(c.datasets[d], items[i])
  }

  /** The preflight finds no selected asset held by a dataset it can neither delete nor resolve. */
  ghost predicate PreflightPasses(c: Catalog, items: seq<Item>) {
    forall d :: d in c.datasets ==> Harmless(c, items, d)
  }

  /** A dataset that holds an item's asset now and after the deletes. */
  ghost predicate ProvenHolder(c: Catalog, items: seq<Item>, href: string, d: Id) {
    && d in c.datasets && d !in Doomed(c)
    && exists i :: 0 <= i < |items| && items[i].href == href
                   && HoldsAsset(c.datasets[d], href) && Resolvable(c.datasets[d], items[i])
  }

  ghost predicate AssetNamed(c: Catalog, items: seq<Item>, resolved: map<string, Id>, d: Id)
    requires d in c.datasets
  {
    d in Doomed(c)
    || forall i :: 0 <= i < |items| && HoldsAsset(c.datasets[d], items[i].href) ==> items[i].href in resolved
  }

  /** `resolved_by_href` names, for each asset held after the deletes, a holder of it. */
  ghost predicate ResolvesHeld(c: Catalog, items: seq<Item>, resolved: map<string, Id>) {
    && (forall d :: d in c.datasets ==> AssetNamed(c, items, resolved, d))
    && (forall h :: h in resolved ==> ProvenHolder(c, items, h, resolved[h]))
  }

  /** The index of the item with this asset. */
  function ItemOf(items: seq<Item>, href: string): (i: nat)
    ensures i <= |items|
    ensures i < |items| ==> items[i].href == href
    ensures i == |items| ==> forall j :: 0 <= j < |items| ==> items[j].href != href
  {
    if items == [] then 0 else if items[0].href == href then 0 else 1 + ItemOf(items[1..], href)
  }

  /** The scan over every dataset of the instance. */
  method Preflight(c: Catalog, items: seq<Item>) returns (ok: bool, resolved: map<string, Id>)
    requires Selection(items)
    ensures ok <==> PreflightPasses(c, items)
    ensures ok ==> ResolvesHeld(c, items, resolved)
  {
    var doomed := Doomed(c);
    var todo := c.datasets.Keys;
    resolved := map[];
    ok := true;
    while todo != {}
      invariant todo <= c.datasets.Keys
      invariant ok <==> forall d :: d in c.datasets && d !in todo ==> Harmless(c, items, d)
      invariant ok ==> forall d :: d in c.datasets && d !in todo ==> AssetNamed(c, items, resolved, d)
      invariant forall h :: h in resolved ==> ProvenHolder(c, items, h, resolved[h])
    {
      var d :| d in todo;
      todo := todo - {d};
      var row := c.datasets[d];
      var i := ItemOf(items, row.held);
      if row.stac && i < |items| && d !in doomed {
        if Resolvable(row, items[i]) {
          resolved := resolved[row.held := d];
        } else {
          ok := false;
        }
      }
    }
  }

  // ---- the catalog between the phases ---------------------------------------------------

  /** Against the start: other maps are as they were, and no dataset but a doomed one is
      gone or changed. */
  ghost predicate OthersKept(start: Catalog, c: Catalog) {
    && WellFormed(c) && start.next <= c.next
    && (forall m :: m in start.maps && m !in Stale(start) ==> m in c.maps && c.maps[m] == start.maps[m])
    && (forall d :: d in start.datasets && d !in Doomed(start) ==>
      d in c.datasets && c.datasets[d] == start.datasets[d])
  }

  /** ... and the rows of the name keep their id, name and owner. */
  ghost predicate Unharmed(start: Catalog, c: Catalog) {
    OthersKept(start, c) && SameRows(start, c)
  }

  lemma NotLayeredElsewhere(start: Catalog, d: Id, m: Id)
    requires d in Doomed(start) && m in start.maps && m !in Stale(start)
    ensures DropLayersOf(start.maps[m].layers, d) == start.maps[m].layers
  {
    assert !HasLayerOf(start.maps[m], d);
  }

  lemma SameRowsChain(a: Catalog, b: Catalog, c: Catalog)
    requires SameRows(a, b) && SameRows(b, c)
    ensures SameRows(a, c)
  {
  }

  /** Deleting a doomed scene costs no other map a layer. */
  lemma {:induction false} DoomedDeleted(start: Catalog, c: Catalog, d: Id)
    requires WellFormed(start) && Unharmed(start, c) && d in Doomed(start)
    ensures Unharmed(start, WithoutDataset(c, d))
  {
    DatasetDeleted(c, d);
    var c' := WithoutDataset(c, d);
    SameRowsChain(start, c, c');
    forall m | m in start.maps && m !in Stale(start) ensures c'.maps[m] == start.maps[m] {
      NotLayeredElsewhere(start, d, m);
    }
    KeptDatasets(start, c, d);
  }

  lemma KeptDatasets(start: Catalog, c: Catalog, d: Id)
    requires Unharmed(start, c) && d in Doomed(start)
    ensures forall x :: x in start.datasets && x !in Doomed(start) ==>
              x in WithoutDataset(c, d).datasets && WithoutDataset(c, d).datasets[x] == start.datasets[x]
  {
  }

  /** The doomed scenes are deleted before anything else is touched; the first refusal or
      lost answer ends the run. */
  method DeleteScenes(api: Server, doomed: set<Id>, ghost start: Catalog) returns (ok: bool)
    requires WellFormed(start) && Unharmed(start, api.catalog) && doomed == Doomed(start)
    modifies api
    ensures api.failed == (old(api.failed) || !ok)
    ensures Unharmed(start, api.catalog)
    ensures ok ==> forall d :: d in doomed ==> d !in api.catalog.datasets
    ensures Shrinks(old(api.catalog), api.catalog)
  {
    var todo := doomed;
    while todo != {}
      invariant todo <= doomed
      invariant Unharmed(start, api.catalog) && api.failed == old(api.failed)
      invariant forall d :: d in doomed && d !in todo ==> d !in api.catalog.datasets
      invariant Shrinks(old(api.catalog), api.catalog)
    {
      var d :| d in todo;
      DoomedDeleted(start, api.catalog, d);
      var a := api.DeleteDataset(d);
      if !a.Returned? {
        return false;
      }
      todo := todo - {d};
    }
    return true;
  }

  // ---- the import ----------------------------------------------------------------------

  function Imported(item: Item): Dataset {
    Dataset(item.title, true, true, item.href, item.id)
  }

  ghost predicate AssetHeld(c: Catalog, href: string) {
    exists d :: d in c.datasets && HoldsAsset(c.datasets[d], href)
  }

  /** The server imports the items in turn; an asset some dataset already holds is skipped,
      and any item may fail. */
  method StacImport(api: Server, items: seq<Item>) returns (results: seq<ImportResult>)
    requires WellFormed(api.catalog)
    modifies api
    ensures api.failed == (old(api.failed) || SomeError(results))
    ensures WellFormed(api.catalog)
    ensures Imports(old(api.catalog), api.catalog, items, results)
  {
    results := [];
    for i := 0 to |items|
      invariant WellFormed(api.catalog)
      invariant Imports(old(api.catalog), api.catalog, items[..i], results)
      invariant api.failed == (old(api.failed) || SomeError(results))
    {
      ghost var before := api.catalog;
      var held := api.catalog.datasets.Keys;
      held := set d | d in held && HoldsAsset(api.catalog.datasets[d], items[i].href);
      var fails: bool := *;
      var result := if held != {} then Skipped else if fails then Error else Created(api.catalog.next);
      if result.Created? {
        DatasetAdded(api.catalog, Imported(items[i]));
        api.catalog := WithDataset(api.catalog, Imported(items[i]));
      }
      api.failed := api.failed || result.Error?;
      assert held != {} <==> AssetHeld(before, items[i].href) by {
        if AssetHeld(before, items[i].href) {
          var d :| d in before.datasets && HoldsAsset(before.datasets[d], items[i].href);
          assert d in held;
        }
      }
      ImportsNext(old(api.catalog), before, api.catalog, items, results, i, result);
      MoreErrors(results, result);
      results := results + [result];
    }
    assert items[..|items|] == items;
  }

  predicate SomeError(results: seq<ImportResult>) {
    exists i :: 0 <= i < |results| && results[i].Error?
  }

  lemma MoreErrors(results: seq<ImportResult>, result: ImportResult)
    ensures SomeError(results + [result]) <==> SomeError(results) || result.Error?
  {
    var more := results + [result];
    assert more[|results|] == result;
    assert forall i :: 0 <= i < |results| ==> more[i] == results[i];
  }

  /** From `c` to `c'` the items were imported with these results. */
  ghost predicate Imports(c: Catalog, c': Catalog, items: seq<Item>, results: seq<ImportResult>) {
    && |results| == |items|
    && c'.maps == c.maps && c.next <= c'.next
    && (forall d :: d in c.datasets ==> d in c'.datasets && c'.datasets[d] == c.datasets[d])
    && (forall d :: d in c'.datasets && d !in c.datasets ==> Made(results, d) && c.next <= d)
    && (forall i :: 0 <= i < |items| ==> ResultOk(c, c', items, results, i))
  }

  ghost predicate Made(results: seq<ImportResult>, d: Id) {
    exists i :: 0 <= i < |results| && results[i] == Created(d)
  }

  ghost predicate ResultOk(c: Catalog, c': Catalog, items: seq<Item>, results: seq<ImportResult>, i: nat)
    requires i < |items| == |results|
  {
    match results[i]
    case Created(d) =>
      && d in c'.datasets && c'.datasets[d] == Imported(items[i]) && d !in c.datasets
      && !AssetHeld(c, items[i].href)
      && forall j :: 0 <= j < i && results[j].Created? ==> items[j].href != items[i].href
    case Skipped => AssetHeld(c, items[i].href) || exists j :: 0 <= j < i && items[j].href == items[i].href
    case Error => true
  }

  /** What nobody holds during the import was held by nobody before it, and not created by it. */
  lemma NobodyHeld(c: Catalog, before: Catalog, items: seq<Item>, results: seq<ImportResult>, i: nat)
    requires i < |items| && Imports(c, before, items[..i], results) && !AssetHeld(before, items[i].href)
    ensures !AssetHeld(c, items[i].href)
    ensures forall j :: 0 <= j < i && results[j].Created? ==> items[j].href != items[i].href
  {
    forall d | d in c.datasets ensures !HoldsAsset(c.datasets[d], items[i].href) {
      assert before.datasets[d] == c.datasets[d];
    }
    forall j | 0 <= j < i && results[j].Created? ensures items[j].href != items[i].href {
      assert ResultOk(c, before, items[..i], results, j);
      assert HoldsAsset(before.datasets[results[j].dataset], items[j].href);
    }
  }

  lemma LastResult(c: Catalog, before: Catalog, after: Catalog, items: seq<Item>, results: seq<ImportResult>,
                   i: nat, result: ImportResult)
    requires i < |items| && Imports(c, before, items[..i], results)
    requires WellFormed(before)
    requires result.Created? ==> result.dataset == before.next && after == WithDataset(before, Imported(items[i]))
    requires result.Created? ==> !AssetHeld(before, items[i].href)
    requires result.Skipped? ==> AssetHeld(before, items[i].href)
    ensures ResultOk(c, after, items[..i + 1], results + [result], i)
  {
    if result.Created? {
      NobodyHeld(c, before, items, results, i);
    }
    if result.Skipped? && !AssetHeld(c, items[i].href) {
      var d :| d in before.datasets && HoldsAsset(before.datasets[d], items[i].href);
      assert Made(results, d);
      var k :| 0 <= k < i && results[k] == Created(d);
      assert ResultOk(c, before, items[..i], results, k);
      assert items[..i + 1][k].href == items[i].href;
    }
  }

  lemma ImportsNext(c: Catalog, before: Catalog, after: Catalog, items: seq<Item>, results: seq<ImportResult>,
                    i: nat, result: ImportResult)
    requires WellFormed(before) && i < |items| && Imports(c, before, items[..i], results)
    requires result.Created? ==> result.dataset == before.next && after == WithDataset(before, Imported(items[i]))
    requires !result.Created? ==> after == before
    requires result.Created? ==> !AssetHeld(before, items[i].href)
    requires result.Skipped? ==> AssetHeld(before, items[i].href)
    ensures Imports(c, after, items[..i + 1], results + [result])
  {
    var items', results' := items[..i + 1], results + [result];
    LastResult(c, before, after, items, results, i, result);
    forall d | d in after.datasets && d !in c.datasets ensures Made(results', d) {
      if d in before.datasets {
        var k :| 0 <= k < i && results[k] == Created(d);
        assert results'[k] == Created(d);
      } else {
        assert results'[i] == Created(d);
      }
    }
    forall k | 0 <= k < i ensures ResultOk(c, after, items', results', k) {
      assert ResultOk(c, before, items[..i], results, k);
      assert items'[k] == items[..i][k];
      if results[k].Skipped? && !AssetHeld(c, items[k].href) {
        var j :| 0 <= j < k && items[..i][j].href == items[..i][k].href;
        assert items'[j].href == items'[k].href;
      }
    }
  }

  // ---- the scenes --------------------------------------------------------------------------

  datatype Scene = Scene(dataset: Id, caption: string)

  /** Where a result leads when its asset was created or proven held. */
  function Found(items: seq<Item>, results: seq<ImportResult>, resolved: map<string, Id>, i: nat): Option<Id>
    requires i < |items| == |results|
  {
    match results[i]
    case Created(d) => Some(d)
    case Skipped => if items[i].href in resolved then Some(resolved[items[i].href]) else None
    case Error => None
  }

  /** Every selected scene resolves, in order. */
  ghost predicate AllFound(items: seq<Item>, results: seq<ImportResult>, resolved: map<string, Id>,
                           scenes: seq<Scene>) {
    && |scenes| <= |items| == |results|
    && forall i :: 0 <= i < |scenes| ==> Found(items, results, resolved, i) == Some(scenes[i].dataset)
                                         && scenes[i].caption == items[i].caption
  }

  /** The row was imported from the pinned scene, or reads its asset. */
  predicate FromPinned(d: Dataset, item: Item) {
    d.item == PINNED_ITEM || d.held == item.href
  }

  /** The newest own dataset under the item's title; for the pinned scene only if its origin
      confirms it. */
  function Fallback(c: Catalog, item: Item): (r: Option<Id>)
    ensures r.Some? ==>
      && r.value in c.datasets && Resolvable(c.datasets[r.value], item)
      && (item.id == PINNED_ITEM ==> FromPinned(c.datasets[r.value], item))
      && forall d :: d < c.next && d in c.datasets && Resolvable(c.datasets[d], item) ==> d <= r.value
    ensures r.None? && item.id != PINNED_ITEM ==>
      forall d :: d < c.next && d in c.datasets ==> !Resolvable(c.datasets[d], item)
  {
    var titled := OwnTitled(c, item.title);
    if titled == [] then None
    else
      assert titled[0] in titled;
      if item.id != PINNED_ITEM || FromPinned(c.datasets[titled[0]], item) then Some(titled[0]) else None
  }

  /** Where a result leads in the end. */
  function Resolution(c: Catalog, items: seq<Item>, results: seq<ImportResult>, resolved: map<string, Id>,
                      i: nat): Option<Id>
    requires i < |items| == |results|
  {
    var found := Found(items, results, resolved, i);
    if found.None? && results[i].Skipped? then Fallback(c, items[i]) else found
  }

  /** The scenes of the first `n` results; what resolves nowhere drops out. */
  function ScenesOf(c: Catalog, items: seq<Item>, results: seq<ImportResult>, resolved: map<string, Id>,
                    n: nat): seq<Scene>
    requires n <= |items| == |results|
  {
    if n == 0 then []
    else
      var last := Resolution(c, items, results, resolved, n - 1);
      ScenesOf(c, items, results, resolved, n - 1)
      + if last.Some? then [Scene(last.value, items[n - 1].caption)] else []
  }

  lemma {:induction false} AllScenes(c: Catalog, items: seq<Item>, results: seq<ImportResult>,
                                     resolved: map<string, Id>, n: nat)
    requires n <= |items| == |results|
    requires forall i :: 0 <= i < n ==> Found(items, results, resolved, i).Some?
    ensures var scenes := ScenesOf(c, items, results, resolved, n);
            |scenes| == n && AllFound(items, results, resolved, scenes)
  {
    if n > 0 {
      AllScenes(c, items, results, resolved, n - 1);
    }
  }

  /** The results in turn; a skipped asset without a proven holder falls back on the title,
      which for the pinned scene must be confirmed by its origin. */
  method ResolveScenes(c: Catalog, items: seq<Item>, results: seq<ImportResult>, resolved: map<string, Id>)
    returns (scenes: seq<Scene>, pinned: Option<Id>)
    requires |results| == |items|
    ensures scenes == ScenesOf(c, items, results, resolved, |items|)
    ensures pinned.Some? ==>
      exists i :: 0 <= i < |items| && items[i].id == PINNED_ITEM && Resolution(c, items, results, resolved, i) == pinned
    ensures pinned.None? ==>
      forall i :: 0 <= i < |items| && items[i].id == PINNED_ITEM ==> Resolution(c, items, results, resolved, i).None?
    ensures (forall i :: 0 <= i < |items| ==> Found(items, results, resolved, i).Some?) ==>
      && |scenes| == |items| && AllFound(items, results, resolved, scenes)
      && (Selection(items) ==> pinned.Some?)
  {
    scenes, pinned := [], None;
    for i := 0 to |items|
      invariant scenes == ScenesOf(c, items, results, resolved, i)
      invariant pinned.Some? ==>
        exists j :: 0 <= j < i && items[j].id == PINNED_ITEM && Resolution(c, items, results, resolved, j) == pinned
      invariant pinned.None? ==>
        forall j :: 0 <= j < i && items[j].id == PINNED_ITEM ==> Resolution(c, items, results, resolved, j).None?
    {
      var item := items[i];
      var found := Found(items, results, resolved, i);
      if found.None? && results[i].Skipped? {
        found := Fallback(c, item);
      }
      if found.Some? {
        scenes := scenes + [Scene(found.value, item.caption)];
        if item.id == PINNED_ITEM {
          pinned := found;
        }
      }
    }
    if forall i :: 0 <= i < |items| ==> Found(items, results, resolved, i).Some? {
      AllScenes(c, items, results, resolved, |items|);
    }
  }

  /** After a passed preflight, with the doomed scenes gone, every selected scene resolves
      to a dataset that holds its asset: a created one, or the proven holder. */
  lemma ScenesResolve(start: Catalog, before: Catalog, c: Catalog, items: seq<Item>, results: seq<ImportResult>,
                      resolved: map<string, Id>, i: nat)
    requires Selection(items) && ResolvesHeld(start, items, resolved) && i < |items|
    requires OthersKept(start, before) && Shrinks(start, before)
    requires forall d :: d in Doomed(start) ==> d !in before.datasets
    requires Imports(before, c, items, results) && !results[i].Error?
    ensures var found := Found(items, results, resolved, i);
            && found.Some? && found.value in c.datasets
            && HoldsAsset(c.datasets[found.value], items[i].href) && Resolvable(c.datasets[found.value], items[i])
  {
    assert ResultOk(before, c, items, results, i);
    if results[i].Skipped? {
      var d :| d in before.datasets && HoldsAsset(before.datasets[d], items[i].href);
      assert AssetNamed(start, items, resolved, d);
      var h := items[i].href;
      assert ProvenHolder(start, items, h, resolved[h]);
      var j :| 0 <= j < |items| && items[j].href == h && Resolvable(start.datasets[resolved[h]], items[j]);
      assert j == i;
    }
  }

  // ---- rebinding ---------------------------------------------------------------------------

  function LayerOf(scene: Scene, i: nat): Layer {
    Layer(scene.dataset, "Sentinel-2 - " + scene.caption, true, i)
  }

  function Stack(scenes: seq<Scene>): seq<Layer> {
    seq(|scenes|, i requires 0 <= i < |scenes| => LayerOf(scenes[i], i))
  }

  /** The row's layers are exactly these, one each. */
  ghost predicate StackIs(row: MapRow, stack: seq<Layer>, ids: seq<Id>) {
    && |ids| == |stack|
    && (forall i, j :: 0 <= i < j < |ids| ==> ids[i] != ids[j])
    && (forall l :: l in row.layers <==> l in ids)
    && (forall i :: 0 <= i < |ids| ==> row.layers[ids[i]] == stack[i])
  }

  ghost predicate HasStack(row: MapRow, stack: seq<Layer>) {
    exists ids :: StackIs(row, stack, ids)
  }

  /** Only row `m` changed, and only its layers. */
  ghost predicate OnlyRow(c: Catalog, c': Catalog, m: Id) {
    && WellFormed(c') && SameRows(c, c') && c'.datasets == c.datasets && c.next <= c'.next
    && forall x :: x in c.maps && x != m ==> c'.maps[x] == c.maps[x]
  }

  /** Every layer of the stack is over a dataset that exists. */
  predicate Based(c: Catalog, stack: seq<Layer>) {
    forall i :: 0 <= i < |stack| ==> stack[i].dataset in c.datasets
  }

  /** `_replace_map_layers`: the whole stack off, then the fresh stack on. */
  method ReplaceLayers(api: Server, m: Id, stack: seq<Layer>) returns (ok: bool)
    requires WellFormed(api.catalog) && m in api.catalog.maps
    modifies api
    ensures (old(api.failed) ==> api.failed) && (!ok && Based(old(api.catalog), stack) ==> api.failed)
    ensures OnlyRow(old(api.catalog), api.catalog, m)
    ensures ok ==> HasStack(api.catalog.maps[m], stack)
  {
    ok := ClearLayers(api, m);
    if !ok {
      return;
    }
    ghost var ids: seq<Id> := [];
    for i := 0 to |stack|
      invariant OnlyRow(old(api.catalog), api.catalog, m)
      invariant StackIs(api.catalog.maps[m], stack[..i], ids)
      invariant old(api.failed) ==> api.failed
    {
      ghost var before := api.catalog;
      var a := api.AddLayer(m, stack[i]);
      if CanAdd(before, m, stack[i]) {
        OnlyRowAdds(old(api.catalog), before, m, stack[i]);
      }
      if !a.Returned? {
        return false;
      }
      StackNext(before, m, stack, i, ids);
      ids := ids + [before.next];
    }
    assert stack[..|stack|] == stack;
  }

  lemma OnlyRowAdds(start: Catalog, c: Catalog, m: Id, layer: Layer)
    requires OnlyRow(start, c, m) && CanAdd(c, m, layer)
    ensures OnlyRow(start, WithLayer(c, m, layer), m)
  {
    LayerAdded(c, m, layer);
  }

  lemma OnlyRowDeletes(start: Catalog, c: Catalog, m: Id, l: Id)
    requires OnlyRow(start, c, m) && m in c.maps
    ensures OnlyRow(start, WithoutLayer(c, m, l), m)
    ensures WithoutLayer(c, m, l).maps[m].layers.Keys == c.maps[m].layers.Keys - {l}
  {
    LayerDeleted(c, m, l);
  }

  lemma StackNext(c: Catalog, m: Id, stack: seq<Layer>, i: nat, ids: seq<Id>)
    requires WellFormed(c) && i < |stack| && CanAdd(c, m, stack[i]) && StackIs(c.maps[m], stack[..i], ids)
    ensures StackIs(WithLayer(c, m, stack[i]).maps[m], stack[..i + 1], ids + [c.next])
  {
    LayerAdded(c, m, stack[i]);
    assert c.next !in ids;
  }

  method ClearLayers(api: Server, m: Id) returns (ok: bool)
    requires WellFormed(api.catalog) && m in api.catalog.maps
    modifies api
    ensures api.failed == (old(api.failed) || !ok)
    ensures OnlyRow(old(api.catalog), api.catalog, m)
    ensures ok ==> api.catalog.maps[m].layers == map[]
  {
    var todo := api.catalog.maps[m].layers.Keys;
    while todo != {}
      invariant OnlyRow(old(api.catalog), api.catalog, m)
      invariant api.catalog.maps[m].layers.Keys == todo && api.failed == old(api.failed)
    {
      var l :| l in todo;
      OnlyRowDeletes(old(api.catalog), api.catalog, m, l);
      var a := api.DeleteLayer(m, l);
      if !a.Returned? {
        return false;
      }
      todo := todo - {l};
    }
    return true;
  }

  /** `_rows_to_rebind`: the newest row first, every retained row once. */
  method RowsToRebind(newest: Option<Id>, retained: seq<Id>) returns (rows: seq<Id>)
    ensures forall m :: m in rows <==> m in retained || newest == Some(m)
    ensures forall i, j :: 0 <= i < j < |rows| ==> rows[i] != rows[j]
    ensures newest.Some? ==> rows != [] && rows[0] == newest.value
  {
    var candidates := (if newest.Some? then [newest.value] else []) + retained;
    rows := [];
    for i := 0 to |candidates|
      invariant forall m :: m in rows <==> m in candidates[..i]
      invariant forall j, k :: 0 <= j < k < |rows| ==> rows[j] != rows[k]
      invariant i > 0 ==> rows != [] && rows[0] == candidates[0]
    {
      assert candidates[..i + 1] == candidates[..i] + [candidates[i]];
      if candidates[i] !in rows {
        assert forall j :: 0 <= j < |rows| ==> rows[j] in rows;
        rows := rows + [candidates[i]];
      }
    }
    assert candidates[..|candidates|] == candidates;
  }

  /** Only the named rows changed, and only their layers. */
  ghost predicate OnlyRows(c: Catalog, c': Catalog, rows: seq<Id>) {
    && WellFormed(c') && SameRows(c, c') && c'.datasets == c.datasets && c.next <= c'.next
    && forall x :: x in c.maps && x !in rows ==> c'.maps[x] == c.maps[x]
  }

  /** `_rebind_pinned_rows`: every row gets the same fresh stack. */
  method RebindRows(api: Server, rows: seq<Id>, stack: seq<Layer>) returns (ok: bool)
    requires WellFormed(api.catalog) && forall m :: m in rows ==> m in api.catalog.maps
    requires forall i, j :: 0 <= i < j < |rows| ==> rows[i] != rows[j]
    modifies api
    ensures (old(api.failed) ==> api.failed) && (!ok && Based(old(api.catalog), stack) ==> api.failed)
    ensures OnlyRows(old(api.catalog), api.catalog, rows)
    ensures ok ==> forall m :: m in rows ==> HasStack(api.catalog.maps[m], stack)
  {
    for i := 0 to |rows|
      invariant OnlyRows(old(api.catalog), api.catalog, rows) && (old(api.failed) ==> api.failed)
      invariant forall j :: 0 <= j < i ==> HasStack(api.catalog.maps[rows[j]], stack)
    {
      assert rows[i] in rows;
      ghost var before := api.catalog;
      ok := ReplaceLayers(api, rows[i], stack);
      forall j | 0 <= j < i ensures HasStack(api.catalog.maps[rows[j]], stack) {
        assert rows[j] in rows;
        assert api.catalog.maps[rows[j]] == before.maps[rows[j]];
      }
      if !ok {
        return;
      }
    }
    return true;
  }

  /** Under `--force-pinned` every row of the name goes, links and all. */
  method DeleteRows(api: Server, rows: seq<Id>, ghost start: Catalog) returns (ok: bool)
    requires WellFormed(start) && OthersKept(start, api.catalog) && forall m :: m in rows ==> m in Stale(start)
    modifies api
    ensures api.failed == (old(api.failed) || !ok)
    ensures ok ==> forall m :: m in rows ==> m !in api.catalog.maps
    ensures OthersKept(start, api.catalog) && api.catalog.datasets == old(api.catalog).datasets
    ensures api.catalog.maps.Keys <= old(api.catalog).maps.Keys
  {
    for i := 0 to |rows|
      invariant OthersKept(start, api.catalog) && api.catalog.datasets == old(api.catalog).datasets
      invariant api.catalog.maps.Keys <= old(api.catalog).maps.Keys
      invariant api.failed == old(api.failed) && forall m :: m in rows[..i] ==> m !in api.catalog.maps
    {
      assert rows[i] in rows;
      var a := api.DeleteMap(rows[i]);
      if !a.Returned? {
        return false;
      }
    }
    assert rows[..|rows|] == rows;
    return true;
  }

  /** Every owned row of the name carries exactly one layer per selected scene, in order,
      over a dataset that holds the scene's asset under the seeder's title. */
  ghost predicate Repaired(start: Catalog, c: Catalog, items: seq<Item>) {
    && Unharmed(start, c)
    && exists scenes: seq<Scene> ::
         AllHeld(c, items, scenes) && forall m :: m in Stale(start) ==> HasStack(c.maps[m], Stack(scenes))
  }

  ghost predicate AllHeld(c: Catalog, items: seq<Item>, scenes: seq<Scene>) {
    |scenes| == |items| && forall i :: 0 <= i < |items| ==> SceneHolds(c, items[i], scenes[i])
  }

  ghost predicate SceneHolds(c: Catalog, item: Item, scene: Scene) {
    && scene.caption == item.caption && scene.dataset in c.datasets
    && HoldsAsset(c.datasets[scene.dataset], item.href) && Resolvable(c.datasets[scene.dataset], item)
  }

  lemma StackBased(c: Catalog, items: seq<Item>, scenes: seq<Scene>)
    requires AllHeld(c, items, scenes)
    ensures Based(c, Stack(scenes))
  {
  }

  /** What the deletes of a forced build leave for its import. */
  ghost predicate Cleared(start: Catalog, c: Catalog, items: seq<Item>, resolved: map<string, Id>) {
    && ResolvesHeld(start, items, resolved) && Shrinks(start, c) && c.maps.Keys <= start.maps.Keys
    && DoomedGone(start, c)
  }

  /** Only rows of the start that are not of the name are left. */
  ghost predicate RowsGone(start: Catalog, c: Catalog) {
    forall m :: m in c.maps ==> m in start.maps && m !in Stale(start)
  }

  /** The force branch up to the import: preflight, deletes, and the fate of the rows. */
  method Clear(api: Server, items: seq<Item>, keep: bool, admin: bool)
    returns (done: Option<Outcome>, retained: seq<Id>, resolved: map<string, Id>)
    requires WellFormed(api.catalog) && Selection(items)
    modifies api
    ensures api.failed == (old(api.failed) || done == Some(Died))
    ensures OthersKept(old(api.catalog), api.catalog)
    ensures keep ==> Unharmed(old(api.catalog), api.catalog)
    ensures done.Some? ==> done.value.Aborted? || done.value.Died?
    ensures !admin || !PreflightPasses(old(api.catalog), items) ==> done == Some(Aborted)
    ensures done == Some(Aborted) ==>
      api.catalog == old(api.catalog) && (!admin || !PreflightPasses(old(api.catalog), items))
    ensures done.None? ==>
      && Cleared(old(api.catalog), api.catalog, items, resolved)
      && (forall m :: m in retained ==> m in Stale(old(api.catalog)))
      && (keep ==> forall m :: m in Stale(old(api.catalog)) ==> m in retained)
      && (!keep ==> retained == [] && RowsGone(old(api.catalog), api.catalog))
  {
    ghost var start := api.catalog;
    if !admin {
      return Some(Aborted), [], map[];
    }
    var stale := OwnMapsBelow(api.catalog, NAME, api.catalog.next);
    var doomed := Doomed(api.catalog);
    var ok;
    ok, resolved := Preflight(api.catalog, items);
    if !ok {
      return Some(Aborted), [], resolved;
    }
    ok := DeleteScenes(api, doomed, start);
    if !ok {
      return Some(Died), [], resolved;
    }
    retained := [];
    if keep {
      retained := stale;
    } else {
      ok := DeleteRows(api, stale, start);
      if !ok {
        return Some(Died), [], resolved;
      }
    }
    return None, retained, resolved;
  }

  /** The end of a pinned repair: the rows are rebound, none is created. */
  method RebindKept(api: Server, retained: seq<Id>, scenes: seq<Scene>, ghost start: Catalog, ghost items: seq<Item>)
    returns (r: Outcome)
    requires WellFormed(start) && Unharmed(start, api.catalog) && NewestMap(start, NAME).Some?
    requires forall m :: m in retained <==> m in Stale(start)
    requires AllHeld(api.catalog, items, scenes)
    modifies api
    ensures (old(api.failed) ==> api.failed) && (r.Died? ==> api.failed)
    ensures Unharmed(start, api.catalog) && (r.Died? || r.Built?)
    ensures r.Built? ==> r.primary == NewestMap(start, NAME).value && Repaired(start, api.catalog, items)
    ensures r.Built? ==> api.catalog.datasets == old(api.catalog).datasets
  {
    ghost var imported := api.catalog;
    StaleStays(start, imported);
    var rows := RowsToRebind(NewestMap(api.catalog, NAME), retained);
    StackBased(imported, items, scenes);
    var ok := RebindRows(api, rows, Stack(scenes));
    RowsKept(start, imported, api.catalog, rows);
    return if ok then Built(rows[0]) else Died;
  }

  /** A forced build under `--force-pinned`, or without a row of the name: the old rows are
      gone, and a new one carries the selected scenes. */
  ghost predicate Recreated(start: Catalog, c: Catalog, items: seq<Item>, m: Id) {
    && OthersKept(start, c) && m in c.maps && c.maps[m].mine && c.maps[m].name == NAME
    && (exists scenes: seq<Scene> :: AllHeld(c, items, scenes) && HasStack(c.maps[m], Stack(scenes)))
    && forall x :: x in c.maps && x != m ==> x in start.maps && x !in Stale(start)
  }

  lemma RowCreated(start: Catalog, before: Catalog, c: Catalog, m: Id)
    requires OthersKept(start, before) && m == before.next && OnlyRow(WithMap(before, NAME), c, m)
    ensures OthersKept(start, c) && c.datasets == before.datasets
    ensures m in c.maps && c.maps[m].mine && c.maps[m].name == NAME
    ensures forall x :: x in c.maps && x != m ==> x in before.maps
  {
  }

  /** The end of a build without a row to keep. */
  method CreateFresh(api: Server, scenes: seq<Scene>, ghost start: Catalog, ghost items: seq<Item>) returns (r: Outcome)
    requires WellFormed(start) && OthersKept(start, api.catalog)
    modifies api
    ensures (old(api.failed) ==> api.failed) && (r.Died? && Based(old(api.catalog), Stack(scenes)) ==> api.failed)
    ensures OthersKept(start, api.catalog) && (r.Died? || r.Built?)
    ensures r.Built? ==> api.catalog.datasets == old(api.catalog).datasets
    ensures r.Built? && RowsGone(start, old(api.catalog)) && AllHeld(old(api.catalog), items, scenes) ==>
              Recreated(start, api.catalog, items, r.primary)
  {
    ghost var before := api.catalog;
    var a, m := api.CreateMap(NAME);
    if !a.Returned? {
      return Died;
    }
    var ok := ReplaceLayers(api, m, Stack(scenes));
    RowCreated(start, before, api.catalog, m);
    return if ok then Built(m) else Died;
  }

  ghost predicate DoomedGone(start: Catalog, c: Catalog) {
    forall d :: d in Doomed(start) ==> d !in c.datasets
  }

  lemma StillGone(start: Catalog, before: Catalog, c: Catalog, items: seq<Item>, results: seq<ImportResult>)
    requires WellFormed(start) && start.next <= before.next && DoomedGone(start, before)
    requires Imports(before, c, items, results)
    ensures DoomedGone(start, c)
  {
  }

  /** The import and the scenes it leads to; without them, or without the pinned one, the build dies. */
  method ImportScenes(api: Server, items: seq<Item>, resolved: map<string, Id>, ghost start: Catalog, ghost force: bool)
    returns (r: Option<seq<Scene>>)
    requires WellFormed(start) && Selection(items) && OthersKept(start, api.catalog)
    requires force ==> Cleared(start, api.catalog, items, resolved)
    modifies api
    ensures OthersKept(start, api.catalog) && api.catalog.maps == old(api.catalog).maps
    ensures SameRows(start, old(api.catalog)) ==> Unharmed(start, api.catalog)
    ensures old(api.failed) ==> api.failed
    ensures force ==> DoomedGone(start, api.catalog)
    ensures force ==> if r.None? then api.failed
                      else AllHeld(api.catalog, items, r.value) && Based(api.catalog, Stack(r.value))
  {
    ghost var before := api.catalog;
    var results := StacImport(api, items);
    GrownKept(start, before, api.catalog, items, results);
    if force {
      StillGone(start, before, api.catalog, items, results);
    }
    if SomeError(results) {
      return None;
    }
    var scenes, pinned := ResolveScenes(api.catalog, items, results, resolved);
    if force {
      AllResolve(start, before, api.catalog, items, results, resolved, scenes);
    }
    return if scenes == [] || pinned.None? then None else Some(scenes);
  }

  /** The build from the import on. */
  method Rebuild(api: Server, items: seq<Item>, keep: bool, retained: seq<Id>, resolved: map<string, Id>,
                 ghost start: Catalog, ghost force: bool)
    returns (r: Outcome)
    requires WellFormed(start) && Selection(items) && OthersKept(start, api.catalog)
    requires keep ==> force && Unharmed(start, api.catalog) && NewestMap(start, NAME).Some?
    requires keep ==> forall m :: m in retained <==> m in Stale(start)
    requires force ==> Cleared(start, api.catalog, items, resolved)
    modifies api
    ensures OthersKept(start, api.catalog) && (r.Died? || r.Built?)
    ensures old(api.failed) ==> api.failed
    ensures force && r.Died? ==> api.failed
    ensures keep ==> Unharmed(start, api.catalog)
    ensures keep && r.Built? ==> r.primary == NewestMap(start, NAME).value && Repaired(start, api.catalog, items)
    ensures !keep && force && RowsGone(start, old(api.catalog)) && r.Built? ==>
              Recreated(start, api.catalog, items, r.primary)
    ensures force && r.Built? ==> DoomedGone(start, api.catalog)
  {
    var scenes := ImportScenes(api, items, resolved, start, force);
    if scenes.None? {
      return Died;
    }
    if keep {
      r := RebindKept(api, retained, scenes.value, start, items);
    } else {
      r := CreateFresh(api, scenes.value, start, items);
    }
  }

  /** No dataset holds an asset of the items. */
  ghost predicate NobodyHolds(c: Catalog, items: seq<Item>) {
    forall d, i :: d in c.datasets && 0 <= i < |items| ==>
      !(c.datasets[d].stac && c.datasets[d].held == items[i].href)
  }

  /** A build without force on an instance that has neither the map nor its assets. */
  ghost predicate FirstBuild(c: Catalog, items: seq<Item>, force: bool) {
    !force && NewestMap(c, NAME).None? && NobodyHolds(c, items)
  }

  lemma FirstIsCleared(c: Catalog, items: seq<Item>)
    requires WellFormed(c) && NobodyHolds(c, items) && NewestMap(c, NAME).None?
    ensures Cleared(c, c, items, map[]) && RowsGone(c, c)
  {
    forall m ensures m !in Stale(c) {
      if m in c.maps {
        assert m < c.next;
      }
    }
  }

  /** The phases of the build. */
  method BuildMap(api: Server, items: seq<Item>, force: bool, forcePinned: bool, admin: bool) returns (r: Outcome)
    requires WellFormed(api.catalog) && Selection(items)
    modifies api
    ensures OthersKept(old(api.catalog), api.catalog)
    ensures r.Kept? <==> NewestMap(old(api.catalog), NAME).Some? && !force
    ensures r.Kept? || r.Aborted? ==> api.catalog == old(api.catalog)
    ensures force ==> (r.Aborted? <==> !admin || !PreflightPasses(old(api.catalog), items))
    ensures old(api.failed) ==> api.failed
    ensures force && admin && PreflightPasses(old(api.catalog), items) && !api.failed ==> r.Built?
    ensures var newest := NewestMap(old(api.catalog), NAME);
            newest.Some? && !forcePinned ==>
              && Unharmed(old(api.catalog), api.catalog)
              && (r.Built? ==> r.primary == newest.value && Repaired(old(api.catalog), api.catalog, items))
    ensures force && r.Built? && !(NewestMap(old(api.catalog), NAME).Some? && !forcePinned) ==>
              Recreated(old(api.catalog), api.catalog, items, r.primary)
    ensures force && r.Built? ==> DoomedGone(old(api.catalog), api.catalog)
    ensures FirstBuild(old(api.catalog), items, force) ==>
      && (!api.failed ==> r.Built?)
      && (r.Built? ==> Recreated(old(api.catalog), api.catalog, items, r.primary))
  {
    ghost var start := api.catalog;
    var newest := NewestMap(api.catalog, NAME);
    var keep := KeepExisting(newest.Some?, force, forcePinned);
    if keep && !force {
      return Kept;
    }
    var retained: seq<Id>, resolved: map<string, Id> := [], map[];
    if force {
      var done;
      done, retained, resolved := Clear(api, items, keep, admin);
      if done.Some? {
        return done.value;
      }
    }
    ghost var sure := force || NobodyHolds(start, items);
    if !force && sure {
      FirstIsCleared(start, items);
    }
    r := Rebuild(api, items, keep, retained, resolved, start, sure);
  }

  /** `build_sentinel2`. A run that ends before the deletes changes nothing, no run costs
      another map a layer, a forced repair that ends well repairs every owned row, and one
      that is not blocked ends well unless a call fails that could have succeeded. */
  method Build(api: Server, items: seq<Item>, force: bool, forcePinned: bool, admin: bool) returns (r: Outcome)
    requires WellFormed(api.catalog) && Selection(items)
    modifies api
    ensures OthersKept(old(api.catalog), api.catalog)
    ensures r.Kept? <==> NewestMap(old(api.catalog), NAME).Some? && !force
    ensures r.Kept? || r.Aborted? ==> api.catalog == old(api.catalog)
    ensures force ==> (r.Aborted? <==> !admin || Blocked(old(api.catalog), items))
    ensures old(api.failed) ==> api.failed
    ensures force && admin && !Blocked(old(api.catalog), items) && !api.failed ==> r.Built?
    ensures var newest := NewestMap(old(api.catalog), NAME);
            newest.Some? && !forcePinned ==>
              && Unharmed(old(api.catalog), api.catalog)
              && (r.Built? ==> r.primary == newest.value && RowsShow(old(api.catalog), api.catalog, items))
    ensures force && r.Built? && !(NewestMap(old(api.catalog), NAME).Some? && !forcePinned) ==>
              && RowsReplaced(old(api.catalog), api.catalog, r.primary)
              && ShowsItems(api.catalog, api.catalog.maps[r.primary], items)
    ensures FirstBuild(old(api.catalog), items, force) ==>
      && (!api.failed ==> r.Built?)
      && (r.Built? ==> RowsReplaced(old(api.catalog), api.catalog, r.primary)
                       && ShowsItems(api.catalog, api.catalog.maps[r.primary], items))
    ensures OnlyScenesGone(old(api.catalog), api.catalog, force && r.Built?)
  {
    ghost var start := api.catalog;
    r := BuildMap(api, items, force, forcePinned, admin);
    PreflightIff(start, items);
    GoneIs(start, api.catalog, force && r.Built?);
    if r.Built? && NewestMap(start, NAME).Some? && !forcePinned {
      RepairedShows(start, api.catalog, items);
    } else if r.Built? && (force || NobodyHolds(start, items)) {
      RecreatedShows(start, api.catalog, items, r.primary);
    }
  }

  // ---- what a forced build promises, layer by layer ------------------------------------------

  /** The layer of the item at place `i`: a raster over a dataset of this account that holds
      the item's asset under its title. */
  ghost predicate LayerOfItem(c: Catalog, layer: Layer, item: Item, i: nat) {
    && layer.raster && layer.order == i && layer.name == "Sentinel-2 - " + item.caption
    && layer.dataset in c.datasets
    && var d := c.datasets[layer.dataset]; d.stac && d.held == item.href && d.mine && d.title == item.title
  }

  /** One layer of the row has order `i`, and it is the item's. */
  ghost predicate ShownOnce(c: Catalog, row: MapRow, item: Item, i: nat) {
    exists l :: l in row.layers && LayerOfItem(c, row.layers[l], item, i)
                && forall k :: k in row.layers && row.layers[k].order == i ==> k == l
  }

  ghost predicate ShowsItems(c: Catalog, row: MapRow, items: seq<Item>) {
    |row.layers| == |items| && forall i :: 0 <= i < |items| ==> ShownOnce(c, row, items[i], i)
  }

  /** Every row of this account under the name is still there and shows the items. */
  ghost predicate RowsShow(start: Catalog, c: Catalog, items: seq<Item>) {
    forall m :: m in start.maps && start.maps[m].mine && start.maps[m].name == NAME ==>
      && m in c.maps && c.maps[m].mine && c.maps[m].name == NAME && ShowsItems(c, c.maps[m], items)
  }

  /** The new row is the only one of this account under the name, and the others are as they were. */
  ghost predicate RowsReplaced(start: Catalog, c: Catalog, m: Id) {
    && OwnRow(c, m)
    && (forall x :: x in c.maps && x != m ==> x in start.maps && !OwnRow(start, x) && c.maps[x] == start.maps[x])
    && forall x :: x in start.maps && !OwnRow(start, x) ==> x in c.maps
  }

  /** No dataset is gone but scenes that are layered only here, and in the end all of them. */
  ghost predicate OnlyScenesGone(start: Catalog, c: Catalog, all: bool) {
    && (forall d :: d in start.datasets && d !in c.datasets ==> ScenesOnlyHere(start, d))
    && (all ==> forall d :: ScenesOnlyHere(start, d) ==> d !in c.datasets)
  }

  lemma GoneIs(start: Catalog, c: Catalog, all: bool)
    requires OthersKept(start, c) && (all ==> DoomedGone(start, c))
    ensures OnlyScenesGone(start, c, all)
  {
    DoomedAre(start);
  }

  predicate OwnRow(c: Catalog, m: Id) {
    m in c.maps && c.maps[m].mine && c.maps[m].name == NAME
  }

  /** A scene of this account that is a raster layer of an own map of the name, and a layer of
      no other map. */
  ghost predicate ScenesOnlyHere(c: Catalog, d: Id) {
    && d in c.datasets && c.datasets[d].mine && "Sentinel-2 TCI " <= c.datasets[d].title
    && (exists m, l :: OwnRow(c, m) && l in c.maps[m].layers
                       && c.maps[m].layers[l].dataset == d && c.maps[m].layers[l].raster)
    && forall m, l :: m in c.maps && !OwnRow(c, m) && l in c.maps[m].layers ==> c.maps[m].layers[l].dataset != d
  }

  /** A selected asset is held by a dataset that is neither such a scene nor this account's
      under the seeder's title. */
  ghost predicate Blocked(c: Catalog, items: seq<Item>) {
    exists d, i :: d in c.datasets && 0 <= i < |items| && !ScenesOnlyHere(c, d)
                   && c.datasets[d].stac && c.datasets[d].held == items[i].href
                   && !(c.datasets[d].mine && c.datasets[d].title == items[i].title)
  }

  lemma DoomedIs(c: Catalog, d: Id)
    ensures d in Doomed(c) <==> ScenesOnlyHere(c, d)
  {
    if d in Doomed(c) {
      var m :| m in Stale(c) && HasSceneLayer(c.maps[m], d);
      var l :| l in c.maps[m].layers && c.maps[m].layers[l].dataset == d && c.maps[m].layers[l].raster;
      assert OwnRow(c, m);
      forall m', l' | m' in c.maps && !OwnRow(c, m') && l' in c.maps[m'].layers
        ensures c.maps[m'].layers[l'].dataset != d
      {
        assert m' !in Stale(c) && !HasLayerOf(c.maps[m'], d);
      }
    }
    if ScenesOnlyHere(c, d) {
      var m, l :| OwnRow(c, m) && l in c.maps[m].layers
                  && c.maps[m].layers[l].dataset == d && c.maps[m].layers[l].raster;
      assert m in Stale(c) && HasSceneLayer(c.maps[m], d);
    }
  }

  lemma DoomedAre(c: Catalog)
    ensures forall d :: d in Doomed(c) <==> ScenesOnlyHere(c, d)
  {
    forall d ensures d in Doomed(c) <==> ScenesOnlyHere(c, d) { DoomedIs(c, d); }
  }

  lemma PreflightIff(c: Catalog, items: seq<Item>)
    ensures PreflightPasses(c, items) <==> !Blocked(c, items)
  {
    DoomedAre(c);
    if PreflightPasses(c, items) {
      forall d, i | d in c.datasets && 0 <= i < |items| && !ScenesOnlyHere(c, d)
                    && c.datasets[d].stac && c.datasets[d].held == items[i].href
        ensures c.datasets[d].mine && c.datasets[d].title == items[i].title
      {
        assert Harmless(c, items, d);
      }
    } else {
      var d :| d in c.datasets && !Harmless(c, items, d);
      var i :| 0 <= i < |items| && HoldsAsset(c.datasets[d], items[i].href) && !Resolvable(c.datasets[d], items[i]);
      assert !ScenesOnlyHere(c, d);
    }
  }

  lemma {:induction false} DistinctIds(ids: seq<Id>, all: set<Id>)
    requires forall i, j :: 0 <= i < j < |ids| ==> ids[i] != ids[j]
    requires forall l :: l in all <==> l in ids
    ensures |all| == |ids|
  {
    if ids == [] {
      assert all == {};
    } else {
      var last := ids[|ids| - 1];
      DistinctIds(ids[..|ids| - 1], all - {last});
      assert |all| == |all - {last}| + 1;
    }
  }

  lemma StackShows(c: Catalog, row: MapRow, items: seq<Item>, scenes: seq<Scene>)
    requires AllHeld(c, items, scenes) && HasStack(row, Stack(scenes))
    ensures ShowsItems(c, row, items)
  {
    var stack := Stack(scenes);
    var ids :| StackIs(row, stack, ids);
    DistinctIds(ids, row.layers.Keys);
    forall i | 0 <= i < |items| ensures ShownOnce(c, row, items[i], i) {
      assert SceneHolds(c, items[i], scenes[i]);
      assert ids[i] in row.layers && row.layers[ids[i]] == LayerOf(scenes[i], i);
      forall k | k in row.layers && row.layers[k].order == i ensures k == ids[i] {
        var j :| 0 <= j < |ids| && ids[j] == k;
        assert row.layers[k] == LayerOf(scenes[j], j);
      }
    }
  }

  lemma RepairedShows(start: Catalog, c: Catalog, items: seq<Item>)
    requires Repaired(start, c, items)
    ensures RowsShow(start, c, items)
  {
    var scenes: seq<Scene> :|
      AllHeld(c, items, scenes) && forall m :: m in Stale(start) ==> HasStack(c.maps[m], Stack(scenes));
    forall m | OwnRow(start, m) ensures ShowsItems(c, c.maps[m], items) {
      assert m in Stale(start);
      StackShows(c, c.maps[m], items, scenes);
    }
  }

  lemma RecreatedShows(start: Catalog, c: Catalog, items: seq<Item>, m: Id)
    requires Recreated(start, c, items, m)
    ensures RowsReplaced(start, c, m) && ShowsItems(c, c.maps[m], items)
  {
    var scenes: seq<Scene> :| AllHeld(c, items, scenes) && HasStack(c.maps[m], Stack(scenes));
    StackShows(c, c.maps[m], items, scenes);
    forall x | x in c.maps && x != m ensures c.maps[x] == start.maps[x] {
      assert x in start.maps && x !in Stale(start);
    }
  }

  lemma AllResolve(start: Catalog, before: Catalog, c: Catalog, items: seq<Item>, results: seq<ImportResult>,
                   resolved: map<string, Id>, scenes: seq<Scene>)
    requires Selection(items) && OthersKept(start, before) && Cleared(start, before, items, resolved)
    requires Imports(before, c, items, results) && !SomeError(results)
    requires scenes == ScenesOf(c, items, results, resolved, |items|)
    ensures forall i :: 0 <= i < |items| ==> Found(items, results, resolved, i).Some?
    ensures scenes != [] && AllHeld(c, items, scenes)
    ensures Based(c, Stack(scenes))
  {
    forall i | 0 <= i < |items| ensures Found(items, results, resolved, i).Some? {
      ScenesResolve(start, before, c, items, results, resolved, i);
    }
    AllScenes(c, items, results, resolved, |items|);
    forall i | 0 <= i < |items| ensures SceneHolds(c, items[i], scenes[i]) {
      ScenesResolve(start, before, c, items, results, resolved, i);
    }
    StackBased(c, items, scenes);
  }

  lemma GrownKept(start: Catalog, before: Catalog, c: Catalog, items: seq<Item>, results: seq<ImportResult>)
    requires WellFormed(start) && OthersKept(start, before) && WellFormed(c) && Imports(before, c, items, results)
    ensures OthersKept(start, c) && (SameRows(start, before) ==> Unharmed(start, c))
  {
  }

  lemma StaleStays(start: Catalog, c: Catalog)
    requires WellFormed(start) && Unharmed(start, c)
    ensures Stale(c) == Stale(start) && NewestMap(c, NAME) == NewestMap(start, NAME)
  {
    NewestStable(start, NAME, start.next, c.next);
    SameRowsSameNewest(start, c, NAME, c.next);
  }

  lemma RowsKept(start: Catalog, before: Catalog, c: Catalog, rows: seq<Id>)
    requires Unharmed(start, before) && OnlyRows(before, c, rows) && forall m :: m in rows ==> m in Stale(start)
    ensures Unharmed(start, c)
  {
  }
}
