/** A whole restore: what it accepts, what it reaches, and that doing it again changes nothing. */
module RestoreRoundTrip {
  import opened RestoreRun
  import opened Showcase
  import opened Wrappers

  // ---- the passes can run --------------------------------------------------------------------

  lemma MapsAreReady(scope: Scope, origin: State, saved: map<string, SavedMap>, s: State,
                     current: map<string, SavedMap>)
    requires Valid(scope, origin) && DescribesMaps(scope, origin, saved)
    requires Valid(scope, s) && DescribesMaps(scope, s, current)
    requires forall n :: n in saved ==> MapAccepted(n, saved[n], current)
    ensures MapsReady(saved, current)
  {
    forall n | n in saved
      ensures n in current && current[n].id == saved[n].id
      ensures saved[n].fields.Keys == current[n].fields.Keys && LayersThere(saved[n].layers, current[n].layers)
    {
      assert MapAccepted(n, saved[n], current);
      assert saved[n] == MapEntry(origin, saved[n].id) && MapValid(scope, origin.maps[saved[n].id]);
      assert current[n] == MapEntry(s, current[n].id) && MapValid(scope, s.maps[current[n].id]);
    }
  }

  lemma DatasetsAreReady(scope: Scope, origin: State, saved: map<string, SavedDataset>,
                         s: State, current: map<string, SavedDataset>)
    requires Valid(scope, origin) && DescribesDatasets(scope, origin, saved)
    requires Valid(scope, s) && DescribesDatasets(scope, s, current)
    requires forall n :: n in saved ==> n in current && current[n].id == saved[n].id
    ensures DatasetsReady(saved, current)
  {
    forall n | n in saved
      ensures saved[n].fields.Keys == current[n].fields.Keys
      ensures UniqueTriples(saved[n].keywords) && UniqueTriples(current[n].keywords)
    {
      assert saved[n] == DatasetEntry(origin, saved[n].id)
        && DatasetValid(scope, origin.datasets[saved[n].id], origin.next);
      assert current[n] == DatasetEntry(s, current[n].id) && DatasetValid(scope, s.datasets[current[n].id], s.next);
    }
  }

  lemma KeywordIdsHold(scope: Scope, s: State)
    requires Valid(scope, s)
    ensures KeywordIds(s)
  {
    forall d, k | d in s.datasets && k in s.datasets[d].keywords ensures k < s.next {
      assert DatasetValid(scope, s.datasets[d], s.next);
    }
  }

  // ---- what each component ends as --------------------------------------------------------------

  /** The saved maps end as saved, up to descriptions; the new ones end private; no other map changes. */
  ghost predicate MapsReached(scope: Scope, s: State, t: State, saved: map<string, SavedMap>) {
    && t.maps.Keys == s.maps.Keys
    && (forall n :: n in saved ==>
      saved[n].id in s.maps && t.maps[saved[n].id] == MapRestored(s.maps[saved[n].id], saved[n]))
    && (forall m :: OwnMap(scope, s, m) && s.maps[m].name !in saved ==>
          t.maps[m] == s.maps[m].(fields := Hidden(s.maps[m].fields)))
    && (forall m :: m in s.maps && !OwnMap(scope, s, m) ==> t.maps[m] == s.maps[m])
  }

  lemma MapsAreReached(scope: Scope, s: State, middle: map<Id, MapRow>, t: State,
                       saved: map<string, SavedMap>, current: map<string, SavedMap>)
    requires DescribesMaps(scope, s, current) && MapsReady(saved, current)
    requires MapsDone(s.maps, middle, saved, saved.Keys)
    requires MapsHidden(middle, t.maps, current, current.Keys - saved.Keys)
    ensures MapsReached(scope, s, t, saved)
  {
    forall n | n in saved
      ensures saved[n].id in s.maps && t.maps[saved[n].id] == MapRestored(s.maps[saved[n].id], saved[n])
    {
      assert s.maps[current[n].id].name == n;
      forall n' | n' in current.Keys - saved.Keys ensures current[n'].id != saved[n].id {
        assert s.maps[current[n'].id].name == n';
      }
    }
    forall m | OwnMap(scope, s, m) && s.maps[m].name !in saved
      ensures t.maps[m] == s.maps[m].(fields := Hidden(s.maps[m].fields))
    {
      var n := s.maps[m].name;
      assert current[n] == MapEntry(s, m) && n in current.Keys - saved.Keys;
      forall n' | n' in saved ensures saved[n'].id != m {
        assert s.maps[current[n'].id].name == n';
      }
    }
    forall m | m in s.maps && !OwnMap(scope, s, m) ensures t.maps[m] == s.maps[m] {
      assert forall n' :: n' in saved ==> saved[n'].id == current[n'].id;
    }
  }

  ghost predicate DatasetsReached(scope: Scope, s: State, t: State, saved: map<string, SavedDataset>) {
    && t.datasets.Keys == s.datasets.Keys
    && (forall n :: n in saved ==>
          saved[n].id in s.datasets && DatasetRestored(s.datasets[saved[n].id], t.datasets[saved[n].id], saved[n]))
    && (forall d :: OwnDataset(scope, s, d) && s.datasets[d].title !in saved ==>
          t.datasets[d] == s.datasets[d].(fields := Hidden(s.datasets[d].fields)))
    && (forall d :: d in s.datasets && !OwnDataset(scope, s, d) ==> t.datasets[d] == s.datasets[d])
  }

  lemma DatasetsAreReached(scope: Scope, s: State, middle: map<Id, DatasetRow>, t: State,
                           saved: map<string, SavedDataset>, current: map<string, SavedDataset>)
    requires DescribesDatasets(scope, s, current) && DatasetsReady(saved, current)
    requires DatasetsDone(s.datasets, middle, saved, saved.Keys)
    requires DatasetsHidden(middle, t.datasets, current, current.Keys - saved.Keys)
    ensures DatasetsReached(scope, s, t, saved)
  {
    forall n | n in saved
      ensures saved[n].id in s.datasets && DatasetRestored(s.datasets[saved[n].id], t.datasets[saved[n].id], saved[n])
    {
      assert s.datasets[current[n].id].title == n;
      forall n' | n' in current.Keys - saved.Keys ensures current[n'].id != saved[n].id {
        assert s.datasets[current[n'].id].title == n';
      }
    }
    forall d | OwnDataset(scope, s, d) && s.datasets[d].title !in saved
      ensures t.datasets[d] == s.datasets[d].(fields := Hidden(s.datasets[d].fields))
    {
      var n := s.datasets[d].title;
      assert current[n] == DatasetEntry(s, d) && n in current.Keys - saved.Keys;
      forall n' | n' in saved ensures saved[n'].id != d {
        assert s.datasets[current[n'].id].title == n';
      }
    }
    forall d | d in s.datasets && !OwnDataset(scope, s, d) ensures t.datasets[d] == s.datasets[d] {
      assert forall n' :: n' in saved ==> saved[n'].id == current[n'].id;
    }
  }

  /** The saved collections end as saved, up to descriptions; a new one of a covered name is gone. */
  ghost predicate CollectionsReached(scope: Scope, s: State, t: State, saved: map<string, SavedCollection>) {
    && t.collections.Keys <= s.collections.Keys
    && (forall n :: n in saved ==>
          saved[n].id in s.collections && saved[n].id in t.collections
          && t.collections[saved[n].id] == CollectionRestored(s.collections[saved[n].id], saved[n]))
    && (forall c :: Covered(scope, s, c) && s.collections[c].name !in saved ==> c !in t.collections)
    && (forall c :: c in s.collections && !Covered(scope, s, c) ==>
      c in t.collections && t.collections[c] == s.collections[c])
  }

  lemma CollectionsAreReached(scope: Scope, s: State, middle: map<Id, CollectionRow>, t: State,
                              saved: map<string, SavedCollection>, current: map<string, SavedCollection>)
    requires DescribesCollections(scope, s, current) && CollectionsReady(saved, current)
    requires CollectionsDone(s.collections, middle, saved, saved.Keys)
    requires t.collections == middle - IdsOf(current, current.Keys - saved.Keys)
    ensures CollectionsReached(scope, s, t, saved)
  {
    var gone := IdsOf(current, current.Keys - saved.Keys);
    forall n | n in saved
      ensures saved[n].id in s.collections && saved[n].id in t.collections
      ensures t.collections[saved[n].id] == CollectionRestored(s.collections[saved[n].id], saved[n])
    {
      assert s.collections[current[n].id].name == n;
      forall n' | n' in current.Keys - saved.Keys ensures current[n'].id != saved[n].id {
        assert s.collections[current[n'].id].name == n';
      }
      assert saved[n].id !in gone;
    }
    forall c | Covered(scope, s, c) && s.collections[c].name !in saved ensures c !in t.collections {
      var n := s.collections[c].name;
      assert current[n] == CollectionEntry(s, c) && n in current.Keys - saved.Keys;
      assert c in gone;
    }
    forall c | c in s.collections && !Covered(scope, s, c)
      ensures c in t.collections && t.collections[c] == s.collections[c]
    {
      assert c !in gone;
      assert forall n' :: n' in saved ==> saved[n'].id == current[n'].id;
    }
  }

  // ---- the state a restore leaves -------------------------------------------------------------------

  ghost predicate Ambiguous(scope: Scope, s: State) {
    AmbiguousMaps(scope, s) || AmbiguousDatasets(scope, s)
  }

  ghost predicate MapSettled(scope: Scope, t: State, n: string, item: SavedMap) {
    && OwnMap(scope, t, item.id) && t.maps[item.id].name == n && MapEntry(t, item.id) == item
  }

  ghost predicate DatasetSettled(scope: Scope, t: State, n: string, item: SavedDataset) {
    && OwnDataset(scope, t, item.id) && t.datasets[item.id].title == n
    && t.datasets[item.id].createdBy == item.createdBy && DatasetMatches(item, DatasetEntry(t, item.id))
  }

  ghost predicate CollectionSettled(scope: Scope, t: State, n: string, item: SavedCollection) {
    && Covered(scope, t, item.id) && t.collections[item.id].name == n
    && CollectionMatches(item, CollectionEntry(t, item.id))
  }

  ghost predicate NewMapsPrivate(scope: Scope, t: State, saved: map<string, SavedMap>) {
    forall m :: OwnMap(scope, t, m) && t.maps[m].name !in saved ==> IsPrivate(t.maps[m].fields)
  }

  ghost predicate NewDatasetsPrivate(scope: Scope, t: State, saved: map<string, SavedDataset>) {
    forall d :: OwnDataset(scope, t, d) && t.datasets[d].title !in saved ==> IsPrivate(t.datasets[d].fields)
  }

  ghost predicate NoNewCollections(scope: Scope, t: State, saved: map<string, SavedCollection>) {
    forall c :: Covered(scope, t, c) ==> t.collections[c].name in saved
  }

  predicate IsPrivate(fields: Fields) {
    VISIBILITY in fields && fields[VISIBILITY] == PRIVATE
  }

  ghost predicate MapsSettled(scope: Scope, t: State, saved: map<string, SavedMap>) {
    forall n :: n in saved ==> MapSettled(scope, t, n, saved[n])
  }

  ghost predicate DatasetsSettled(scope: Scope, t: State, saved: map<string, SavedDataset>) {
    forall n :: n in saved ==> DatasetSettled(scope, t, n, saved[n])
  }

  ghost predicate CollectionsSettled(scope: Scope, t: State, saved: map<string, SavedCollection>) {
    forall n :: n in saved ==> CollectionSettled(scope, t, n, saved[n])
  }

  /** Every saved row holds what was saved under its name and id; new own rows are private and
      no covered collection is new. */
  ghost predicate Settled(scope: Scope, t: State, saved: Snapshot) {
    && !Ambiguous(scope, t)
    && MapsSettled(scope, t, saved.maps) && DatasetsSettled(scope, t, saved.datasets)
    && CollectionsSettled(scope, t, saved.collections)
    && NewMapsPrivate(scope, t, saved.maps) && NewDatasetsPrivate(scope, t, saved.datasets)
    && NoNewCollections(scope, t, saved.collections)
  }

  predicate DescriptionClearable(original: Value, now: Value) {
    original.Null? ==> now.Null?
  }

  predicate MapsClearable(saved: map<string, SavedMap>, current: map<string, SavedMap>) {
    forall n :: n in saved && n in current ==> Clearable(saved[n].fields, current[n].fields)
  }

  predicate CollectionsClearable(saved: map<string, SavedCollection>, current: map<string, SavedCollection>) {
    forall n :: n in saved && n in current ==> DescriptionClearable(saved[n].description, current[n].description)
  }

  /** No saved row has to lose a description it has since gained. */
  predicate NothingToClear(saved: Snapshot, current: Snapshot) {
    MapsClearable(saved.maps, current.maps) && CollectionsClearable(saved.collections, current.collections)
  }

  ghost predicate AllReached(scope: Scope, s: State, t: State, saved: Snapshot) {
    && MapsReached(scope, s, t, saved.maps) && DatasetsReached(scope, s, t, saved.datasets)
    && CollectionsReached(scope, s, t, saved.collections)
  }

  // ---- maps -----------------------------------------------------------------------------------------

  ghost predicate MapsRan(scope: Scope, saved: map<string, SavedMap>, s: State, current: map<string, SavedMap>,
                          t: State) {
    DescribesMaps(scope, s, current) && MapsReady(saved, current) && MapsReached(scope, s, t, saved)
  }

  lemma MapKeepsOwner(scope: Scope, saved: map<string, SavedMap>, s: State, current: map<string, SavedMap>, t: State,
                      m: Id)
    requires MapsRan(scope, saved, s, current, t) && m in s.maps
    ensures m in t.maps
    ensures t.maps[m].name == s.maps[m].name && t.maps[m].mine == s.maps[m].mine
      && t.maps[m].createdBy == s.maps[m].createdBy
  {
    if OwnMap(scope, s, m) && s.maps[m].name in saved {
      assert current[s.maps[m].name] == MapEntry(s, m);
    }
  }

  lemma MapsStayApart(scope: Scope, saved: map<string, SavedMap>, s: State, current: map<string, SavedMap>, t: State)
    requires MapsRan(scope, saved, s, current, t) && !AmbiguousMaps(scope, s)
    ensures !AmbiguousMaps(scope, t)
  {
    forall m, m' | OwnMap(scope, t, m) && OwnMap(scope, t, m') && m != m' ensures t.maps[m].name != t.maps[m'].name {
      MapKeepsOwner(scope, saved, s, current, t, m);
      MapKeepsOwner(scope, saved, s, current, t, m');
      assert OwnMap(scope, s, m) && OwnMap(scope, s, m');
    }
  }

  ghost predicate Shaped(scope: Scope, item: SavedMap) {
    && item.fields.Keys == scope.mapFields
    && forall l :: l in item.layers ==> item.layers[l].fields.Keys == scope.layerFields
  }

  lemma SavedMapsShaped(scope: Scope, origin: State, saved: map<string, SavedMap>)
    requires Valid(scope, origin) && DescribesMaps(scope, origin, saved)
    ensures forall n :: n in saved ==> Shaped(scope, saved[n])
  {
    forall n | n in saved ensures Shaped(scope, saved[n]) {
      assert OwnMap(scope, origin, saved[n].id) && MapValid(scope, origin.maps[saved[n].id]);
      assert saved[n] == MapEntry(origin, saved[n].id);
    }
  }

  lemma RestoredMapValid(scope: Scope, row: MapRow, item: SavedMap)
    requires MapValid(scope, row) && Shaped(scope, item)
    ensures MapValid(scope, MapRestored(row, item))
  {
    assert Reached(item.fields, row.fields).Keys == item.fields.Keys;
  }

  lemma MapStaysValid(scope: Scope, saved: map<string, SavedMap>, s: State, current: map<string, SavedMap>, t: State,
                      m: Id)
    requires forall n :: n in saved ==> Shaped(scope, saved[n])
    requires MapsRan(scope, saved, s, current, t) && m in t.maps && MapValid(scope, s.maps[m])
    ensures MapValid(scope, t.maps[m])
  {
    if OwnMap(scope, s, m) {
      var n := s.maps[m].name;
      assert current[n] == MapEntry(s, m);
      if n in saved {
        RestoredMapValid(scope, s.maps[m], saved[n]);
        assert t.maps[m] == MapRestored(s.maps[m], saved[n]);
      } else {
        assert Hidden(s.maps[m].fields).Keys == s.maps[m].fields.Keys;
      }
    }
  }

  /** A saved map reads back as saved exactly when its description did not have to be cleared. */
  lemma MapReadsBack(scope: Scope, saved: map<string, SavedMap>, s: State, current: map<string, SavedMap>, t: State,
                     after: map<string, SavedMap>, n: string)
    requires MapsRan(scope, saved, s, current, t) && DescribesMaps(scope, t, after) && n in saved
    ensures n in current && n in after
    ensures after[n].id == saved[n].id && after[n].createdBy == current[n].createdBy
    ensures MapMatches(saved[n], after[n]) <==> Clearable(saved[n].fields, current[n].fields)
  {
    var m := saved[n].id;
    assert OwnMap(scope, s, m) && s.maps[m].name == n && current[n] == MapEntry(s, m);
    MapKeepsOwner(scope, saved, s, current, t, m);
    assert OwnMap(scope, t, m) && after[n] == MapEntry(t, m);
    ReachedAll(saved[n].fields, s.maps[m].fields);
  }

  lemma {:induction false} MapsReadBack(scope: Scope, saved: map<string, SavedMap>, s: State,
                                        current: map<string, SavedMap>, t: State,
                                        after: map<string, SavedMap>)
    requires MapsRan(scope, saved, s, current, t) && DescribesMaps(scope, t, after)
    ensures MapsMatch(saved, after) <==> MapsClearable(saved, current)
  {
    forall n | n in saved
      ensures n in current && n in after
      ensures MapMatches(saved[n], after[n]) <==> Clearable(saved[n].fields, current[n].fields)
    {
      MapReadsBack(scope, saved, s, current, t, after, n);
    }
  }

  lemma NewMapsHidden(scope: Scope, saved: map<string, SavedMap>, s: State, current: map<string, SavedMap>, t: State)
    requires MapsRan(scope, saved, s, current, t)
    ensures NewMapsPrivate(scope, t, saved)
  {
    forall m | OwnMap(scope, t, m) && t.maps[m].name !in saved ensures IsPrivate(t.maps[m].fields) {
      MapKeepsOwner(scope, saved, s, current, t, m);
      assert OwnMap(scope, s, m);
    }
  }

  lemma MapsSettle(scope: Scope, saved: map<string, SavedMap>, s: State, current: map<string, SavedMap>, t: State,
                   after: map<string, SavedMap>)
    requires MapsRan(scope, saved, s, current, t) && DescribesMaps(scope, t, after) && MapsMatch(saved, after)
    requires forall n :: n in saved ==> MapAccepted(n, saved[n], current)
    ensures MapsSettled(scope, t, saved)
  {
    forall n | n in saved ensures MapSettled(scope, t, n, saved[n]) {
      MapReadsBack(scope, saved, s, current, t, after, n);
      assert MapAccepted(n, saved[n], current);
      assert OwnMap(scope, t, after[n].id) && after[n] == MapEntry(t, after[n].id);
    }
  }

  /** Hiding again changes nothing. */
  lemma MapsHiddenTwice(scope: Scope, t: State, saved: map<string, SavedMap>, current: map<string, SavedMap>,
                        maps: map<Id, MapRow>)
    requires NewMapsPrivate(scope, t, saved) && DescribesMaps(scope, t, current)
    requires MapsHidden(t.maps, maps, current, current.Keys - saved.Keys)
    ensures maps == t.maps
  {
    forall m | m in maps ensures maps[m] == t.maps[m] {
      if n :| n in current.Keys - saved.Keys && current[n].id == m {
        assert OwnMap(scope, t, m) && t.maps[m].name == n;
        assert Hidden(t.maps[m].fields) == t.maps[m].fields;
      }
    }
  }

  // ---- datasets ---------------------------------------------------------------------------------------

  ghost predicate DatasetsRan(scope: Scope, saved: map<string, SavedDataset>, s: State,
                              current: map<string, SavedDataset>, t: State) {
    DescribesDatasets(scope, s, current) && DatasetsReady(saved, current) && DatasetsReached(scope, s, t, saved)
  }

  lemma DatasetKeepsOwner(scope: Scope, saved: map<string, SavedDataset>, s: State,
                          current: map<string, SavedDataset>, t: State, d: Id)
    requires DatasetsRan(scope, saved, s, current, t) && d in s.datasets
    ensures d in t.datasets && t.datasets[d].title == s.datasets[d].title && t.datasets[d].mine == s.datasets[d].mine
    ensures t.datasets[d].createdBy == s.datasets[d].createdBy
  {
    if OwnDataset(scope, s, d) && s.datasets[d].title in saved {
      assert current[s.datasets[d].title] == DatasetEntry(s, d);
    }
  }

  lemma DatasetsStayApart(scope: Scope, saved: map<string, SavedDataset>, s: State,
                          current: map<string, SavedDataset>, t: State)
    requires DatasetsRan(scope, saved, s, current, t) && !AmbiguousDatasets(scope, s)
    ensures !AmbiguousDatasets(scope, t)
  {
    forall d, d' | OwnDataset(scope, t, d) && OwnDataset(scope, t, d') && d != d'
      ensures t.datasets[d].title != t.datasets[d'].title
    {
      DatasetKeepsOwner(scope, saved, s, current, t, d);
      DatasetKeepsOwner(scope, saved, s, current, t, d');
      assert OwnDataset(scope, s, d) && OwnDataset(scope, s, d');
    }
  }

  lemma DatasetStaysValid(scope: Scope, origin: State, saved: map<string, SavedDataset>, s: State,
                          current: map<string, SavedDataset>, t: State, d: Id)
    requires Valid(scope, origin) && DescribesDatasets(scope, origin, saved) && KeywordIds(t)
    requires DatasetsRan(scope, saved, s, current, t) && d in t.datasets && s.next <= t.next
    requires DatasetValid(scope, s.datasets[d], s.next)
    ensures DatasetValid(scope, t.datasets[d], t.next)
  {
    if OwnDataset(scope, s, d) && s.datasets[d].title in saved {
      var item := saved[s.datasets[d].title];
      assert current[s.datasets[d].title] == DatasetEntry(s, d);
      assert DatasetValid(scope, origin.datasets[d], origin.next) && item == DatasetEntry(origin, d);
      assert DatasetRestored(s.datasets[d], t.datasets[d], item);
    }
  }

  lemma {:induction false} DatasetReadsBack(scope: Scope, saved: map<string, SavedDataset>, s: State,
                                            current: map<string, SavedDataset>, t: State,
                                            after: map<string, SavedDataset>, n: string)
    requires DatasetsRan(scope, saved, s, current, t) && DescribesDatasets(scope, t, after) && n in saved
    ensures n in current && n in after
    ensures after[n].id == saved[n].id && after[n].createdBy == current[n].createdBy
    ensures DatasetMatches(saved[n], after[n])
  {
    var d := saved[n].id;
    assert OwnDataset(scope, s, d) && s.datasets[d].title == n && current[n] == DatasetEntry(s, d);
    DatasetKeepsOwner(scope, saved, s, current, t, d);
    assert OwnDataset(scope, t, d) && after[n] == DatasetEntry(t, d);
  }

  lemma DatasetsReadBack(scope: Scope, saved: map<string, SavedDataset>, s: State, current: map<string, SavedDataset>,
                         t: State, after: map<string, SavedDataset>)
    requires DatasetsRan(scope, saved, s, current, t) && DescribesDatasets(scope, t, after)
    ensures DatasetsMatch(saved, after)
  {
    forall n | n in saved ensures n in after && DatasetMatches(saved[n], after[n]) {
      DatasetReadsBack(scope, saved, s, current, t, after, n);
    }
  }

  lemma NewDatasetsHidden(scope: Scope, saved: map<string, SavedDataset>, s: State,
                          current: map<string, SavedDataset>, t: State)
    requires DatasetsRan(scope, saved, s, current, t)
    ensures NewDatasetsPrivate(scope, t, saved)
  {
    forall d | OwnDataset(scope, t, d) && t.datasets[d].title !in saved ensures IsPrivate(t.datasets[d].fields) {
      DatasetKeepsOwner(scope, saved, s, current, t, d);
      assert OwnDataset(scope, s, d);
    }
  }

  lemma DatasetsSettle(scope: Scope, saved: map<string, SavedDataset>, s: State, current: map<string, SavedDataset>,
                       t: State, after: map<string, SavedDataset>)
    requires DatasetsRan(scope, saved, s, current, t) && DescribesDatasets(scope, t, after)
    requires forall n :: n in saved ==> n in current && current[n].createdBy == saved[n].createdBy
    ensures DatasetsSettled(scope, t, saved)
  {
    forall n | n in saved ensures DatasetSettled(scope, t, n, saved[n]) {
      DatasetReadsBack(scope, saved, s, current, t, after, n);
      assert OwnDataset(scope, t, after[n].id) && after[n] == DatasetEntry(t, after[n].id);
    }
  }

  lemma DatasetsHiddenTwice(scope: Scope, t: State, saved: map<string, SavedDataset>,
                            current: map<string, SavedDataset>, datasets: map<Id, DatasetRow>)
    requires NewDatasetsPrivate(scope, t, saved) && DescribesDatasets(scope, t, current)
    requires DatasetsHidden(t.datasets, datasets, current, current.Keys - saved.Keys)
    ensures datasets == t.datasets
  {
    forall d | d in datasets ensures datasets[d] == t.datasets[d] {
      if n :| n in current.Keys - saved.Keys && current[n].id == d {
        assert OwnDataset(scope, t, d) && t.datasets[d].title == n;
        assert Hidden(t.datasets[d].fields) == t.datasets[d].fields;
      }
    }
  }

  // ---- collections --------------------------------------------------------------------------------------

  ghost predicate CollectionsRan(scope: Scope, saved: map<string, SavedCollection>, s: State,
                                 current: map<string, SavedCollection>, t: State) {
    DescribesCollections(scope, s, current) && CollectionsReady(saved, current)
      && CollectionsReached(scope, s, t, saved)
  }

  lemma CollectionKeepsName(scope: Scope, saved: map<string, SavedCollection>, s: State,
                            current: map<string, SavedCollection>, t: State, c: Id)
    requires CollectionsRan(scope, saved, s, current, t) && c in t.collections
    ensures c in s.collections && t.collections[c].name == s.collections[c].name
    ensures Covered(scope, t, c) ==> t.collections[c].name in saved && c == saved[t.collections[c].name].id
  {
    if Covered(scope, s, c) {
      assert current[s.collections[c].name] == CollectionEntry(s, c);
    }
  }

  lemma CollectionsStayApart(scope: Scope, saved: map<string, SavedCollection>, s: State,
                             current: map<string, SavedCollection>, t: State, c: Id, c': Id)
    requires CollectionsRan(scope, saved, s, current, t)
    requires Covered(scope, t, c) && Covered(scope, t, c') && t.collections[c].name == t.collections[c'].name
    ensures c == c'
  {
    CollectionKeepsName(scope, saved, s, current, t, c);
    CollectionKeepsName(scope, saved, s, current, t, c');
  }

  lemma CollectionReadsBack(scope: Scope, saved: map<string, SavedCollection>, s: State,
                            current: map<string, SavedCollection>, t: State, after: map<string, SavedCollection>,
                            n: string)
    requires CollectionsRan(scope, saved, s, current, t) && DescribesCollections(scope, t, after) && n in saved
    ensures n in current && n in after && after[n].id == saved[n].id
    ensures CollectionMatches(saved[n], after[n]) <==>
      DescriptionClearable(saved[n].description, current[n].description)
  {
    var c := saved[n].id;
    assert Covered(scope, s, c) && s.collections[c].name == n && current[n] == CollectionEntry(s, c);
    assert Covered(scope, t, c) && t.collections[c].name == n && after[n] == CollectionEntry(t, c);
  }

  lemma CollectionsReadBack(scope: Scope, saved: map<string, SavedCollection>, s: State,
                            current: map<string, SavedCollection>, t: State, after: map<string, SavedCollection>)
    requires CollectionsRan(scope, saved, s, current, t) && DescribesCollections(scope, t, after)
    ensures CollectionsMatch(saved, after) <==> CollectionsClearable(saved, current)
  {
    forall n | n in saved
      ensures n in current && n in after
      ensures CollectionMatches(saved[n], after[n]) <==>
        DescriptionClearable(saved[n].description, current[n].description)
    {
      CollectionReadsBack(scope, saved, s, current, t, after, n);
    }
  }

  lemma NewCollectionsDropped(scope: Scope, saved: map<string, SavedCollection>, s: State,
                              current: map<string, SavedCollection>, t: State)
    requires CollectionsRan(scope, saved, s, current, t)
    ensures NoNewCollections(scope, t, saved)
  {
    forall c | Covered(scope, t, c) ensures t.collections[c].name in saved {
      CollectionKeepsName(scope, saved, s, current, t, c);
    }
  }

  lemma CollectionsSettle(scope: Scope, saved: map<string, SavedCollection>, s: State,
                          current: map<string, SavedCollection>, t: State, after: map<string, SavedCollection>)
    requires CollectionsRan(scope, saved, s, current, t) && DescribesCollections(scope, t, after)
    requires CollectionsMatch(saved, after)
    ensures CollectionsSettled(scope, t, saved)
  {
    forall n | n in saved ensures CollectionSettled(scope, t, n, saved[n]) {
      CollectionReadsBack(scope, saved, s, current, t, after, n);
      assert Covered(scope, t, after[n].id) && after[n] == CollectionEntry(t, after[n].id);
    }
  }

  lemma NoneToDrop(scope: Scope, t: State, saved: map<string, SavedCollection>, current: map<string, SavedCollection>)
    requires NoNewCollections(scope, t, saved) && DescribesCollections(scope, t, current)
    ensures current.Keys - saved.Keys == {}
    ensures t.collections - IdsOf(current, current.Keys - saved.Keys) == t.collections
  {
    forall n | n in current ensures n in saved {
      assert Covered(scope, t, current[n].id);
    }
    assert IdsOf(current, {}) == {};
    assert t.collections - {} == t.collections;
  }

  // ---- all three together -----------------------------------------------------------------------------------

  /** Everything the three passes and the hiding leave, taken together. */
  ghost predicate Ran(scope: Scope, saved: Snapshot, s: State, current: Snapshot, t: State) {
    && MapsRan(scope, saved.maps, s, current.maps, t) && DatasetsRan(scope, saved.datasets, s, current.datasets, t)
    && CollectionsRan(scope, saved.collections, s, current.collections, t)
    && s.next <= t.next && KeywordIds(t)
  }

  lemma {:induction false} StaysValid(scope: Scope, origin: State, saved: Snapshot, s: State, current: Snapshot,
                                      t: State)
    requires Valid(scope, origin) && Describes(scope, origin, saved) && Valid(scope, s)
    requires Ran(scope, saved, s, current, t)
    ensures Valid(scope, t)
  {
    SavedMapsShaped(scope, origin, saved.maps);
    forall m | m in t.maps ensures MapValid(scope, t.maps[m]) {
      MapStaysValid(scope, saved.maps, s, current.maps, t, m);
    }
    forall d | d in t.datasets ensures DatasetValid(scope, t.datasets[d], t.next) {
      DatasetStaysValid(scope, origin, saved.datasets, s, current.datasets, t, d);
    }
    forall c, c' | Covered(scope, t, c) && Covered(scope, t, c') && t.collections[c].name == t.collections[c'].name
      ensures c == c'
    {
      CollectionsStayApart(scope, saved.collections, s, current.collections, t, c, c');
    }
  }

  /** After the passes a fresh read matches the saved rows exactly when nothing had to be cleared,
      and whatever is new is private or gone. */
  lemma {:induction false} ReadsBack(scope: Scope, saved: Snapshot, s: State, current: Snapshot, t: State,
                                     after: Snapshot)
    requires Ran(scope, saved, s, current, t) && Describes(scope, t, after)
    ensures SavedMatches(saved, after) <==> NothingToClear(saved, current)
    ensures NewMapsPrivate(scope, t, saved.maps) && NewDatasetsPrivate(scope, t, saved.datasets)
    ensures NoNewCollections(scope, t, saved.collections)
  {
    MapsReadBack(scope, saved.maps, s, current.maps, t, after.maps);
    DatasetsReadBack(scope, saved.datasets, s, current.datasets, t, after.datasets);
    CollectionsReadBack(scope, saved.collections, s, current.collections, t, after.collections);
    NewMapsHidden(scope, saved.maps, s, current.maps, t);
    NewDatasetsHidden(scope, saved.datasets, s, current.datasets, t);
    NewCollectionsDropped(scope, saved.collections, s, current.collections, t);
  }

  lemma NothingNewIsPublic(scope: Scope, saved: Snapshot, t: State, after: Snapshot)
    requires Describes(scope, t, after)
    requires NewMapsPrivate(scope, t, saved.maps) && NewDatasetsPrivate(scope, t, saved.datasets)
    requires NoNewCollections(scope, t, saved.collections)
    ensures NothingNewShows(saved, after)
  {
    assert |"public"| == 6 && |"private"| == 7;
    forall n | n in after.maps && n !in saved.maps ensures !IsPublic(after.maps[n].fields) {
      assert OwnMap(scope, t, after.maps[n].id) && after.maps[n] == MapEntry(t, after.maps[n].id);
    }
    forall n | n in after.datasets && n !in saved.datasets ensures !IsPublic(after.datasets[n].fields) {
      assert OwnDataset(scope, t, after.datasets[n].id) && after.datasets[n] == DatasetEntry(t, after.datasets[n].id);
    }
    forall n | n in after.collections ensures n in saved.collections {
      assert Covered(scope, t, after.collections[n].id);
    }
  }

  lemma {:induction false} IsSettled(scope: Scope, saved: Snapshot, s: State, current: Snapshot, t: State,
                                     after: Snapshot)
    requires Ran(scope, saved, s, current, t) && Describes(scope, t, after) && SavedMatches(saved, after)
    requires Acceptable(scope, saved, current) && !Ambiguous(scope, t)
    ensures Settled(scope, t, saved)
  {
    ReadsBack(scope, saved, s, current, t, after);
    MapsSettle(scope, saved.maps, s, current.maps, t, after.maps);
    DatasetsSettle(scope, saved.datasets, s, current.datasets, t, after.datasets);
    CollectionsSettle(scope, saved.collections, s, current.collections, t, after.collections);
  }

  // ---- a settled state ---------------------------------------------------------------------------------

  lemma SettledMapsAccepted(scope: Scope, t: State, saved: map<string, SavedMap>, current: map<string, SavedMap>)
    requires MapsSettled(scope, t, saved) && DescribesMaps(scope, t, current)
    ensures MapsMatch(saved, current) && MapsClearable(saved, current)
    ensures forall n :: n in saved ==> MapAccepted(n, saved[n], current)
  {
    forall n | n in saved ensures MapAccepted(n, saved[n], current) && MapMatches(saved[n], current[n]) {
      assert MapSettled(scope, t, n, saved[n]);
    }
  }

  lemma SettledDatasetsAccepted(scope: Scope, t: State, saved: map<string, SavedDataset>,
                                current: map<string, SavedDataset>)
    requires DatasetsSettled(scope, t, saved) && DescribesDatasets(scope, t, current)
    ensures DatasetsMatch(saved, current)
    ensures forall n :: n in saved ==>
      n in current && current[n].id == saved[n].id && current[n].createdBy == saved[n].createdBy
  {
    forall n | n in saved
      ensures n in current && current[n].id == saved[n].id && current[n].createdBy == saved[n].createdBy
      ensures DatasetMatches(saved[n], current[n])
    {
      assert DatasetSettled(scope, t, n, saved[n]);
    }
  }

  lemma SettledCollectionsAccepted(scope: Scope, t: State, saved: map<string, SavedCollection>,
                                   current: map<string, SavedCollection>)
    requires CollectionsSettled(scope, t, saved) && DescribesCollections(scope, t, current)
    ensures CollectionsMatch(saved, current) && CollectionsClearable(saved, current)
    ensures forall n :: n in saved ==> n in current && current[n].id == saved[n].id
  {
    forall n | n in saved
      ensures n in current && current[n].id == saved[n].id && CollectionMatches(saved[n], current[n])
    {
      assert CollectionSettled(scope, t, n, saved[n]);
    }
  }

  /** A settled state is accepted again, and every saved row already matches. */
  lemma {:induction false} SettledAccepted(scope: Scope, t: State, saved: Snapshot, current: Snapshot)
    requires Settled(scope, t, saved) && Describes(scope, t, current)
    requires saved.base == current.base && saved.owner == current.owner
    ensures Acceptable(scope, saved, current) && NothingToClear(saved, current) && SavedMatches(saved, current)
  {
    SettledMapsAccepted(scope, t, saved.maps, current.maps);
    SettledDatasetsAccepted(scope, t, saved.datasets, current.datasets);
    SettledCollectionsAccepted(scope, t, saved.collections, current.collections);
    NoneToDrop(scope, t, saved.collections, current.collections);
    assert forall n :: n in current.collections ==> n !in current.collections.Keys - saved.collections.Keys;
  }

  // ---- what a restore may meet and remove, in terms of the state ----------------------------------------

  /** A layer the repairs of this map add: the basin context, or one of the Matterhorn's three. */
  predicate RepairLayer(mapName: string, layer: LayerRow) {
    && "display_name" in layer.fields
    && var shown := layer.fields["display_name"];
       || shown == Text("Atlantic basin regions (context)")
       || (mapName == "The Matterhorn in 3D"
           && (shown == Text("Climbing routes (OSM)") || shown == Text("Route casing") || shown == Text("Peaks")))
  }

  /** The saved map is there with its layers over their datasets, and what else it shows are
      layers of the repairs. */
  ghost predicate MapRestorable(s: State, n: string, original: SavedMap) {
    && original.id in s.maps
    && var row := s.maps[original.id];
    && row.mine && row.name == n && row.createdBy == original.createdBy
    && (forall l :: l in original.layers ==> l in row.layers && row.layers[l].dataset == original.layers[l].dataset)
    && forall l :: l in row.layers && l !in original.layers ==> RepairLayer(n, row.layers[l])
  }

  ghost predicate DatasetRestorable(s: State, n: string, original: SavedDataset) {
    && original.id in s.datasets
    && var row := s.datasets[original.id]; row.mine && row.title == n && row.createdBy == original.createdBy
  }

  /** The collection of the client pages, made by the owner, over datasets that are new since the
      snapshot or seeded binaries. */
  ghost predicate ClientCollection(scope: Scope, s: State, saved: Snapshot, c: Id)
    requires c in s.collections
  {
    && s.collections[c].name == "Client Connections" && s.collections[c].createdBy == saved.ownerId
    && forall d :: d in s.collections[c].members ==>
         && d in s.datasets && s.datasets[d].mine && scope.tracked(s.datasets[d].title)
         && (s.datasets[d].title !in saved.datasets || s.datasets[d].title in scope.seededBinaries)
  }

  /** A collection of a covered name that is not in the snapshot. */
  predicate NewCovered(scope: Scope, s: State, saved: Snapshot, c: Id) {
    && c in s.collections && s.collections[c].name in scope.collectionNames
    && s.collections[c].name !in saved.collections
  }

  /** The state is one a restore of the snapshot accepts. */
  ghost predicate Restorable(scope: Scope, s: State, saved: Snapshot) {
    && (forall n :: n in saved.maps ==> MapRestorable(s, n, saved.maps[n]))
    && (forall n :: n in saved.datasets ==> DatasetRestorable(s, n, saved.datasets[n]))
    && (forall n :: n in saved.collections ==>
          saved.collections[n].id in s.collections && s.collections[saved.collections[n].id].name == n)
    && forall c :: NewCovered(scope, s, saved, c) ==> ClientCollection(scope, s, saved, c)
  }

  lemma MapAcceptedIff(scope: Scope, origin: State, s: State, saved: map<string, SavedMap>,
                       current: map<string, SavedMap>, n: string)
    requires DescribesMaps(scope, origin, saved) && DescribesMaps(scope, s, current) && n in saved
    ensures MapAccepted(n, saved[n], current) <==> MapRestorable(s, n, saved[n])
  {
    assert OwnMap(scope, origin, saved[n].id);
    if n in current {
      assert OwnMap(scope, s, current[n].id) && s.maps[current[n].id].name == n;
      assert current[n] == MapEntry(s, current[n].id);
    }
    if MapRestorable(s, n, saved[n]) {
      assert OwnMap(scope, s, saved[n].id);
    }
    forall layer: LayerRow ensures AllowedLayer(n, layer) <==> RepairLayer(n, layer) {
    }
  }

  lemma DatasetAcceptedIff(scope: Scope, origin: State, s: State, saved: map<string, SavedDataset>,
                           current: map<string, SavedDataset>, n: string)
    requires DescribesDatasets(scope, origin, saved) && DescribesDatasets(scope, s, current) && n in saved
    ensures (n in current && current[n].id == saved[n].id && current[n].createdBy == saved[n].createdBy)
            <==> DatasetRestorable(s, n, saved[n])
  {
    assert OwnDataset(scope, origin, saved[n].id);
    if n in current {
      assert OwnDataset(scope, s, current[n].id) && current[n] == DatasetEntry(s, current[n].id);
    }
    if saved[n].id in s.datasets && s.datasets[saved[n].id].mine && s.datasets[saved[n].id].title == n {
      assert OwnDataset(scope, s, saved[n].id);
    }
  }

  lemma CollectionAcceptedIff(scope: Scope, origin: State, s: State, saved: map<string, SavedCollection>,
                              current: map<string, SavedCollection>, n: string)
    requires DescribesCollections(scope, origin, saved) && DescribesCollections(scope, s, current) && n in saved
    ensures n in current && current[n].id == saved[n].id
            <==> saved[n].id in s.collections && s.collections[saved[n].id].name == n
  {
    assert Covered(scope, origin, saved[n].id);
    if n in current {
      assert Covered(scope, s, current[n].id);
    }
    if saved[n].id in s.collections && s.collections[saved[n].id].name == n {
      assert Covered(scope, s, saved[n].id);
    }
  }

  lemma NewCollectionIff(scope: Scope, s: State, saved: Snapshot, current: Snapshot, c: Id)
    requires DescribesDatasets(scope, s, current.datasets) && DescribesCollections(scope, s, current.collections)
    requires Covered(scope, s, c)
    ensures NewCollectionAccepted(scope, saved, current, s.collections[c].name, CollectionEntry(s, c))
            <==> ClientCollection(scope, s, saved, c)
  {
    forall d
      ensures (exists t :: t in current.datasets && current.datasets[t].id == d
                           && (t !in saved.datasets || t in scope.seededBinaries))
              <==> OwnDataset(scope, s, d)
                   && (s.datasets[d].title !in saved.datasets || s.datasets[d].title in scope.seededBinaries)
    {
      if OwnDataset(scope, s, d) {
        assert current.datasets[s.datasets[d].title] == DatasetEntry(s, d);
      }
    }
  }

  lemma MapsAcceptedIff(scope: Scope, origin: State, s: State, saved: map<string, SavedMap>,
                        current: map<string, SavedMap>)
    requires DescribesMaps(scope, origin, saved) && DescribesMaps(scope, s, current)
    ensures (forall n :: n in saved ==> MapAccepted(n, saved[n], current))
            <==> forall n :: n in saved ==> MapRestorable(s, n, saved[n])
  {
    forall n | n in saved ensures MapAccepted(n, saved[n], current) <==> MapRestorable(s, n, saved[n]) {
      MapAcceptedIff(scope, origin, s, saved, current, n);
    }
  }

  lemma DatasetsAcceptedIff(scope: Scope, origin: State, s: State, saved: map<string, SavedDataset>,
                            current: map<string, SavedDataset>)
    requires DescribesDatasets(scope, origin, saved) && DescribesDatasets(scope, s, current)
    ensures (forall n :: n in saved ==>
               n in current && current[n].id == saved[n].id && current[n].createdBy == saved[n].createdBy)
            <==> forall n :: n in saved ==> DatasetRestorable(s, n, saved[n])
  {
    forall n | n in saved
      ensures (n in current && current[n].id == saved[n].id && current[n].createdBy == saved[n].createdBy)
              <==> DatasetRestorable(s, n, saved[n])
    {
      DatasetAcceptedIff(scope, origin, s, saved, current, n);
    }
  }

  lemma CollectionsAcceptedIff(scope: Scope, origin: State, s: State, saved: map<string, SavedCollection>,
                               current: map<string, SavedCollection>)
    requires DescribesCollections(scope, origin, saved) && DescribesCollections(scope, s, current)
    ensures (forall n :: n in saved ==> n in current && current[n].id == saved[n].id)
            <==> forall n :: n in saved ==> saved[n].id in s.collections && s.collections[saved[n].id].name == n
  {
    forall n | n in saved
      ensures n in current && current[n].id == saved[n].id
              <==> saved[n].id in s.collections && s.collections[saved[n].id].name == n
    {
      CollectionAcceptedIff(scope, origin, s, saved, current, n);
    }
  }

  /** What the script compares on snapshots, read off the state. */
  lemma {:induction false} AcceptableIff(scope: Scope, origin: State, saved: Snapshot, s: State, current: Snapshot)
    requires Describes(scope, origin, saved) && Describes(scope, s, current)
    ensures Acceptable(scope, saved, current) <==>
              saved.base == current.base && saved.owner == current.owner && Restorable(scope, s, saved)
  {
    MapsAcceptedIff(scope, origin, s, saved.maps, current.maps);
    DatasetsAcceptedIff(scope, origin, s, saved.datasets, current.datasets);
    CollectionsAcceptedIff(scope, origin, s, saved.collections, current.collections);
    NewCollectionsIff(scope, s, saved, current);
  }

  lemma NewCollectionsIff(scope: Scope, s: State, saved: Snapshot, current: Snapshot)
    requires Describes(scope, s, current)
    ensures (forall n :: n in current.collections && n !in saved.collections ==>
               NewCollectionAccepted(scope, saved, current, n, current.collections[n]))
            <==> forall c :: NewCovered(scope, s, saved, c) ==> ClientCollection(scope, s, saved, c)
  {
    forall c | Covered(scope, s, c)
      ensures s.collections[c].name in current.collections
      ensures NewCollectionAccepted(scope, saved, current, s.collections[c].name,
        current.collections[s.collections[c].name])
              <==> ClientCollection(scope, s, saved, c)
    {
      NewCollectionIff(scope, s, saved, current, c);
    }
    forall n | n in current.collections
      ensures Covered(scope, s, current.collections[n].id) && s.collections[current.collections[n].id].name == n
    {
    }
  }

  /** A restore takes no layer off a map but a repair's off a saved map, and deletes no collection
      but the client pages' new one. */
  ghost predicate OnlyRepairsUndone(scope: Scope, s: State, t: State, saved: Snapshot) {
    && (forall m, l :: m in s.maps && l in s.maps[m].layers && (m in t.maps ==> l !in t.maps[m].layers) ==>
          && m in t.maps && s.maps[m].mine && s.maps[m].name in saved.maps
          && RepairLayer(s.maps[m].name, s.maps[m].layers[l]))
    && forall c :: c in s.collections && c !in t.collections ==>
         s.collections[c].name !in saved.collections && ClientCollection(scope, s, saved, c)
  }

  lemma RepairsUndone(scope: Scope, s: State, t: State, saved: Snapshot)
    requires Restorable(scope, s, saved) && AllReached(scope, s, t, saved)
    requires OneOfEachName(scope, s) && !Ambiguous(scope, s)
    requires forall n :: n in saved.collections ==> n in scope.collectionNames
    ensures OnlyRepairsUndone(scope, s, t, saved)
  {
    forall m, l | m in s.maps && l in s.maps[m].layers && l !in t.maps[m].layers
      ensures s.maps[m].mine && s.maps[m].name in saved.maps && RepairLayer(s.maps[m].name, s.maps[m].layers[l])
    {
      assert OwnMap(scope, s, m);
      if s.maps[m].name in saved.maps {
        assert OwnMap(scope, s, saved.maps[s.maps[m].name].id) && saved.maps[s.maps[m].name].id == m;
      }
    }
    forall c | c in s.collections && c !in t.collections
      ensures s.collections[c].name !in saved.collections && ClientCollection(scope, s, saved, c)
    {
      assert Covered(scope, s, c);
      if s.collections[c].name in saved.collections {
        assert Covered(scope, s, saved.collections[s.collections[c].name].id);
      }
    }
  }

  // ---- the whole run --------------------------------------------------------------------------------------

  datatype Outcome = Busy | Unclear | Refused | NotTaken(left: seq<Left>) | Restored

  /** How many rows of the current state are not in the snapshot. */
  function NewRows(saved: Snapshot, current: Snapshot): nat {
    |current.maps.Keys - saved.maps.Keys| + |current.datasets.Keys - saved.datasets.Keys|
    + |current.collections.Keys - saved.collections.Keys|
  }

  /** `hide_new_content`: one write for each new row. */
  method HideNewContent(api: Api, saved: Snapshot, current: Snapshot)
    requires MapNames(api.s.maps, current.maps) && DatasetTitles(api.s.datasets, current.datasets)
    modifies api
    ensures NewHidden(old(api.s), api.s, saved, current)
    ensures api.writes == old(api.writes) + NewRows(saved, current)
  {
    HideMaps(api, current.maps, current.maps.Keys - saved.maps.Keys);
    HideDatasets(api, current.datasets, current.datasets.Keys - saved.datasets.Keys);
    DropCollections(api, current.collections, current.collections.Keys - saved.collections.Keys);
  }

  lemma SameDatasets(scope: Scope, s: State, t: State, current: map<string, SavedDataset>)
    requires t.datasets == s.datasets && t.next == s.next && DescribesDatasets(scope, s, current) && KeywordIds(s)
    ensures DescribesDatasets(scope, t, current) && KeywordIds(t)
  {
    forall d ensures OwnDataset(scope, t, d) == OwnDataset(scope, s, d) {
    }
    forall d, k | d in t.datasets && k in t.datasets[d].keywords ensures k < t.next {
      assert k in s.datasets[d].keywords;
    }
  }

  lemma SameCollections(scope: Scope, s: State, t: State, current: map<string, SavedCollection>)
    requires t.collections == s.collections && DescribesCollections(scope, s, current)
    ensures DescribesCollections(scope, t, current)
  {
    forall c ensures Covered(scope, t, c) == Covered(scope, s, c) {
    }
  }

  /** The three passes over saved rows: they send nothing exactly if every row is as saved. */
  method RestoreSaved(api: Api, saved: Snapshot, current: Snapshot)
    requires Describes(api.scope, api.s, current) && KeywordIds(api.s)
    requires MapsReady(saved.maps, current.maps) && DatasetsReady(saved.datasets, current.datasets)
    requires CollectionsReady(saved.collections, current.collections)
    modifies api
    ensures SavedRestored(old(api.s), api.s, saved)
    ensures SavedMatches(saved, current) ==> api.s == old(api.s)
    ensures SentUnless(SavedMatches(saved, current), old(api.writes), api.writes)
  {
    ghost var s := api.s;
    RestoreMaps(api, saved.maps, current.maps);
    SameDatasets(api.scope, s, api.s, current.datasets);
    RestoreDatasets(api, saved.datasets, current.datasets);
    SameCollections(api.scope, s, api.s, current.collections);
    RestoreCollections(api, saved.collections, current.collections);
  }

  /** All four passes. `savedWrites` is the number of writes sent for saved rows. */
  method RunPasses(api: Api, saved: Snapshot, current: Snapshot, ghost origin: State) returns (savedWrites: nat)
    requires Valid(api.scope, origin) && Describes(api.scope, origin, saved)
    requires Valid(api.scope, api.s) && Describes(api.scope, api.s, current) && !Ambiguous(api.scope, api.s)
    requires Acceptable(api.scope, saved, current)
    modifies api
    ensures Ran(api.scope, saved, old(api.s), current, api.s)
    ensures api.writes == old(api.writes) + savedWrites + NewRows(saved, current)
    ensures savedWrites == 0 <==> SavedMatches(saved, current)
    ensures Settled(api.scope, old(api.s), saved) ==> api.s == old(api.s) && savedWrites == 0
  {
    ghost var s := api.s;
    MapsAreReady(api.scope, origin, saved.maps, s, current.maps);
    DatasetsAreReady(api.scope, origin, saved.datasets, s, current.datasets);
    KeywordIdsHold(api.scope, s);
    var before := api.writes;
    RestoreSaved(api, saved, current);
    savedWrites := api.writes - before;
    ghost var middle := api.s;
    NamesKept(api.scope, s, middle, saved, current);
    HideNewContent(api, saved, current);
    AllPassesRan(api.scope, saved, s, current, middle, api.s);
    if Settled(api.scope, s, saved) {
      SettledAccepted(api.scope, s, saved, current);
      NothingToHide(api.scope, s, saved, current, api.s);
    }
  }

  /** What the hiding did to the state the three passes left. */
  ghost predicate NewHidden(middle: State, t: State, saved: Snapshot, current: Snapshot) {
    && t == middle.(maps := t.maps, datasets := t.datasets, collections := t.collections)
    && MapsHidden(middle.maps, t.maps, current.maps, current.maps.Keys - saved.maps.Keys)
    && DatasetsHidden(middle.datasets, t.datasets, current.datasets, current.datasets.Keys - saved.datasets.Keys)
    && t.collections == middle.collections
                        - IdsOf(current.collections, current.collections.Keys - saved.collections.Keys)
  }

  /** What the three passes did. */
  ghost predicate SavedRestored(s: State, middle: State, saved: Snapshot) {
    && MapsDone(s.maps, middle.maps, saved.maps, saved.maps.Keys)
    && DatasetsDone(s.datasets, middle.datasets, saved.datasets, saved.datasets.Keys)
    && CollectionsDone(s.collections, middle.collections, saved.collections, saved.collections.Keys)
    && KeywordIds(middle) && s.next <= middle.next
  }

  lemma {:induction false} AllPassesRan(scope: Scope, saved: Snapshot, s: State, current: Snapshot, middle: State,
                                        t: State)
    requires Describes(scope, s, current)
    requires MapsReady(saved.maps, current.maps) && DatasetsReady(saved.datasets, current.datasets)
    requires CollectionsReady(saved.collections, current.collections)
    requires SavedRestored(s, middle, saved) && NewHidden(middle, t, saved, current)
    ensures Ran(scope, saved, s, current, t)
  {
    MapsAreReached(scope, s, middle.maps, t, saved.maps, current.maps);
    DatasetsAreReached(scope, s, middle.datasets, t, saved.datasets, current.datasets);
    CollectionsAreReached(scope, s, middle.collections, t, saved.collections, current.collections);
    KeywordsUntouched(middle, t, current.datasets, current.datasets.Keys - saved.datasets.Keys);
  }

  lemma NothingToHide(scope: Scope, s: State, saved: Snapshot, current: Snapshot, t: State)
    requires Settled(scope, s, saved) && Describes(scope, s, current) && NewHidden(s, t, saved, current)
    ensures t == s
  {
    MapsHiddenTwice(scope, s, saved.maps, current.maps, t.maps);
    DatasetsHiddenTwice(scope, s, saved.datasets, current.datasets, t.datasets);
    NoneToDrop(scope, s, saved.collections, current.collections);
  }

  lemma NamesKept(scope: Scope, s: State, middle: State, saved: Snapshot, current: Snapshot)
    requires Describes(scope, s, current)
    requires MapsReady(saved.maps, current.maps) && DatasetsReady(saved.datasets, current.datasets)
    requires MapsDone(s.maps, middle.maps, saved.maps, saved.maps.Keys)
    requires DatasetsDone(s.datasets, middle.datasets, saved.datasets, saved.datasets.Keys)
    ensures MapNames(middle.maps, current.maps) && DatasetTitles(middle.datasets, current.datasets)
  {
    forall n | n in current.maps
      ensures current.maps[n].id in middle.maps && middle.maps[current.maps[n].id].name == n
    {
      assert OwnMap(scope, s, current.maps[n].id);
    }
    forall n | n in current.datasets
      ensures current.datasets[n].id in middle.datasets && middle.datasets[current.datasets[n].id].title == n
    {
      assert OwnDataset(scope, s, current.datasets[n].id);
    }
  }

  lemma KeywordsUntouched(before: State, after: State, current: map<string, SavedDataset>, names: set<string>)
    requires names <= current.Keys && KeywordIds(before) && before.next <= after.next
    requires DatasetsHidden(before.datasets, after.datasets, current, names)
    ensures KeywordIds(after)
  {
    forall d, k | d in after.datasets && k in after.datasets[d].keywords ensures k < after.next {
      assert after.datasets[d].keywords == before.datasets[d].keywords;
    }
  }

  lemma StaysClear(scope: Scope, origin: State, saved: Snapshot, s: State, current: Snapshot, t: State)
    requires Valid(scope, origin) && Describes(scope, origin, saved) && Valid(scope, s) && !Ambiguous(scope, s)
    requires Ran(scope, saved, s, current, t)
    ensures Valid(scope, t) && !Ambiguous(scope, t)
  {
    StaysValid(scope, origin, saved, s, current, t);
    MapsStayApart(scope, saved.maps, s, current.maps, t);
    DatasetsStayApart(scope, saved.datasets, s, current.datasets, t);
  }

  /** What the fresh read at the end finds. */
  lemma ReadBackDecides(scope: Scope, saved: Snapshot, s: State, current: Snapshot, t: State, after: Snapshot)
    requires Ran(scope, saved, s, current, t) && Describes(scope, t, after)
    requires Acceptable(scope, saved, current) && !Ambiguous(scope, t)
    ensures SavedMatches(saved, after) && NothingNewShows(saved, after) <==> NothingToClear(saved, current)
    ensures SavedMatches(saved, after) ==> Settled(scope, t, saved)
  {
    ReadsBack(scope, saved, s, current, t, after);
    NothingNewIsPublic(scope, saved, t, after);
    if SavedMatches(saved, after) {
      IsSettled(scope, saved, s, current, t, after);
    }
  }

  // ---- the round trip, without the snapshot between ---------------------------------------------------------

  /** The own triples of a row. */
  function Triples(keywords: map<Id, Keyword>): set<Triple> {
    set k | k in keywords && !keywords[k].inherited :: keywords[k].triple
  }

  ghost predicate MapsBack(scope: Scope, origin: State, t: State) {
    && (forall m :: OwnMap(scope, origin, m) ==>
          && m in t.maps && t.maps[m].mine && t.maps[m].name == origin.maps[m].name
          && t.maps[m].fields == origin.maps[m].fields && t.maps[m].layers == origin.maps[m].layers)
    && forall m :: OwnMap(scope, t, m) && !OwnMap(scope, origin, m) ==> !IsPublic(t.maps[m].fields)
  }

  ghost predicate DatasetsBack(scope: Scope, origin: State, t: State) {
    && (forall d :: OwnDataset(scope, origin, d) ==>
          && d in t.datasets && t.datasets[d].mine && t.datasets[d].title == origin.datasets[d].title
          && t.datasets[d].fields == origin.datasets[d].fields
          && Triples(t.datasets[d].keywords) == Triples(origin.datasets[d].keywords))
    && forall d :: OwnDataset(scope, t, d) && !OwnDataset(scope, origin, d) ==> !IsPublic(t.datasets[d].fields)
  }

  ghost predicate CollectionsBack(scope: Scope, origin: State, t: State) {
    && (forall c :: Covered(scope, origin, c) ==>
          && c in t.collections && t.collections[c].name == origin.collections[c].name
          && t.collections[c].description == origin.collections[c].description
          && t.collections[c].members == origin.collections[c].members)
    && forall c :: Covered(scope, t, c) ==> Covered(scope, origin, c)
  }

  /** Everything covered in the first state is in the second as it was, and nothing covered that
      is new there shows. */
  ghost predicate BackTo(scope: Scope, origin: State, t: State) {
    MapsBack(scope, origin, t) && DatasetsBack(scope, origin, t) && CollectionsBack(scope, origin, t)
  }

  lemma TriplesAre(keywords: map<Id, Keyword>)
    ensures TriplesOf(OwnTriples(keywords)) == Triples(keywords)
  {
    assert forall k :: k in keywords && !keywords[k].inherited ==> OwnTriples(keywords)[k] == keywords[k].triple;
  }

  lemma MapsAreBack(scope: Scope, origin: State, t: State, saved: map<string, SavedMap>)
    requires DescribesMaps(scope, origin, saved) && MapsSettled(scope, t, saved)
    requires NewMapsPrivate(scope, t, saved) && !AmbiguousMaps(scope, t)
    ensures MapsBack(scope, origin, t)
  {
    forall m | OwnMap(scope, origin, m)
      ensures m in t.maps && t.maps[m].mine && t.maps[m].name == origin.maps[m].name
      ensures t.maps[m].fields == origin.maps[m].fields && t.maps[m].layers == origin.maps[m].layers
    {
      var n := origin.maps[m].name;
      assert n in saved && saved[n] == MapEntry(origin, m) && MapSettled(scope, t, n, saved[n]);
    }
    forall m | OwnMap(scope, t, m) && t.maps[m].name in saved ensures OwnMap(scope, origin, m) {
      assert MapSettled(scope, t, t.maps[m].name, saved[t.maps[m].name]);
    }
    assert |"public"| != |"private"|;
  }

  lemma DatasetsAreBack(scope: Scope, origin: State, t: State, saved: map<string, SavedDataset>)
    requires DescribesDatasets(scope, origin, saved) && DatasetsSettled(scope, t, saved)
    requires NewDatasetsPrivate(scope, t, saved) && !AmbiguousDatasets(scope, t)
    ensures DatasetsBack(scope, origin, t)
  {
    forall d | OwnDataset(scope, origin, d)
      ensures d in t.datasets && t.datasets[d].mine && t.datasets[d].title == origin.datasets[d].title
      ensures t.datasets[d].fields == origin.datasets[d].fields
      ensures Triples(t.datasets[d].keywords) == Triples(origin.datasets[d].keywords)
    {
      var n := origin.datasets[d].title;
      assert n in saved && saved[n] == DatasetEntry(origin, d) && DatasetSettled(scope, t, n, saved[n]);
      TriplesAre(t.datasets[d].keywords);
      TriplesAre(origin.datasets[d].keywords);
    }
    forall d | OwnDataset(scope, t, d) && t.datasets[d].title in saved ensures OwnDataset(scope, origin, d) {
      assert DatasetSettled(scope, t, t.datasets[d].title, saved[t.datasets[d].title]);
    }
    assert |"public"| != |"private"|;
  }

  lemma CollectionsAreBack(scope: Scope, origin: State, t: State, saved: map<string, SavedCollection>)
    requires DescribesCollections(scope, origin, saved) && CollectionsSettled(scope, t, saved)
    requires NoNewCollections(scope, t, saved) && OneOfEachName(scope, t)
    ensures CollectionsBack(scope, origin, t)
  {
    forall c | Covered(scope, origin, c)
      ensures c in t.collections && t.collections[c].name == origin.collections[c].name
      ensures t.collections[c].description == origin.collections[c].description
      ensures t.collections[c].members == origin.collections[c].members
    {
      var n := origin.collections[c].name;
      assert n in saved && saved[n] == CollectionEntry(origin, c) && CollectionSettled(scope, t, n, saved[n]);
    }
    forall c | Covered(scope, t, c) ensures Covered(scope, origin, c) {
      assert CollectionSettled(scope, t, t.collections[c].name, saved[t.collections[c].name]);
    }
  }

  /** A settled state is the saved one, whatever the snapshot holds of it. */
  lemma SettledIsBack(scope: Scope, origin: State, t: State, saved: Snapshot)
    requires Describes(scope, origin, saved) && Settled(scope, t, saved) && OneOfEachName(scope, t)
    ensures BackTo(scope, origin, t)
  {
    MapsAreBack(scope, origin, t, saved.maps);
    DatasetsAreBack(scope, origin, t, saved.datasets);
    CollectionsAreBack(scope, origin, t, saved.collections);
  }

  /** The passes and the fresh read after them. */
  method RunAndReadBack(api: Api, saved: Snapshot, current: Snapshot, ghost origin: State)
    returns (r: Outcome, savedWrites: nat)
    requires Valid(api.scope, origin) && Describes(api.scope, origin, saved)
    requires Valid(api.scope, api.s) && Describes(api.scope, api.s, current) && !Ambiguous(api.scope, api.s)
    requires Acceptable(api.scope, saved, current)
    modifies api
    ensures r.Restored? || r.NotTaken?
    ensures Valid(api.scope, api.s) && AllReached(api.scope, old(api.s), api.s, saved)
    ensures r.Restored? <==> NothingToClear(saved, current)
    ensures r.Restored? ==> Settled(api.scope, api.s, saved)
    ensures api.writes == old(api.writes) + savedWrites + NewRows(saved, current)
    ensures savedWrites == 0 <==> SavedMatches(saved, current)
    ensures Settled(api.scope, old(api.s), saved) ==> api.s == old(api.s) && savedWrites == 0
    ensures OnlyRepairsUndone(api.scope, old(api.s), api.s, saved)
    ensures r.Restored? ==> BackTo(api.scope, origin, api.s)
  {
    ghost var s := api.s;
    savedWrites := RunPasses(api, saved, current, origin);
    StaysClear(api.scope, origin, saved, s, current, api.s);
    var after := api.Snap();
    ReadBackDecides(api.scope, saved, s, current, api.s, after.value);
    var left := Unrestored(saved, after.value);
    r := if left == [] then Restored else NotTaken(left);
    UndoneAndBack(api.scope, origin, saved, s, current, api.s);
  }

  lemma UndoneAndBack(scope: Scope, origin: State, saved: Snapshot, s: State, current: Snapshot, t: State)
    requires Describes(scope, origin, saved) && Describes(scope, s, current) && Acceptable(scope, saved, current)
    requires Valid(scope, s) && !Ambiguous(scope, s) && Valid(scope, t) && AllReached(scope, s, t, saved)
    ensures OnlyRepairsUndone(scope, s, t, saved)
    ensures Settled(scope, t, saved) ==> BackTo(scope, origin, t)
  {
    AcceptableIff(scope, origin, saved, s, current);
    forall n | n in saved.collections ensures n in scope.collectionNames {
      assert Covered(scope, origin, saved.collections[n].id);
    }
    RepairsUndone(scope, s, t, saved);
    if Settled(scope, t, saved) {
      SettledIsBack(scope, origin, t, saved);
    }
  }

  /** `restore`. `current` is the snapshot it takes first; `origin` is the state that was saved. */
  method Restore(api: Api, saved: Snapshot, activeJobs: bool, ghost origin: State)
    returns (r: Outcome, ghost current: Snapshot, savedWrites: nat)
    requires Valid(api.scope, origin) && Describes(api.scope, origin, saved)
    requires Valid(api.scope, api.s)
    modifies api
    ensures r.Busy? <==> activeJobs
    ensures r.Unclear? <==> !activeJobs && Ambiguous(api.scope, old(api.s))
    ensures !r.Busy? && !r.Unclear? ==>
      Describes(api.scope, old(api.s), current) && current.base == api.base && current.owner == api.owner
    ensures !r.Busy? && !r.Unclear? ==>
      (r.Refused? <==>
        !(saved.base == api.base && saved.owner == api.owner && Restorable(api.scope, old(api.s), saved)))
    ensures r.Restored? || r.NotTaken? ==> OnlyRepairsUndone(api.scope, old(api.s), api.s, saved)
    ensures r.Restored? ==> BackTo(api.scope, origin, api.s)
    ensures r.Busy? || r.Unclear? || r.Refused? ==> api.s == old(api.s) && api.writes == old(api.writes)
    ensures r.Restored? || r.NotTaken? ==> AllReached(api.scope, old(api.s), api.s, saved)
    ensures r.Restored? || r.NotTaken? ==> (r.Restored? <==> NothingToClear(saved, current))
    ensures r.Restored? ==> Settled(api.scope, api.s, saved)
    ensures r.Restored? || r.NotTaken? ==>
      && api.writes == old(api.writes) + savedWrites + NewRows(saved, current)
      && (savedWrites == 0 <==> SavedMatches(saved, current))
    ensures Valid(api.scope, api.s)
    ensures !activeJobs && Settled(api.scope, old(api.s), saved)
            && saved.base == api.base && saved.owner == api.owner ==>
      r.Restored? && api.s == old(api.s) && savedWrites == 0
  {
    savedWrites := 0;
    current := saved;
    if activeJobs {
      return Busy, current, 0;
    }
    var first := api.Snap();
    if first.None? {
      return Unclear, current, 0;
    }
    current := first.value;
    if Settled(api.scope, api.s, saved) && saved.base == api.base && saved.owner == api.owner {
      SettledAccepted(api.scope, api.s, saved, first.value);
    }
    AcceptableIff(api.scope, origin, saved, api.s, current);
    if !Acceptable(api.scope, saved, first.value) {
      return Refused, current, 0;
    }
    r, savedWrites := RunAndReadBack(api, saved, first.value, origin);
  }
}
