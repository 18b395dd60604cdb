/** Saving and restoring the editable showcase state. */
module Showcase {
  import opened Wrappers

  type Id = nat

  datatype Value = Null | Text(text: string)

  /** The saved fields of a row. The name or title is kept apart: rows are matched by it. */
  type Fields = map<string, Value>

  const VISIBILITY := "visibility"
  const DESCRIPTION := "description"
  const PUBLIC := Text("public")
  const PRIVATE := Text("private")
  const CLIENT_CONNECTIONS := "Client Connections"
  const MATTERHORN := "The Matterhorn in 3D"
  const BASIN_LAYER := Text("Atlantic basin regions (context)")
  const DISPLAY_NAME := "display_name"

  function MatterhornLayers(): set<Value> {
    {Text("Climbing routes (OSM)"), Text("Route casing"), Text("Peaks")}
  }

  datatype LayerRow = LayerRow(dataset: Id, fields: Fields)
  datatype MapRow = MapRow(name: string, mine: bool, createdBy: Id, fields: Fields, layers: map<Id, LayerRow>)
  datatype Triple = Triple(keyword: string, kind: string, vocabulary: Value)
  datatype Keyword = Keyword(triple: Triple, inherited: bool)
  datatype DatasetRow = DatasetRow(title: string, mine: bool, createdBy: Id, fields: Fields, keywords: map<Id, Keyword>)
  datatype CollectionRow = CollectionRow(name: string, createdBy: Id, description: Value, members: set<Id>)

  datatype State = State(
    maps: map<Id, MapRow>, datasets: map<Id, DatasetRow>, collections: map<Id, CollectionRow>, next: Id)

  /** What the scripts cover: their map names, the titles with a metadata entry, their
      collections, the two seeded binary datasets, and the fields they save. */
  datatype Scope = Scope(
    mapNames: set<string>, tracked: string -> bool, collectionNames: set<string>, seededBinaries: set<string>,
    mapFields: set<string>, layerFields: set<string>, datasetFields: set<string>)

  datatype SavedMap = SavedMap(id: Id, createdBy: Id, fields: Fields, layers: map<Id, LayerRow>)
  datatype SavedDataset = SavedDataset(id: Id, createdBy: Id, fields: Fields, keywords: map<Id, Triple>)
  datatype SavedCollection = SavedCollection(id: Id, createdBy: Id, description: Value, members: set<Id>)
  datatype Snapshot = Snapshot(
    base: string, owner: string, ownerId: Id,
    maps: map<string, SavedMap>, datasets: map<string, SavedDataset>, collections: map<string, SavedCollection>)

  // ---- the server --------------------------------------------------------------------

  /** Rows carry the saved fields; own keyword triples are unique in a record; a covered
      collection name is used once. */
  ghost predicate Valid(scope: Scope, s: State) {
    && (forall m :: m in s.maps ==> MapValid(scope, s.maps[m]))
    && (forall d :: d in s.datasets ==> DatasetValid(scope, s.datasets[d], s.next))
    && OneOfEachName(scope, s)
  }

  ghost predicate OneOfEachName(scope: Scope, s: State) {
    forall c, c' :: Covered(scope, s, c) && Covered(scope, s, c') && s.collections[c].name == s.collections[c'].name ==>
      c == c'
  }

  ghost predicate MapValid(scope: Scope, m: MapRow) {
    && m.fields.Keys == scope.mapFields && VISIBILITY in scope.mapFields
    && forall l :: l in m.layers ==> m.layers[l].fields.Keys == scope.layerFields
  }

  ghost predicate DatasetValid(scope: Scope, d: DatasetRow, next: Id) {
    && d.fields.Keys == scope.datasetFields && VISIBILITY in scope.datasetFields
    && (forall k :: k in d.keywords ==> k < next)
    && UniqueTriples(OwnTriples(d.keywords))
  }

  ghost predicate UniqueTriples(keywords: map<Id, Triple>) {
    forall k, k' :: k in keywords && k' in keywords && k != k' ==> keywords[k] != keywords[k']
  }

  // ---- what a snapshot says ------------------------------------------------------------

  predicate OwnMap(scope: Scope, s: State, m: Id) {
    m in s.maps && s.maps[m].mine && s.maps[m].name in scope.mapNames
  }

  predicate OwnDataset(scope: Scope, s: State, d: Id) {
    d in s.datasets && s.datasets[d].mine && scope.tracked(s.datasets[d].title)
  }

  predicate Covered(scope: Scope, s: State, c: Id) {
    c in s.collections && s.collections[c].name in scope.collectionNames
  }

  function MapEntry(s: State, m: Id): SavedMap
    requires m in s.maps
  {
    SavedMap(m, s.maps[m].createdBy, s.maps[m].fields, s.maps[m].layers)
  }

  function OwnTriples(keywords: map<Id, Keyword>): map<Id, Triple> {
    map k | k in keywords && !keywords[k].inherited :: keywords[k].triple
  }

  function DatasetEntry(s: State, d: Id): SavedDataset
    requires d in s.datasets
  {
    SavedDataset(d, s.datasets[d].createdBy, s.datasets[d].fields, OwnTriples(s.datasets[d].keywords))
  }

  function CollectionEntry(s: State, c: Id): SavedCollection
    requires c in s.collections
  {
    SavedCollection(c, s.collections[c].createdBy, s.collections[c].description, s.collections[c].members)
  }

  /** Each own map of a covered name is in the snapshot under its name, and nothing else is. */
  ghost predicate DescribesMaps(scope: Scope, s: State, maps: map<string, SavedMap>) {
    && (forall m :: OwnMap(scope, s, m) ==> s.maps[m].name in maps && maps[s.maps[m].name] == MapEntry(s, m))
    && (forall n :: n in maps ==> OwnMap(scope, s, maps[n].id) && s.maps[maps[n].id].name == n)
  }

  ghost predicate DescribesDatasets(scope: Scope, s: State, datasets: map<string, SavedDataset>) {
    && (forall d :: OwnDataset(scope, s, d) ==>
          s.datasets[d].title in datasets && datasets[s.datasets[d].title] == DatasetEntry(s, d))
    && (forall n :: n in datasets ==> OwnDataset(scope, s, datasets[n].id) && s.datasets[datasets[n].id].title == n)
  }

  ghost predicate DescribesCollections(scope: Scope, s: State, collections: map<string, SavedCollection>) {
    && (forall c :: Covered(scope, s, c) ==>
          s.collections[c].name in collections && collections[s.collections[c].name] == CollectionEntry(s, c))
    && (forall n :: n in collections ==>
          Covered(scope, s, collections[n].id) && s.collections[collections[n].id].name == n)
  }

  ghost predicate Describes(scope: Scope, s: State, snap: Snapshot) {
    && DescribesMaps(scope, s, snap.maps) && DescribesDatasets(scope, s, snap.datasets)
    && DescribesCollections(scope, s, snap.collections)
  }

  /** Two own maps share a covered name. */
  ghost predicate AmbiguousMaps(scope: Scope, s: State) {
    exists m, m' :: OwnMap(scope, s, m) && OwnMap(scope, s, m') && m != m' && s.maps[m].name == s.maps[m'].name
  }

  /** Two own datasets share a tracked title. */
  ghost predicate AmbiguousDatasets(scope: Scope, s: State) {
    exists d, d' :: OwnDataset(scope, s, d) && OwnDataset(scope, s, d') && d != d'
      && s.datasets[d].title == s.datasets[d'].title
  }

  // ---- taking a snapshot -------------------------------------------------------------------

  method SnapMaps(scope: Scope, s: State) returns (r: Option<map<string, SavedMap>>)
    ensures r.None? <==> AmbiguousMaps(scope, s)
    ensures r.Some? ==> DescribesMaps(scope, s, r.value)
  {
    var maps: map<string, SavedMap> := map[];
    var todo := s.maps.Keys;
    while todo != {}
      invariant todo <= s.maps.Keys
      invariant forall m :: OwnMap(scope, s, m) && m !in todo ==>
        s.maps[m].name in maps && maps[s.maps[m].name] == MapEntry(s, m)
      invariant forall n :: n in maps ==>
        OwnMap(scope, s, maps[n].id) && s.maps[maps[n].id].name == n && maps[n].id !in todo
    {
      var m :| m in todo;
      todo := todo - {m};
      if OwnMap(scope, s, m) {
        if s.maps[m].name in maps {
          assert maps[s.maps[m].name].id != m;
          return None;
        }
        maps := maps[s.maps[m].name := MapEntry(s, m)];
      }
    }
    return Some(maps);
  }

  method SnapDatasets(scope: Scope, s: State) returns (r: Option<map<string, SavedDataset>>)
    ensures r.None? <==> AmbiguousDatasets(scope, s)
    ensures r.Some? ==> DescribesDatasets(scope, s, r.value)
  {
    var datasets: map<string, SavedDataset> := map[];
    var todo := s.datasets.Keys;
    while todo != {}
      invariant todo <= s.datasets.Keys
      invariant forall d :: OwnDataset(scope, s, d) && d !in todo ==>
        s.datasets[d].title in datasets && datasets[s.datasets[d].title] == DatasetEntry(s, d)
      invariant forall n :: n in datasets ==>
        OwnDataset(scope, s, datasets[n].id) && s.datasets[datasets[n].id].title == n && datasets[n].id !in todo
    {
      var d :| d in todo;
      todo := todo - {d};
      if OwnDataset(scope, s, d) {
        if s.datasets[d].title in datasets {
          assert datasets[s.datasets[d].title].id != d;
          return None;
        }
        datasets := datasets[s.datasets[d].title := DatasetEntry(s, d)];
      }
    }
    return Some(datasets);
  }

  /** Of several collections with one name the last listed is kept, without a refusal. */
  method SnapCollections(scope: Scope, s: State) returns (collections: map<string, SavedCollection>)
    ensures forall c :: Covered(scope, s, c) ==> s.collections[c].name in collections
    ensures forall n :: n in collections ==>
      var c := collections[n].id;
      Covered(scope, s, c) && s.collections[c].name == n && collections[n] == CollectionEntry(s, c)
    ensures OneOfEachName(scope, s) <==> DescribesCollections(scope, s, collections)
  {
    collections := map[];
    var todo := s.collections.Keys;
    while todo != {}
      invariant todo <= s.collections.Keys
      invariant forall c :: Covered(scope, s, c) && c !in todo ==> s.collections[c].name in collections
      invariant forall n :: n in collections ==>
        var c := collections[n].id;
        Covered(scope, s, c) && s.collections[c].name == n && collections[n] == CollectionEntry(s, c)
    {
      var c :| c in todo;
      todo := todo - {c};
      if Covered(scope, s, c) {
        collections := collections[s.collections[c].name := CollectionEntry(s, c)];
      }
    }
  }

  // ---- what a restore accepts, and what it must reach --------------------------------------

  predicate AllowedLayer(name: string, layer: LayerRow) {
    DISPLAY_NAME in layer.fields
    && (layer.fields[DISPLAY_NAME] == BASIN_LAYER
        || (name == MATTERHORN && layer.fields[DISPLAY_NAME] in MatterhornLayers()))
  }

  predicate MapAccepted(name: string, original: SavedMap, current: map<string, SavedMap>) {
    && name in current
    && var now := current[name];
       && now.id == original.id && now.createdBy == original.createdBy
       && (forall l :: l in original.layers ==> l in now.layers && now.layers[l].dataset == original.layers[l].dataset)
       && (forall l :: l in now.layers && l !in original.layers ==> AllowedLayer(name, now.layers[l]))
  }

  predicate NewCollectionAccepted(scope: Scope, saved: Snapshot, current: Snapshot, name: string,
                                  item: SavedCollection) {
    && name == CLIENT_CONNECTIONS && item.createdBy == saved.ownerId
    && forall d :: d in item.members ==>
         exists t :: t in current.datasets && current.datasets[t].id == d
                     && (t !in saved.datasets || t in scope.seededBinaries)
  }

  /** `verify_restorable` raises nothing. */
  predicate Acceptable(scope: Scope, saved: Snapshot, current: Snapshot) {
    && saved.base == current.base && saved.owner == current.owner
    && (forall n :: n in current.collections && n !in saved.collections ==>
          NewCollectionAccepted(scope, saved, current, n, current.collections[n]))
    && (forall n :: n in saved.maps ==> MapAccepted(n, saved.maps[n], current.maps))
    && (forall n :: n in saved.datasets ==>
          n in current.datasets && current.datasets[n].id == saved.datasets[n].id
          && current.datasets[n].createdBy == saved.datasets[n].createdBy)
    && (forall n :: n in saved.collections ==>
          n in current.collections && current.collections[n].id == saved.collections[n].id)
  }

  function TriplesOf(keywords: map<Id, Triple>): set<Triple> {
    set k | k in keywords :: keywords[k]
  }

  predicate MapMatches(saved: SavedMap, now: SavedMap) {
    now.fields == saved.fields && now.layers == saved.layers
  }

  predicate DatasetMatches(saved: SavedDataset, now: SavedDataset) {
    now.fields == saved.fields && TriplesOf(now.keywords) == TriplesOf(saved.keywords)
  }

  predicate CollectionMatches(saved: SavedCollection, now: SavedCollection) {
    now.description == saved.description && now.members == saved.members
  }

  predicate IsPublic(fields: Fields) {
    VISIBILITY in fields && fields[VISIBILITY] == PUBLIC
  }

  ghost predicate MapsMatch(saved: map<string, SavedMap>, after: map<string, SavedMap>) {
    forall n :: n in saved ==> n in after && MapMatches(saved[n], after[n])
  }

  ghost predicate DatasetsMatch(saved: map<string, SavedDataset>, after: map<string, SavedDataset>) {
    forall n :: n in saved ==> n in after && DatasetMatches(saved[n], after[n])
  }

  ghost predicate CollectionsMatch(saved: map<string, SavedCollection>, after: map<string, SavedCollection>) {
    forall n :: n in saved ==> n in after && CollectionMatches(saved[n], after[n])
  }

  ghost predicate SavedMatches(saved: Snapshot, after: Snapshot) {
    && MapsMatch(saved.maps, after.maps) && DatasetsMatch(saved.datasets, after.datasets)
    && CollectionsMatch(saved.collections, after.collections)
  }

  ghost predicate NothingNewShows(saved: Snapshot, after: Snapshot) {
    && (forall n :: n in after.maps && n !in saved.maps ==> !IsPublic(after.maps[n].fields))
    && (forall n :: n in after.datasets && n !in saved.datasets ==> !IsPublic(after.datasets[n].fields))
    && (forall n :: n in after.collections ==> n in saved.collections)
  }

  datatype Left = LeftMap(name: string) | LeftDataset(name: string) | LeftCollection(name: string)
                | NewMapPublic(name: string) | NewDatasetPublic(name: string) | NewCollection(name: string)

  /** What each entry says of the row it names. */
  predicate IsLeft(saved: Snapshot, after: Snapshot, e: Left) {
    var n := e.name;
    match e
    case LeftMap(_) => n in saved.maps && !(n in after.maps && MapMatches(saved.maps[n], after.maps[n]))
    case LeftDataset(_) =>
      n in saved.datasets && !(n in after.datasets && DatasetMatches(saved.datasets[n], after.datasets[n]))
    case LeftCollection(_) =>
      && n in saved.collections
      && !(n in after.collections && CollectionMatches(saved.collections[n], after.collections[n]))
    case NewMapPublic(_) => n in after.maps && n !in saved.maps && IsPublic(after.maps[n].fields)
    case NewDatasetPublic(_) => n in after.datasets && n !in saved.datasets && IsPublic(after.datasets[n].fields)
    case NewCollection(_) => n in after.collections && n !in saved.collections
  }

  ghost predicate Once(left: seq<Left>) {
    forall i, j :: 0 <= i < j < |left| ==> left[i] != left[j]
  }

  /** One entry for each of these names that is left. */
  method LeftOf(saved: Snapshot, after: Snapshot, names: set<string>, entry: string -> Left) returns (left: seq<Left>)
    requires forall n :: entry(n).name == n
    ensures forall e :: e in left <==> e.name in names && e == entry(e.name) && IsLeft(saved, after, e)
    ensures Once(left)
  {
    left := [];
    var todo := names;
    while todo != {}
      invariant todo <= names && Once(left)
      invariant forall e :: e in left <==>
        e.name in names && e.name !in todo && e == entry(e.name) && IsLeft(saved, after, e)
    {
      var n :| n in todo;
      todo := todo - {n};
      if IsLeft(saved, after, entry(n)) {
        assert entry(n) !in left;
        left := left + [entry(n)];
      }
    }
  }

  /** `unrestored`: each saved row a fresh read does not match and each new row still to be
      seen, once, and nothing else. */
  method Unrestored(saved: Snapshot, after: Snapshot) returns (left: seq<Left>)
    ensures forall e :: e in left <==> IsLeft(saved, after, e)
    ensures Once(left)
    ensures left == [] <==> SavedMatches(saved, after) && NothingNewShows(saved, after)
  {
    var maps := LeftOf(saved, after, saved.maps.Keys, n => LeftMap(n));
    var datasets := LeftOf(saved, after, saved.datasets.Keys, n => LeftDataset(n));
    var collections := LeftOf(saved, after, saved.collections.Keys, n => LeftCollection(n));
    var newMaps := LeftOf(saved, after, after.maps.Keys, n => NewMapPublic(n));
    var newDatasets := LeftOf(saved, after, after.datasets.Keys, n => NewDatasetPublic(n));
    var newCollections := LeftOf(saved, after, after.collections.Keys, n => NewCollection(n));
    left := JoinApart(maps, datasets);
    left := JoinApart(left, collections);
    left := JoinApart(left, newMaps);
    left := JoinApart(left, newDatasets);
    left := JoinApart(left, newCollections);
    NoneIsLeft(saved, after, left);
  }

  method JoinApart(a: seq<Left>, b: seq<Left>) returns (left: seq<Left>)
    requires Once(a) && Once(b) && forall e :: e in a ==> e !in b
    ensures Once(left) && forall e :: e in left <==> e in a || e in b
  {
    left := a + b;
    forall i, j | 0 <= i < j < |left| ensures left[i] != left[j] {
      assert i < |a| ==> left[i] in a;
      assert j >= |a| ==> left[j] in b;
    }
  }

  /** Nothing is left exactly if all saved rows match and nothing new shows. */
  lemma NoneIsLeft(saved: Snapshot, after: Snapshot, left: seq<Left>)
    requires forall e :: e in left <==> IsLeft(saved, after, e)
    ensures left == [] <==> SavedMatches(saved, after) && NothingNewShows(saved, after)
  {
    if left != [] {
      assert IsLeft(saved, after, left[0]);
    } else {
      forall n | n in saved.maps ensures n in after.maps && MapMatches(saved.maps[n], after.maps[n]) {
        assert !IsLeft(saved, after, LeftMap(n));
      }
      forall n | n in saved.datasets
        ensures n in after.datasets && DatasetMatches(saved.datasets[n], after.datasets[n])
      {
        assert !IsLeft(saved, after, LeftDataset(n));
      }
      forall n | n in saved.collections
        ensures n in after.collections && CollectionMatches(saved.collections[n], after.collections[n])
      {
        assert !IsLeft(saved, after, LeftCollection(n));
      }
      forall n | n in after.maps && n !in saved.maps ensures !IsPublic(after.maps[n].fields) {
        assert !IsLeft(saved, after, NewMapPublic(n));
      }
      forall n | n in after.datasets && n !in saved.datasets ensures !IsPublic(after.datasets[n].fields) {
        assert !IsLeft(saved, after, NewDatasetPublic(n));
      }
      forall n | n in after.collections ensures n in saved.collections {
        assert !IsLeft(saved, after, NewCollection(n));
      }
    }
  }
}
