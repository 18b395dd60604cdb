/** Putting a saved showcase state back, pass by pass, through the server's write calls. */
module RestoreRun {
  import opened Showcase
  import opened Wrappers

  // ---- fields ----------------------------------------------------------------------------

  predicate Clears(key: string, value: Value) {
    key == DESCRIPTION && value.Null?
  }

  /** What a row holds after a write: every value sent, except that a description cannot be cleared. */
  function Stored(fields: Fields, sent: Fields): Fields {
    fields + (map k | k in sent && !Clears(k, sent[k]) :: sent[k])
  }

  /** The saved values that differ from the present ones. */
  function Delta(original: Fields, now: Fields): Fields {
    map k | k in original && (k !in now || now[k] != original[k]) :: original[k]
  }

  /** The saved values, but for a description that would have to be cleared. */
  function Reached(original: Fields, now: Fields): Fields {
    map k | k in original :: if Clears(k, original[k]) && k in now then now[k] else original[k]
  }

  predicate Clearable(original: Fields, now: Fields) {
    DESCRIPTION in original && DESCRIPTION in now && original[DESCRIPTION].Null? ==> now[DESCRIPTION].Null?
  }

  lemma DeltaRestores(original: Fields, now: Fields)
    requires original.Keys == now.Keys
    ensures Stored(now, Delta(original, now)) == Reached(original, now)
    ensures Delta(original, now) == map[] ==> Reached(original, now) == now
    ensures now == original ==> Delta(original, now) == map[]
  {
    if Delta(original, now) == map[] {
      assert forall k :: k in original ==> k !in Delta(original, now);
      assert Stored(now, map[]) == now;
    }
  }

  lemma ReachedAll(original: Fields, now: Fields)
    requires original.Keys == now.Keys
    ensures Reached(original, now) == original <==> Clearable(original, now)
  {
    if !Clearable(original, now) {
      assert Reached(original, now)[DESCRIPTION] != original[DESCRIPTION];
    }
  }

  function StaleLayers(original: map<Id, LayerRow>, now: map<Id, LayerRow>): map<Id, Fields> {
    map l | l in original && l in now && now[l].fields != original[l].fields :: original[l].fields
  }

  /** PATCH layers: the removed ones go, the updated ones take the values sent. */
  function PatchedLayers(layers: map<Id, LayerRow>, updated: map<Id, Fields>, removed: set<Id>): map<Id, LayerRow> {
    map l | l in layers && l !in removed ::
      if l in updated then layers[l].(fields := layers[l].fields + updated[l]) else layers[l]
  }

  /** The saved layers are present on their datasets, with the same fields to fill. */
  predicate LayersThere(original: map<Id, LayerRow>, now: map<Id, LayerRow>) {
    forall l :: l in original ==>
      l in now && now[l].dataset == original[l].dataset && now[l].fields.Keys == original[l].fields.Keys
  }

  lemma LayersRestored(original: map<Id, LayerRow>, now: map<Id, LayerRow>)
    requires LayersThere(original, now)
    ensures PatchedLayers(now, StaleLayers(original, now), now.Keys - original.Keys) == original
    ensures StaleLayers(original, now) == map[] && now.Keys - original.Keys == {} <==> now == original
  {
    var patched := PatchedLayers(now, StaleLayers(original, now), now.Keys - original.Keys);
    assert patched.Keys == original.Keys;
    forall l | l in original ensures patched[l] == original[l] {
      MergeAll(now[l].fields, original[l].fields);
    }
    if StaleLayers(original, now) == map[] && now.Keys - original.Keys == {} {
      assert forall l :: l in original ==> l !in StaleLayers(original, now);
      assert forall l :: l in now ==> l !in now.Keys - original.Keys;
      assert now.Keys == original.Keys;
    }
  }

  lemma MergeAll(now: Fields, original: Fields)
    requires now.Keys == original.Keys
    ensures now + original == original
  {
  }

  // ---- keywords ---------------------------------------------------------------------------

  ghost predicate UniqueOwn(keywords: map<Id, Keyword>) {
    UniqueTriples(OwnTriples(keywords))
  }

  /** The own keywords are exactly the wanted triples, once each; those already right and the
      inherited ones are the rows they were. */
  ghost predicate KeywordsRestored(before: map<Id, Keyword>, after: map<Id, Keyword>, wanted: set<Triple>) {
    && TriplesOf(OwnTriples(after)) == wanted && UniqueOwn(after)
    && (forall k :: k in before && (before[k].inherited || before[k].triple in wanted) ==>
      k in after && after[k] == before[k])
    && (forall k :: k in after && after[k].inherited ==> k in before)
  }

  function Doomed(now: map<Id, Triple>, wanted: set<Triple>): set<Id> {
    set k | k in now && now[k] !in wanted
  }

  lemma AddOwn(keywords: map<Id, Keyword>, k: Id, t: Triple)
    requires k !in keywords
    ensures TriplesOf(OwnTriples(keywords[k := Keyword(t, false)])) == TriplesOf(OwnTriples(keywords)) + {t}
    ensures UniqueOwn(keywords) && t !in TriplesOf(OwnTriples(keywords)) ==> UniqueOwn(keywords[k := Keyword(t, false)])
  {
    var more := keywords[k := Keyword(t, false)];
    assert OwnTriples(more) == OwnTriples(keywords)[k := t];
    forall u ensures u in TriplesOf(OwnTriples(more)) <==> u in TriplesOf(OwnTriples(keywords)) + {t} {
      if u in TriplesOf(OwnTriples(keywords)) {
        var j :| j in OwnTriples(keywords) && OwnTriples(keywords)[j] == u;
        assert OwnTriples(more)[j] == u;
      }
      if u == t {
        assert OwnTriples(more)[k] == u;
      }
    }
  }

  lemma DropStep<V>(m: map<Id, V>, gone: set<Id>, k: Id)
    ensures (m - gone) - {k} == m - (gone + {k})
  {
  }

  /** What is left of the own triples once the unwanted ones are gone. */
  lemma KeptTriples(keywords: map<Id, Keyword>, wanted: set<Triple>)
    requires UniqueOwn(keywords)
    ensures var left := keywords - Doomed(OwnTriples(keywords), wanted);
            TriplesOf(OwnTriples(left)) == TriplesOf(OwnTriples(keywords)) * wanted && UniqueOwn(left)
  {
    var left := keywords - Doomed(OwnTriples(keywords), wanted);
    forall t | t in TriplesOf(OwnTriples(keywords)) * wanted ensures t in TriplesOf(OwnTriples(left)) {
      var k :| k in OwnTriples(keywords) && OwnTriples(keywords)[k] == t;
      assert k in OwnTriples(left) && OwnTriples(left)[k] == t;
    }
  }

  // ---- the server's writes ------------------------------------------------------------------

  /** A session against one server; `writes` counts its write calls. */
  class Api {
    const scope: Scope
    const base: string
    const owner: string
    const ownerId: Id
    var s: State
    var writes: nat

    constructor (scope: Scope, base: string, owner: string, ownerId: Id, s: State)
      ensures this.scope == scope && this.base == base && this.owner == owner && this.ownerId == ownerId
      ensures this.s == s && writes == 0
    {
      this.scope, this.base, this.owner, this.ownerId, this.s, writes := scope, base, owner, ownerId, s, 0;
    }

    method PutMap(m: Id, sent: Fields)
      requires m in s.maps
      modifies this
      ensures s == old(s).(maps := old(s).maps[m := old(s).maps[m].(fields := Stored(old(s).maps[m].fields, sent))])
      ensures writes == old(writes) + 1
    {
      s := s.(maps := s.maps[m := s.maps[m].(fields := Stored(s.maps[m].fields, sent))]);
      writes := writes + 1;
    }

    method PatchLayers(m: Id, updated: map<Id, Fields>, removed: set<Id>)
      requires m in s.maps
      modifies this
      ensures s == old(s).(maps := old(s).maps[m := old(s).maps[m].(
                             layers := PatchedLayers(old(s).maps[m].layers, updated, removed))])
      ensures writes == old(writes) + 1
    {
      s := s.(maps := s.maps[m := s.maps[m].(layers := PatchedLayers(s.maps[m].layers, updated, removed))]);
      writes := writes + 1;
    }

    method PatchDataset(d: Id, sent: Fields)
      requires d in s.datasets
      modifies this
      ensures s == old(s).(datasets := old(s).datasets[d := old(s).datasets[d].(
                             fields := old(s).datasets[d].fields + sent)])
      ensures writes == old(writes) + 1
    {
      s := s.(datasets := s.datasets[d := s.datasets[d].(fields := s.datasets[d].fields + sent)]);
      writes := writes + 1;
    }

    method DeleteKeyword(d: Id, k: Id)
      requires d in s.datasets
      modifies this
      ensures s == old(s).(datasets := old(s).datasets[d := old(s).datasets[d].(
                             keywords := old(s).datasets[d].keywords - {k})])
      ensures writes == old(writes) + 1
    {
      s := s.(datasets := s.datasets[d := s.datasets[d].(keywords := s.datasets[d].keywords - {k})]);
      writes := writes + 1;
    }

    method PostKeyword(d: Id, t: Triple)
      requires d in s.datasets
      modifies this
      ensures s == old(s).(next := old(s).next + 1, datasets := old(s).datasets[d := old(s).datasets[d].(
                             keywords := old(s).datasets[d].keywords[old(s).next := Keyword(t, false)])])
      ensures writes == old(writes) + 1
    {
      s := s.(next := s.next + 1, datasets := s.datasets[d := s.datasets[d].(
                keywords := s.datasets[d].keywords[s.next := Keyword(t, false)])]);
      writes := writes + 1;
    }

    method UpdateCollection(c: Id, description: Value)
      requires c in s.collections
      modifies this
      ensures s == old(s).(collections := old(s).collections[c := Described(old(s).collections[c], description)])
      ensures writes == old(writes) + 1
    {
      s := s.(collections := s.collections[c := Described(s.collections[c], description)]);
      writes := writes + 1;
    }

    method RemoveMember(c: Id, d: Id)
      requires c in s.collections
      modifies this
      ensures s == old(s).(collections := old(s).collections[c := old(s).collections[c].(
                             members := old(s).collections[c].members - {d})])
      ensures writes == old(writes) + 1
    {
      s := s.(collections := s.collections[c := s.collections[c].(members := s.collections[c].members - {d})]);
      writes := writes + 1;
    }

    method AddMembers(c: Id, members: set<Id>)
      requires c in s.collections
      modifies this
      ensures s == old(s).(collections := old(s).collections[c := old(s).collections[c].(
                             members := old(s).collections[c].members + members)])
      ensures writes == old(writes) + 1
    {
      s := s.(collections := s.collections[c := s.collections[c].(members := s.collections[c].members + members)]);
      writes := writes + 1;
    }

    method DeleteCollection(c: Id)
      modifies this
      ensures s == old(s).(collections := old(s).collections - {c})
      ensures writes == old(writes) + 1
    {
      s := s.(collections := s.collections - {c});
      writes := writes + 1;
    }

    /** `snapshot`: nothing when two own rows of the covered names cannot be told apart. */
    method Snap() returns (r: Option<Snapshot>)
      ensures r.None? <==> AmbiguousMaps(scope, s) || AmbiguousDatasets(scope, s)
      ensures r.Some? ==> (Describes(scope, s, r.value) <==> OneOfEachName(scope, s))
      ensures r.Some? ==> r.value.base == base && r.value.owner == owner && r.value.ownerId == ownerId
    {
      var maps := SnapMaps(scope, s);
      if maps.None? {
        return None;
      }
      var datasets := SnapDatasets(scope, s);
      if datasets.None? {
        return None;
      }
      var collections := SnapCollections(scope, s);
      r := Some(Snapshot(base, owner, ownerId, maps.value, datasets.value, collections));
    }
  }

  /** Nothing is sent exactly if there is nothing to restore. */
  predicate SentUnless(matches: bool, before: nat, after: nat) {
    before <= after && (matches <==> after == before)
  }

  lemma SentMore(a: bool, b: bool, start: nat, middle: nat, end: nat)
    requires SentUnless(a, start, middle) && SentUnless(b, middle, end)
    ensures SentUnless(a && b, start, end)
  {
  }

  ghost predicate MapsMatchIn(saved: map<string, SavedMap>, current: map<string, SavedMap>, names: set<string>) {
    forall n :: n in names ==> n in saved && n in current && MapMatches(saved[n], current[n])
  }

  ghost predicate DatasetsMatchIn(saved: map<string, SavedDataset>, current: map<string, SavedDataset>,
                                  names: set<string>) {
    forall n :: n in names ==> n in saved && n in current && DatasetMatches(saved[n], current[n])
  }

  ghost predicate CollectionsMatchIn(saved: map<string, SavedCollection>, current: map<string, SavedCollection>,
                                     names: set<string>) {
    forall n :: n in names ==> n in saved && n in current && CollectionMatches(saved[n], current[n])
  }

  function Described(c: CollectionRow, description: Value): CollectionRow {
    if description.Null? then c else c.(description := description)
  }

  // ---- the map pass ---------------------------------------------------------------------------

  function MapRestored(row: MapRow, original: SavedMap): MapRow {
    row.(fields := Reached(original.fields, row.fields), layers := original.layers)
  }

  method RestoreMapFields(api: Api, m: Id, original: Fields, now: Fields)
    requires m in api.s.maps && now == api.s.maps[m].fields && original.Keys == now.Keys
    modifies api
    ensures api.s == old(api.s).(maps := old(api.s).maps[m := old(api.s).maps[m].(fields := Reached(original, now))])
    ensures now == original ==> api.s == old(api.s)
    ensures SentUnless(now == original, old(api.writes), api.writes)
  {
    var delta := Delta(original, now);
    DeltaRestores(original, now);
    SameRow(api.s.maps, m);
    if delta != map[] {
      api.PutMap(m, delta);
    }
  }

  method RestoreMapLayers(api: Api, m: Id, original: map<Id, LayerRow>, now: map<Id, LayerRow>)
    requires m in api.s.maps && now == api.s.maps[m].layers && LayersThere(original, now)
    modifies api
    ensures api.s == old(api.s).(maps := old(api.s).maps[m := old(api.s).maps[m].(layers := original)])
    ensures now == original ==> api.s == old(api.s)
    ensures SentUnless(now == original, old(api.writes), api.writes)
  {
    var updated := StaleLayers(original, now);
    var removed := now.Keys - original.Keys;
    LayersRestored(original, now);
    SameRow(api.s.maps, m);
    if updated != map[] || removed != {} {
      api.PatchLayers(m, updated, removed);
    }
  }

  /** One map: its fields, then its layers, each only if they differ. */
  method RestoreMap(api: Api, original: SavedMap, now: SavedMap)
    requires original.id in api.s.maps && now == MapEntry(api.s, original.id)
    requires original.fields.Keys == now.fields.Keys && LayersThere(original.layers, now.layers)
    modifies api
    ensures api.s == old(api.s).(maps := old(api.s).maps[
              original.id := MapRestored(old(api.s).maps[original.id], original)])
    ensures MapMatches(original, now) ==> api.s == old(api.s)
    ensures SentUnless(MapMatches(original, now), old(api.writes), api.writes)
  {
    RestoreMapFields(api, original.id, original.fields, now.fields);
    ghost var sofar := api.writes;
    RestoreMapLayers(api, original.id, original.layers, now.layers);
    SentMore(now.fields == original.fields, now.layers == original.layers, old(api.writes), sofar, api.writes);
  }

  lemma SameRow<V>(m: map<Id, V>, k: Id)
    requires k in m
    ensures m[k := m[k]] == m
  {
  }

  /** What the acceptance and the shape of the rows give the map pass. */
  ghost predicate MapsReady(saved: map<string, SavedMap>, current: map<string, SavedMap>) {
    forall n :: n in saved ==>
      && n in current && current[n].id == saved[n].id
      && saved[n].fields.Keys == current[n].fields.Keys && LayersThere(saved[n].layers, current[n].layers)
  }

  /** The saved maps of these names carry what was saved, the others are as they were. */
  ghost predicate MapsDone(before: map<Id, MapRow>, after: map<Id, MapRow>, saved: map<string, SavedMap>,
                           names: set<string>)
    requires names <= saved.Keys
  {
    && after.Keys == before.Keys
    && (forall n :: n in names ==>
      saved[n].id in before && after[saved[n].id] == MapRestored(before[saved[n].id], saved[n]))
    && (forall m :: m in after && (forall n :: n in names ==> saved[n].id != m) ==> after[m] == before[m])
  }

  lemma MapsStep(before: map<Id, MapRow>, after: map<Id, MapRow>, saved: map<string, SavedMap>, names: set<string>,
                 n: string)
    requires names <= saved.Keys && n in saved && saved[n].id in before && MapsDone(before, after, saved, names)
    requires forall n' :: n' in names ==> saved[n'].id != saved[n].id
    ensures after[saved[n].id] == before[saved[n].id]
    ensures MapsDone(before, after[saved[n].id := MapRestored(after[saved[n].id], saved[n])], saved, names + {n})
  {
  }

  /** One more map of the pass. */
  method RestoreNamedMap(api: Api, ghost before: State, saved: map<string, SavedMap>, current: map<string, SavedMap>,
                         ghost done: set<string>, n: string, ghost start: nat)
    requires DescribesMaps(api.scope, before, current) && MapsReady(saved, current)
    requires done <= saved.Keys && n in saved && n !in done
    requires api.s == before.(maps := api.s.maps) && MapsDone(before.maps, api.s.maps, saved, done)
    requires SentUnless(MapsMatchIn(saved, current, done), start, api.writes)
    modifies api
    ensures api.s == before.(maps := api.s.maps) && MapsDone(before.maps, api.s.maps, saved, done + {n})
    ensures MapMatches(saved[n], current[n]) ==> api.s == old(api.s)
    ensures SentUnless(MapsMatchIn(saved, current, done + {n}), start, api.writes)
  {
    IdsApart(api.scope, before, saved, current);
    MapsStep(before.maps, api.s.maps, saved, done, n);
    ghost var sofar := api.writes;
    RestoreMap(api, saved[n], current[n]);
    SentMore(MapsMatchIn(saved, current, done), MapMatches(saved[n], current[n]), start, sofar, api.writes);
  }

  /** `restore_maps`. */
  method RestoreMaps(api: Api, saved: map<string, SavedMap>, current: map<string, SavedMap>)
    requires DescribesMaps(api.scope, api.s, current) && MapsReady(saved, current)
    modifies api
    ensures api.s == old(api.s).(maps := api.s.maps) && MapsDone(old(api.s).maps, api.s.maps, saved, saved.Keys)
    ensures MapsMatch(saved, current) ==> api.s == old(api.s)
    ensures SentUnless(MapsMatch(saved, current), old(api.writes), api.writes)
  {
    var todo := saved.Keys;
    while todo != {}
      invariant todo <= saved.Keys
      invariant api.s == old(api.s).(maps := api.s.maps)
      invariant MapsDone(old(api.s).maps, api.s.maps, saved, saved.Keys - todo)
      invariant MapsMatch(saved, current) ==> api.s == old(api.s)
      invariant SentUnless(MapsMatchIn(saved, current, saved.Keys - todo), old(api.writes), api.writes)
    {
      var n :| n in todo;
      RestoreNamedMap(api, old(api.s), saved, current, saved.Keys - todo, n, old(api.writes));
      OneMore(saved.Keys, todo, n);
      todo := todo - {n};
    }
    NoneLeft(saved.Keys);
  }

  lemma OneMore<T>(all: set<T>, todo: set<T>, n: T)
    requires n in todo && todo <= all
    ensures (all - todo) + {n} == all - (todo - {n})
  {
  }

  lemma NoneLeft<T>(all: set<T>)
    ensures all - {} == all
  {
  }

  lemma IdsApart(scope: Scope, s: State, saved: map<string, SavedMap>, current: map<string, SavedMap>)
    requires DescribesMaps(scope, s, current) && MapsReady(saved, current)
    ensures forall n, n' :: n in saved && n' in saved && n != n' ==> saved[n].id != saved[n'].id
    ensures forall n :: n in saved ==> saved[n].id in s.maps && current[n] == MapEntry(s, saved[n].id)
  {
    forall n, n' | n in saved && n' in saved && n != n' ensures saved[n].id != saved[n'].id {
      assert s.maps[current[n].id].name == n && s.maps[current[n'].id].name == n';
    }
  }

  // ---- the dataset pass -------------------------------------------------------------------------

  ghost predicate KeywordIds(s: State) {
    forall d, k :: d in s.datasets && k in s.datasets[d].keywords ==> k < s.next
  }

  /** Only dataset `d` differs, and only in its keywords. */
  ghost predicate OnlyKeywords(before: State, after: State, d: Id)
    requires d in before.datasets
  {
    && d in after.datasets && before.next <= after.next
    && after == before.(next := after.next, datasets := before.datasets[d := before.datasets[d].(
                          keywords := after.datasets[d].keywords)])
  }

  lemma OnlyKeywordsChain(a: State, b: State, c: State, d: Id)
    requires d in a.datasets && OnlyKeywords(a, b, d) && OnlyKeywords(b, c, d)
    ensures OnlyKeywords(a, c, d)
  {
  }

  method DeleteKeywords(api: Api, d: Id, doomed: set<Id>)
    requires d in api.s.datasets
    modifies api
    ensures OnlyKeywords(old(api.s), api.s, d) && api.s.next == old(api.s).next
    ensures api.s.datasets[d].keywords == old(api.s).datasets[d].keywords - doomed
    ensures SentUnless(doomed == {}, old(api.writes), api.writes)
  {
    var todo := doomed;
    assert old(api.s).datasets[d].keywords - {} == old(api.s).datasets[d].keywords;
    while todo != {}
      invariant todo <= doomed
      invariant OnlyKeywords(old(api.s), api.s, d) && api.s.next == old(api.s).next
      invariant api.s.datasets[d].keywords == old(api.s).datasets[d].keywords - (doomed - todo)
      invariant SentUnless(todo == doomed, old(api.writes), api.writes)
    {
      var k :| k in todo;
      DropStep(old(api.s).datasets[d].keywords, doomed - todo, k);
      assert (doomed - todo) + {k} == doomed - (todo - {k});
      api.DeleteKeyword(d, k);
      todo := todo - {k};
    }
  }

  function Posted(original: map<Id, Triple>, after: set<Triple>, keys: set<Id>): set<Triple> {
    set k | k in original && k in keys && original[k] !in after :: original[k]
  }

  lemma PostedMore(original: map<Id, Triple>, after: set<Triple>, keys: set<Id>, k: Id)
    requires k in original && k !in keys && UniqueTriples(original) && keys <= original.Keys
    ensures Posted(original, after, keys + {k}) ==
      if original[k] in after then Posted(original, after, keys) else Posted(original, after, keys) + {original[k]}
    ensures original[k] !in Posted(original, after, keys)
  {
  }

  lemma PostedAll(original: map<Id, Triple>, after: set<Triple>)
    ensures Posted(original, after, original.Keys) == TriplesOf(original) - after
  {
  }

  /** Nothing is lost or changed, and what is new is the dataset's own. */
  ghost predicate KeywordsKept(before: map<Id, Keyword>, after: map<Id, Keyword>) {
    && (forall k :: k in before ==> k in after && after[k] == before[k])
    && (forall k :: k in after && after[k].inherited ==> k in before)
  }

  /** The own triples have grown by `added`, each once, and nothing else has changed. */
  ghost predicate Grown(before: map<Id, Keyword>, after: map<Id, Keyword>, added: set<Triple>) {
    && TriplesOf(OwnTriples(after)) == TriplesOf(OwnTriples(before)) + added
    && UniqueOwn(after) && KeywordsKept(before, after)
  }

  lemma GrowStep(before: map<Id, Keyword>, after: map<Id, Keyword>, added: set<Triple>, k: Id, t: Triple)
    requires Grown(before, after, added) && k !in after && t !in added && t !in TriplesOf(OwnTriples(before))
    ensures Grown(before, after[k := Keyword(t, false)], added + {t})
  {
    AddOwn(after, k, t);
  }

  method PostMissing(api: Api, d: Id, t: Triple, ghost before: map<Id, Keyword>, ghost added: set<Triple>)
    requires d in api.s.datasets && KeywordIds(api.s)
    requires Grown(before, api.s.datasets[d].keywords, added) && t !in added && t !in TriplesOf(OwnTriples(before))
    modifies api
    ensures OnlyKeywords(old(api.s), api.s, d) && KeywordIds(api.s)
    ensures Grown(before, api.s.datasets[d].keywords, added + {t}) && api.writes == old(api.writes) + 1
  {
    GrowStep(before, api.s.datasets[d].keywords, added, api.s.next, t);
    api.PostKeyword(d, t);
  }

  /** One saved keyword of the pass. */
  method RestoreKeyword(api: Api, d: Id, original: map<Id, Triple>, after: set<Triple>, k: Id,
                        ghost before: map<Id, Keyword>, ghost done: set<Id>, ghost start: nat)
    requires d in api.s.datasets && KeywordIds(api.s) && UniqueTriples(original)
    requires TriplesOf(OwnTriples(before)) <= after && k in original && k !in done && done <= original.Keys
    requires Grown(before, api.s.datasets[d].keywords, Posted(original, after, done))
    requires SentUnless(NoneMissing(original, after, done), start, api.writes)
    modifies api
    ensures OnlyKeywords(old(api.s), api.s, d) && KeywordIds(api.s)
    ensures Grown(before, api.s.datasets[d].keywords, Posted(original, after, done + {k}))
    ensures original[k] in after ==> api.s == old(api.s)
    ensures SentUnless(NoneMissing(original, after, done + {k}), start, api.writes)
  {
    PostedMore(original, after, done, k);
    if original[k] !in after {
      PostMissing(api, d, original[k], before, Posted(original, after, done));
    }
  }

  method PostKeywords(api: Api, d: Id, original: map<Id, Triple>, after: set<Triple>)
    requires d in api.s.datasets && KeywordIds(api.s) && UniqueTriples(original)
    requires TriplesOf(OwnTriples(api.s.datasets[d].keywords)) <= after && UniqueOwn(api.s.datasets[d].keywords)
    modifies api
    ensures OnlyKeywords(old(api.s), api.s, d) && KeywordIds(api.s)
    ensures Grown(old(api.s).datasets[d].keywords, api.s.datasets[d].keywords, TriplesOf(original) - after)
    ensures TriplesOf(original) <= after ==> api.s == old(api.s)
    ensures SentUnless(TriplesOf(original) <= after, old(api.writes), api.writes)
  {
    ghost var before := api.s.datasets[d].keywords;
    var todo := original.Keys;
    NonePosted(before, original, after);
    NoneMissingAtAll(original, after);
    while todo != {}
      invariant todo <= original.Keys
      invariant OnlyKeywords(old(api.s), api.s, d) && KeywordIds(api.s)
      invariant Grown(before, api.s.datasets[d].keywords, Posted(original, after, original.Keys - todo))
      invariant TriplesOf(original) <= after ==> api.s == old(api.s)
      invariant SentUnless(NoneMissing(original, after, original.Keys - todo), old(api.writes), api.writes)
    {
      var k :| k in todo;
      ghost var sofar := api.s;
      RestoreKeyword(api, d, original, after, k, before, original.Keys - todo, old(api.writes));
      OnlyKeywordsChain(old(api.s), sofar, api.s, d);
      OneMore(original.Keys, todo, k);
      todo := todo - {k};
    }
    PostedAll(original, after);
    NoneLeft(original.Keys);
  }

  ghost predicate NoneMissing(original: map<Id, Triple>, after: set<Triple>, keys: set<Id>) {
    forall k :: k in keys ==> k in original && original[k] in after
  }

  lemma NoneMissingAtAll(original: map<Id, Triple>, after: set<Triple>)
    ensures NoneMissing(original, after, original.Keys) <==> TriplesOf(original) <= after
  {
    assert forall k :: k in original ==> original[k] in TriplesOf(original);
  }

  lemma NonePosted(before: map<Id, Keyword>, original: map<Id, Triple>, after: set<Triple>)
    requires UniqueOwn(before)
    ensures Grown(before, before, Posted(original, after, original.Keys - original.Keys))
  {
    assert Posted(original, after, original.Keys - original.Keys) == {};
    assert TriplesOf(OwnTriples(before)) + {} == TriplesOf(OwnTriples(before));
  }

  /** What one dataset row becomes. */
  ghost predicate DatasetRestored(before: DatasetRow, after: DatasetRow, original: SavedDataset) {
    && after == before.(fields := original.fields, keywords := after.keywords)
    && KeywordsRestored(before.keywords, after.keywords, TriplesOf(original.keywords))
  }

  method RestoreKeywords(api: Api, d: Id, original: map<Id, Triple>, now: map<Id, Triple>)
    requires d in api.s.datasets && now == OwnTriples(api.s.datasets[d].keywords)
    requires KeywordIds(api.s) && UniqueTriples(original) && UniqueTriples(now)
    modifies api
    ensures OnlyKeywords(old(api.s), api.s, d) && KeywordIds(api.s)
    ensures KeywordsRestored(old(api.s).datasets[d].keywords, api.s.datasets[d].keywords, TriplesOf(original))
    ensures TriplesOf(now) == TriplesOf(original) ==> api.s == old(api.s)
    ensures SentUnless(TriplesOf(now) == TriplesOf(original), old(api.writes), api.writes)
  {
    var wanted := TriplesOf(original);
    var after := TriplesOf(now);
    ghost var before := api.s.datasets[d].keywords;
    KeptTriples(before, wanted);
    NoneDoomed(now, wanted);
    DeleteKeywords(api, d, Doomed(now, wanted));
    ghost var sofar, middle := api.writes, api.s;
    PostKeywords(api, d, original, after);
    OnlyKeywordsChain(old(api.s), middle, api.s, d);
    SentMore(after <= wanted, wanted <= after, old(api.writes), sofar, api.writes);
    KeywordsMeet(before, api.s.datasets[d].keywords, now, original);
    if after == wanted {
      NoneDropped(before);
    }
  }

  lemma KeywordsMeet(before: map<Id, Keyword>, end: map<Id, Keyword>, now: map<Id, Triple>, original: map<Id, Triple>)
    requires now == OwnTriples(before) && UniqueOwn(before)
    requires Grown(before - Doomed(now, TriplesOf(original)), end, TriplesOf(original) - TriplesOf(now))
    ensures KeywordsRestored(before, end, TriplesOf(original))
  {
    var after, wanted := TriplesOf(now), TriplesOf(original);
    KeptTriples(before, wanted);
    assert after * wanted + (wanted - after) == wanted;
  }

  lemma NoneDropped<V>(m: map<Id, V>)
    ensures m - {} == m
  {
  }

  lemma NoneDoomed(now: map<Id, Triple>, wanted: set<Triple>)
    ensures TriplesOf(now) <= wanted <==> Doomed(now, wanted) == {}
  {
    assert forall k :: k in now ==> now[k] in TriplesOf(now);
    assert forall k :: k in now && now[k] !in wanted ==> k in Doomed(now, wanted);
  }

  method RestoreDataset(api: Api, original: SavedDataset, now: SavedDataset)
    requires original.id in api.s.datasets && now == DatasetEntry(api.s, original.id)
    requires original.fields.Keys == now.fields.Keys && KeywordIds(api.s)
    requires UniqueTriples(original.keywords) && UniqueTriples(now.keywords)
    modifies api
    ensures original.id in api.s.datasets && KeywordIds(api.s) && old(api.s).next <= api.s.next
    ensures DatasetRestored(old(api.s).datasets[original.id], api.s.datasets[original.id], original)
    ensures api.s == old(api.s).(next := api.s.next,
                                 datasets := old(api.s).datasets[original.id := api.s.datasets[original.id]])
    ensures DatasetMatches(original, now) ==> api.s == old(api.s)
    ensures SentUnless(DatasetMatches(original, now), old(api.writes), api.writes)
  {
    var delta := Delta(original.fields, now.fields);
    DeltaMerges(original.fields, now.fields);
    if delta != map[] {
      api.PatchDataset(original.id, delta);
    }
    RestoreKeywords(api, original.id, original.keywords, now.keywords);
  }

  lemma DeltaMerges(original: Fields, now: Fields)
    requires original.Keys == now.Keys
    ensures now + Delta(original, now) == original
    ensures Delta(original, now) == map[] <==> now == original
  {
    if Delta(original, now) == map[] {
      assert forall k :: k in original ==> k !in Delta(original, now);
    }
  }

  ghost predicate DatasetsReady(saved: map<string, SavedDataset>, current: map<string, SavedDataset>) {
    forall n :: n in saved ==>
      && n in current && current[n].id == saved[n].id && saved[n].fields.Keys == current[n].fields.Keys
      && UniqueTriples(saved[n].keywords) && UniqueTriples(current[n].keywords)
  }

  ghost predicate DatasetsDone(before: map<Id, DatasetRow>, after: map<Id, DatasetRow>,
                               saved: map<string, SavedDataset>, names: set<string>)
    requires names <= saved.Keys
  {
    && after.Keys == before.Keys
    && (forall n :: n in names ==>
          saved[n].id in before && DatasetRestored(before[saved[n].id], after[saved[n].id], saved[n]))
    && (forall d :: d in after && (forall n :: n in names ==> saved[n].id != d) ==> after[d] == before[d])
  }

  lemma DatasetsStep(before: map<Id, DatasetRow>, after: map<Id, DatasetRow>, saved: map<string, SavedDataset>,
                     names: set<string>, n: string, row: DatasetRow)
    requires names <= saved.Keys && n in saved && saved[n].id in before && DatasetsDone(before, after, saved, names)
    requires forall n' :: n' in names ==> saved[n'].id != saved[n].id
    requires DatasetRestored(before[saved[n].id], row, saved[n])
    ensures DatasetsDone(before, after[saved[n].id := row], saved, names + {n})
  {
  }

  lemma DatasetIdsApart(scope: Scope, s: State, saved: map<string, SavedDataset>, current: map<string, SavedDataset>,
                        names: set<string>, n: string)
    requires DescribesDatasets(scope, s, current) && DatasetsReady(saved, current)
    requires names <= saved.Keys && n in saved && n !in names
    ensures forall n' :: n' in names ==> saved[n'].id != saved[n].id
    ensures saved[n].id in s.datasets && current[n] == DatasetEntry(s, saved[n].id)
  {
    forall n' | n' in names ensures saved[n'].id != saved[n].id {
      assert s.datasets[current[n].id].title == n && s.datasets[current[n'].id].title == n';
    }
  }

  method RestoreNamedDataset(api: Api, ghost before: State, saved: map<string, SavedDataset>,
                             current: map<string, SavedDataset>, ghost done: set<string>, n: string, ghost start: nat)
    requires DescribesDatasets(api.scope, before, current) && DatasetsReady(saved, current)
    requires done <= saved.Keys && n in saved && n !in done
    requires api.s == before.(next := api.s.next, datasets := api.s.datasets)
    requires DatasetsDone(before.datasets, api.s.datasets, saved, done) && KeywordIds(api.s)
    requires SentUnless(DatasetsMatchIn(saved, current, done), start, api.writes)
    modifies api
    ensures api.s == before.(next := api.s.next, datasets := api.s.datasets) && old(api.s).next <= api.s.next
    ensures DatasetsDone(before.datasets, api.s.datasets, saved, done + {n}) && KeywordIds(api.s)
    ensures DatasetMatches(saved[n], current[n]) ==> api.s == old(api.s)
    ensures SentUnless(DatasetsMatchIn(saved, current, done + {n}), start, api.writes)
  {
    DatasetIdsApart(api.scope, before, saved, current, done, n);
    assert api.s.datasets[saved[n].id] == before.datasets[saved[n].id];
    ghost var sofar := api.writes;
    RestoreDataset(api, saved[n], current[n]);
    SentMore(DatasetsMatchIn(saved, current, done), DatasetMatches(saved[n], current[n]), start, sofar, api.writes);
    DatasetsStep(before.datasets, old(api.s).datasets, saved, done, n, api.s.datasets[saved[n].id]);
  }

  /** `restore_datasets`. */
  method RestoreDatasets(api: Api, saved: map<string, SavedDataset>, current: map<string, SavedDataset>)
    requires DescribesDatasets(api.scope, api.s, current) && DatasetsReady(saved, current) && KeywordIds(api.s)
    modifies api
    ensures api.s == old(api.s).(next := api.s.next, datasets := api.s.datasets) && old(api.s).next <= api.s.next
    ensures DatasetsDone(old(api.s).datasets, api.s.datasets, saved, saved.Keys) && KeywordIds(api.s)
    ensures DatasetsMatch(saved, current) ==> api.s == old(api.s)
    ensures SentUnless(DatasetsMatch(saved, current), old(api.writes), api.writes)
  {
    var todo := saved.Keys;
    while todo != {}
      invariant todo <= saved.Keys
      invariant api.s == old(api.s).(next := api.s.next, datasets := api.s.datasets) && old(api.s).next <= api.s.next
      invariant DatasetsDone(old(api.s).datasets, api.s.datasets, saved, saved.Keys - todo) && KeywordIds(api.s)
      invariant DatasetsMatch(saved, current) ==> api.s == old(api.s)
      invariant SentUnless(DatasetsMatchIn(saved, current, saved.Keys - todo), old(api.writes), api.writes)
    {
      var n :| n in todo;
      RestoreNamedDataset(api, old(api.s), saved, current, saved.Keys - todo, n, old(api.writes));
      OneMore(saved.Keys, todo, n);
      todo := todo - {n};
    }
    NoneLeft(saved.Keys);
  }

  // ---- the collection pass ------------------------------------------------------------------------

  function CollectionRestored(row: CollectionRow, original: SavedCollection): CollectionRow {
    Described(row, original.description).(members := original.members)
  }

  method RemoveMembers(api: Api, c: Id, extra: set<Id>)
    requires c in api.s.collections
    modifies api
    ensures api.s == old(api.s).(collections := old(api.s).collections[c := old(api.s).collections[c].(
                                   members := old(api.s).collections[c].members - extra)])
    ensures extra == {} ==> api.s == old(api.s)
    ensures SentUnless(extra == {}, old(api.writes), api.writes)
  {
    ghost var row := api.s.collections[c];
    var todo := extra;
    assert row.members - (extra - extra) == row.members;
    assert api.s.collections == api.s.collections[c := row];
    while todo != {}
      invariant todo <= extra && c in api.s.collections
      invariant api.s == old(api.s).(collections := old(api.s).collections[
                  c := row.(members := row.members - (extra - todo))])
      invariant extra == {} ==> api.s == old(api.s)
      invariant SentUnless(todo == extra, old(api.writes), api.writes)
    {
      var d :| d in todo;
      assert row.members - (extra - todo) - {d} == row.members - (extra - (todo - {d}));
      api.RemoveMember(c, d);
      todo := todo - {d};
    }
    assert extra - {} == extra;
  }

  lemma MembersMeet(now: set<Id>, original: set<Id>)
    ensures now - (now - original) + (original - now) == original
    ensures original - now == {} ==> now - (now - original) == original
    ensures now == original <==> now - original == {} && original - now == {}
  {
  }

  method RestoreCollection(api: Api, original: SavedCollection, now: SavedCollection)
    requires original.id in api.s.collections && now == CollectionEntry(api.s, original.id)
    modifies api
    ensures api.s == old(api.s).(collections := old(api.s).collections[
              original.id := CollectionRestored(old(api.s).collections[original.id], original)])
    ensures CollectionMatches(original, now) ==> api.s == old(api.s)
    ensures SentUnless(CollectionMatches(original, now), old(api.writes), api.writes)
  {
    if now.description != original.description {
      api.UpdateCollection(original.id, original.description);
    }
    RemoveMembers(api, original.id, now.members - original.members);
    var missing := original.members - now.members;
    MembersMeet(now.members, original.members);
    if missing != {} {
      api.AddMembers(original.id, missing);
    }
  }

  ghost predicate CollectionsReady(saved: map<string, SavedCollection>, current: map<string, SavedCollection>) {
    forall n :: n in saved ==> n in current && current[n].id == saved[n].id
  }

  ghost predicate CollectionsDone(before: map<Id, CollectionRow>, after: map<Id, CollectionRow>,
                                  saved: map<string, SavedCollection>, names: set<string>)
    requires names <= saved.Keys
  {
    && after.Keys == before.Keys
    && (forall n :: n in names ==>
          saved[n].id in before && after[saved[n].id] == CollectionRestored(before[saved[n].id], saved[n]))
    && (forall c :: c in after && (forall n :: n in names ==> saved[n].id != c) ==> after[c] == before[c])
  }

  lemma CollectionsStep(before: map<Id, CollectionRow>, after: map<Id, CollectionRow>,
                        saved: map<string, SavedCollection>, names: set<string>, n: string)
    requires names <= saved.Keys && n in saved && saved[n].id in before && CollectionsDone(before, after, saved, names)
    requires forall n' :: n' in names ==> saved[n'].id != saved[n].id
    ensures after[saved[n].id] == before[saved[n].id]
    ensures CollectionsDone(before, after[saved[n].id := CollectionRestored(after[saved[n].id], saved[n])], saved,
      names + {n})
  {
  }

  lemma CollectionIdsApart(scope: Scope, s: State, saved: map<string, SavedCollection>,
                           current: map<string, SavedCollection>, names: set<string>, n: string)
    requires DescribesCollections(scope, s, current) && CollectionsReady(saved, current)
    requires names <= saved.Keys && n in saved && n !in names
    ensures forall n' :: n' in names ==> saved[n'].id != saved[n].id
    ensures saved[n].id in s.collections && current[n] == CollectionEntry(s, saved[n].id)
  {
    forall n' | n' in names ensures saved[n'].id != saved[n].id {
      assert s.collections[current[n].id].name == n && s.collections[current[n'].id].name == n';
    }
  }

  method RestoreNamedCollection(api: Api, ghost before: State, saved: map<string, SavedCollection>,
                                current: map<string, SavedCollection>, ghost done: set<string>, n: string,
                                ghost start: nat)
    requires DescribesCollections(api.scope, before, current) && CollectionsReady(saved, current)
    requires done <= saved.Keys && n in saved && n !in done
    requires api.s == before.(collections := api.s.collections)
    requires CollectionsDone(before.collections, api.s.collections, saved, done)
    requires SentUnless(CollectionsMatchIn(saved, current, done), start, api.writes)
    modifies api
    ensures api.s == before.(collections := api.s.collections)
    ensures CollectionsDone(before.collections, api.s.collections, saved, done + {n})
    ensures CollectionMatches(saved[n], current[n]) ==> api.s == old(api.s)
    ensures SentUnless(CollectionsMatchIn(saved, current, done + {n}), start, api.writes)
  {
    CollectionIdsApart(api.scope, before, saved, current, done, n);
    CollectionsStep(before.collections, api.s.collections, saved, done, n);
    ghost var sofar := api.writes;
    RestoreCollection(api, saved[n], current[n]);
    ghost var matches := CollectionMatches(saved[n], current[n]);
    SentMore(CollectionsMatchIn(saved, current, done), matches, start, sofar, api.writes);
  }

  /** `restore_collections`. */
  method RestoreCollections(api: Api, saved: map<string, SavedCollection>, current: map<string, SavedCollection>)
    requires DescribesCollections(api.scope, api.s, current) && CollectionsReady(saved, current)
    modifies api
    ensures api.s == old(api.s).(collections := api.s.collections)
    ensures CollectionsDone(old(api.s).collections, api.s.collections, saved, saved.Keys)
    ensures CollectionsMatch(saved, current) ==> api.s == old(api.s)
    ensures SentUnless(CollectionsMatch(saved, current), old(api.writes), api.writes)
  {
    var todo := saved.Keys;
    while todo != {}
      invariant todo <= saved.Keys
      invariant api.s == old(api.s).(collections := api.s.collections)
      invariant CollectionsDone(old(api.s).collections, api.s.collections, saved, saved.Keys - todo)
      invariant CollectionsMatch(saved, current) ==> api.s == old(api.s)
      invariant SentUnless(CollectionsMatchIn(saved, current, saved.Keys - todo), old(api.writes), api.writes)
    {
      var n :| n in todo;
      RestoreNamedCollection(api, old(api.s), saved, current, saved.Keys - todo, n, old(api.writes));
      OneMore(saved.Keys, todo, n);
      todo := todo - {n};
    }
    NoneLeft(saved.Keys);
  }

  // ---- hiding what is new ---------------------------------------------------------------------------

  function Hidden(fields: Fields): Fields {
    fields[VISIBILITY := PRIVATE]
  }

  lemma StoredPrivate(fields: Fields)
    ensures Stored(fields, map[VISIBILITY := PRIVATE]) == Hidden(fields)
    ensures fields + map[VISIBILITY := PRIVATE] == Hidden(fields)
  {
    assert |VISIBILITY| == 10 && |DESCRIPTION| == 11;
  }

  /** The maps of these current names are private, nothing else about any map has changed. */
  ghost predicate MapsHidden(before: map<Id, MapRow>, after: map<Id, MapRow>, current: map<string, SavedMap>,
                             names: set<string>)
    requires names <= current.Keys
  {
    && after.Keys == before.Keys
    && (forall n :: n in names ==>
          current[n].id in before
            && after[current[n].id] == before[current[n].id].(fields := Hidden(before[current[n].id].fields)))
    && (forall m :: m in after && (forall n :: n in names ==> current[n].id != m) ==> after[m] == before[m])
  }

  ghost predicate MapNames(maps: map<Id, MapRow>, current: map<string, SavedMap>) {
    forall n :: n in current ==> current[n].id in maps && maps[current[n].id].name == n
  }

  lemma HideMapStep(before: map<Id, MapRow>, after: map<Id, MapRow>, current: map<string, SavedMap>,
                    names: set<string>, n: string)
    requires names <= current.Keys && n in current && n !in names && MapNames(before, current)
    requires MapsHidden(before, after, current, names)
    ensures current[n].id in after
    ensures var row := after[current[n].id];
            MapsHidden(before, after[current[n].id := row.(fields := Hidden(row.fields))], current, names + {n})
  {
    forall n' | n' in names ensures current[n'].id != current[n].id {
      assert before[current[n].id].name == n && before[current[n'].id].name == n';
    }
  }

  method HideMaps(api: Api, current: map<string, SavedMap>, names: set<string>)
    requires names <= current.Keys && MapNames(api.s.maps, current)
    modifies api
    ensures api.s == old(api.s).(maps := api.s.maps) && MapsHidden(old(api.s).maps, api.s.maps, current, names)
    ensures api.writes == old(api.writes) + |names|
  {
    var todo := names;
    while todo != {}
      invariant todo <= names && api.writes == old(api.writes) + |names| - |todo|
      invariant api.s == old(api.s).(maps := api.s.maps)
        && MapsHidden(old(api.s).maps, api.s.maps, current, names - todo)
    {
      var n :| n in todo;
      HideMapStep(old(api.s).maps, api.s.maps, current, names - todo, n);
      StoredPrivate(api.s.maps[current[n].id].fields);
      api.PutMap(current[n].id, map[VISIBILITY := PRIVATE]);
      OneMore(names, todo, n);
      todo := todo - {n};
    }
    NoneLeft(names);
  }

  ghost predicate DatasetsHidden(before: map<Id, DatasetRow>, after: map<Id, DatasetRow>,
                                 current: map<string, SavedDataset>, names: set<string>)
    requires names <= current.Keys
  {
    && after.Keys == before.Keys
    && (forall n :: n in names ==>
          current[n].id in before
            && after[current[n].id] == before[current[n].id].(fields := Hidden(before[current[n].id].fields)))
    && (forall d :: d in after && (forall n :: n in names ==> current[n].id != d) ==> after[d] == before[d])
  }

  ghost predicate DatasetTitles(datasets: map<Id, DatasetRow>, current: map<string, SavedDataset>) {
    forall n :: n in current ==> current[n].id in datasets && datasets[current[n].id].title == n
  }

  lemma HideDatasetStep(before: map<Id, DatasetRow>, after: map<Id, DatasetRow>, current: map<string, SavedDataset>,
                        names: set<string>, n: string)
    requires names <= current.Keys && n in current && n !in names && DatasetTitles(before, current)
    requires DatasetsHidden(before, after, current, names)
    ensures current[n].id in after
    ensures var row := after[current[n].id];
            DatasetsHidden(before, after[current[n].id := row.(fields := Hidden(row.fields))], current, names + {n})
  {
    forall n' | n' in names ensures current[n'].id != current[n].id {
      assert before[current[n].id].title == n && before[current[n'].id].title == n';
    }
  }

  method HideDatasets(api: Api, current: map<string, SavedDataset>, names: set<string>)
    requires names <= current.Keys && DatasetTitles(api.s.datasets, current)
    modifies api
    ensures api.s == old(api.s).(datasets := api.s.datasets)
    ensures DatasetsHidden(old(api.s).datasets, api.s.datasets, current, names)
    ensures api.writes == old(api.writes) + |names|
  {
    var todo := names;
    while todo != {}
      invariant todo <= names && api.writes == old(api.writes) + |names| - |todo|
      invariant api.s == old(api.s).(datasets := api.s.datasets)
      invariant DatasetsHidden(old(api.s).datasets, api.s.datasets, current, names - todo)
    {
      var n :| n in todo;
      HideDatasetStep(old(api.s).datasets, api.s.datasets, current, names - todo, n);
      StoredPrivate(api.s.datasets[current[n].id].fields);
      api.PatchDataset(current[n].id, map[VISIBILITY := PRIVATE]);
      OneMore(names, todo, n);
      todo := todo - {n};
    }
    NoneLeft(names);
  }

  function IdsOf(current: map<string, SavedCollection>, names: set<string>): set<Id> {
    set n | n in current && n in names :: current[n].id
  }

  method DropCollections(api: Api, current: map<string, SavedCollection>, names: set<string>)
    requires names <= current.Keys
    modifies api
    ensures api.s == old(api.s).(collections := old(api.s).collections - IdsOf(current, names))
    ensures api.writes == old(api.writes) + |names|
  {
    var todo := names;
    assert IdsOf(current, {}) == {} && old(api.s).collections - {} == old(api.s).collections;
    while todo != {}
      invariant todo <= names && api.writes == old(api.writes) + |names| - |todo|
      invariant api.s == old(api.s).(collections := old(api.s).collections - IdsOf(current, names - todo))
    {
      var n :| n in todo;
      DropStep(old(api.s).collections, IdsOf(current, names - todo), current[n].id);
      MoreIds(current, names, todo, n);
      api.DeleteCollection(current[n].id);
      todo := todo - {n};
    }
    NoneLeft(names);
  }

  lemma MoreIds(current: map<string, SavedCollection>, names: set<string>, todo: set<string>, n: string)
    requires n in todo && todo <= names <= current.Keys
    ensures IdsOf(current, names - todo) + {current[n].id} == IdsOf(current, names - (todo - {n}))
  {
  }
}
