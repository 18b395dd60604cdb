/** The server as the showcase scripts see it: datasets, maps and their layers. */
module Catalog {
  import opened Wrappers

  /** Ids are drawn in creation order. */
  type Id = nat

  /** `mine` tells this account's rows; `held` is the asset a by-reference raster reads. */
  datatype Dataset = Dataset(title: string, mine: bool, stac: bool, held: string, item: string)

  datatype Layer = Layer(dataset: Id, name: string, raster: bool, order: nat)

  datatype MapRow = MapRow(name: string, mine: bool, layers: map<Id, Layer>)

  datatype Catalog = Catalog(datasets: map<Id, Dataset>, maps: map<Id, MapRow>, next: Id)

  /** Ids are below the next one, and a layer's dataset exists. */
  ghost predicate WellFormed(c: Catalog) {
    && (forall d :: d in c.datasets ==> d < c.next)
    && (forall m :: m in c.maps ==> m < c.next && RowWellFormed(c, c.maps[m]))
  }

  ghost predicate RowWellFormed(c: Catalog, row: MapRow) {
    forall l :: l in row.layers ==> l < c.next && row.layers[l].dataset in c.datasets
  }

  function WithDataset(c: Catalog, d: Dataset): Catalog {
    c.(datasets := c.datasets[c.next := d], next := c.next + 1)
  }

  predicate CanAdd(c: Catalog, m: Id, layer: Layer) {
    m in c.maps && layer.dataset in c.datasets
  }

  function WithLayer(c: Catalog, m: Id, layer: Layer): Catalog
    requires m in c.maps
  {
    var row := c.maps[m];
    c.(maps := c.maps[m := row.(layers := row.layers[c.next := layer])], next := c.next + 1)
  }

  function WithoutLayer(c: Catalog, m: Id, l: Id): Catalog {
    if m !in c.maps then c
    else c.(maps := c.maps[m := c.maps[m].(layers := c.maps[m].layers - {l})])
  }

  function DropLayersOf(layers: map<Id, Layer>, d: Id): map<Id, Layer> {
    map l | l in layers && layers[l].dataset != d :: layers[l]
  }

  /** A dataset's layers go with it, on every map. */
  function WithoutDataset(c: Catalog, d: Id): Catalog {
    c.(datasets := c.datasets - {d},
       maps := map m | m in c.maps :: c.maps[m].(layers := DropLayersOf(c.maps[m].layers, d)))
  }

  function WithoutMap(c: Catalog, m: Id): Catalog {
    c.(maps := c.maps - {m})
  }

  function WithMap(c: Catalog, name: string): Catalog {
    c.(maps := c.maps[c.next := MapRow(name, true, map[])], next := c.next + 1)
  }

  /** `list_maps().get(name)`: this account's newest map of that name, below `n`. */
  function NewestBelow(c: Catalog, name: string, n: Id): (m: Option<Id>)
    ensures m.Some? ==> m.value < n && m.value in c.maps && c.maps[m.value].mine && c.maps[m.value].name == name
    ensures forall i :: i < n && i in c.maps && c.maps[i].mine && c.maps[i].name == name ==>
              m.Some? && i <= m.value
  {
    if n == 0 then None
    else if n - 1 in c.maps && c.maps[n - 1].mine && c.maps[n - 1].name == name then Some(n - 1)
    else NewestBelow(c, name, n - 1)
  }

  function NewestMap(c: Catalog, name: string): Option<Id> {
    NewestBelow(c, name, c.next)
  }

  lemma NewestFirst(first: Id, rest: seq<Id>)
    ensures forall m :: m in [first] + rest <==> m == first || m in rest
    ensures forall j :: 0 <= j < |rest| ==> rest[j] in rest
  {
  }

  /** This account's maps of a name, newest first. */
  function OwnMapsBelow(c: Catalog, name: string, n: Id): (ids: seq<Id>)
    ensures forall m :: m in ids <==> m < n && m in c.maps && c.maps[m].mine && c.maps[m].name == name
    ensures forall i, j :: 0 <= i < j < |ids| ==> ids[j] < ids[i]
    ensures NewestBelow(c, name, n) == if ids == [] then None else Some(ids[0])
  {
    if n == 0 then []
    else if n - 1 in c.maps && c.maps[n - 1].mine && c.maps[n - 1].name == name
    then
      var rest := OwnMapsBelow(c, name, n - 1);
      NewestFirst(n - 1, rest);
      [n - 1] + rest
    else OwnMapsBelow(c, name, n - 1)
  }

  /** This account's datasets of a title, newest first. */
  function OwnTitledBelow(c: Catalog, title: string, n: Id): (ids: seq<Id>)
    ensures forall d :: d in ids <==> d < n && d in c.datasets && c.datasets[d].mine && c.datasets[d].title == title
    ensures forall i, j :: 0 <= i < j < |ids| ==> ids[j] < ids[i]
  {
    if n == 0 then []
    else if n - 1 in c.datasets && c.datasets[n - 1].mine && c.datasets[n - 1].title == title
    then
      var rest := OwnTitledBelow(c, title, n - 1);
      NewestFirst(n - 1, rest);
      [n - 1] + rest
    else OwnTitledBelow(c, title, n - 1)
  }

  function OwnTitled(c: Catalog, title: string): seq<Id> {
    OwnTitledBelow(c, title, c.next)
  }

  /** The maps are the same rows: no row gone or new, none renamed or given away. */
  ghost predicate SameRows(c: Catalog, c': Catalog) {
    && c.maps.Keys == c'.maps.Keys
    && forall m :: m in c.maps ==> c.maps[m].name == c'.maps[m].name && c.maps[m].mine == c'.maps[m].mine
  }

  lemma {:induction false} SameRowsSameNewest(c: Catalog, c': Catalog, name: string, n: Id)
    requires SameRows(c, c')
    ensures NewestBelow(c, name, n) == NewestBelow(c', name, n)
  {
    if n != 0 {
      SameRowsSameNewest(c, c', name, n - 1);
    }
  }

  lemma {:induction false} NewestStable(c: Catalog, name: string, n: Id, n': Id)
    requires n <= n' && forall m :: m in c.maps ==> m < n
    ensures NewestBelow(c, name, n) == NewestBelow(c, name, n')
    decreases n'
  {
    if n < n' {
      NewestStable(c, name, n, n' - 1);
    }
  }

  /** A step that only removes datasets. */
  ghost predicate Shrinks(c: Catalog, c': Catalog) {
    forall d :: d in c'.datasets ==> d in c.datasets && c'.datasets[d] == c.datasets[d]
  }

  lemma DatasetAdded(c: Catalog, d: Dataset)
    requires WellFormed(c)
    ensures WellFormed(WithDataset(c, d)) && SameRows(c, WithDataset(c, d))
  {
  }

  lemma LayerAdded(c: Catalog, m: Id, layer: Layer)
    requires WellFormed(c) && CanAdd(c, m, layer)
    ensures var c' := WithLayer(c, m, layer);
            WellFormed(c') && SameRows(c, c') && c.next !in c.maps[m].layers
  {
  }

  lemma LayerDeleted(c: Catalog, m: Id, l: Id)
    requires WellFormed(c)
    ensures WellFormed(WithoutLayer(c, m, l)) && SameRows(c, WithoutLayer(c, m, l))
  {
  }

  lemma DatasetDeleted(c: Catalog, d: Id)
    requires WellFormed(c)
    ensures WellFormed(WithoutDataset(c, d)) && SameRows(c, WithoutDataset(c, d))
  {
  }

  /** How an API call ends: it returns; the server refuses it; or no answer arrives, and the
      call may have taken effect. */
  datatype Answer = Returned | Refused | Lost

  class Server {
    var catalog: Catalog
    /** Some call that could have returned did not. */
    ghost var failed: bool

    constructor (c: Catalog)
      ensures catalog == c && !failed
    {
      catalog, failed := c, false;
    }

    method Fate() returns (a: Answer, effect: bool)
      modifies `failed
      ensures a.Returned? ==> effect
      ensures a.Refused? ==> !effect
      ensures failed == (old(failed) || !a.Returned?)
    {
      var n: int := *;
      var took: bool := *;
      a := if n == 0 then Returned else if n == 1 then Refused else Lost;
      effect := if n == 0 then true else if n == 1 then false else took;
      failed := failed || !a.Returned?;
    }

    /** A reupload in place: no id changes. */
    method Reupload(d: Id) returns (a: Answer)
      modifies this
      ensures catalog == old(catalog) && failed == (old(failed) || !a.Returned?)
    {
      var effect;
      a, effect := Fate();
    }

    method CreateDataset(d: Dataset) returns (a: Answer, id: Id)
      modifies this
      ensures failed == (old(failed) || !a.Returned?)
      ensures a.Returned? ==> catalog == WithDataset(old(catalog), d) && id == old(catalog).next
      ensures a.Refused? ==> catalog == old(catalog)
      ensures catalog == old(catalog) || catalog == WithDataset(old(catalog), d)
    {
      var effect;
      a, effect := Fate();
      id := catalog.next;
      if effect {
        catalog := WithDataset(catalog, d);
      }
    }

    method AddLayer(m: Id, layer: Layer) returns (a: Answer)
      modifies this
      ensures failed == (old(failed) || (CanAdd(old(catalog), m, layer) && !a.Returned?))
      ensures a.Returned? ==> CanAdd(old(catalog), m, layer) && catalog == WithLayer(old(catalog), m, layer)
      ensures a.Refused? ==> catalog == old(catalog)
      ensures catalog == old(catalog)
              || (CanAdd(old(catalog), m, layer) && catalog == WithLayer(old(catalog), m, layer))
    {
      if !CanAdd(catalog, m, layer) {
        return Refused;
      }
      var effect;
      a, effect := Fate();
      if effect {
        catalog := WithLayer(catalog, m, layer);
      }
    }

    method DeleteLayer(m: Id, l: Id) returns (a: Answer)
      modifies this
      ensures failed == (old(failed) || !a.Returned?)
      ensures a.Returned? ==> catalog == WithoutLayer(old(catalog), m, l)
      ensures a.Refused? ==> catalog == old(catalog)
      ensures catalog == old(catalog) || catalog == WithoutLayer(old(catalog), m, l)
    {
      var effect;
      a, effect := Fate();
      if effect {
        catalog := WithoutLayer(catalog, m, l);
      }
    }

    method DeleteDataset(d: Id) returns (a: Answer)
      modifies this
      ensures failed == (old(failed) || !a.Returned?)
      ensures a.Returned? ==> catalog == WithoutDataset(old(catalog), d)
      ensures a.Refused? ==> catalog == old(catalog)
      ensures catalog == old(catalog) || catalog == WithoutDataset(old(catalog), d)
    {
      var effect;
      a, effect := Fate();
      if effect {
        catalog := WithoutDataset(catalog, d);
      }
    }

    method CreateMap(name: string) returns (a: Answer, id: Id)
      modifies this
      ensures failed == (old(failed) || !a.Returned?)
      ensures a.Returned? ==> catalog == WithMap(old(catalog), name) && id == old(catalog).next
      ensures a.Refused? ==> catalog == old(catalog)
      ensures catalog == old(catalog) || catalog == WithMap(old(catalog), name)
    {
      var effect;
      a, effect := Fate();
      id := catalog.next;
      if effect {
        catalog := WithMap(catalog, name);
      }
    }

    method DeleteMap(m: Id) returns (a: Answer)
      modifies this
      ensures failed == (old(failed) || !a.Returned?)
      ensures a.Returned? ==> catalog == WithoutMap(old(catalog), m)
      ensures a.Refused? ==> catalog == old(catalog)
      ensures catalog == old(catalog) || catalog == WithoutMap(old(catalog), m)
    {
      var effect;
      a, effect := Fate();
      if effect {
        catalog := WithoutMap(catalog, m);
      }
    }
  }
}
