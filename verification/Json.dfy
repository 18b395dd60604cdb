/** JSON values. A dict is a map: two dicts are equal when their sorted-key texts are. */
module Json {

  datatype Json =
    | Null
    | Scalar(text: string)
    | Str(value: string)
    | Arr(items: seq<Json>)
    | Obj(fields: map<string, Json>)

  /** The sum of a map's values. */
  ghost function Total(m: map<string, nat>): nat {
    if m == map[] then 0
    else
      var k :| k in m;
      m[k] + Total(m - {k})
  }

  lemma {:induction false} TotalPick(m: map<string, nat>, k: string)
    requires k in m
    ensures Total(m) == m[k] + Total(m - {k})
    decreases |m|
  {
    var k' :| k' in m && Total(m) == m[k'] + Total(m - {k'});
    if k' != k {
      TotalPick(m - {k'}, k);
      TotalPick(m - {k}, k');
      assert m - {k} - {k'} == m - {k'} - {k};
    }
  }

  lemma TotalZero(m: map<string, nat>)
    requires forall k :: k in m ==> m[k] == 0
    ensures Total(m) == 0
    decreases |m|
  {
    if m != map[] {
      var k :| k in m && Total(m) == m[k] + Total(m - {k});
      TotalZero(m - {k});
    }
  }

  lemma TotalZeroEach(m: map<string, nat>, k: string)
    requires Total(m) == 0 && k in m
    ensures m[k] == 0
  {
    TotalPick(m, k);
  }
}
