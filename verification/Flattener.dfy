/** The `$defs` flattener: inline definitions move to `components.schemas`, and each
    `#/$defs/X` is rewritten to the component that stands for its innermost definition. */
module Flattener {
  import opened Json
  import opened Wrappers

  const DEFS := "$defs"
  const REF := "$ref"
  const TITLE := "title"
  const INLINE := "#/$defs/"
  const COMPONENT := "#/components/schemas/"
  const PROMOTED := "InlineDef_"

  /** `components.schemas` of the input, and the first eight hex digits of the sha1 of a
      schema's sorted-key text. */
  datatype Source = Source(components: map<string, Json>, digest: Json -> string)

  /** The `$defs` blocks around a node, innermost outermost-constructor. */
  datatype Env = Root | Block(defs: map<string, Json>, outer: Env)

  /** An inline definition and the scope its body is read in: its own block included. */
  datatype Def = Def(name: string, schema: Json, env: Env)

  function InlineName(m: map<string, Json>): Option<string> {
    if REF in m && m[REF].Str? && INLINE <= m[REF].value
    then Some(m[REF].value[|INLINE|..])
    else None
  }

  function ComponentName(m: map<string, Json>): Option<string> {
    if REF in m && m[REF].Str? && COMPONENT <= m[REF].value
    then Some(m[REF].value[|COMPONENT|..])
    else None
  }

  predicate HasDefs(m: map<string, Json>) {
    DEFS in m && m[DEFS].Obj?
  }

  // ---- naming ---------------------------------------------------------------

  function SyntheticName(c: Source, name: string, schema: Json): string {
    PROMOTED + name + "_" + c.digest(schema)
  }

  /** The inline copy is identical to the top-level schema of its name. */
  predicate Reuses(c: Source, name: string, schema: Json) {
    name in c.components && c.components[name] != Null && c.components[name] == schema
  }

  function ResolvedName(c: Source, name: string, schema: Json): string {
    if Reuses(c, name, schema) then name else SyntheticName(c, name, schema)
  }

  function Titled(schema: Json, title: string): Json {
    if schema.Obj? && TITLE in schema.fields then Obj(schema.fields[TITLE := Str(title)]) else schema
  }

  /** The synthetic name is taken by a top-level schema of another shape. */
  predicate Collides(c: Source, name: string, schema: Json) {
    var synth := SyntheticName(c, name, schema);
    && !Reuses(c, name, schema)
    && synth in c.components && c.components[synth] != Null
    && c.components[synth] != Titled(schema, synth)
  }

  function Frame(c: Source, defs: map<string, Json>): map<string, string> {
    map n | n in defs :: ResolvedName(c, n, defs[n])
  }

  /** The innermost frame that knows the name decides. */
  function Lookup(stack: seq<map<string, string>>, name: string): Option<string> {
    if stack == [] then None
    else if name in stack[|stack| - 1] then Some(stack[|stack| - 1][name])
    else Lookup(stack[..|stack| - 1], name)
  }

  function Names(c: Source, env: Env): seq<map<string, string>> {
    match env
    case Root => []
    case Block(defs, outer) => Names(c, outer) + [Frame(c, defs)]
  }

  function Find(env: Env, name: string): (found: Option<Env>)
    ensures found.Some? ==> found.value.Block? && name in found.value.defs
  {
    match env
    case Root => None
    case Block(defs, outer) => if name in defs then Some(env) else Find(outer, name)
  }

  lemma {:induction false} LookupFinds(c: Source, env: Env, name: string)
    ensures Lookup(Names(c, env), name) ==
      match Find(env, name)
      case None => None
      case Some(e) => Some(ResolvedName(c, name, e.defs[name]))
  {
    if env.Block? {
      LookupFinds(c, env.outer, name);
      assert Names(c, env)[..|Names(c, env)| - 1] == Names(c, env.outer);
    }
  }

  // ---- what the walk returns --------------------------------------------------

  function Rewrite(c: Source, node: Json, stack: seq<map<string, string>>): Json
    decreases node
  {
    match node
    case Obj(m) =>
      if InlineName(m).Some? then
        var target := Lookup(stack, InlineName(m).value);
        if target.Some? then Obj(m[REF := Str(COMPONENT + target.value)]) else node
      else if HasDefs(m) then
        var inner := stack + [Frame(c, m[DEFS].fields)];
        Obj(map k | k in m && k != DEFS :: Rewrite(c, m[k], inner))
      else
        Obj(map k | k in m :: Rewrite(c, m[k], stack))
    case Arr(items) =>
      Arr(seq(|items|, i requires 0 <= i < |items| => Rewrite(c, items[i], stack)))
    case _ => node
  }

  /** The walk exits: an inline reference with no definition in scope, or a name collision. */
  predicate Aborts(c: Source, node: Json, stack: seq<map<string, string>>)
    decreases node
  {
    match node
    case Obj(m) =>
      if InlineName(m).Some? then Lookup(stack, InlineName(m).value).None?
      else if HasDefs(m) then
        var defs := m[DEFS].fields;
        var inner := stack + [Frame(c, defs)];
        || (exists n :: n in defs && Collides(c, n, defs[n]))
        || (exists n :: n in defs && Aborts(c, defs[n], inner))
        || (exists k :: k in m && k != DEFS && Aborts(c, m[k], inner))
      else exists k :: k in m && Aborts(c, m[k], stack)
    case Arr(items) => exists i :: 0 <= i < |items| && Aborts(c, items[i], stack)
    case _ => false
  }

  /** The walk meets the inline definition `d` somewhere under `node`. */
  ghost predicate Meets(node: Json, env: Env, d: Def)
    decreases node
  {
    match node
    case Obj(m) =>
      if InlineName(m).Some? then false
      else if HasDefs(m) then
        var inner := Block(m[DEFS].fields, env);
        || d in OwnDefs(inner)
        || (exists n :: n in inner.defs && Meets(inner.defs[n], inner, d))
        || (exists k :: k in m && k != DEFS && Meets(m[k], inner, d))
      else exists k :: k in m && Meets(m[k], env, d)
    case Arr(items) => exists i :: 0 <= i < |items| && Meets(items[i], env, d)
    case _ => false
  }

  ghost function Defs(node: Json, env: Env): iset<Def> {
    iset d | Meets(node, env, d)
  }

  /** The definitions of a block itself. */
  ghost function OwnDefs(inner: Env): iset<Def> {
    if inner.Root? then iset{} else NamedDefs(inner.defs, inner)
  }

  ghost function NamedDefs(m: map<string, Json>, inner: Env): iset<Def> {
    iset d | Defines(m, inner, d)
  }

  predicate Defines(m: map<string, Json>, inner: Env, d: Def) {
    d.name in m && d.schema == m[d.name] && d.env == inner
  }

  // ---- when the walk exits, in terms of the document ----------------------------------

  /** `out` is `body` with the title `t`, if it has a title. */
  predicate RetitledAs(body: Json, out: Json, t: string) {
    if body.Obj? && "title" in body.fields then
      && out.Obj? && out.fields.Keys == body.fields.Keys && out.fields["title"] == Str(t)
      && forall k :: k in body.fields && k != "title" ==> out.fields[k] == body.fields[k]
    else out == body
  }

  lemma TitledIs(body: Json, out: Json, t: string)
    ensures RetitledAs(body, out, t) <==> out == Titled(body, t)
  {
    if RetitledAs(body, out, t) && body.Obj? && TITLE in body.fields {
      assert out.fields == body.fields[TITLE := Str(t)];
    }
  }

  /** A top-level schema other than null has the name and is this schema. */
  predicate HasTwin(c: Source, d: Def) {
    d.name in c.components && c.components[d.name] != Null && c.components[d.name] == d.schema
  }

  function PromotedKey(c: Source, d: Def): string {
    "InlineDef_" + (d.name + ("_" + c.digest(d.schema)))
  }

  /** The definition has no twin, and its synthetic name is that of a top-level schema which
      differs from it in more than the title. */
  predicate Clashes(c: Source, d: Def) {
    var t := PromotedKey(c, d);
    !HasTwin(c, d) && t in c.components && c.components[t] != Null && !RetitledAs(d.schema, c.components[t], t)
  }

  /** Every inline reference that is met stands inside a block that defines its name. */
  ghost predicate AllBound(node: Json, env: Env)
    decreases node
  {
    match node
    case Obj(m) =>
      if InlineName(m).Some? then Find(env, InlineName(m).value).Some?
      else if HasDefs(m) then
        var inner := Block(m[DEFS].fields, env);
        && (forall n :: n in inner.defs ==> AllBound(inner.defs[n], inner))
        && forall k :: k in m && k != DEFS ==> AllBound(m[k], inner)
      else forall k :: k in m ==> AllBound(m[k], env)
    case Arr(items) => forall i :: 0 <= i < |items| ==> AllBound(items[i], env)
    case _ => true
  }

  ghost predicate MeetsClash(c: Source, node: Json, env: Env) {
    exists d :: Meets(node, env, d) && Clashes(c, d)
  }

  lemma CollidesIs(c: Source, d: Def)
    ensures Collides(c, d.name, d.schema) <==> Clashes(c, d)
    ensures SyntheticName(c, d.name, d.schema) == PromotedKey(c, d)
    ensures Reuses(c, d.name, d.schema) <==> HasTwin(c, d)
  {
    var t := PromotedKey(c, d);
    assert SyntheticName(c, d.name, d.schema) == t;
    if t in c.components {
      TitledIs(d.schema, c.components[t], t);
    }
  }

  lemma BlockClashes(c: Source, m: map<string, Json>, env: Env)
    requires InlineName(m).None? && HasDefs(m)
    ensures var inner := Block(m[DEFS].fields, env);
            MeetsClash(c, Obj(m), env) <==>
              || (exists n :: n in inner.defs && Collides(c, n, inner.defs[n]))
              || (exists n :: n in inner.defs && MeetsClash(c, inner.defs[n], inner))
              || (exists k :: k in m && k != DEFS && MeetsClash(c, m[k], inner))
  {
    var inner := Block(m[DEFS].fields, env);
    if d :| Meets(Obj(m), env, d) && Clashes(c, d) {
      CollidesIs(c, d);
    }
    if n :| n in inner.defs && Collides(c, n, inner.defs[n]) {
      var d := Def(n, inner.defs[n], inner);
      CollidesIs(c, d);
      assert d in OwnDefs(inner) && Meets(Obj(m), env, d);
    }
    if n :| n in inner.defs && MeetsClash(c, inner.defs[n], inner) {
      var d :| Meets(inner.defs[n], inner, d) && Clashes(c, d);
      assert Meets(Obj(m), env, d);
    }
    if k :| k in m && k != DEFS && MeetsClash(c, m[k], inner) {
      var d :| Meets(m[k], inner, d) && Clashes(c, d);
      assert Meets(Obj(m), env, d);
    }
  }

  lemma DictClashes(c: Source, m: map<string, Json>, env: Env)
    requires InlineName(m).None? && !HasDefs(m)
    ensures MeetsClash(c, Obj(m), env) <==> exists k :: k in m && MeetsClash(c, m[k], env)
  {
    if k :| k in m && MeetsClash(c, m[k], env) {
      var d :| Meets(m[k], env, d) && Clashes(c, d);
      assert Meets(Obj(m), env, d);
    }
  }

  lemma ItemsClash(c: Source, items: seq<Json>, env: Env)
    ensures MeetsClash(c, Arr(items), env) <==> exists i :: 0 <= i < |items| && MeetsClash(c, items[i], env)
  {
    if i :| 0 <= i < |items| && MeetsClash(c, items[i], env) {
      var d :| Meets(items[i], env, d) && Clashes(c, d);
      assert Meets(Arr(items), env, d);
    }
  }

  /** The walk exits exactly on an unbound reference or a definition that clashes. */
  lemma {:induction false} AbortsIff(c: Source, node: Json, env: Env)
    ensures Aborts(c, node, Names(c, env)) <==> !AllBound(node, env) || MeetsClash(c, node, env)
    decreases node
  {
    match node
    case Obj(m) =>
      if InlineName(m).Some? {
        LookupFinds(c, env, InlineName(m).value);
      } else if HasDefs(m) {
        var inner := Block(m[DEFS].fields, env);
        forall n | n in inner.defs
          ensures Aborts(c, inner.defs[n], Names(c, inner)) <==>
                    !AllBound(inner.defs[n], inner) || MeetsClash(c, inner.defs[n], inner)
        {
          AbortsIff(c, inner.defs[n], inner);
        }
        forall k | k in m && k != DEFS
          ensures Aborts(c, m[k], Names(c, inner)) <==> !AllBound(m[k], inner) || MeetsClash(c, m[k], inner)
        {
          AbortsIff(c, m[k], inner);
        }
        BlockClashes(c, m, env);
      } else {
        forall k | k in m ensures Aborts(c, m[k], Names(c, env)) <==> !AllBound(m[k], env) || MeetsClash(c, m[k], env) {
          AbortsIff(c, m[k], env);
        }
        DictClashes(c, m, env);
      }
    case Arr(items) =>
      forall i | 0 <= i < |items|
        ensures Aborts(c, items[i], Names(c, env)) <==> !AllBound(items[i], env) || MeetsClash(c, items[i], env)
      {
        AbortsIff(c, items[i], env);
      }
      ItemsClash(c, items, env);
    case _ =>
  }

  /** Without a top-level schema under a synthetic name, bound references are all it takes. */
  lemma NoClashes(c: Source, node: Json, env: Env)
    requires forall t :: t in c.components ==> !("InlineDef_" <= t)
    ensures !MeetsClash(c, node, env)
  {
    forall d ensures !Clashes(c, d) {
      assert "InlineDef_" <= PromotedKey(c, d);
    }
  }

  /** How many inline references the walk rewrites. */
  ghost function VisitedRefs(node: Json): nat
    decreases node
  {
    match node
    case Obj(m) =>
      if InlineName(m).Some? then 1
      else if HasDefs(m) then
        Total(map n | n in m[DEFS].fields :: VisitedRefs(m[DEFS].fields[n]))
        + Total(map k | k in m && k != DEFS :: VisitedRefs(m[k]))
      else Total(map k | k in m :: VisitedRefs(m[k]))
    case Arr(items) => SumItems(seq(|items|, i requires 0 <= i < |items| => VisitedRefs(items[i])))
    case _ => 0
  }

  /** How many `$defs` blocks the walk removes. */
  ghost function VisitedBlocks(node: Json): nat
    decreases node
  {
    match node
    case Obj(m) =>
      if InlineName(m).Some? then 0
      else if HasDefs(m) then
        Total(map n | n in m[DEFS].fields :: VisitedBlocks(m[DEFS].fields[n]))
        + 1 + Total(map k | k in m && k != DEFS :: VisitedBlocks(m[k]))
      else Total(map k | k in m :: VisitedBlocks(m[k]))
    case Arr(items) => SumItems(seq(|items|, i requires 0 <= i < |items| => VisitedBlocks(items[i])))
    case _ => 0
  }

  ghost function SumItems(s: seq<nat>): nat {
    if s == [] then 0 else SumItems(s[..|s| - 1]) + s[|s| - 1]
  }

  // ---- the entries of a dict, together -------------------------------------------

  function EntryRewrites(c: Source, m: map<string, Json>, stack: seq<map<string, string>>): map<string, Json> {
    map k | k in m :: Rewrite(c, m[k], stack)
  }

  ghost predicate EntryAborts(c: Source, m: map<string, Json>, stack: seq<map<string, string>>) {
    exists k :: k in m && Aborts(c, m[k], stack)
  }

  ghost predicate EntryMeets(m: map<string, Json>, env: Env, d: Def) {
    exists k :: k in m && Meets(m[k], env, d)
  }

  ghost function EntryDefs(m: map<string, Json>, env: Env): iset<Def> {
    iset d | EntryMeets(m, env, d)
  }

  ghost function EntryRefs(m: map<string, Json>): nat {
    Total(map k | k in m :: VisitedRefs(m[k]))
  }

  ghost function EntryBlocks(m: map<string, Json>): nat {
    Total(map k | k in m :: VisitedBlocks(m[k]))
  }

  lemma SplitRewrites(c: Source, m: map<string, Json>, k: string, stack: seq<map<string, string>>)
    requires k in m
    ensures EntryRewrites(c, m, stack) == EntryRewrites(c, m - {k}, stack)[k := Rewrite(c, m[k], stack)]
  {
  }

  lemma SplitAborts(c: Source, m: map<string, Json>, k: string, stack: seq<map<string, string>>)
    requires k in m
    ensures EntryAborts(c, m, stack) <==> Aborts(c, m[k], stack) || EntryAborts(c, m - {k}, stack)
  {
    var rest := m - {k};
    if EntryAborts(c, m, stack) && !Aborts(c, m[k], stack) {
      var x :| x in m && Aborts(c, m[x], stack);
      assert x in rest && rest[x] == m[x];
    }
    if EntryAborts(c, rest, stack) {
      var x :| x in rest && Aborts(c, rest[x], stack);
      assert x in m && rest[x] == m[x];
    }
  }

  lemma SplitDefs(m: map<string, Json>, k: string, env: Env)
    requires k in m
    ensures EntryDefs(m, env) == Defs(m[k], env) + EntryDefs(m - {k}, env)
  {
    var rest := m - {k};
    forall d | d in EntryDefs(m, env) ensures d in Defs(m[k], env) + EntryDefs(rest, env) {
      var x :| x in m && Meets(m[x], env, d);
      assert x != k ==> x in rest && rest[x] == m[x];
    }
    forall d | d in EntryDefs(rest, env) ensures d in EntryDefs(m, env) {
      var x :| x in rest && Meets(rest[x], env, d);
      assert x in m && rest[x] == m[x];
    }
  }

  lemma SplitRefs(m: map<string, Json>, k: string)
    requires k in m
    ensures EntryRefs(m) == VisitedRefs(m[k]) + EntryRefs(m - {k})
  {
    var refs := map x | x in m :: VisitedRefs(m[x]);
    TotalPick(refs, k);
    assert refs - {k} == map x | x in m - {k} :: VisitedRefs((m - {k})[x]);
  }

  lemma SplitBlocks(m: map<string, Json>, k: string)
    requires k in m
    ensures EntryBlocks(m) == VisitedBlocks(m[k]) + EntryBlocks(m - {k})
  {
    var blocks := map x | x in m :: VisitedBlocks(m[x]);
    TotalPick(blocks, k);
    assert blocks - {k} == map x | x in m - {k} :: VisitedBlocks((m - {k})[x]);
  }

  lemma EntrySplit(c: Source, m: map<string, Json>, k: string, env: Env)
    requires k in m
    ensures EntryRewrites(c, m, Names(c, env))
         == EntryRewrites(c, m - {k}, Names(c, env))[k := Rewrite(c, m[k], Names(c, env))]
    ensures EntryAborts(c, m, Names(c, env)) <==>
            Aborts(c, m[k], Names(c, env)) || EntryAborts(c, m - {k}, Names(c, env))
    ensures EntryDefs(m, env) == Defs(m[k], env) + EntryDefs(m - {k}, env)
    ensures EntryRefs(m) == VisitedRefs(m[k]) + EntryRefs(m - {k})
    ensures EntryBlocks(m) == VisitedBlocks(m[k]) + EntryBlocks(m - {k})
  {
    SplitRewrites(c, m, k, Names(c, env));
    SplitAborts(c, m, k, Names(c, env));
    SplitDefs(m, k, env);
    SplitRefs(m, k);
    SplitBlocks(m, k);
  }

  lemma NoEntries(c: Source, env: Env)
    ensures EntryRewrites(c, map[], Names(c, env)) == map[] && !EntryAborts(c, map[], Names(c, env))
    ensures EntryDefs(map[], env) == iset{} && NamedDefs(map[], env) == iset{}
    ensures PromotedNames(c, NamedDefs(map[], env)) == iset{}
  {
    var none: map<string, Json> := map[];
    assert EntryRewrites(c, none, Names(c, env)).Keys == {};
  }

  lemma PlainNode(c: Source, m: map<string, Json>, env: Env)
    requires InlineName(m).None? && !HasDefs(m)
    ensures Rewrite(c, Obj(m), Names(c, env)) == Obj(EntryRewrites(c, m, Names(c, env)))
    ensures Aborts(c, Obj(m), Names(c, env)) <==> EntryAborts(c, m, Names(c, env))
    ensures Defs(Obj(m), env) == EntryDefs(m, env)
    ensures VisitedRefs(Obj(m)) == EntryRefs(m) && VisitedBlocks(Obj(m)) == EntryBlocks(m)
  {
  }

  lemma ScopedRewrite(c: Source, m: map<string, Json>, env: Env)
    requires InlineName(m).None? && HasDefs(m)
    ensures Rewrite(c, Obj(m), Names(c, env))
         == Obj(EntryRewrites(c, m - {DEFS}, Names(c, Block(m[DEFS].fields, env))))
  {
    var stack := Names(c, Block(m[DEFS].fields, env));
    assert (map k | k in m && k != DEFS :: Rewrite(c, m[k], stack)) == EntryRewrites(c, m - {DEFS}, stack);
  }

  lemma ScopedAborts(c: Source, m: map<string, Json>, env: Env)
    requires InlineName(m).None? && HasDefs(m)
    ensures var defs := m[DEFS].fields;
            var stack := Names(c, Block(defs, env));
            Aborts(c, Obj(m), Names(c, env)) <==>
              || (exists n :: n in defs && Collides(c, n, defs[n]))
              || EntryAborts(c, defs, stack) || EntryAborts(c, m - {DEFS}, stack)
  {
    var rest, stack := m - {DEFS}, Names(c, Block(m[DEFS].fields, env));
    if k :| k in m && k != DEFS && Aborts(c, m[k], stack) {
      assert k in rest && rest[k] == m[k];
    }
    if EntryAborts(c, rest, stack) {
      var k :| k in rest && Aborts(c, rest[k], stack);
      assert k in m && k != DEFS && rest[k] == m[k];
    }
  }

  lemma ScopedDefs(m: map<string, Json>, env: Env)
    requires InlineName(m).None? && HasDefs(m)
    ensures var inner := Block(m[DEFS].fields, env);
            Defs(Obj(m), env) == OwnDefs(inner) + EntryDefs(inner.defs, inner) + EntryDefs(m - {DEFS}, inner)
  {
    var rest, inner := m - {DEFS}, Block(m[DEFS].fields, env);
    forall d ensures (exists k :: k in m && k != DEFS && Meets(m[k], inner, d)) <==> EntryMeets(rest, inner, d) {
      if k :| k in m && k != DEFS && Meets(m[k], inner, d) {
        assert k in rest && rest[k] == m[k];
      }
      if EntryMeets(rest, inner, d) {
        var k :| k in rest && Meets(rest[k], inner, d);
        assert k in m && k != DEFS && rest[k] == m[k];
      }
    }
  }

  lemma ScopedRefs(m: map<string, Json>)
    requires InlineName(m).None? && HasDefs(m)
    ensures VisitedRefs(Obj(m)) == EntryRefs(m[DEFS].fields) + EntryRefs(m - {DEFS})
  {
    var rest := m - {DEFS};
    assert (map k | k in m && k != DEFS :: VisitedRefs(m[k])) == map k | k in rest :: VisitedRefs(rest[k]);
  }

  lemma ScopedBlocks(m: map<string, Json>)
    requires InlineName(m).None? && HasDefs(m)
    ensures VisitedBlocks(Obj(m)) == EntryBlocks(m[DEFS].fields) + 1 + EntryBlocks(m - {DEFS})
  {
    var rest := m - {DEFS};
    assert (map k | k in m && k != DEFS :: VisitedBlocks(m[k])) == map k | k in rest :: VisitedBlocks(rest[k]);
  }

  // ---- the promotions -------------------------------------------------------------

  /** A promoted body keeps its synthetic title when the rewritten body replaces it. */
  function WriteBack(body: Json, target: string): Json {
    if PROMOTED <= target then Titled(body, target) else body
  }

  ghost function PromotedNames(c: Source, ds: iset<Def>): iset<string> {
    iset t | AnyPromotes(c, ds, t)
  }

  ghost predicate AnyPromotes(c: Source, ds: iset<Def>, t: string) {
    exists d :: d in ds && Promotes(c, d, t)
  }

  predicate Promotes(c: Source, d: Def, t: string) {
    !Reuses(c, d.name, d.schema) && SyntheticName(c, d.name, d.schema) == t
  }

  /** `body` is the rewritten body of one of the definitions that resolve to `k`. */
  ghost predicate WrittenBack(c: Source, ds: iset<Def>, k: string, body: Json) {
    exists d :: d in ds && ResolvedName(c, d.name, d.schema) == k
             && body == WriteBack(Rewrite(c, d.schema, Names(c, d.env)), k)
  }

  /** The walk has met the definitions `met`; the names in `pending` are bound by blocks
      still being walked, and may hold the body first stored. */
  ghost predicate Stored(c: Source, promotions: map<string, Json>, met: iset<Def>, pending: iset<string>) {
    && (forall t :: t in promotions <==> t in pending || t in PromotedNames(c, met))
    && forall k :: k in promotions ==> k in pending || WrittenBack(c, met, k, promotions[k])
  }

  lemma WrittenBackMore(c: Source, met: iset<Def>, met': iset<Def>, k: string, body: Json)
    requires met <= met' && WrittenBack(c, met, k, body)
    ensures WrittenBack(c, met', k, body)
  {
  }

  /** Binding one more name of a block. */
  lemma StoredBind(c: Source, promotions: map<string, Json>, met: iset<Def>, pending: iset<string>, t: string,
                   first: Json)
    requires Stored(c, promotions, met, pending)
    ensures Stored(c, if t in promotions then promotions else promotions[t := first], met, pending + iset{t})
  {
  }

  /** Storing the rewritten body of `d` settles its name. */
  lemma StoredSettle(c: Source, promotions: map<string, Json>, met: iset<Def>, d: Def, pending: iset<string>)
    requires Stored(c, promotions, met, PromotedNames(c, iset{d}) + pending)
    ensures var t := ResolvedName(c, d.name, d.schema);
            var body := WriteBack(Rewrite(c, d.schema, Names(c, d.env)), t);
            Stored(c, if t in promotions then promotions[t := body] else promotions, met + iset{d}, pending)
  {
    var t := ResolvedName(c, d.name, d.schema);
    var body := WriteBack(Rewrite(c, d.schema, Names(c, d.env)), t);
    var after := if t in promotions then promotions[t := body] else promotions;
    PromotedUnion(c, met, iset{d});
    PromotedOne(c, d);
    forall k | k in after ensures k in pending || WrittenBack(c, met + iset{d}, k, after[k]) {
      if k == t {
        assert d in met + iset{d};
      } else if k !in pending {
        WrittenBackMore(c, met, met + iset{d}, k, promotions[k]);
      }
    }
  }

  lemma PromotedUnion(c: Source, a: iset<Def>, b: iset<Def>)
    ensures PromotedNames(c, a + b) == PromotedNames(c, a) + PromotedNames(c, b)
  {
  }

  lemma PromotedOne(c: Source, d: Def)
    ensures PromotedNames(c, iset{d}) ==
            if Reuses(c, d.name, d.schema) then iset{} else iset{SyntheticName(c, d.name, d.schema)}
  {
    if !Reuses(c, d.name, d.schema) {
      assert d in iset{d} && Promotes(c, d, SyntheticName(c, d.name, d.schema));
    }
  }

  // ---- the walk, as the script runs it -------------------------------------------

  class Walker {
    const c: Source
    var promotions: map<string, Json>
    var renameStack: seq<map<string, string>>

    constructor (c: Source)
      ensures this.c == c && promotions == map[] && renameStack == []
    {
      this.c := c;
      promotions, renameStack := map[], [];
    }

    /** `_resolve_defs_entry`; None is the exit on a name collision. */
    method Resolve(name: string, schema: Json) returns (r: Option<string>)
      modifies this`promotions
      ensures r == if Collides(c, name, schema) then None else Some(ResolvedName(c, name, schema))
      ensures promotions == if Reuses(c, name, schema) || r.None? || SyntheticName(c, name, schema) in old(promotions)
                            then old(promotions)
                            else old(promotions)[SyntheticName(c, name, schema) :=
                                                 Titled(schema, SyntheticName(c, name, schema))]
    {
      if name in c.components && c.components[name] != Null && c.components[name] == schema {
        return Some(name);
      }
      var synth := SyntheticName(c, name, schema);
      var promoted := schema;
      if schema.Obj? && TITLE in schema.fields {
        promoted := Obj(schema.fields[TITLE := Str(synth)]);
      }
      if synth in c.components && c.components[synth] != Null && c.components[synth] != promoted {
        return None;
      }
      if synth !in promotions {
        promotions := promotions[synth := promoted];
      }
      return Some(synth);
    }

    /** The first pass over a block: binds every name of the block. */
    method BindNames(defs: map<string, Json>, ghost env: Env, ghost met: iset<Def>, ghost pending: iset<string>)
      returns (r: Option<map<string, string>>)
      requires Stored(c, promotions, met, pending)
      modifies this`promotions
      ensures r.None? <==> exists n :: n in defs && Collides(c, n, defs[n])
      ensures r.Some? ==> r.value == Frame(c, defs)
      ensures r.Some? ==>
        Stored(c, promotions, met, PromotedNames(c, OwnDefs(Block(defs, env))) + pending)
    {
      var frame: map<string, string> := map[];
      var rest := defs;
      NothingBound(c, defs);
      UnionEmpty(pending);
      MapStart(Frame(c, defs));
      while rest != map[]
        invariant rest.Keys <= defs.Keys && forall n :: n in rest ==> rest[n] == defs[n]
        invariant frame.Keys !! rest.Keys
        invariant frame + Frame(c, rest) == Frame(c, defs)
        invariant forall n :: n in defs && Collides(c, n, defs[n]) ==> n in rest
        invariant Stored(c, promotions, met, BoundNames(c, defs, rest.Keys) + pending)
        decreases |rest|
      {
        var name :| name in rest;
        Fewer(rest, name);
        ghost var before := promotions;
        var resolved := Resolve(name, defs[name]);
        if resolved.None? {
          return None;
        }
        BoundNext(c, defs, rest.Keys, name);
        if !Reuses(c, name, defs[name]) {
          var synth := SyntheticName(c, name, defs[name]);
          StoredBind(c, before, met, BoundNames(c, defs, rest.Keys) + pending, synth, Titled(defs[name], synth));
          UnionRight(BoundNames(c, defs, rest.Keys), pending, iset{synth});
        } else {
          UnionDone(BoundNames(c, defs, rest.Keys));
        }
        FrameSplit(c, rest, name);
        MapStep(frame, Frame(c, rest - {name}), name, resolved.value);
        frame := frame[name := resolved.value];
        rest := rest - {name};
      }
      BoundAll(c, defs, env);
      MapDone(frame);
      return Some(frame);
    }

    /** `_walk`; None is one of the two exits. `met` is what the walk has met before,
        `pending` the names bound by the blocks around `node`. */
    method Walk(node: Json, ghost env: Env, ghost met: iset<Def>, ghost pending: iset<string>)
      returns (r: Option<Json>, refs: nat, blocks: nat)
      requires renameStack == Names(c, env) && Stored(c, promotions, met, pending)
      modifies this
      ensures r == if Aborts(c, node, Names(c, env)) then None else Some(Rewrite(c, node, Names(c, env)))
      ensures r.Some? ==> renameStack == old(renameStack)
      ensures r.Some? ==> refs == VisitedRefs(node) && blocks == VisitedBlocks(node)
      ensures r.Some? ==> Stored(c, promotions, met + Defs(node, env), pending)
      decreases node, 2
    {
      match node
      case Obj(m) =>
        var ref := InlineName(m);
        if ref.Some? {
          var target := Lookup(renameStack, ref.value);
          assert met + Defs(node, env) == met;
          if target.None? {
            return None, 0, 0;
          }
          return Some(Obj(m[REF := Str(COMPONENT + target.value)])), 1, 0;
        }
        if HasDefs(m) {
          r, refs, blocks := WalkBlock(m, node, env, met, pending);
        } else {
          PlainNode(c, m, env);
          var fields;
          fields, refs, blocks := WalkEntries(m, node, env, met, pending);
          r := if fields.None? then None else Some(Obj(fields.value));
        }
      case Arr(items) =>
        ItemsAll(c, items, env);
        var list;
        list, refs, blocks := WalkItems(items, node, env, met, pending);
        r := if list.None? then None else Some(Arr(list.value));
      case _ =>
        assert met + Defs(node, env) == met;
        return Some(node), 0, 0;
    }

    /** The values of a dict, in whatever order they come. */
    method WalkEntries(m: map<string, Json>, ghost parent: Json,
                       ghost env: Env, ghost met: iset<Def>, ghost pending: iset<string>)
      returns (r: Option<map<string, Json>>, refs: nat, blocks: nat)
      requires renameStack == Names(c, env) && Stored(c, promotions, met, pending)
      requires forall k :: k in m ==> m[k] < parent
      modifies this
      ensures r == if EntryAborts(c, m, Names(c, env)) then None else Some(EntryRewrites(c, m, Names(c, env)))
      ensures r.Some? ==> renameStack == old(renameStack)
      ensures r.Some? ==> refs == EntryRefs(m) && blocks == EntryBlocks(m)
      ensures r.Some? ==> Stored(c, promotions, met + EntryDefs(m, env), pending)
      decreases parent, 0
    {
      var fields: map<string, Json> := map[];
      var rest := m;
      ghost var seen := met;
      refs, blocks := 0, 0;
      while rest != map[]
        invariant rest.Keys <= m.Keys && forall k :: k in rest ==> rest[k] == m[k]
        invariant renameStack == Names(c, env)
        invariant fields.Keys !! rest.Keys
        invariant fields + EntryRewrites(c, rest, Names(c, env)) == EntryRewrites(c, m, Names(c, env))
        invariant EntryAborts(c, m, Names(c, env)) <==> EntryAborts(c, rest, Names(c, env))
        invariant refs + EntryRefs(rest) == EntryRefs(m) && blocks + EntryBlocks(rest) == EntryBlocks(m)
        invariant seen + EntryDefs(rest, env) == met + EntryDefs(m, env)
        invariant Stored(c, promotions, seen, pending)
        decreases |rest|
      {
        var key :| key in rest;
        Fewer(rest, key);
        EntrySplit(c, rest, key, env);
        var value, subRefs, subBlocks := Walk(rest[key], env, seen, pending);
        if value.None? {
          return None, 0, 0;
        }
        UnionStep(seen, Defs(rest[key], env), EntryDefs(rest - {key}, env));
        MapStep(fields, EntryRewrites(c, rest - {key}, Names(c, env)), key, value.value);
        seen := seen + Defs(rest[key], env);
        fields := fields[key := value.value];
        refs, blocks := refs + subRefs, blocks + subBlocks;
        rest := rest - {key};
      }
      NoEntries(c, env);
      CountsDone(m, rest, refs, blocks);
      MapDone(fields);
      UnionDone(seen);
      return Some(fields), refs, blocks;
    }

    method WalkItems(items: seq<Json>, ghost parent: Json,
                     ghost env: Env, ghost met: iset<Def>, ghost pending: iset<string>)
      returns (r: Option<seq<Json>>, refs: nat, blocks: nat)
      requires renameStack == Names(c, env) && Stored(c, promotions, met, pending)
      requires forall i :: 0 <= i < |items| ==> items[i] < parent
      modifies this
      ensures r == if ItemAborts(c, items, |items|, env) then None else Some(ItemRewrites(c, items, |items|, env))
      ensures r.Some? ==> renameStack == old(renameStack)
      ensures r.Some? ==> refs == ItemRefs(items, |items|) && blocks == ItemBlocks(items, |items|)
      ensures r.Some? ==> Stored(c, promotions, met + ItemDefs(items, |items|, env), pending)
      decreases parent, 1
    {
      var list: seq<Json> := [];
      refs, blocks := 0, 0;
      NoItems(c, items, env);
      UnionDone(met);
      for i := 0 to |items|
        invariant renameStack == Names(c, env)
        invariant list == ItemRewrites(c, items, i, env) && !ItemAborts(c, items, i, env)
        invariant refs == ItemRefs(items, i) && blocks == ItemBlocks(items, i)
        invariant Stored(c, promotions, met + ItemDefs(items, i, env), pending)
      {
        var ok;
        ok, list, refs, blocks := WalkItem(items, i, list, refs, blocks, parent, env, met, pending);
        if !ok {
          return None, 0, 0;
        }
      }
      return Some(list), refs, blocks;
    }

    /** One more item of a list. */
    method WalkItem(items: seq<Json>, i: nat, list: seq<Json>, refs: nat, blocks: nat, ghost parent: Json,
                    ghost env: Env, ghost met: iset<Def>, ghost pending: iset<string>)
      returns (ok: bool, list': seq<Json>, refs': nat, blocks': nat)
      requires i < |items| && items[i] < parent && renameStack == Names(c, env)
      requires list == ItemRewrites(c, items, i, env) && !ItemAborts(c, items, i, env)
      requires refs == ItemRefs(items, i) && blocks == ItemBlocks(items, i)
      requires Stored(c, promotions, met + ItemDefs(items, i, env), pending)
      modifies this
      ensures !ok ==> ItemAborts(c, items, |items|, env)
      ensures ok ==> renameStack == old(renameStack) && !ItemAborts(c, items, i + 1, env)
      ensures ok ==> list' == ItemRewrites(c, items, i + 1, env)
      ensures ok ==> refs' == ItemRefs(items, i + 1) && blocks' == ItemBlocks(items, i + 1)
      ensures ok ==> Stored(c, promotions, met + ItemDefs(items, i + 1, env), pending)
      decreases parent, 0
    {
      var item, subRefs, subBlocks := Walk(items[i], env, met + ItemDefs(items, i, env), pending);
      if item.None? {
        OneItemAborts(c, items, i, env);
        return false, [], 0, 0;
      }
      NextItem(c, items, i, env);
      UnionStep(met, ItemDefs(items, i, env), Defs(items[i], env));
      return true, list + [item.value], refs + subRefs, blocks + subBlocks;
    }

    /** A dict that carries a `$defs` block: bind, walk the bodies, walk the rest, unbind. */
    method WalkBlock(m: map<string, Json>, ghost node: Json,
                     ghost env: Env, ghost met: iset<Def>, ghost pending: iset<string>)
      returns (r: Option<Json>, refs: nat, blocks: nat)
      requires node == Obj(m) && InlineName(m).None? && HasDefs(m)
      requires renameStack == Names(c, env) && Stored(c, promotions, met, pending)
      modifies this
      ensures r == if Aborts(c, node, Names(c, env)) then None else Some(Rewrite(c, node, Names(c, env)))
      ensures r.Some? ==> renameStack == old(renameStack)
      ensures r.Some? ==> refs == VisitedRefs(node) && blocks == VisitedBlocks(node)
      ensures r.Some? ==> Stored(c, promotions, met + Defs(node, env), pending)
      decreases node, 1
    {
      ScopedRewrite(c, m, env);
      ScopedAborts(c, m, env);
      ScopedDefs(m, env);
      ScopedRefs(m);
      ScopedBlocks(m);
      var defs := m[DEFS].fields;
      ghost var inner := Block(defs, env);
      var frame := BindNames(defs, env, met, pending);
      if frame.None? {
        return None, 0, 0;
      }
      renameStack := renameStack + [frame.value];
      var ok, bodyRefs, bodyBlocks := WalkBodies(defs, frame.value, node, inner, met, pending);
      if !ok {
        return None, 0, 0;
      }
      ghost var seen := met + OwnDefs(inner) + EntryDefs(defs, inner);
      var fields, restRefs, restBlocks := WalkEntries(m - {DEFS}, node, inner, seen, pending);
      if fields.None? {
        return None, 0, 0;
      }
      renameStack := renameStack[..|renameStack| - 1];
      PopNames(c, inner);
      UnionAll(met, OwnDefs(inner), EntryDefs(defs, inner), EntryDefs(m - {DEFS}, inner));
      return Some(Obj(fields.value)), bodyRefs + restRefs, bodyBlocks + 1 + restBlocks;
    }

    /** One definition of a block: its rewritten body replaces the one first stored, under
        the synthetic title, if the name it resolved to was promoted. */
    method WalkBody(target: string, schema: Json, ghost d: Def, ghost met: iset<Def>, ghost pending: iset<string>)
      returns (ok: bool, refs: nat, blocks: nat)
      requires schema == d.schema && target == ResolvedName(c, d.name, schema) && renameStack == Names(c, d.env)
      requires Stored(c, promotions, met, PromotedNames(c, iset{d}) + pending)
      modifies this
      ensures ok <==> !Aborts(c, schema, Names(c, d.env))
      ensures ok ==> renameStack == old(renameStack)
      ensures ok ==> refs == VisitedRefs(schema) && blocks == VisitedBlocks(schema)
      ensures ok ==> Stored(c, promotions, met + Defs(schema, d.env) + iset{d}, pending)
      decreases schema, 3
    {
      var body;
      body, refs, blocks := Walk(schema, d.env, met, PromotedNames(c, iset{d}) + pending);
      if body.None? {
        return false, 0, 0;
      }
      StoredSettle(c, promotions, met + Defs(schema, d.env), d, pending);
      if target in promotions {
        var stored := body.value;
        if stored.Obj? && TITLE in stored.fields && PROMOTED <= target {
          stored := Obj(stored.fields[TITLE := Str(target)]);
        }
        promotions := promotions[target := stored];
      }
      ok := true;
    }

    /** Where the second pass stands when the bodies of `rest` are left. */
    ghost predicate PassAt(defs: map<string, Json>, rest: map<string, Json>, inner: Env, met: iset<Def>,
                           seen: iset<Def>, pending: iset<string>, refs: nat, blocks: nat)
      reads this
    {
      && renameStack == Names(c, inner) && BodiesLeft(c, defs, rest, inner, met, seen)
      && refs + EntryRefs(rest) == EntryRefs(defs) && blocks + EntryBlocks(rest) == EntryBlocks(defs)
      && Stored(c, promotions, seen, PromotedNames(c, NamedDefs(rest, inner)) + pending)
    }

    /** One body of the second pass, of those that are left. */
    method WalkNextBody(target: string, schema: Json, rest: map<string, Json>, name: string, refs: nat, blocks: nat,
                        ghost defs: map<string, Json>, ghost inner: Env,
                        ghost met: iset<Def>, ghost seen: iset<Def>, ghost pending: iset<string>)
      returns (ok: bool, refs': nat, blocks': nat, ghost more: iset<Def>)
      requires PassAt(defs, rest, inner, met, seen, pending, refs, blocks) && name in rest && schema == rest[name]
      requires target == ResolvedName(c, name, schema)
      modifies this
      ensures !ok ==> EntryAborts(c, defs, Names(c, inner))
      ensures ok ==> renameStack == old(renameStack)
      ensures ok ==> PassAt(defs, rest - {name}, inner, met, more, pending, refs', blocks')
      decreases schema, 4
    {
      ghost var d := Def(name, schema, inner);
      more := seen + Defs(schema, inner) + iset{d};
      BodiesNext(c, defs, rest, name, inner, met, seen, pending);
      var subRefs, subBlocks;
      ok, subRefs, subBlocks :=
        WalkBody(target, schema, d, seen, PromotedNames(c, NamedDefs(rest - {name}, inner)) + pending);
      refs', blocks' := refs + subRefs, blocks + subBlocks;
    }

    /** The second pass over a block: walks each body in the block's scope. */
    method WalkBodies(defs: map<string, Json>, frame: map<string, string>, ghost parent: Json,
                      ghost inner: Env, ghost met: iset<Def>, ghost pending: iset<string>)
      returns (ok: bool, refs: nat, blocks: nat)
      requires inner.Block? && inner.defs == defs && frame == Frame(c, defs)
      requires renameStack == Names(c, inner)
      requires Stored(c, promotions, met, PromotedNames(c, OwnDefs(inner)) + pending)
      requires forall n :: n in defs ==> defs[n] < parent
      modifies this
      ensures ok <==> !EntryAborts(c, defs, Names(c, inner))
      ensures ok ==> renameStack == old(renameStack)
      ensures ok ==> refs == EntryRefs(defs) && blocks == EntryBlocks(defs)
      ensures ok ==> Stored(c, promotions, met + OwnDefs(inner) + EntryDefs(defs, inner), pending)
      decreases parent, 0
    {
      var rest := defs;
      ghost var seen := met;
      refs, blocks := 0, 0;
      while rest != map[]
        invariant PassAt(defs, rest, inner, met, seen, pending, refs, blocks)
        invariant forall n :: n in rest ==> n in defs && rest[n] == defs[n]
        decreases |rest|
      {
        var name :| name in rest;
        Fewer(rest, name);
        ok, refs, blocks, seen :=
          WalkNextBody(frame[name], rest[name], rest, name, refs, blocks, defs, inner, met, seen, pending);
        if !ok {
          return;
        }
        rest := rest - {name};
      }
      BodiesDone(c, promotions, defs, rest, inner, met, seen, pending);
      CountsDone(defs, rest, refs, blocks);
      return true, refs, blocks;
    }
  }

  // ---- the script: find the schemas, walk, merge ------------------------------------

  const COMPONENTS := "components"
  const SCHEMAS := "schemas"

  /** Refused: an error message and exit 1. Crashed: an exception the script does not catch. */
  datatype Outcome = Flattened(doc: Json, promotions: map<string, Json>, refs: nat, blocks: nat) | Refused | Crashed

  /** `spec.get("components", {}).get("schemas", {})`. */
  function Schemas(spec: Json): Option<Json> {
    if !spec.Obj? then None
    else if COMPONENTS !in spec.fields then Some(Obj(map[]))
    else if !spec.fields[COMPONENTS].Obj? then None
    else if SCHEMAS !in spec.fields[COMPONENTS].fields then Some(Obj(map[]))
    else Some(spec.fields[COMPONENTS].fields[SCHEMAS])
  }

  predicate HasSchemas(doc: Json) {
    && doc.Obj? && COMPONENTS in doc.fields && doc.fields[COMPONENTS].Obj?
    && SCHEMAS in doc.fields[COMPONENTS].fields && doc.fields[COMPONENTS].fields[SCHEMAS].Obj?
  }

  function WithSchemas(doc: Json, schemas: map<string, Json>): Json
    requires HasSchemas(doc)
  {
    Obj(doc.fields[COMPONENTS := Obj(doc.fields[COMPONENTS].fields[SCHEMAS := Obj(schemas)])])
  }

  /** The walked document with the promotions beside its schemas, which they never replace. */
  function Merged(flat: Json, promotions: map<string, Json>): Json {
    if HasSchemas(flat) then WithSchemas(flat, promotions + flat.fields[COMPONENTS].fields[SCHEMAS].fields) else flat
  }

  function SourceOf(spec: Json, digest: Json -> string): Source
    requires Schemas(spec).Some? && Schemas(spec).value.Obj?
  {
    Source(Schemas(spec).value.fields, digest)
  }

  /** A promoted schema never replaces an existing one. */
  method Merge(flat: map<string, Json>, promotions: map<string, Json>) returns (merged: map<string, Json>)
    ensures merged == promotions + flat
  {
    merged := flat;
    var rest := promotions;
    while rest != map[]
      invariant rest.Keys <= promotions.Keys && forall k :: k in rest ==> rest[k] == promotions[k]
      invariant rest + merged == promotions + flat
      decreases |rest|
    {
      var name :| name in rest;
      Fewer(rest, name);
      MergeStep(rest, merged, name);
      if name !in merged {
        merged := merged[name := rest[name]];
      }
      rest := rest - {name};
    }
    MapStart(merged);
  }

  /** `components` is missing or a dict, and `schemas` in it is missing or a dict. */
  predicate TakesSchemas(spec: Json) {
    && spec.Obj?
    && ("components" in spec.fields ==>
          && spec.fields["components"].Obj?
          && ("schemas" in spec.fields["components"].fields ==> spec.fields["components"].fields["schemas"].Obj?))
  }

  /** The top-level schemas, none if they are missing. */
  function TopLevel(spec: Json): map<string, Json>
    requires TakesSchemas(spec)
  {
    if "components" in spec.fields && "schemas" in spec.fields["components"].fields
    then spec.fields["components"].fields["schemas"].fields else map[]
  }

  lemma SomePromoted(c: Source, spec: Json)
    ensures PromotedNames(c, Defs(spec, Root)) != iset{} <==> exists d :: Meets(spec, Root, d) && !HasTwin(c, d)
  {
    if d :| Meets(spec, Root, d) && !HasTwin(c, d) {
      CollidesIs(c, d);
      assert d in Defs(spec, Root) && Promotes(c, d, PromotedKey(c, d));
      assert PromotedKey(c, d) in PromotedNames(c, Defs(spec, Root));
    }
    if PromotedNames(c, Defs(spec, Root)) != iset{} {
      var t :| t in PromotedNames(c, Defs(spec, Root));
      var d :| d in Defs(spec, Root) && Promotes(c, d, t);
      CollidesIs(c, d);
    }
  }

  method Flatten(spec: Json, digest: Json -> string) returns (r: Outcome)
    ensures !spec.Obj? || ("components" in spec.fields && !spec.fields["components"].Obj?) ==> r == Crashed
    ensures !TakesSchemas(spec) ==> r == Crashed || r == Refused
    ensures TakesSchemas(spec) ==>
      var c := Source(TopLevel(spec), digest);
      && (r.Refused? <==> !AllBound(spec, Root) || MeetsClash(c, spec, Root))
      && (r.Crashed? <==> !r.Refused? && !HasSchemas(Rewrite(c, spec, []))
                          && exists d :: Meets(spec, Root, d) && !HasTwin(c, d))
    ensures Schemas(spec).None? ==> r == Crashed
    ensures Schemas(spec).Some? && !Schemas(spec).value.Obj? ==> r == Refused
    ensures Schemas(spec).Some? && Schemas(spec).value.Obj? ==>
      var c := SourceOf(spec, digest);
      if Aborts(c, spec, []) then r == Refused
      else if PromotedNames(c, Defs(spec, Root)) != iset{} && !HasSchemas(Rewrite(c, spec, [])) then r == Crashed
      else
        && r.Flattened?
        && Stored(c, r.promotions, Defs(spec, Root), iset{})
        && r.refs == VisitedRefs(spec) && r.blocks == VisitedBlocks(spec)
        && var flat := Rewrite(c, spec, []);
           r.doc == Merged(flat, r.promotions)
    ensures Schemas(spec).Some? && Schemas(spec).value.Obj? ==>
      var c := SourceOf(spec, digest);
      && (r.Refused? <==> !AllBound(spec, Root) || MeetsClash(c, spec, Root))
      && ((forall t :: t in c.components ==> !("InlineDef_" <= t)) && AllBound(spec, Root) ==> !r.Refused?)
  {
    var schemas := Schemas(spec);
    if schemas.None? {
      return Crashed;
    }
    if !schemas.value.Obj? {
      return Refused;
    }
    AbortsIff(Source(schemas.value.fields, digest), spec, Root);
    SomePromoted(Source(schemas.value.fields, digest), spec);
    if forall t :: t in schemas.value.fields ==> !("InlineDef_" <= t) {
      NoClashes(Source(schemas.value.fields, digest), spec, Root);
    }
    var walker := new Walker(Source(schemas.value.fields, digest));
    var flat, refs, blocks := walker.Walk(spec, Root, iset{}, iset{});
    if flat.None? {
      return Refused;
    }
    UnionEmpty(Defs(spec, Root));
    var promotions, doc := walker.promotions, flat.value;
    if promotions == map[] {
      if HasSchemas(doc) {
        SameSchemas(doc);
        MapStart(doc.fields[COMPONENTS].fields[SCHEMAS].fields);
      }
      return Flattened(doc, promotions, refs, blocks);
    }
    var name :| name in promotions;
    if !HasSchemas(doc) {
      return Crashed;
    }
    var merged := Merge(doc.fields[COMPONENTS].fields[SCHEMAS].fields, promotions);
    return Flattened(WithSchemas(doc, merged), promotions, refs, blocks);
  }

  lemma SameSchemas(doc: Json)
    requires HasSchemas(doc)
    ensures WithSchemas(doc, doc.fields[COMPONENTS].fields[SCHEMAS].fields) == doc
  {
    var comp := doc.fields[COMPONENTS];
    assert comp.fields[SCHEMAS := comp.fields[SCHEMAS]] == comp.fields;
    assert doc.fields[COMPONENTS := comp] == doc.fields;
  }

  // ---- what the loops carry ----------------------------------------------------------

  lemma UnionStep<T(!new)>(a: iset<T>, b: iset<T>, c: iset<T>)
    ensures a + (b + c) == (a + b) + c
  {
  }

  lemma UnionSwap<T(!new)>(a: iset<T>, b: iset<T>, c: iset<T>, c': iset<T>, b': iset<T>)
    ensures a + (c' + c) + (b + b') == (a + b + c) + c' + b'
  {
  }

  /** `rest` are the bodies of a block that are still to be walked. */
  ghost predicate BodiesLeft(c: Source, defs: map<string, Json>, rest: map<string, Json>, inner: Env,
                             met: iset<Def>, seen: iset<Def>) {
    && rest.Keys <= defs.Keys && (forall n :: n in rest ==> rest[n] == defs[n])
    && (EntryAborts(c, defs, Names(c, inner)) <==> EntryAborts(c, rest, Names(c, inner)))
    && seen + NamedDefs(rest, inner) + EntryDefs(rest, inner) == met + OwnDefs(inner) + EntryDefs(defs, inner)
  }

  lemma BodiesNext(c: Source, defs: map<string, Json>, rest: map<string, Json>, name: string, inner: Env,
                   met: iset<Def>, seen: iset<Def>, pending: iset<string>)
    requires BodiesLeft(c, defs, rest, inner, met, seen) && name in rest
    ensures var others, d := rest - {name}, Def(name, rest[name], inner);
            && (if Aborts(c, rest[name], Names(c, inner)) then EntryAborts(c, defs, Names(c, inner))
                else BodiesLeft(c, defs, others, inner, met, seen + Defs(rest[name], inner) + iset{d}))
            && PromotedNames(c, NamedDefs(rest, inner)) + pending
               == PromotedNames(c, iset{d}) + (PromotedNames(c, NamedDefs(others, inner)) + pending)
            && EntryRefs(rest) == VisitedRefs(rest[name]) + EntryRefs(others)
            && EntryBlocks(rest) == VisitedBlocks(rest[name]) + EntryBlocks(others)
            && |others| < |rest|
  {
    var others, d := rest - {name}, Def(name, rest[name], inner);
    Fewer(rest, name);
    EntrySplit(c, rest, name, inner);
    NamedSplit(c, rest, inner, name);
    UnionStep(PromotedNames(c, iset{d}), PromotedNames(c, NamedDefs(others, inner)), pending);
    UnionSwap(seen, Defs(rest[name], inner), iset{d}, NamedDefs(others, inner), EntryDefs(others, inner));
  }

  lemma BodiesDone(c: Source, promotions: map<string, Json>, defs: map<string, Json>, rest: map<string, Json>,
                   inner: Env, met: iset<Def>, seen: iset<Def>, pending: iset<string>)
    requires rest == map[] && BodiesLeft(c, defs, rest, inner, met, seen)
    requires Stored(c, promotions, seen, PromotedNames(c, NamedDefs(rest, inner)) + pending)
    ensures !EntryAborts(c, defs, Names(c, inner))
    ensures Stored(c, promotions, met + OwnDefs(inner) + EntryDefs(defs, inner), pending)
  {
    NoEntries(c, inner);
    UnionDone(seen);
    UnionEmpty(pending);
  }

  lemma CountsDone(defs: map<string, Json>, rest: map<string, Json>, refs: nat, blocks: nat)
    requires rest == map[]
    requires refs + EntryRefs(rest) == EntryRefs(defs) && blocks + EntryBlocks(rest) == EntryBlocks(defs)
    ensures refs == EntryRefs(defs) && blocks == EntryBlocks(defs)
  {
    NoCounts();
  }

  lemma NoCounts()
    ensures EntryRefs(map[]) == 0 && EntryBlocks(map[]) == 0
  {
  }

  lemma Fewer<V>(m: map<string, V>, k: string)
    requires k in m
    ensures |m - {k}| < |m| && (m - {k}).Keys == m.Keys - {k}
  {
    assert |(m - {k}).Keys| < |m.Keys|;
  }

  lemma MapStart<V>(rest: map<string, V>)
    ensures map[] + rest == rest
  {
  }

  lemma MergeStep<V>(rest: map<string, V>, merged: map<string, V>, name: string)
    requires name in rest
    ensures name in merged ==> (rest - {name}) + merged == rest + merged
    ensures name !in merged ==> (rest - {name}) + merged[name := rest[name]] == rest + merged
  {
  }

  lemma MapDone<V>(done: map<string, V>)
    ensures done + map[] == done
  {
  }

  lemma UnionDone<T(!new)>(a: iset<T>)
    ensures a + iset{} == a
  {
  }

  lemma UnionAll<T(!new)>(a: iset<T>, b: iset<T>, c: iset<T>, d: iset<T>)
    ensures a + b + c + d == a + (b + c + d)
  {
  }

  lemma PopNames(c: Source, inner: Env)
    requires inner.Block?
    ensures Names(c, inner)[..|Names(c, inner)| - 1] == Names(c, inner.outer)
  {
  }

  lemma UnionEmpty<T(!new)>(a: iset<T>)
    ensures iset{} + a == a
  {
  }

  lemma UnionRight<T(!new)>(a: iset<T>, b: iset<T>, c: iset<T>)
    ensures (a + b) + c == (a + c) + b
  {
  }

  lemma MapStep<V>(done: map<string, V>, rest: map<string, V>, k: string, v: V)
    requires k !in rest
    ensures done[k := v] + rest == done + rest[k := v]
  {
  }

  /** The synthetic names of the definitions of a block already bound. */
  ghost function BoundNames(c: Source, defs: map<string, Json>, todo: set<string>): iset<string> {
    iset t | Bound(c, defs, todo, t)
  }

  ghost predicate Bound(c: Source, defs: map<string, Json>, todo: set<string>, t: string) {
    exists n :: n in defs && n !in todo && !Reuses(c, n, defs[n]) && SyntheticName(c, n, defs[n]) == t
  }

  lemma FrameSplit(c: Source, defs: map<string, Json>, name: string)
    requires name in defs
    ensures Frame(c, defs) == Frame(c, defs - {name})[name := ResolvedName(c, name, defs[name])]
    ensures (defs - {name}).Keys == defs.Keys - {name}
  {
  }

  lemma NothingBound(c: Source, defs: map<string, Json>)
    ensures BoundNames(c, defs, defs.Keys) == iset{}
    ensures Frame(c, map[]) == map[]
  {
  }

  lemma BoundNext(c: Source, defs: map<string, Json>, todo: set<string>, name: string)
    requires name in todo && name in defs
    ensures BoundNames(c, defs, todo - {name}) == BoundNames(c, defs, todo)
            + if Reuses(c, name, defs[name]) then iset{} else iset{SyntheticName(c, name, defs[name])}
  {
  }

  lemma BoundAll(c: Source, defs: map<string, Json>, env: Env)
    ensures BoundNames(c, defs, {}) == PromotedNames(c, OwnDefs(Block(defs, env)))
  {
    var inner := Block(defs, env);
    forall n | n in defs && !Reuses(c, n, defs[n])
      ensures SyntheticName(c, n, defs[n]) in PromotedNames(c, OwnDefs(inner))
    {
      var d := Def(n, defs[n], inner);
      assert d in OwnDefs(inner) && Promotes(c, d, SyntheticName(c, n, defs[n]));
    }
  }

  lemma NamedSplit(c: Source, m: map<string, Json>, inner: Env, name: string)
    requires name in m
    ensures NamedDefs(m, inner) == NamedDefs(m - {name}, inner) + iset{Def(name, m[name], inner)}
    ensures PromotedNames(c, NamedDefs(m, inner))
         == PromotedNames(c, iset{Def(name, m[name], inner)}) + PromotedNames(c, NamedDefs(m - {name}, inner))
  {
    PromotedUnion(c, NamedDefs(m - {name}, inner), iset{Def(name, m[name], inner)});
  }

  ghost function ItemRefs(items: seq<Json>, n: nat): nat
    requires n <= |items|
  {
    if n == 0 then 0 else ItemRefs(items, n - 1) + VisitedRefs(items[n - 1])
  }

  ghost function ItemBlocks(items: seq<Json>, n: nat): nat
    requires n <= |items|
  {
    if n == 0 then 0 else ItemBlocks(items, n - 1) + VisitedBlocks(items[n - 1])
  }

  ghost function ItemDefs(items: seq<Json>, n: nat, env: Env): iset<Def>
    requires n <= |items|
  {
    iset d | ItemMeets(items, n, env, d)
  }

  ghost predicate ItemMeets(items: seq<Json>, n: nat, env: Env, d: Def)
    requires n <= |items|
  {
    exists i :: 0 <= i < n && Meets(items[i], env, d)
  }

  ghost function ItemRewrites(c: Source, items: seq<Json>, n: nat, env: Env): seq<Json>
    requires n <= |items|
  {
    seq(n, i requires 0 <= i < n => Rewrite(c, items[i], Names(c, env)))
  }

  ghost predicate ItemAborts(c: Source, items: seq<Json>, n: nat, env: Env)
    requires n <= |items|
  {
    exists i :: 0 <= i < n && Aborts(c, items[i], Names(c, env))
  }

  lemma NextItem(c: Source, items: seq<Json>, i: nat, env: Env)
    requires i < |items|
    ensures ItemDefs(items, i + 1, env) == ItemDefs(items, i, env) + Defs(items[i], env)
    ensures ItemRewrites(c, items, i + 1, env)
         == ItemRewrites(c, items, i, env) + [Rewrite(c, items[i], Names(c, env))]
    ensures ItemAborts(c, items, i + 1, env) <==>
            ItemAborts(c, items, i, env) || Aborts(c, items[i], Names(c, env))
  {
    forall d | d in Defs(items[i], env) ensures d in ItemDefs(items, i + 1, env) {
    }
  }

  lemma NoItems(c: Source, items: seq<Json>, env: Env)
    ensures ItemDefs(items, 0, env) == iset{}
    ensures ItemRewrites(c, items, 0, env) == [] && !ItemAborts(c, items, 0, env)
  {
  }

  lemma OneItemAborts(c: Source, items: seq<Json>, i: nat, env: Env)
    requires i < |items| && Aborts(c, items[i], Names(c, env))
    ensures ItemAborts(c, items, |items|, env)
  {
  }

  lemma {:induction false} ItemSums(s: seq<nat>, items: seq<Json>, refs: bool, n: nat)
    requires n <= |items| == |s|
    requires forall i :: 0 <= i < |s| ==> s[i] == if refs then VisitedRefs(items[i]) else VisitedBlocks(items[i])
    ensures SumItems(s[..n]) == if refs then ItemRefs(items, n) else ItemBlocks(items, n)
  {
    if n != 0 {
      ItemSums(s, items, refs, n - 1);
      assert s[..n][..n - 1] == s[..n - 1];
    }
  }

  lemma ItemsAll(c: Source, items: seq<Json>, env: Env)
    ensures ItemRefs(items, |items|) == VisitedRefs(Arr(items))
    ensures ItemBlocks(items, |items|) == VisitedBlocks(Arr(items))
    ensures Rewrite(c, Arr(items), Names(c, env)) == Arr(ItemRewrites(c, items, |items|, env))
    ensures Aborts(c, Arr(items), Names(c, env)) == ItemAborts(c, items, |items|, env)
    ensures Defs(Arr(items), env) == ItemDefs(items, |items|, env)
  {
    var refs := seq(|items|, i requires 0 <= i < |items| => VisitedRefs(items[i]));
    var blocks := seq(|items|, i requires 0 <= i < |items| => VisitedBlocks(items[i]));
    ItemSums(refs, items, true, |items|);
    ItemSums(blocks, items, false, |items|);
    assert refs[..|items|] == refs && blocks[..|items|] == blocks;
  }
}
