/** What flattening promises: it removes every inline reference and `$defs` block, counts
    them, leaves no rewritten reference dangling, and keeps the meaning of every schema. */
module FlattenerMeaning {
  import opened Flattener
  import opened Json
  import opened Wrappers

  // ---- counts ---------------------------------------------------------------------

  /** The inline references in a document, wherever they stand. The keys of a `$defs`
      block are names, so the block itself is no reference. */
  ghost function InlineRefs(node: Json): nat
    decreases node
  {
    match node
    case Obj(m) =>
      (if InlineName(m).Some? then 1 else 0)
      + (if HasDefs(m) then Total(map n | n in m[DEFS].fields :: InlineRefs(m[DEFS].fields[n])) else 0)
      + Total(map k | k in m && !(k == DEFS && HasDefs(m)) :: InlineRefs(m[k]))
    case Arr(items) => SumItems(seq(|items|, i requires 0 <= i < |items| => InlineRefs(items[i])))
    case _ => 0
  }

  /** The `$defs` blocks in a document, wherever they stand. */
  ghost function Blocks(node: Json): nat
    decreases node
  {
    match node
    case Obj(m) =>
      (if HasDefs(m) then 1 + Total(map n | n in m[DEFS].fields :: Blocks(m[DEFS].fields[n])) else 0)
      + Total(map k | k in m && !(k == DEFS && HasDefs(m)) :: Blocks(m[k]))
    case Arr(items) => SumItems(seq(|items|, i requires 0 <= i < |items| => Blocks(items[i])))
    case _ => 0
  }

  ghost predicate Flat(node: Json) {
    InlineRefs(node) == 0 && Blocks(node) == 0
  }

  /** No inline reference has a sibling that holds a `$defs` block or another one: the
      walk returns at the reference without looking at its siblings. */
  ghost predicate Inert(node: Json)
    decreases node
  {
    match node
    case Obj(m) =>
      if InlineName(m).Some? then !HasDefs(m) && forall k :: k in m ==> Flat(m[k])
      else
        && (forall k :: k in m && !(k == DEFS && HasDefs(m)) ==> Inert(m[k]))
        && (HasDefs(m) ==> forall n :: n in m[DEFS].fields ==> Inert(m[DEFS].fields[n]))
    case Arr(items) => forall i :: 0 <= i < |items| ==> Inert(items[i])
    case _ => true
  }

  ghost predicate Counted(node: Json) {
    VisitedRefs(node) == InlineRefs(node) && VisitedBlocks(node) == Blocks(node)
  }

  lemma ReferenceCounted(m: map<string, Json>)
    requires InlineName(m).Some? && !HasDefs(m) && forall k :: k in m ==> Flat(m[k])
    ensures Counted(Obj(m))
  {
    TotalZero(map k | k in m && !(k == DEFS && HasDefs(m)) :: InlineRefs(m[k]));
    TotalZero(map k | k in m && !(k == DEFS && HasDefs(m)) :: Blocks(m[k]));
  }

  lemma BlockRefsCounted(m: map<string, Json>)
    requires InlineName(m).None? && HasDefs(m)
    requires forall n :: n in m[DEFS].fields ==> Counted(m[DEFS].fields[n])
    requires forall k :: k in m && k != DEFS ==> Counted(m[k])
    ensures VisitedRefs(Obj(m)) == InlineRefs(Obj(m))
  {
    var defs := m[DEFS].fields;
    assert (map n | n in defs :: VisitedRefs(defs[n])) == map n | n in defs :: InlineRefs(defs[n]);
    assert (map k | k in m && k != DEFS :: VisitedRefs(m[k]))
        == map k | k in m && !(k == DEFS && HasDefs(m)) :: InlineRefs(m[k]);
  }

  lemma BlockBlocksCounted(m: map<string, Json>)
    requires InlineName(m).None? && HasDefs(m)
    requires forall n :: n in m[DEFS].fields ==> Counted(m[DEFS].fields[n])
    requires forall k :: k in m && k != DEFS ==> Counted(m[k])
    ensures VisitedBlocks(Obj(m)) == Blocks(Obj(m))
  {
    var defs := m[DEFS].fields;
    assert (map n | n in defs :: VisitedBlocks(defs[n])) == map n | n in defs :: Blocks(defs[n]);
    assert (map k | k in m && k != DEFS :: VisitedBlocks(m[k]))
        == map k | k in m && !(k == DEFS && HasDefs(m)) :: Blocks(m[k]);
  }

  lemma PlainCounted(m: map<string, Json>)
    requires InlineName(m).None? && !HasDefs(m) && forall k :: k in m ==> Counted(m[k])
    ensures Counted(Obj(m))
  {
    assert (map k | k in m :: VisitedRefs(m[k])) == map k | k in m && !(k == DEFS && HasDefs(m)) :: InlineRefs(m[k]);
    assert (map k | k in m :: VisitedBlocks(m[k])) == map k | k in m && !(k == DEFS && HasDefs(m)) :: Blocks(m[k]);
  }

  lemma ItemsCounted(items: seq<Json>)
    requires forall i :: 0 <= i < |items| ==> Counted(items[i])
    ensures Counted(Arr(items))
  {
    assert seq(|items|, i requires 0 <= i < |items| => VisitedRefs(items[i]))
        == seq(|items|, i requires 0 <= i < |items| => InlineRefs(items[i]));
    assert seq(|items|, i requires 0 <= i < |items| => VisitedBlocks(items[i]))
        == seq(|items|, i requires 0 <= i < |items| => Blocks(items[i]));
  }

  /** The walk counts every inline reference and every block. */
  lemma {:induction false} CountsAreComplete(node: Json)
    requires Inert(node)
    ensures VisitedRefs(node) == InlineRefs(node) && VisitedBlocks(node) == Blocks(node)
    decreases node
  {
    match node
    case Obj(m) =>
      if InlineName(m).Some? {
        ReferenceCounted(m);
      } else if HasDefs(m) {
        forall n | n in m[DEFS].fields ensures Counted(m[DEFS].fields[n]) { CountsAreComplete(m[DEFS].fields[n]); }
        forall k | k in m && k != DEFS ensures Counted(m[k]) { CountsAreComplete(m[k]); }
        BlockRefsCounted(m);
        BlockBlocksCounted(m);
      } else {
        forall k | k in m ensures Counted(m[k]) { CountsAreComplete(m[k]); }
        PlainCounted(m);
      }
    case Arr(items) =>
      forall i | 0 <= i < |items| ensures Counted(items[i]) { CountsAreComplete(items[i]); }
      ItemsCounted(items);
    case _ =>
  }

  // ---- elimination -------------------------------------------------------------------

  lemma NotInline(target: string)
    ensures !(INLINE <= COMPONENT + target)
    ensures COMPONENT <= COMPONENT + target && (COMPONENT + target)[|COMPONENT|..] == target
  {
    assert (COMPONENT + target)[2] == 'c' && INLINE[2] == '$';
  }

  lemma FlatObj(m: map<string, Json>)
    requires InlineName(m).None? && !HasDefs(m)
    requires forall k :: k in m ==> Flat(m[k])
    ensures Flat(Obj(m))
  {
    TotalZero(map k | k in m && !(k == DEFS && HasDefs(m)) :: InlineRefs(m[k]));
    TotalZero(map k | k in m && !(k == DEFS && HasDefs(m)) :: Blocks(m[k]));
  }

  lemma {:induction false} ZeroItems(s: seq<nat>)
    requires forall i :: 0 <= i < |s| ==> s[i] == 0
    ensures SumItems(s) == 0
  {
    if s != [] {
      ZeroItems(s[..|s| - 1]);
    }
  }

  lemma RewriteKeepsShape(c: Source, m: map<string, Json>, stack: seq<map<string, string>>)
    requires InlineName(m).None?
    ensures var out := Rewrite(c, Obj(m), stack);
            out.Obj? && InlineName(out.fields).None? && !HasDefs(out.fields)
            && ComponentName(out.fields) == ComponentName(m)
  {
    assert REF != DEFS;
  }

  lemma FlatItems(items: seq<Json>)
    requires forall i :: 0 <= i < |items| ==> Flat(items[i])
    ensures Flat(Arr(items))
  {
    ZeroItems(seq(|items|, i requires 0 <= i < |items| => InlineRefs(items[i])));
    ZeroItems(seq(|items|, i requires 0 <= i < |items| => Blocks(items[i])));
  }

  /** Rewriting leaves no inline reference and no `$defs` block. */
  lemma {:induction false} RewriteIsFlat(c: Source, node: Json, stack: seq<map<string, string>>)
    requires Inert(node) && !Aborts(c, node, stack)
    ensures InlineRefs(Rewrite(c, node, stack)) == 0 && Blocks(Rewrite(c, node, stack)) == 0
    decreases node
  {
    match node
    case Obj(m) =>
      if InlineName(m).Some? {
        NotInline(Lookup(stack, InlineName(m).value).value);
        FlatObj(Rewrite(c, node, stack).fields);
      } else {
        var inner := if HasDefs(m) then stack + [Frame(c, m[DEFS].fields)] else stack;
        var out := Rewrite(c, node, stack).fields;
        forall k | k in out ensures Flat(out[k]) { RewriteIsFlat(c, m[k], inner); }
        RewriteKeepsShape(c, m, stack);
        FlatObj(out);
      }
    case Arr(items) =>
      var out := Rewrite(c, node, stack).items;
      forall i | 0 <= i < |out| ensures Flat(out[i]) { RewriteIsFlat(c, items[i], stack); }
      FlatItems(out);
    case _ =>
  }

  /** `node` holds a reference to the component `x`. */
  ghost predicate Refers(node: Json, x: string)
    decreases node
  {
    match node
    case Obj(m) => ComponentName(m) == Some(x) || exists k :: k in m && Refers(m[k], x)
    case Arr(items) => exists i :: 0 <= i < |items| && Refers(items[i], x)
    case _ => false
  }

  /** The walk of `node` writes a reference to the component `x`. */
  ghost predicate Writes(c: Source, node: Json, env: Env, x: string)
    decreases node
  {
    match node
    case Obj(m) =>
      if InlineName(m).Some? then
        var name := InlineName(m).value;
        Find(env, name).Some? && ResolvedName(c, name, Find(env, name).value.defs[name]) == x
      else if HasDefs(m) then
        exists k :: k in m && k != DEFS && Writes(c, m[k], Block(m[DEFS].fields, env), x)
      else exists k :: k in m && Writes(c, m[k], env, x)
    case Arr(items) => exists i :: 0 <= i < |items| && Writes(c, items[i], env, x)
    case _ => false
  }

  /** The walk of `node` leaves a reference to the component `x` as it stands. */
  ghost predicate Keeps(node: Json, x: string)
    decreases node
  {
    match node
    case Obj(m) =>
      if InlineName(m).Some? then exists k :: k in m && k != REF && Refers(m[k], x)
      else ComponentName(m) == Some(x) || exists k :: k in m && !(k == DEFS && HasDefs(m)) && Keeps(m[k], x)
    case Arr(items) => exists i :: 0 <= i < |items| && Keeps(items[i], x)
    case _ => false
  }

  // ---- scopes ----------------------------------------------------------------------

  /** Every definition of the blocks around a node is among `ds`. */
  ghost predicate EnvIn(env: Env, ds: iset<Def>) {
    env.Block? ==> OwnDefs(env) <= ds && EnvIn(env.outer, ds)
  }

  lemma {:induction false} FoundIsIn(env: Env, ds: iset<Def>, name: string)
    requires EnvIn(env, ds) && Find(env, name).Some?
    ensures var e := Find(env, name).value;
            Def(name, e.defs[name], e) in ds && EnvIn(e, ds)
  {
    if name in env.defs {
      assert Def(name, env.defs[name], env) in OwnDefs(env);
    } else {
      FoundIsIn(env.outer, ds, name);
    }
  }

  lemma WritesInline(c: Source, m: map<string, Json>, env: Env, x: string)
    requires InlineName(m).Some? && !Aborts(c, Obj(m), Names(c, env))
    ensures Refers(Rewrite(c, Obj(m), Names(c, env)), x) <==> Writes(c, Obj(m), env, x) || Keeps(Obj(m), x)
  {
    var name := InlineName(m).value;
    LookupFinds(c, env, name);
    var t := Lookup(Names(c, env), name).value;
    NotInline(t);
    var out := m[REF := Str(COMPONENT + t)];
    assert ComponentName(out) == Some(t);
    assert forall k :: k in out && k != REF ==> out[k] == m[k];
    assert !Refers(out[REF], x);
  }

  /** The references of a rewritten node are those the walk writes and those it leaves. */
  lemma {:induction false} RefersIff(c: Source, node: Json, env: Env, x: string)
    requires !Aborts(c, node, Names(c, env))
    ensures Refers(Rewrite(c, node, Names(c, env)), x) <==> Writes(c, node, env, x) || Keeps(node, x)
    decreases node
  {
    match node
    case Obj(m) =>
      if InlineName(m).Some? {
        WritesInline(c, m, env, x);
      } else {
        var inner := if HasDefs(m) then Block(m[DEFS].fields, env) else env;
        var out := Rewrite(c, node, Names(c, env)).fields;
        RewriteKeepsShape(c, m, Names(c, env));
        forall k | k in out ensures Refers(out[k], x) <==> Writes(c, m[k], inner, x) || Keeps(m[k], x) {
          RefersIff(c, m[k], inner, x);
        }
      }
    case Arr(items) =>
      var out := Rewrite(c, node, Names(c, env)).items;
      forall i | 0 <= i < |out| ensures Refers(out[i], x) <==> Writes(c, items[i], env, x) || Keeps(items[i], x) {
        RefersIff(c, items[i], env, x);
      }
    case _ =>
  }

  /** A reference the walk writes names a component that exists once the promotions are merged. */
  lemma {:induction false} WrittenExist(c: Source, node: Json, env: Env, ds: iset<Def>, x: string)
    requires EnvIn(env, ds) && Defs(node, env) <= ds && Writes(c, node, env, x)
    ensures x in c.components || x in PromotedNames(c, ds)
    decreases node
  {
    match node
    case Obj(m) =>
      if InlineName(m).Some? {
        var name := InlineName(m).value;
        FoundIsIn(env, ds, name);
        var e := Find(env, name).value;
        assert Promotes(c, Def(name, e.defs[name], e), x) || Reuses(c, name, e.defs[name]);
      } else if HasDefs(m) {
        var inner := Block(m[DEFS].fields, env);
        var k :| k in m && k != DEFS && Writes(c, m[k], inner, x);
        assert OwnDefs(inner) <= Defs(node, env);
        assert forall d :: Meets(m[k], inner, d) ==> d in Defs(node, env);
        WrittenExist(c, m[k], inner, ds, x);
      } else {
        var k :| k in m && Writes(c, m[k], env, x);
        assert forall d :: Meets(m[k], env, d) ==> d in Defs(node, env);
        WrittenExist(c, m[k], env, ds, x);
      }
    case Arr(items) =>
      var i :| 0 <= i < |items| && Writes(c, items[i], env, x);
      assert forall d :: Meets(items[i], env, d) ==> d in Defs(node, env);
      WrittenExist(c, items[i], env, ds, x);
    case _ =>
  }

  /** The references of a rewritten node are those the walk leaves as they stand and those it
      writes, and what it writes exists once the promotions are merged. */
  lemma {:induction false} RewrittenRefsExist(c: Source, node: Json, env: Env, ds: iset<Def>, x: string)
    requires EnvIn(env, ds) && Defs(node, env) <= ds && !Aborts(c, node, Names(c, env))
    ensures Refers(Rewrite(c, node, Names(c, env)), x) <==> Writes(c, node, env, x) || Keeps(node, x)
    ensures Writes(c, node, env, x) ==> x in c.components || x in PromotedNames(c, ds)
  {
    RefersIff(c, node, env, x);
    if Writes(c, node, env, x) {
      WrittenExist(c, node, env, ds, x);
    }
  }

  /** `node` uses the inline name `x`, and no block inside `node` defines it. */
  ghost predicate Free(node: Json, x: string)
    decreases node
  {
    match node
    case Obj(m) =>
      if InlineName(m).Some? then InlineName(m).value == x
      else if HasDefs(m) then
        && x !in m[DEFS].fields
        && ((exists n :: n in m[DEFS].fields && Free(m[DEFS].fields[n], x))
            || (exists k :: k in m && k != DEFS && Free(m[k], x)))
      else exists k :: k in m && Free(m[k], x)
    case Arr(items) => exists i :: 0 <= i < |items| && Free(items[i], x)
    case _ => false
  }

  /** The text an inline name stands for in a scope. */
  function Binding(env: Env, x: string): Option<Json> {
    if Find(env, x).None? then None else Some(Find(env, x).value.defs[x])
  }

  /** Two definitions with the same name and text bind their free names to the same text. */
  ghost predicate Coherent(ds: iset<Def>) {
    forall d, d' :: d in ds && d' in ds && d.name == d'.name && d.schema == d'.schema ==>
      forall x :: Free(d.schema, x) ==> Binding(d.env, x) == Binding(d'.env, x)
  }

  /** Rewriting depends on the scope through the free names only. */
  lemma {:induction false} RewriteAgree(c: Source, node: Json, s: seq<map<string, string>>,
                                        s': seq<map<string, string>>)
    requires forall x :: Free(node, x) ==> Lookup(s, x) == Lookup(s', x)
    ensures Rewrite(c, node, s) == Rewrite(c, node, s')
    decreases node
  {
    match node
    case Obj(m) =>
      if InlineName(m).Some? {
        assert Free(node, InlineName(m).value);
      } else if HasDefs(m) {
        var f := Frame(c, m[DEFS].fields);
        forall k | k in m && k != DEFS ensures Rewrite(c, m[k], s + [f]) == Rewrite(c, m[k], s' + [f]) {
          forall x | Free(m[k], x) ensures Lookup(s + [f], x) == Lookup(s' + [f], x) {
            assert (s + [f])[..|s|] == s && (s' + [f])[..|s'|] == s';
            assert x !in f ==> Free(node, x);
          }
          RewriteAgree(c, m[k], s + [f], s' + [f]);
        }
        assert Rewrite(c, node, s).fields == Rewrite(c, node, s').fields;
      } else {
        forall k | k in m ensures Rewrite(c, m[k], s) == Rewrite(c, m[k], s') {
          assert forall x :: Free(m[k], x) ==> Free(node, x);
          RewriteAgree(c, m[k], s, s');
        }
        assert Rewrite(c, node, s).fields == Rewrite(c, node, s').fields;
      }
    case Arr(items) =>
      forall i | 0 <= i < |items| ensures Rewrite(c, items[i], s) == Rewrite(c, items[i], s') {
        assert forall x :: Free(items[i], x) ==> Free(node, x);
        RewriteAgree(c, items[i], s, s');
      }
      assert Rewrite(c, node, s).items == Rewrite(c, node, s').items;
    case _ =>
  }

  lemma FlatParts(node: Json)
    requires Flat(node)
    ensures node.Obj? ==> InlineName(node.fields).None? && !HasDefs(node.fields)
                          && forall k :: k in node.fields ==> Flat(node.fields[k])
    ensures node.Arr? ==> forall i :: 0 <= i < |node.items| ==> Flat(node.items[i])
  {
    match node
    case Obj(m) =>
      var refs := map k | k in m && !(k == DEFS && HasDefs(m)) :: InlineRefs(m[k]);
      var blocks := map k | k in m && !(k == DEFS && HasDefs(m)) :: Blocks(m[k]);
      assert InlineRefs(Obj(m)) == Total(refs) && Blocks(Obj(m)) == Total(blocks);
      forall k | k in m ensures Flat(m[k]) {
        assert k in refs && k in blocks;
        TotalZeroEach(refs, k);
        TotalZeroEach(blocks, k);
      }
    case Arr(items) =>
      forall i | 0 <= i < |items| ensures Flat(items[i]) {
        ItemZero(seq(|items|, j requires 0 <= j < |items| => InlineRefs(items[j])), i);
        ItemZero(seq(|items|, j requires 0 <= j < |items| => Blocks(items[j])), i);
      }
    case _ =>
  }

  lemma FlatDict(c: Source, m: map<string, Json>, env: Env)
    requires InlineName(m).None? && !HasDefs(m)
    requires forall k :: k in m ==>
      Rewrite(c, m[k], Names(c, env)) == m[k] && !Aborts(c, m[k], Names(c, env)) && Inert(m[k])
    requires forall k :: k in m ==> Defs(m[k], env) == iset{}
    ensures Rewrite(c, Obj(m), Names(c, env)) == Obj(m) && !Aborts(c, Obj(m), Names(c, env))
    ensures Inert(Obj(m)) && Defs(Obj(m), env) == iset{}
  {
    assert Rewrite(c, Obj(m), Names(c, env)).fields == m;
    forall k | k in m ensures forall d :: !Meets(m[k], env, d) {
      NoneMet(m[k], env);
    }
    forall d ensures !Meets(Obj(m), env, d) {
    }
  }

  lemma FlatArr(c: Source, items: seq<Json>, env: Env)
    requires forall i :: 0 <= i < |items| ==>
      Rewrite(c, items[i], Names(c, env)) == items[i] && !Aborts(c, items[i], Names(c, env)) && Inert(items[i])
    requires forall i :: 0 <= i < |items| ==> Defs(items[i], env) == iset{}
    ensures Rewrite(c, Arr(items), Names(c, env)) == Arr(items) && !Aborts(c, Arr(items), Names(c, env))
    ensures Inert(Arr(items)) && Defs(Arr(items), env) == iset{}
  {
    assert Rewrite(c, Arr(items), Names(c, env)).items == items;
    forall i | 0 <= i < |items| ensures forall d :: !Meets(items[i], env, d) {
      NoneMet(items[i], env);
    }
    forall d ensures !Meets(Arr(items), env, d) {
    }
  }

  lemma NoneMet(node: Json, env: Env)
    requires Defs(node, env) == iset{}
    ensures forall d :: !Meets(node, env, d)
  {
    forall d ensures !Meets(node, env, d) {
      assert d !in Defs(node, env);
    }
  }

  lemma {:induction false} ItemZero(s: seq<nat>, i: nat)
    requires SumItems(s) == 0 && i < |s|
    ensures s[i] == 0
  {
    if i < |s| - 1 {
      ItemZero(s[..|s| - 1], i);
    }
  }

  /** The walk passes over a flat node without changing anything. */
  lemma {:induction false} FlatIsUntouched(c: Source, node: Json, env: Env)
    requires Flat(node)
    ensures Rewrite(c, node, Names(c, env)) == node && !Aborts(c, node, Names(c, env))
    ensures Inert(node) && Defs(node, env) == iset{}
    decreases node
  {
    FlatParts(node);
    match node
    case Obj(m) =>
      forall k | k in m
        ensures Rewrite(c, m[k], Names(c, env)) == m[k] && !Aborts(c, m[k], Names(c, env)) && Inert(m[k])
        ensures Defs(m[k], env) == iset{}
      {
        FlatIsUntouched(c, m[k], env);
      }
      FlatDict(c, m, env);
    case Arr(items) =>
      forall i | 0 <= i < |items|
        ensures Rewrite(c, items[i], Names(c, env)) == items[i] && !Aborts(c, items[i], Names(c, env))
          && Inert(items[i])
        ensures Defs(items[i], env) == iset{}
      {
        FlatIsUntouched(c, items[i], env);
      }
      FlatArr(c, items, env);
    case _ =>
  }

  // ---- meaning ---------------------------------------------------------------------

  /** A schema with its references replaced by what they stand for. */
  datatype Tree =
    | Cut
    | Dangling
    | Rewritten
    | Leaf(value: Json)
    | List(items: seq<Tree>)
    | Node(fields: map<string, Tree>)
    | Ref(siblings: map<string, Tree>, target: Tree)

  /** Where references resolve: component references in `table`, inline ones in scope. The
      title of a promoted definition is the one thing flattening changes. */
  datatype Doc = Doc(source: Source, table: map<string, Json>, ghost promoted: iset<string>)

  /** The schema unfolded through `n` references on every path. */
  ghost function Unfold(d: Doc, n: nat, node: Json, env: Env, retitled: bool): Tree
    decreases n, 1, node
  {
    match node
    case Obj(m) =>
      if InlineName(m).Some? then
        Ref(map k | k in m && k != REF :: if retitled && k == TITLE then Rewritten else Unfold(d, n, m[k], env, false),
            InlineTarget(d, n, Find(env, InlineName(m).value), InlineName(m).value))
      else
        var inner := if HasDefs(m) then Block(m[DEFS].fields, env) else env;
        var fields := map k | k in m && !(k == DEFS && HasDefs(m)) && !(k == REF && ComponentName(m).Some?) ::
                        if retitled && k == TITLE then Rewritten else Unfold(d, n, m[k], inner, false);
        if ComponentName(m).Some? then Ref(fields, ComponentTarget(d, n, ComponentName(m).value)) else Node(fields)
    case Arr(items) => List(seq(|items|, i requires 0 <= i < |items| => Unfold(d, n, items[i], env, false)))
    case _ => Leaf(node)
  }

  function Below(n: nat): nat
    requires n > 0
  {
    n - 1
  }

  ghost function InlineTarget(d: Doc, n: nat, found: Option<Env>, name: string): Tree
    requires found.Some? ==> found.value.Block? && name in found.value.defs
    decreases n, 0
  {
    if found.None? then Dangling
    else if n == 0 then Cut
    else
      var e := found.value;
      Unfold(d, Below(n), e.defs[name], e, ResolvedName(d.source, name, e.defs[name]) in d.promoted)
  }

  ghost function ComponentTarget(d: Doc, n: nat, name: string): Tree
    decreases n, 0
  {
    if name !in d.table then Dangling
    else if n == 0 then Cut
    else Unfold(d, Below(n), d.table[name], Root, name in d.promoted)
  }

  /** A new title is the only difference, so it does not show where titles are masked. */
  lemma RetitledAlike(d: Doc, n: nat, schema: Json, title: string, env: Env)
    ensures Unfold(d, n, Titled(schema, title), env, true) == Unfold(d, n, schema, env, true)
  {
    if schema.Obj? && TITLE in schema.fields {
      var m, m' := schema.fields, Titled(schema, title).fields;
      assert TITLE != REF && TITLE != DEFS;
      assert InlineName(m) == InlineName(m') && ComponentName(m) == ComponentName(m');
      assert HasDefs(m) == HasDefs(m');
      var a, b := Unfold(d, n, schema, env, true), Unfold(d, n, Titled(schema, title), env, true);
      if a.Node? {
        assert a.fields == b.fields;
      } else {
        assert a.siblings == b.siblings;
      }
    }
  }

  /** `inner` with `base` around it. */
  ghost function Graft(inner: Env, base: Env): Env {
    match inner
    case Root => base
    case Block(defs, outer) => Block(defs, Graft(outer, base))
  }

  /** Every body in the blocks of `env` is closed: the walk ends on it inside `env`. */
  ghost predicate BlocksClosed(c: Source, env: Env) {
    env.Block? ==>
      && (forall n :: n in env.defs ==> !Aborts(c, env.defs[n], Names(c, env)) && Inert(env.defs[n]))
      && BlocksClosed(c, env.outer)
  }

  lemma {:induction false} GraftFinds(c: Source, inner: Env, base: Env, x: string)
    requires BlocksClosed(c, inner) && Find(inner, x).Some?
    ensures Find(Graft(inner, base), x) == Some(Graft(Find(inner, x).value, base))
    ensures Graft(Find(inner, x).value, base).Block?
         && Graft(Find(inner, x).value, base).defs == Find(inner, x).value.defs
    ensures BlocksClosed(c, Find(inner, x).value)
  {
    if x !in inner.defs {
      GraftFinds(c, inner.outer, base, x);
    }
  }

  /** A closed node means the same wherever it stands. */
  lemma {:induction false} ClosedAnywhere(c: Source, d: Doc, n: nat, node: Json, inner: Env, base: Env, retitled: bool)
    requires d.source == c && !Aborts(c, node, Names(c, inner)) && Inert(node) && BlocksClosed(c, inner)
    ensures Unfold(d, n, node, Graft(inner, base), retitled) == Unfold(d, n, node, inner, retitled)
    decreases n, 1, node, 1
  {
    match node
    case Obj(m) =>
      if InlineName(m).Some? {
        ClosedReference(c, d, n, m, node, inner, base, retitled);
      } else {
        ClosedDict(c, d, n, m, node, inner, base, retitled);
      }
    case Arr(items) =>
      var outer := Graft(inner, base);
      forall i | 0 <= i < |items| ensures Unfold(d, n, items[i], outer, false) == Unfold(d, n, items[i], inner, false) {
        ClosedAnywhere(c, d, n, items[i], inner, base, false);
      }
      assert Unfold(d, n, node, outer, retitled).items == Unfold(d, n, node, inner, retitled).items;
    case _ =>
  }

  /** A reference reads the same in two scopes when its siblings and its target do. */
  lemma SameReferenceInScopes(d: Doc, n: nat, m: map<string, Json>, x: string, env: Env, env': Env, retitled: bool)
    requires InlineName(m) == Some(x)
    requires InlineTarget(d, n, Find(env, x), x) == InlineTarget(d, n, Find(env', x), x)
    requires forall k :: k in m ==> Unfold(d, n, m[k], env, false) == Unfold(d, n, m[k], env', false)
    ensures Unfold(d, n, Obj(m), env, retitled) == Unfold(d, n, Obj(m), env', retitled)
  {
    var a, b := Unfold(d, n, Obj(m), env, retitled), Unfold(d, n, Obj(m), env', retitled);
    assert a.siblings.Keys == m.Keys - {REF} == b.siblings.Keys;
    SameTrees(a.siblings, b.siblings);
  }

  lemma SameTrees(a: map<string, Tree>, b: map<string, Tree>)
    requires a.Keys == b.Keys && forall k :: k in a ==> a[k] == b[k]
    ensures a == b
  {
  }

  /** A dict reads the same in two scopes when its entries do. */
  lemma SameDictInScopes(d: Doc, n: nat, m: map<string, Json>, env: Env, env': Env, inner: Env, inner': Env,
                         retitled: bool)
    requires InlineName(m).None?
    requires inner == if HasDefs(m) then Block(m[DEFS].fields, env) else env
    requires inner' == if HasDefs(m) then Block(m[DEFS].fields, env') else env'
    requires forall k :: k in m && !(k == DEFS && HasDefs(m)) ==>
               Unfold(d, n, m[k], inner, false) == Unfold(d, n, m[k], inner', false)
    ensures Unfold(d, n, Obj(m), env, retitled) == Unfold(d, n, Obj(m), env', retitled)
  {
    if ComponentName(m).Some? {
      SameTrees(Unfold(d, n, Obj(m), env, retitled).siblings, Unfold(d, n, Obj(m), env', retitled).siblings);
    } else {
      SameTrees(Unfold(d, n, Obj(m), env, retitled).fields, Unfold(d, n, Obj(m), env', retitled).fields);
    }
  }

  lemma {:induction false} ClosedReference(c: Source, d: Doc, n: nat, m: map<string, Json>, node: Json,
                                           inner: Env, base: Env, retitled: bool)
    requires node == Obj(m) && InlineName(m).Some?
    requires d.source == c && !Aborts(c, node, Names(c, inner)) && Inert(node) && BlocksClosed(c, inner)
    ensures Unfold(d, n, node, Graft(inner, base), retitled) == Unfold(d, n, node, inner, retitled)
    decreases n, 1, node, 0
  {
    var outer, x := Graft(inner, base), InlineName(m).value;
    LookupFinds(c, inner, x);
    ClosedTarget(c, d, n, x, inner, base);
    forall k | k in m ensures Unfold(d, n, m[k], outer, false) == Unfold(d, n, m[k], inner, false) {
      FlatIsUntouched(c, m[k], inner);
      ClosedAnywhere(c, d, n, m[k], inner, base, false);
    }
    SameReferenceInScopes(d, n, m, x, outer, inner, retitled);
  }

  lemma {:induction false} ClosedTarget(c: Source, d: Doc, n: nat, x: string, inner: Env, base: Env)
    requires d.source == c && BlocksClosed(c, inner) && Find(inner, x).Some?
    ensures InlineTarget(d, n, Find(Graft(inner, base), x), x) == InlineTarget(d, n, Find(inner, x), x)
    decreases n, 0
  {
    GraftFinds(c, inner, base, x);
    if n > 0 {
      var e := Find(inner, x).value;
      BodyClosed(c, inner, x);
      ClosedAnywhere(c, d, Below(n), e.defs[x], e, base, ResolvedName(c, x, e.defs[x]) in d.promoted);
    }
  }

  lemma {:induction false} ClosedDict(c: Source, d: Doc, n: nat, m: map<string, Json>, node: Json,
                                      inner: Env, base: Env, retitled: bool)
    requires node == Obj(m) && InlineName(m).None?
    requires d.source == c && !Aborts(c, node, Names(c, inner)) && Inert(node) && BlocksClosed(c, inner)
    ensures Unfold(d, n, node, Graft(inner, base), retitled) == Unfold(d, n, node, inner, retitled)
    decreases n, 1, node, 0
  {
    var outer := Graft(inner, base);
    var scope := if HasDefs(m) then Block(m[DEFS].fields, inner) else inner;
    var scope' := if HasDefs(m) then Block(m[DEFS].fields, outer) else outer;
    forall k | k in m && !(k == DEFS && HasDefs(m))
      ensures Unfold(d, n, m[k], scope', false) == Unfold(d, n, m[k], scope, false)
    {
      ClosedAnywhere(c, d, n, m[k], scope, base, false);
    }
    SameDictInScopes(d, n, m, outer, inner, scope', scope, retitled);
  }

  lemma {:induction false} BodyClosed(c: Source, env: Env, x: string)
    requires BlocksClosed(c, env) && Find(env, x).Some?
    ensures var e := Find(env, x).value; !Aborts(c, e.defs[x], Names(c, e)) && Inert(e.defs[x])
  {
    if x !in env.defs {
      BodyClosed(c, env.outer, x);
    }
  }

  // ---- the theorem --------------------------------------------------------------------

  /** `node` stands in a document that the walk accepts: `ds` are the definitions it meets,
      and no dangling component reference happens to spell one of the names in `taken`. */
  ghost predicate Walked(c: Source, ds: iset<Def>, taken: iset<string>, node: Json, env: Env) {
    && !Aborts(c, node, Names(c, env)) && Inert(node)
    && Defs(node, env) <= ds && EnvIn(env, ds)
    && forall x :: x in taken ==> !Refers(node, x)
  }

  /** The names promoted beside the top-level schemas. */
  ghost function Added(c: Source, ds: iset<Def>): iset<string> {
    iset x | x in PromotedNames(c, ds) && x !in c.components
  }

  ghost function Input(c: Source, ds: iset<Def>): Doc {
    Doc(c, c.components, PromotedNames(c, ds))
  }

  ghost function Output(c: Source, ds: iset<Def>, table: map<string, Json>): Doc {
    Doc(c, table, PromotedNames(c, ds))
  }

  ghost predicate SameInScope(d: Doc, n: nat, a: Def, b: Def) {
    Unfold(d, n, a.schema, a.env, true) == Unfold(d, n, b.schema, b.env, true)
  }

  /** Two definitions of the input with one name and text, not reused, unfold alike in their
      scopes to every depth. */
  ghost predicate Alike(c: Source, ds: iset<Def>) {
    forall a, b, n: nat ::
      a in ds && b in ds && a.name == b.name && a.schema == b.schema && !Reuses(c, a.name, a.schema) ==>
        SameInScope(Input(c, ds), n, a, b)
  }

  /** The whole document. The hypotheses on the source: top-level schemas are not null, the
      digest separates the definitions that occur, and definitions alike in text are alike in
      meaning. */
  ghost predicate World(c: Source, ds: iset<Def>, table: map<string, Json>) {
    var taken := Added(c, ds);
    && (forall x :: x in c.components ==>
          c.components[x] != Null && Walked(c, ds, taken, c.components[x], Root))
    && (forall d :: d in ds ==>
          Walked(c, ds, taken, d.schema, d.env) && !Collides(c, d.name, d.schema))
    && (forall d, d' :: d in ds && d' in ds && !Reuses(c, d.name, d.schema) && !Reuses(c, d'.name, d'.schema)
          && SyntheticName(c, d.name, d.schema) == SyntheticName(c, d'.name, d'.schema)
          ==> d.name == d'.name && d.schema == d'.schema)
    && Alike(c, ds)
    && (forall x :: x in table <==> x in c.components || x in PromotedNames(c, ds))
    && (forall x :: x in table ==>
          if x in c.components then table[x] == Rewrite(c, c.components[x], [])
          else WrittenBack(c, ds, x, table[x]))
  }

  lemma WalkedEntry(c: Source, ds: iset<Def>, taken: iset<string>, m: map<string, Json>, env: Env, k: string)
    requires Walked(c, ds, taken, Obj(m), env) && InlineName(m).None?
    requires k in m && !(k == DEFS && HasDefs(m))
    ensures Walked(c, ds, taken, m[k], if HasDefs(m) then Block(m[DEFS].fields, env) else env)
  {
    var inner := if HasDefs(m) then Block(m[DEFS].fields, env) else env;
    assert Names(c, inner) == if HasDefs(m) then Names(c, env) + [Frame(c, m[DEFS].fields)] else Names(c, env);
    assert !Aborts(c, m[k], Names(c, inner));
    forall d | d in Defs(m[k], inner) ensures d in ds {
      assert Meets(Obj(m), env, d);
      assert d in Defs(Obj(m), env);
    }
    if HasDefs(m) {
      forall d | d in OwnDefs(inner) ensures d in ds {
        assert Meets(Obj(m), env, d);
        assert d in Defs(Obj(m), env);
      }
    }
    forall x | x in taken ensures !Refers(m[k], x) {
      assert !Refers(Obj(m), x);
    }
  }

  lemma WalkedItem(c: Source, ds: iset<Def>, taken: iset<string>, items: seq<Json>, env: Env, i: nat)
    requires Walked(c, ds, taken, Arr(items), env) && i < |items|
    ensures Walked(c, ds, taken, items[i], env)
  {
    forall d | d in Defs(items[i], env) ensures d in ds {
      assert d in Defs(Arr(items), env);
    }
    forall x | x in taken ensures !Refers(items[i], x) {
      assert !Refers(Arr(items), x);
    }
  }

  lemma WalkedSibling(c: Source, ds: iset<Def>, taken: iset<string>, m: map<string, Json>, env: Env, k: string)
    requires Walked(c, ds, taken, Obj(m), env) && InlineName(m).Some? && k in m
    ensures Walked(c, ds, taken, m[k], env) && Rewrite(c, m[k], Names(c, env)) == m[k]
  {
    FlatIsUntouched(c, m[k], env);
    forall x | x in taken ensures !Refers(m[k], x) {
      assert !Refers(Obj(m), x);
    }
  }

  /** The body that stands for a definition reads at the top level as the definition in its scope. */
  ghost predicate StandsFor(c: Source, ds: iset<Def>, table: map<string, Json>, n: nat, d: Def) {
    var t := ResolvedName(c, d.name, d.schema);
    var retitled := t in PromotedNames(c, ds);
    && t in table
    && Unfold(Output(c, ds, table), n, table[t], Root, retitled) == Unfold(Input(c, ds), n, d.schema, d.env, retitled)
  }

  lemma {:induction false} TargetKept(c: Source, ds: iset<Def>, table: map<string, Json>, n: nat, d: Def)
    requires World(c, ds, table) && d in ds
    ensures StandsFor(c, ds, table, n, d)
    decreases n, 2
  {
    var t := ResolvedName(c, d.name, d.schema);
    if !Reuses(c, d.name, d.schema) {
      assert Promotes(c, d, t);
    }
    if t in c.components {
      TopKept(c, ds, table, n, d, t);
    } else {
      var d' :| d' in ds && ResolvedName(c, d'.name, d'.schema) == t
                && table[t] == WriteBack(Rewrite(c, d'.schema, Names(c, d'.env)), t);
      assert SameInScope(Input(c, ds), n, d, d');
      RetitledAlike(Output(c, ds, table), n, Rewrite(c, d'.schema, Names(c, d'.env)), t, Root);
      MeaningKept(c, ds, table, n, d'.schema, d'.env, true);
    }
  }

  /** The top-level schema that a definition repeats stands for it. */
  lemma {:induction false} TopKept(c: Source, ds: iset<Def>, table: map<string, Json>, n: nat, d: Def, t: string)
    requires World(c, ds, table) && d in ds && t == ResolvedName(c, d.name, d.schema) && t in c.components
    ensures StandsFor(c, ds, table, n, d)
    decreases n, 1, c.components[t], 2
  {
    var top, in_, retitled := c.components[t], Input(c, ds), t in PromotedNames(c, ds);
    MeaningKept(c, ds, table, n, top, Root, retitled);
    ClosedAnywhere(c, in_, n, top, Root, d.env, retitled);
    if !Reuses(c, d.name, d.schema) {
      assert Promotes(c, d, t) && top == Titled(d.schema, t);
      RetitledAlike(in_, n, d.schema, t, d.env);
    }
  }

  /** Flattening preserves meaning: to every depth, a rewritten node unfolds through
      `components.schemas` to what it unfolds to through its `$defs` scopes. */
  lemma {:induction false} MeaningKept(c: Source, ds: iset<Def>, table: map<string, Json>,
                                       n: nat, node: Json, env: Env, retitled: bool)
    requires World(c, ds, table) && Walked(c, ds, Added(c, ds), node, env)
    ensures Unfold(Output(c, ds, table), n, Rewrite(c, node, Names(c, env)), Root, retitled)
         == Unfold(Input(c, ds), n, node, env, retitled)
    decreases n, 1, node, 1
  {
    match node
    case Obj(m) =>
      if InlineName(m).Some? {
        ReferenceKept(c, ds, table, n, m, node, env, retitled);
      } else {
        DictKept(c, ds, table, n, m, node, env, retitled);
      }
    case Arr(items) =>
      var out, in_, new_ := Output(c, ds, table), Input(c, ds), Rewrite(c, node, Names(c, env));
      forall i | 0 <= i < |items|
        ensures Unfold(out, n, new_.items[i], Root, false) == Unfold(in_, n, items[i], env, false)
      {
        WalkedItem(c, ds, Added(c, ds), items, env, i);
        MeaningKept(c, ds, table, n, items[i], env, false);
      }
      assert Unfold(out, n, new_, Root, retitled).items == Unfold(in_, n, node, env, retitled).items;
    case _ =>
  }

  /** A reference and its rewritten form unfold alike when siblings and targets do. */
  lemma SameReference(out: Doc, in_: Doc, n: nat, m: map<string, Json>, m': map<string, Json>,
                      env: Env, x: string, x': string, retitled: bool)
    requires InlineName(m) == Some(x) && !HasDefs(m)
    requires InlineName(m').None? && ComponentName(m') == Some(x') && !HasDefs(m') && m'.Keys == m.Keys
    requires forall k :: k in m && k != REF ==>
      Unfold(out, n, m'[k], Root, false) == Unfold(in_, n, m[k], env, false)
    requires ComponentTarget(out, n, x') == InlineTarget(in_, n, Find(env, x), x)
    ensures Unfold(out, n, Obj(m'), Root, retitled) == Unfold(in_, n, Obj(m), env, retitled)
  {
    SameTrees(Unfold(out, n, Obj(m'), Root, retitled).siblings, Unfold(in_, n, Obj(m), env, retitled).siblings);
  }

  /** A dict and its rewritten form unfold alike when their entries do. */
  lemma SameDict(out: Doc, in_: Doc, n: nat, m: map<string, Json>, m': map<string, Json>,
                 env: Env, inner: Env, retitled: bool)
    requires InlineName(m).None? && InlineName(m').None? && !HasDefs(m')
    requires ComponentName(m).None? && ComponentName(m').None?
    requires inner == if HasDefs(m) then Block(m[DEFS].fields, env) else env
    requires forall k :: k in m' <==> k in m && !(k == DEFS && HasDefs(m))
    requires forall k :: k in m' ==> Unfold(out, n, m'[k], Root, false) == Unfold(in_, n, m[k], inner, false)
    ensures Unfold(out, n, Obj(m'), Root, retitled) == Unfold(in_, n, Obj(m), env, retitled)
  {
    SameTrees(Unfold(out, n, Obj(m'), Root, retitled).fields, Unfold(in_, n, Obj(m), env, retitled).fields);
  }

  lemma SameComponent(out: Doc, in_: Doc, n: nat, m: map<string, Json>, m': map<string, Json>,
                      env: Env, inner: Env, x: string, retitled: bool)
    requires InlineName(m).None? && InlineName(m').None? && !HasDefs(m')
    requires ComponentName(m) == ComponentName(m') == Some(x)
    requires inner == if HasDefs(m) then Block(m[DEFS].fields, env) else env
    requires forall k :: k in m' <==> k in m && !(k == DEFS && HasDefs(m))
    requires forall k :: k in m' ==> Unfold(out, n, m'[k], Root, false) == Unfold(in_, n, m[k], inner, false)
    requires ComponentTarget(out, n, x) == ComponentTarget(in_, n, x)
    ensures Unfold(out, n, Obj(m'), Root, retitled) == Unfold(in_, n, Obj(m), env, retitled)
  {
    SameTrees(Unfold(out, n, Obj(m'), Root, retitled).siblings, Unfold(in_, n, Obj(m), env, retitled).siblings);
  }

  lemma {:induction false} ReferenceKept(c: Source, ds: iset<Def>, table: map<string, Json>,
                                         n: nat, m: map<string, Json>, node: Json, env: Env, retitled: bool)
    requires node == Obj(m) && InlineName(m).Some?
    requires World(c, ds, table) && Walked(c, ds, Added(c, ds), node, env)
    ensures Unfold(Output(c, ds, table), n, Rewrite(c, node, Names(c, env)), Root, retitled)
         == Unfold(Input(c, ds), n, node, env, retitled)
    decreases n, 1, node, 0
  {
    var out, in_, x := Output(c, ds, table), Input(c, ds), InlineName(m).value;
    var d := ResolvedInScope(c, ds, node, env, x);
    InlineTargetKept(c, ds, table, n, d);
    forall k | k in m && k != REF
      ensures Unfold(out, n, m[k], Root, false) == Unfold(in_, n, m[k], env, false)
    {
      WalkedSibling(c, ds, Added(c, ds), m, env, k);
      MeaningKept(c, ds, table, n, m[k], env, false);
    }
    var t := Lookup(Names(c, env), x).value;
    NotInline(t);
    SameReference(out, in_, n, m, m[REF := Str(COMPONENT + t)], env, x, t, retitled);
  }

  lemma ResolvedInScope(c: Source, ds: iset<Def>, node: Json, env: Env, x: string) returns (d: Def)
    requires Walked(c, ds, iset{}, node, env) && node.Obj? && InlineName(node.fields) == Some(x)
    ensures d in ds && d.name == x && Find(env, x) == Some(d.env) && d.env.defs[x] == d.schema
    ensures Lookup(Names(c, env), x) == Some(ResolvedName(c, x, d.schema))
  {
    LookupFinds(c, env, x);
    FoundIsIn(env, ds, x);
    var e := Find(env, x).value;
    d := Def(x, e.defs[x], e);
  }

  lemma {:induction false} InlineTargetKept(c: Source, ds: iset<Def>, table: map<string, Json>, n: nat, d: Def)
    requires World(c, ds, table) && d in ds && d.env.Block? && d.name in d.env.defs && d.schema == d.env.defs[d.name]
    ensures ComponentTarget(Output(c, ds, table), n, ResolvedName(c, d.name, d.schema))
         == InlineTarget(Input(c, ds), n, Some(d.env), d.name)
    decreases n, 0
  {
    if n > 0 {
      TargetKept(c, ds, table, Below(n), d);
    } else {
      ResolvedExists(c, ds, table, d);
    }
  }

  lemma ResolvedExists(c: Source, ds: iset<Def>, table: map<string, Json>, d: Def)
    requires World(c, ds, table) && d in ds
    ensures ResolvedName(c, d.name, d.schema) in table
  {
    if !Reuses(c, d.name, d.schema) {
      assert Promotes(c, d, ResolvedName(c, d.name, d.schema));
    }
  }

  lemma {:induction false} DictKept(c: Source, ds: iset<Def>, table: map<string, Json>,
                                    n: nat, m: map<string, Json>, node: Json, env: Env, retitled: bool)
    requires node == Obj(m) && InlineName(m).None?
    requires World(c, ds, table) && Walked(c, ds, Added(c, ds), node, env)
    ensures Unfold(Output(c, ds, table), n, Rewrite(c, node, Names(c, env)), Root, retitled)
         == Unfold(Input(c, ds), n, node, env, retitled)
    decreases n, 1, node, 0
  {
    var inner := if HasDefs(m) then Block(m[DEFS].fields, env) else env;
    RewriteKeepsShape(c, m, Names(c, env));
    forall k | k in m && !(k == DEFS && HasDefs(m))
      ensures Unfold(Output(c, ds, table), n, Rewrite(c, m[k], Names(c, inner)), Root, false)
           == Unfold(Input(c, ds), n, m[k], inner, false)
    {
      WalkedEntry(c, ds, Added(c, ds), m, env, k);
      MeaningKept(c, ds, table, n, m[k], inner, false);
    }
    var m' := Rewrite(c, node, Names(c, env)).fields;
    if ComponentName(m).Some? {
      var x := ComponentName(m).value;
      assert Refers(node, x);
      ComponentKept(c, ds, table, n, x);
      SameComponent(Output(c, ds, table), Input(c, ds), n, m, m', env, inner, x, retitled);
    } else {
      SameDict(Output(c, ds, table), Input(c, ds), n, m, m', env, inner, retitled);
    }
  }

  lemma {:induction false} ComponentKept(c: Source, ds: iset<Def>, table: map<string, Json>,
                                         n: nat, x: string)
    requires World(c, ds, table) && x !in Added(c, ds)
    ensures ComponentTarget(Output(c, ds, table), n, x) == ComponentTarget(Input(c, ds), n, x)
    decreases n, 0
  {
    if n > 0 && x in c.components {
      MeaningKept(c, ds, table, Below(n), c.components[x], Root, x in PromotedNames(c, ds));
    }
  }

  // ---- from the input document to the flattened one -------------------------------------

  /** The way to the top-level schemas passes no `$defs` block and no inline reference. */
  predicate PlainDict(node: Json) {
    node.Obj? && InlineName(node.fields).None? && !HasDefs(node.fields)
  }

  predicate PlainPath(spec: Json) {
    && PlainDict(spec) && HasSchemas(spec)
    && PlainDict(spec.fields[COMPONENTS]) && PlainDict(spec.fields[COMPONENTS].fields[SCHEMAS])
  }

  /** The top-level schemas stand on a plain path. */
  predicate TopSchemas(c: Source, spec: Json) {
    PlainPath(spec) && c.components == spec.fields[COMPONENTS].fields[SCHEMAS].fields
  }

  /** What the source document must meet for the walk to keep its meaning. */
  ghost predicate Faithful(c: Source, spec: Json) {
    Ordinary(c, spec) && Alike(c, Defs(spec, Root))
  }

  /** All of it, but that definitions with one name and text are alike in meaning. */
  ghost predicate Ordinary(c: Source, spec: Json) {
    var ds := Defs(spec, Root);
    && TopSchemas(c, spec)
    && !Aborts(c, spec, []) && Inert(spec)
    && (forall x :: x in c.components ==> c.components[x] != Null)
    && (forall d, d' :: d in ds && d' in ds && !Reuses(c, d.name, d.schema) && !Reuses(c, d'.name, d'.schema)
          && SyntheticName(c, d.name, d.schema) == SyntheticName(c, d'.name, d'.schema)
          ==> d.name == d'.name && d.schema == d'.schema)
    && forall x :: x in Added(c, ds) ==> !Refers(spec, x)
  }

  /** A definition met on the walk is itself walked, in its scope, without a collision. */
  lemma {:induction false} MetIsWalked(c: Source, ds: iset<Def>, taken: iset<string>, node: Json, env: Env, d: Def)
    requires Walked(c, ds, taken, node, env) && Meets(node, env, d)
    ensures Walked(c, ds, taken, d.schema, d.env) && !Collides(c, d.name, d.schema)
    decreases node
  {
    match node
    case Obj(m) =>
      if HasDefs(m) {
        var inner := Block(m[DEFS].fields, env);
        if d in OwnDefs(inner) {
          WalkedBody(c, ds, taken, m, env, d.name);
        } else if n :| n in inner.defs && Meets(inner.defs[n], inner, d) {
          WalkedBody(c, ds, taken, m, env, n);
          MetIsWalked(c, ds, taken, inner.defs[n], inner, d);
        } else {
          var k :| k in m && k != DEFS && Meets(m[k], inner, d);
          WalkedEntry(c, ds, taken, m, env, k);
          MetIsWalked(c, ds, taken, m[k], inner, d);
        }
      } else {
        var k :| k in m && Meets(m[k], env, d);
        WalkedEntry(c, ds, taken, m, env, k);
        MetIsWalked(c, ds, taken, m[k], env, d);
      }
    case Arr(items) =>
      var i :| 0 <= i < |items| && Meets(items[i], env, d);
      WalkedItem(c, ds, taken, items, env, i);
      MetIsWalked(c, ds, taken, items[i], env, d);
    case _ =>
  }

  lemma WalkedBody(c: Source, ds: iset<Def>, taken: iset<string>, m: map<string, Json>, env: Env, n: string)
    requires Walked(c, ds, taken, Obj(m), env) && InlineName(m).None?
    requires HasDefs(m) && n in m[DEFS].fields
    ensures Walked(c, ds, taken, m[DEFS].fields[n], Block(m[DEFS].fields, env))
    ensures !Collides(c, n, m[DEFS].fields[n])
  {
    var inner := Block(m[DEFS].fields, env);
    forall d | d in Defs(inner.defs[n], inner) || d in OwnDefs(inner) ensures d in ds {
      assert Meets(Obj(m), env, d);
      assert d in Defs(Obj(m), env);
    }
    forall x | x in taken ensures !Refers(inner.defs[n], x) {
      assert !Refers(Obj(m), x);
      assert !Refers(m[DEFS], x);
    }
  }

  lemma WalkedSchema(c: Source, ds: iset<Def>, taken: iset<string>, spec: Json, x: string)
    requires TopSchemas(c, spec)
    requires Walked(c, ds, taken, spec, Root) && x in c.components
    ensures Walked(c, ds, taken, c.components[x], Root)
  {
    var comp := spec.fields[COMPONENTS];
    WalkedEntry(c, ds, taken, spec.fields, Root, COMPONENTS);
    WalkedEntry(c, ds, taken, comp.fields, Root, SCHEMAS);
    WalkedEntry(c, ds, taken, comp.fields[SCHEMAS].fields, Root, x);
  }

  lemma WholeWalked(c: Source, spec: Json)
    requires Ordinary(c, spec)
    ensures Walked(c, Defs(spec, Root), Added(c, Defs(spec, Root)), spec, Root)
  {
  }

  /** What the script leaves in `components.schemas`, from the promotions it stored. */
  lemma FaithfulWorld(c: Source, spec: Json, promotions: map<string, Json>)
    requires Faithful(c, spec) && Stored(c, promotions, Defs(spec, Root), iset{})
    ensures World(c, Defs(spec, Root), promotions + EntryRewrites(c, c.components, []))
  {
    var ds, table := Defs(spec, Root), promotions + EntryRewrites(c, c.components, []);
    var taken := Added(c, ds);
    WholeWalked(c, spec);
    forall x | x in c.components ensures Walked(c, ds, taken, c.components[x], Root) {
      WalkedSchema(c, ds, taken, spec, x);
    }
    forall d | d in ds ensures Walked(c, ds, taken, d.schema, d.env) && !Collides(c, d.name, d.schema) {
      MetIsWalked(c, ds, taken, spec, Root, d);
    }
    forall x | x in table
      ensures if x in c.components then table[x] == Rewrite(c, c.components[x], []) else WrittenBack(c, ds, x, table[x])
    {
      if x !in c.components {
        assert x in promotions && table[x] == promotions[x];
      }
    }
  }

  /** The flattened document: its schemas are the rewritten ones and the promoted ones, and
      everything else is rewritten in place. */
  lemma MergedParts(c: Source, spec: Json, promotions: map<string, Json>)
    requires TopSchemas(c, spec)
    ensures var doc := Merged(Rewrite(c, spec, []), promotions);
            && HasSchemas(doc)
            && doc.fields[COMPONENTS].fields[SCHEMAS].fields == promotions + EntryRewrites(c, c.components, [])
            && doc.fields.Keys == spec.fields.Keys
            && (forall k :: k in spec.fields && k != COMPONENTS ==> doc.fields[k] == Rewrite(c, spec.fields[k], []))
            && var comp, comp' := spec.fields[COMPONENTS].fields, doc.fields[COMPONENTS].fields;
            && comp'.Keys == comp.Keys
            && forall k :: k in comp && k != SCHEMAS ==> comp'[k] == Rewrite(c, comp[k], [])
  {
    assert Rewrite(c, spec, []).fields[COMPONENTS] == Rewrite(c, spec.fields[COMPONENTS], []);
    assert Rewrite(c, spec.fields[COMPONENTS], []).fields[SCHEMAS]
        == Rewrite(c, spec.fields[COMPONENTS].fields[SCHEMAS], []);
    assert Rewrite(c, spec.fields[COMPONENTS].fields[SCHEMAS], []).fields == EntryRewrites(c, c.components, []);
  }

  // ---- what is promoted, key by key ---------------------------------------------------------

  /** The definition without a twin that this key was made for. */
  ghost predicate KeyOf(c: Source, ds: iset<Def>, t: string) {
    exists d :: d in ds && !HasTwin(c, d) && t == PromotedKey(c, d)
  }

  /** `out` is the rewritten body of such a definition, with its key as its title if it has one. */
  ghost predicate PromotedFrom(c: Source, ds: iset<Def>, t: string, out: Json) {
    exists d :: d in ds && !HasTwin(c, d) && t == PromotedKey(c, d)
                && RetitledAs(Rewrite(c, d.schema, Names(c, d.env)), out, t)
  }

  lemma PromotedNamesAre(c: Source, ds: iset<Def>, t: string)
    ensures t in PromotedNames(c, ds) <==> KeyOf(c, ds, t)
  {
    if t in PromotedNames(c, ds) {
      var d :| d in ds && Promotes(c, d, t);
      CollidesIs(c, d);
    }
    if d :| d in ds && !HasTwin(c, d) && t == PromotedKey(c, d) {
      CollidesIs(c, d);
      assert Promotes(c, d, t);
    }
  }

  lemma StoredFrom(c: Source, ds: iset<Def>, promotions: map<string, Json>, t: string)
    requires Stored(c, promotions, ds, iset{}) && t in promotions && t !in c.components
    ensures PromotedFrom(c, ds, t, promotions[t])
  {
    var d :| d in ds && ResolvedName(c, d.name, d.schema) == t
             && promotions[t] == WriteBack(Rewrite(c, d.schema, Names(c, d.env)), t);
    CollidesIs(c, d);
    assert PROMOTED <= PromotedKey(c, d);
    TitledIs(Rewrite(c, d.schema, Names(c, d.env)), promotions[t], t);
  }

  /** The merged schemas: the top-level ones rewritten, and beside them one for each key of a
      definition without a twin, whose title, if it has one, is its own key. */
  lemma MergedSchemas(c: Source, spec: Json, promotions: map<string, Json>)
    requires TopSchemas(c, spec) && Stored(c, promotions, Defs(spec, Root), iset{})
    ensures var doc, ds := Merged(Rewrite(c, spec, []), promotions), Defs(spec, Root);
            HasSchemas(doc)
            && var table := doc.fields[COMPONENTS].fields[SCHEMAS].fields;
            && (forall t :: t in table <==> t in c.components || KeyOf(c, ds, t))
            && forall t :: t in table ==>
                 if t in c.components then table[t] == Rewrite(c, c.components[t], [])
                 else PromotedFrom(c, ds, t, table[t])
  {
    var ds, table := Defs(spec, Root), promotions + EntryRewrites(c, c.components, []);
    MergedParts(c, spec, promotions);
    forall t ensures t in promotions <==> KeyOf(c, ds, t) {
      PromotedNamesAre(c, ds, t);
    }
    forall t | t in promotions && t !in c.components ensures PromotedFrom(c, ds, t, table[t]) {
      StoredFrom(c, ds, promotions, t);
    }
  }

  predicate HasTitle(schema: Json) {
    schema.Obj? && "title" in schema.fields
  }

  /** Generators name their classes by these titles: no two promoted schemas share one. */
  lemma PromotedTitlesDiffer(c: Source, spec: Json, promotions: map<string, Json>, t: string, t': string)
    requires TopSchemas(c, spec) && Stored(c, promotions, Defs(spec, Root), iset{})
    requires var doc := Merged(Rewrite(c, spec, []), promotions);
             HasSchemas(doc)
             && var table := doc.fields[COMPONENTS].fields[SCHEMAS].fields;
             && t in table && t' in table && t !in c.components && t' !in c.components && t != t'
             && HasTitle(table[t]) && HasTitle(table[t'])
    ensures var table := Merged(Rewrite(c, spec, []), promotions).fields[COMPONENTS].fields[SCHEMAS].fields;
            table[t].fields["title"] == Str(t) && table[t].fields["title"] != table[t'].fields["title"]
  {
    MergedSchemas(c, spec, promotions);
    var table := Merged(Rewrite(c, spec, []), promotions).fields[COMPONENTS].fields[SCHEMAS].fields;
    assert PromotedFrom(c, Defs(spec, Root), t, table[t]) && PromotedFrom(c, Defs(spec, Root), t', table[t']);
  }

  /** What the script promises, to depth `n`: each part of the document outside its schemas, each
      top-level schema, and each inline definition under the name its references now use,
      unfolds to what it was. */
  ghost predicate KeptTo(c: Source, spec: Json, doc: Json, n: nat)
    requires PlainPath(spec)
  {
    && HasSchemas(doc)
    && var comp, comp' := spec.fields[COMPONENTS].fields, doc.fields[COMPONENTS].fields;
    && var ds, table := Defs(spec, Root), comp'[SCHEMAS].fields;
    && var in_, out := Input(c, ds), Output(c, ds, table);
    && doc.fields.Keys == spec.fields.Keys
    && (forall k :: k in spec.fields && k != COMPONENTS ==>
          Unfold(out, n, doc.fields[k], Root, false) == Unfold(in_, n, spec.fields[k], Root, false))
    && comp'.Keys == comp.Keys
    && (forall k :: k in comp && k != SCHEMAS ==>
          Unfold(out, n, comp'[k], Root, false) == Unfold(in_, n, comp[k], Root, false))
    && (forall x :: x in c.components ==>
          x in table && Unfold(out, n, table[x], Root, false) == Unfold(in_, n, c.components[x], Root, false))
    && forall d :: d in ds ==> StandsFor(c, ds, table, n, d)
  }

  lemma AlikeWhenKept(c: Source, ds: iset<Def>, table: map<string, Json>, n: nat, a: Def, b: Def)
    requires a in ds && b in ds && a.name == b.name && a.schema == b.schema && !Reuses(c, a.name, a.schema)
    requires StandsFor(c, ds, table, n, a) && StandsFor(c, ds, table, n, b)
    ensures SameInScope(Input(c, ds), n, a, b)
  {
    var t := SyntheticName(c, a.name, a.schema);
    assert Promotes(c, a, t) && t in PromotedNames(c, ds);
  }

  lemma KeptWhenAlike(c: Source, spec: Json, promotions: map<string, Json>, n: nat)
    requires Faithful(c, spec) && Stored(c, promotions, Defs(spec, Root), iset{})
    ensures KeptTo(c, spec, Merged(Rewrite(c, spec, []), promotions), n)
  {
    var ds, table := Defs(spec, Root), promotions + EntryRewrites(c, c.components, []);
    MergedParts(c, spec, promotions);
    FaithfulWorld(c, spec, promotions);
    WholeWalked(c, spec);
    forall k | k in spec.fields && k != COMPONENTS
      ensures Unfold(Output(c, ds, table), n, Rewrite(c, spec.fields[k], []), Root, false)
           == Unfold(Input(c, ds), n, spec.fields[k], Root, false)
    {
      WalkedEntry(c, ds, Added(c, ds), spec.fields, Root, k);
      MeaningKept(c, ds, table, n, spec.fields[k], Root, false);
    }
    var comp := spec.fields[COMPONENTS].fields;
    forall k | k in comp && k != SCHEMAS
      ensures Unfold(Output(c, ds, table), n, Rewrite(c, comp[k], []), Root, false)
           == Unfold(Input(c, ds), n, comp[k], Root, false)
    {
      WalkedEntry(c, ds, Added(c, ds), spec.fields, Root, COMPONENTS);
      WalkedEntry(c, ds, Added(c, ds), comp, Root, k);
      MeaningKept(c, ds, table, n, comp[k], Root, false);
    }
    forall x | x in c.components
      ensures x in table
      ensures Unfold(Output(c, ds, table), n, table[x], Root, false)
           == Unfold(Input(c, ds), n, c.components[x], Root, false)
    {
      MeaningKept(c, ds, table, n, c.components[x], Root, false);
    }
    forall d | d in ds ensures StandsFor(c, ds, table, n, d) {
      TargetKept(c, ds, table, n, d);
    }
  }

  ghost predicate KeepsMeaning(c: Source, spec: Json, doc: Json)
    requires PlainPath(spec)
  {
    forall n: nat :: KeptTo(c, spec, doc, n)
  }

  lemma KeptIsAlike(c: Source, spec: Json, doc: Json)
    requires PlainPath(spec) && KeepsMeaning(c, spec, doc)
    ensures Alike(c, Defs(spec, Root))
  {
    var ds := Defs(spec, Root);
    forall a, b, n: nat | a in ds && b in ds && a.name == b.name && a.schema == b.schema && !Reuses(c, a.name, a.schema)
      ensures SameInScope(Input(c, ds), n, a, b)
    {
      assert KeptTo(c, spec, doc, n);
      AlikeWhenKept(c, ds, doc.fields[COMPONENTS].fields[SCHEMAS].fields, n, a, b);
    }
  }

  lemma AlikeIsKept(c: Source, spec: Json, promotions: map<string, Json>)
    requires Faithful(c, spec) && Stored(c, promotions, Defs(spec, Root), iset{})
    ensures KeepsMeaning(c, spec, Merged(Rewrite(c, spec, []), promotions))
  {
    forall n: nat ensures KeptTo(c, spec, Merged(Rewrite(c, spec, []), promotions), n) {
      KeptWhenAlike(c, spec, promotions, n);
    }
  }

  /** The promise of the script, for the promotions `Flatten` returns: it keeps the meaning of
      the document to every depth exactly if definitions of the input with one name and text
      mean the same in their scopes. */
  lemma {:induction false} FlattenKeepsMeaning(c: Source, spec: Json, promotions: map<string, Json>)
    requires Ordinary(c, spec) && Stored(c, promotions, Defs(spec, Root), iset{})
    ensures KeepsMeaning(c, spec, Merged(Rewrite(c, spec, []), promotions)) <==> Alike(c, Defs(spec, Root))
  {
    if Alike(c, Defs(spec, Root)) {
      AlikeIsKept(c, spec, promotions);
    } else if KeepsMeaning(c, spec, Merged(Rewrite(c, spec, []), promotions)) {
      KeptIsAlike(c, spec, Merged(Rewrite(c, spec, []), promotions));
    }
  }

  // ---- coherence is enough ----------------------------------------------------------------

  ghost predicate BindsAlike(node: Json, env: Env, env': Env) {
    forall x :: Free(node, x) ==> Binding(env, x) == Binding(env', x)
  }

  /** The entries of a dict bind alike in the scopes they are read in. */
  lemma EntryBindsAlike(m: map<string, Json>, env: Env, env': Env, k: string)
    requires BindsAlike(Obj(m), env, env') && InlineName(m).None? && k in m && !(k == DEFS && HasDefs(m))
    ensures BindsAlike(m[k], if HasDefs(m) then Block(m[DEFS].fields, env) else env,
                       if HasDefs(m) then Block(m[DEFS].fields, env') else env')
  {
    if HasDefs(m) {
      var inner, inner' := Block(m[DEFS].fields, env), Block(m[DEFS].fields, env');
      forall x | Free(m[k], x) ensures Binding(inner, x) == Binding(inner', x) {
        if x !in m[DEFS].fields {
          assert Free(Obj(m), x);
        }
      }
    } else {
      assert forall x :: Free(m[k], x) ==> Free(Obj(m), x);
    }
  }

  /** Every definition is walked in its scope, and equal ones bind their free names to equal texts. */
  ghost predicate Bound(c: Source, ds: iset<Def>) {
    Coherent(ds) && forall d :: d in ds ==> Walked(c, ds, iset{}, d.schema, d.env)
  }

  /** Under coherence a node unfolds alike in two scopes that bind its free names alike. */
  lemma {:induction false} CoherentUnfolds(c: Source, ds: iset<Def>, d: Doc, n: nat, node: Json,
                                           env: Env, env': Env, retitled: bool)
    requires Bound(c, ds) && d.source == c && BindsAlike(node, env, env')
    requires Walked(c, ds, iset{}, node, env) && Walked(c, ds, iset{}, node, env')
    ensures Unfold(d, n, node, env, retitled) == Unfold(d, n, node, env', retitled)
    decreases n, 1, node
  {
    match node
    case Obj(m) =>
      if InlineName(m).Some? {
        var x := InlineName(m).value;
        assert Free(node, x);
        CoherentTarget(c, ds, d, n, node, env, env', x);
        forall k | k in m ensures Unfold(d, n, m[k], env, false) == Unfold(d, n, m[k], env', false) {
          SiblingBindsAlike(c, m, env, env', k);
          WalkedSibling(c, ds, iset{}, m, env, k);
          WalkedSibling(c, ds, iset{}, m, env', k);
          CoherentUnfolds(c, ds, d, n, m[k], env, env', false);
        }
        SameReferenceInScopes(d, n, m, x, env, env', retitled);
      } else {
        var inner := if HasDefs(m) then Block(m[DEFS].fields, env) else env;
        var inner' := if HasDefs(m) then Block(m[DEFS].fields, env') else env';
        forall k | k in m && !(k == DEFS && HasDefs(m))
          ensures Unfold(d, n, m[k], inner, false) == Unfold(d, n, m[k], inner', false)
        {
          EntryBindsAlike(m, env, env', k);
          WalkedEntry(c, ds, iset{}, m, env, k);
          WalkedEntry(c, ds, iset{}, m, env', k);
          CoherentUnfolds(c, ds, d, n, m[k], inner, inner', false);
        }
        SameDictInScopes(d, n, m, env, env', inner, inner', retitled);
      }
    case Arr(items) =>
      forall i | 0 <= i < |items| ensures Unfold(d, n, items[i], env, false) == Unfold(d, n, items[i], env', false) {
        assert forall x :: Free(items[i], x) ==> Free(node, x);
        WalkedItem(c, ds, iset{}, items, env, i);
        WalkedItem(c, ds, iset{}, items, env', i);
        CoherentUnfolds(c, ds, d, n, items[i], env, env', false);
      }
      assert Unfold(d, n, node, env, retitled).items == Unfold(d, n, node, env', retitled).items;
    case _ =>
  }

  lemma {:induction false} CoherentTarget(c: Source, ds: iset<Def>, d: Doc, n: nat, node: Json,
                                          env: Env, env': Env, x: string)
    requires Bound(c, ds) && d.source == c && Binding(env, x) == Binding(env', x)
    requires node.Obj? && InlineName(node.fields) == Some(x)
    requires Walked(c, ds, iset{}, node, env) && Walked(c, ds, iset{}, node, env')
    ensures InlineTarget(d, n, Find(env, x), x) == InlineTarget(d, n, Find(env', x), x)
    decreases n, 0
  {
    var a := ResolvedInScope(c, ds, node, env, x);
    var b := ResolvedInScope(c, ds, node, env', x);
    assert BindsAlike(a.schema, a.env, b.env);
    if n > 0 {
      CoherentUnfolds(c, ds, d, Below(n), a.schema, a.env, b.env, ResolvedName(c, x, a.schema) in d.promoted);
    }
  }

  /** What stands beside a walked reference is flat and binds nothing. */
  lemma SiblingBindsAlike(c: Source, m: map<string, Json>, env: Env, env': Env, k: string)
    requires InlineName(m).Some? && Inert(Obj(m)) && k in m
    ensures BindsAlike(m[k], env, env')
  {
    FlatIsClosed(m[k]);
  }

  lemma {:induction false} FlatIsClosed(node: Json)
    requires Flat(node)
    ensures forall x :: !Free(node, x)
  {
    FlatParts(node);
    match node
    case Obj(m) =>
      forall k | k in m ensures forall x :: !Free(m[k], x) { FlatIsClosed(m[k]); }
    case Arr(items) =>
      forall i | 0 <= i < |items| ensures forall x :: !Free(items[i], x) { FlatIsClosed(items[i]); }
    case _ =>
  }

  /** Definitions with one name and text are alike in meaning if they bind their free names to
      the same texts, which can be read off the document. */
  lemma {:induction false} CoherentIsAlike(c: Source, spec: Json)
    requires Ordinary(c, spec) && Coherent(Defs(spec, Root))
    ensures Alike(c, Defs(spec, Root))
  {
    var ds := Defs(spec, Root);
    forall d | d in ds ensures Walked(c, ds, iset{}, d.schema, d.env) {
      MetIsWalked(c, ds, iset{}, spec, Root, d);
    }
    forall a, b, n: nat | a in ds && b in ds && a.name == b.name && a.schema == b.schema
      ensures SameInScope(Input(c, ds), n, a, b)
    {
      assert BindsAlike(a.schema, a.env, b.env);
      CoherentUnfolds(c, ds, Input(c, ds), n, a.schema, a.env, b.env, true);
    }
  }

  lemma {:induction false} SameBody(c: Source, spec: Json, a: Def, b: Def)
    requires Ordinary(c, spec) && Coherent(Defs(spec, Root)) && a in Defs(spec, Root) && b in Defs(spec, Root)
    requires ResolvedName(c, a.name, a.schema) == ResolvedName(c, b.name, b.schema)
    requires ResolvedName(c, a.name, a.schema) !in c.components
    ensures Rewrite(c, a.schema, Names(c, a.env)) == Rewrite(c, b.schema, Names(c, b.env))
  {
    assert a.name == b.name && a.schema == b.schema;
    forall x | Free(a.schema, x) ensures Lookup(Names(c, a.env), x) == Lookup(Names(c, b.env), x) {
      LookupFinds(c, a.env, x);
      LookupFinds(c, b.env, x);
      assert Binding(a.env, x) == Binding(b.env, x);
    }
    RewriteAgree(c, a.schema, Names(c, a.env), Names(c, b.env));
  }

  lemma {:induction false} SameStored(c: Source, spec: Json, p: map<string, Json>, q: map<string, Json>, t: string)
    requires Ordinary(c, spec) && Coherent(Defs(spec, Root)) && t in p && t in q && t !in c.components
    requires Stored(c, p, Defs(spec, Root), iset{}) && Stored(c, q, Defs(spec, Root), iset{})
    ensures p[t] == q[t]
  {
    var ds := Defs(spec, Root);
    var a :| a in ds && ResolvedName(c, a.name, a.schema) == t
             && p[t] == WriteBack(Rewrite(c, a.schema, Names(c, a.env)), t);
    var b :| b in ds && ResolvedName(c, b.name, b.schema) == t
             && q[t] == WriteBack(Rewrite(c, b.schema, Names(c, b.env)), t);
    SameBody(c, spec, a, b);
  }

  lemma SameNames(c: Source, ds: iset<Def>, p: map<string, Json>, q: map<string, Json>)
    requires Stored(c, p, ds, iset{}) && Stored(c, q, ds, iset{})
    ensures p.Keys == q.Keys
  {
    assert forall t :: t in p <==> t in q;
  }

  lemma SameUnder(p: map<string, Json>, q: map<string, Json>, top: map<string, Json>)
    requires p.Keys == q.Keys && forall t :: t in p && t !in top ==> p[t] == q[t]
    ensures p + top == q + top
  {
  }

  /** Under coherence the flattened document does not depend on the order of the walk: whatever
      definition wrote each promoted body, the merged text is one and the same. */
  lemma {:induction false} CoherentDetermines(c: Source, spec: Json, p: map<string, Json>, q: map<string, Json>)
    requires Ordinary(c, spec) && Coherent(Defs(spec, Root))
    requires Stored(c, p, Defs(spec, Root), iset{}) && Stored(c, q, Defs(spec, Root), iset{})
    ensures Merged(Rewrite(c, spec, []), p) == Merged(Rewrite(c, spec, []), q)
  {
    MergedTop(c, spec, p);
    MergedTop(c, spec, q);
    SameNames(c, Defs(spec, Root), p, q);
    assert EntryRewrites(c, c.components, []).Keys == c.components.Keys;
    forall t | t in p && t !in c.components ensures p[t] == q[t] {
      SameStored(c, spec, p, q, t);
    }
    SameUnder(p, q, EntryRewrites(c, c.components, []));
  }

  lemma MergedTop(c: Source, spec: Json, p: map<string, Json>)
    requires TopSchemas(c, spec)
    ensures var flat := Rewrite(c, spec, []);
            HasSchemas(flat) && Merged(flat, p) == WithSchemas(flat, p + EntryRewrites(c, c.components, []))
  {
    MergedParts(c, spec, p);
    assert Rewrite(c, spec, []).fields[COMPONENTS] == Rewrite(c, spec.fields[COMPONENTS], []);
    assert Rewrite(c, spec.fields[COMPONENTS], []).fields[SCHEMAS]
        == Rewrite(c, spec.fields[COMPONENTS].fields[SCHEMAS], []);
  }

  // ---- something is needed -----------------------------------------------------------------

  /** A definition that refers to its neighbour `B`. */
  function ToNeighbour(): Json {
    Obj(map[REF := Str(INLINE + "B")])
  }

  function PartDefs(leaf: string): map<string, Json> {
    map["A" := ToNeighbour(), "B" := OfType(leaf)]
  }

  function OfType(name: string): Json {
    Obj(map["type" := Str(name)])
  }

  /** A part that refers to `A`, whose neighbour `B` is this leaf. */
  function Part(leaf: string): Json {
    Obj(map[DEFS := Obj(PartDefs(leaf)), "r" := Obj(map[REF := Str(INLINE + "A")])])
  }

  function TwoParts(x: string, y: string): Json {
    Obj(map[COMPONENTS := Obj(map[SCHEMAS := Obj(map[])]), "p" := Part(x), "q" := Part(y)])
  }

  function PartScope(leaf: string): Env {
    Block(PartDefs(leaf), Root)
  }

  lemma InlineOf(name: string)
    ensures InlineName(map[REF := Str(INLINE + name)]) == Some(name)
    ensures ComponentName(map[REF := Str(INLINE + name)]).None?
  {
    assert (INLINE + name)[|INLINE|..] == name;
    assert (INLINE + name)[2] == '$' && COMPONENT[2] == 'c';
  }

  lemma PartReads(leaf: string)
    ensures var m := Part(leaf).fields;
            InlineName(m).None? && ComponentName(m).None? && HasDefs(m) && m[DEFS].fields == PartDefs(leaf)
            && m.Keys == {DEFS, "r"} && m["r"] == Obj(map[REF := Str(INLINE + "A")]) && DEFS != "r"
    ensures "A" in PartDefs(leaf) && PartDefs(leaf)["A"] == ToNeighbour()
    ensures "B" in PartDefs(leaf) && PartDefs(leaf)["B"] == OfType(leaf) && PartDefs(leaf).Keys == {"A", "B"}
    ensures Find(PartScope(leaf), "A") == Find(PartScope(leaf), "B") == Some(PartScope(leaf))
  {
    assert DEFS[0] == '$' && "r"[0] == 'r' && |REF| == 4 && |DEFS| == 5;
    assert "A"[0] == 'A' && "B"[0] == 'B';
  }

  lemma OneReference(c: Source, name: string, stack: seq<map<string, string>>)
    requires Lookup(stack, name).Some?
    ensures var node := Obj(map[REF := Str(INLINE + name)]);
            && !Aborts(c, node, stack) && Inert(node)
            && Rewrite(c, node, stack) == Obj(map[REF := Str(COMPONENT + Lookup(stack, name).value)])
  {
    InlineOf(name);
    var m: map<string, Json> := map[REF := Str(INLINE + name)];
    assert REF != DEFS && !HasDefs(m);
    FlatIsUntouched(c, m[REF], Root);
  }

  lemma PartFrame(c: Source, leaf: string)
    requires c.components == map[]
    ensures var frame := Frame(c, PartDefs(leaf));
            && Lookup([frame], "A") == Some(SyntheticName(c, "A", ToNeighbour())) && Lookup([frame], "B").Some?
            && forall n :: n in PartDefs(leaf) ==> !Collides(c, n, PartDefs(leaf)[n])
  {
    PartReads(leaf);
  }

  lemma LeafAccepted(c: Source, leaf: string)
    ensures !Aborts(c, OfType(leaf), [Frame(c, PartDefs(leaf))]) && Inert(OfType(leaf))
    ensures forall d, env :: !Meets(OfType(leaf), env, d)
  {
    OfTypeReads(leaf);
    assert Names(c, PartScope(leaf)) == [] + [Frame(c, PartDefs(leaf))] == [Frame(c, PartDefs(leaf))];
    FlatIsUntouched(c, OfType(leaf), PartScope(leaf));
    forall d, env ensures !Meets(OfType(leaf), env, d) {
      FlatIsUntouched(c, OfType(leaf), env);
      NoneMet(OfType(leaf), env);
    }
  }

  lemma PartBodies(c: Source, leaf: string)
    requires c.components == map[]
    ensures var frame := Frame(c, PartDefs(leaf));
            forall n :: n in PartDefs(leaf) ==>
              !Collides(c, n, PartDefs(leaf)[n]) && !Aborts(c, PartDefs(leaf)[n], [frame]) && Inert(PartDefs(leaf)[n])
  {
    PartReads(leaf);
    PartFrame(c, leaf);
    OneReference(c, "B", [Frame(c, PartDefs(leaf))]);
    LeafAccepted(c, leaf);
  }

  lemma PartAccepted(c: Source, leaf: string)
    requires c.components == map[]
    ensures !Aborts(c, Part(leaf), []) && Inert(Part(leaf))
  {
    var m, frame := Part(leaf).fields, Frame(c, PartDefs(leaf));
    PartReads(leaf);
    PartFrame(c, leaf);
    OneReference(c, "A", [frame]);
    PartBodies(c, leaf);
    assert [] + [frame] == [frame];
    BlockAccepted(c, m, PartDefs(leaf), frame);
  }

  lemma BlockAccepted(c: Source, m: map<string, Json>, defs: map<string, Json>, frame: map<string, string>)
    requires InlineName(m).None? && HasDefs(m) && m[DEFS].fields == defs && frame == Frame(c, defs)
    requires [] + [frame] == [frame]
    requires forall n :: n in defs ==>
      !Collides(c, n, defs[n]) && !Aborts(c, defs[n], [frame]) && Inert(defs[n])
    requires forall k :: k in m && k != DEFS ==> !Aborts(c, m[k], [frame]) && Inert(m[k])
    ensures !Aborts(c, Obj(m), []) && Inert(Obj(m))
  {
  }

  /** What the walk makes of a part: it is the same for every leaf. */
  lemma PartWalked(c: Source, leaf: string)
    requires c.components == map[]
    ensures Rewrite(c, Part(leaf), [])
            == Obj(map["r" := Obj(map[REF := Str(COMPONENT + SyntheticName(c, "A", ToNeighbour()))])])
  {
    var m, frame := Part(leaf).fields, Frame(c, PartDefs(leaf));
    PartReads(leaf);
    PartFrame(c, leaf);
    OneReference(c, "A", [frame]);
    assert [] + [frame] == [frame];
    var out := Rewrite(c, Part(leaf), []).fields;
    assert out.Keys == {"r"};
    assert out["r"] == Rewrite(c, m["r"], [frame]);
  }

  lemma BlockMeets(m: map<string, Json>, inner: Env, d: Def)
    requires InlineName(m).None? && HasDefs(m) && inner == Block(m[DEFS].fields, Root)
    requires forall n :: n in inner.defs ==> !Meets(inner.defs[n], inner, d)
    requires forall k :: k in m && k != DEFS ==> !Meets(m[k], inner, d)
    ensures Meets(Obj(m), Root, d) <==> d in OwnDefs(inner)
  {
  }

  /** The definitions of a part. */
  lemma PartMeets(leaf: string, d: Def)
    ensures Meets(Part(leaf), Root, d)
            <==> d == Def("A", ToNeighbour(), PartScope(leaf)) || d == Def("B", OfType(leaf), PartScope(leaf))
  {
    PartReads(leaf);
    InlineOf("A");
    InlineOf("B");
    LeafAccepted(Source(map[], j => ""), leaf);
    BlockMeets(Part(leaf).fields, PartScope(leaf), d);
  }

  lemma DictRefers(m: map<string, Json>, x: string)
    requires ComponentName(m).None? && forall k :: k in m ==> !Refers(m[k], x)
    ensures !Refers(Obj(m), x)
  {
  }

  /** A part names no component. */
  lemma PartRefers(leaf: string, x: string)
    ensures !Refers(Part(leaf), x)
  {
    PartReads(leaf);
    InlineOf("A");
    InlineOf("B");
    OfTypeReads(leaf);
    assert |REF| == 4 && |"A"| == |"B"| == 1;
    DictRefers(ToNeighbour().fields, x);
    DictRefers(Part(leaf).fields["r"].fields, x);
    DictRefers(PartDefs(leaf), x);
    DictRefers(Part(leaf).fields, x);
  }

  function TypeLeaf(name: string): Tree {
    Node(map["type" := Leaf(Str(name))])
  }

  lemma OfTypeReads(leaf: string)
    ensures Flat(OfType(leaf)) && InlineName(OfType(leaf).fields).None? && ComponentName(OfType(leaf).fields).None?
    ensures !HasDefs(OfType(leaf).fields) && OfType(leaf).fields.Keys == {"type"} && TITLE != "type"
    ensures forall x :: !Refers(OfType(leaf), x)
  {
    assert "type"[1] == 'y' && REF[0] == '$' && DEFS[0] == '$' && |TITLE| == 5;
    FlatObj(OfType(leaf).fields);
  }

  lemma PartTarget(d: Doc, leaf: string)
    ensures InlineTarget(d, 1, Some(PartScope(leaf)), "B") == TypeLeaf(leaf)
  {
    PartReads(leaf);
    OfTypeReads(leaf);
    var retitled := ResolvedName(d.source, "B", OfType(leaf)) in d.promoted;
    var tree := Unfold(d, 0, OfType(leaf), PartScope(leaf), retitled);
    assert tree.Node? && tree.fields.Keys == {"type"};
    assert OfType(leaf).fields["type"] == Str(leaf);
    assert tree.fields["type"] == Unfold(d, 0, Str(leaf), PartScope(leaf), false);
  }

  /** Unfolded through its two references a part shows its leaf. */
  lemma PartUnfolds(d: Doc, leaf: string)
    ensures Unfold(d, 2, Part(leaf), Root, false)
            == Node(map["r" := Ref(map[], Ref(map[], TypeLeaf(leaf)))])
  {
    var m, e := Part(leaf).fields, PartScope(leaf);
    PartReads(leaf);
    InlineOf("A");
    InlineOf("B");
    PartTarget(d, leaf);
    var retitled := ResolvedName(d.source, "A", ToNeighbour()) in d.promoted;
    NoSiblings(d, 1, "B", e, retitled);
    NoSiblings(d, 2, "A", e, false);
    BlockUnfolds(d, 2, m, e);
  }

  lemma BlockUnfolds(d: Doc, n: nat, m: map<string, Json>, inner: Env)
    requires InlineName(m).None? && ComponentName(m).None? && HasDefs(m) && m.Keys == {DEFS, "r"} && DEFS != "r"
    requires inner == Block(m[DEFS].fields, Root)
    ensures Unfold(d, n, Obj(m), Root, false) == Node(map["r" := Unfold(d, n, m["r"], inner, false)])
  {
    assert Unfold(d, n, Obj(m), Root, false).fields.Keys == {"r"};
  }

  lemma NoSiblings(d: Doc, n: nat, name: string, e: Env, retitled: bool)
    ensures Unfold(d, n, Obj(map[REF := Str(INLINE + name)]), e, retitled)
            == Ref(map[], InlineTarget(d, n, Find(e, name), name))
  {
    InlineOf(name);
    assert Unfold(d, n, Obj(map[REF := Str(INLINE + name)]), e, retitled).siblings.Keys == {};
  }

  lemma PathReads(x: string, y: string)
    ensures var m := TwoParts(x, y).fields;
            && PlainDict(TwoParts(x, y)) && m.Keys == {COMPONENTS, "p", "q"} && m["p"] == Part(x) && m["q"] == Part(y)
            && m[COMPONENTS] == Obj(map[SCHEMAS := Obj(map[])])
            && PlainDict(m[COMPONENTS]) && PlainDict(Obj(map[])) && PlainPath(TwoParts(x, y))
            && ComponentName(m).None?
    ensures HasParts(TwoParts(x, y).fields, Part(x), Part(y))
    ensures forall z :: !Refers(TwoParts(x, y).fields[COMPONENTS], z)
  {
    assert |COMPONENTS| == 10 && |SCHEMAS| == 7 && |REF| == 4 && |DEFS| == 5 && |"p"| == |"q"| == 1;
    assert "p"[0] == 'p' && "q"[0] == 'q';
    FlatObj(map[]);
    FlatObj(map[SCHEMAS := Obj(map[])]);
  }

  /** A document of schemas and two parts. */
  ghost predicate HasParts(m: map<string, Json>, p: Json, q: Json) {
    && PlainDict(Obj(m)) && m.Keys == {COMPONENTS, "p", "q"}
    && m["p"] == p && m["q"] == q && Flat(m[COMPONENTS])
  }

  lemma PartsMeet(m: map<string, Json>, p: Json, q: Json, d: Def)
    requires HasParts(m, p, q)
    ensures Meets(Obj(m), Root, d) <==> Meets(p, Root, d) || Meets(q, Root, d)
  {
    FlatIsUntouched(Source(map[], j => ""), m[COMPONENTS], Root);
    assert d !in Defs(m[COMPONENTS], Root);
    assert Meets(Obj(m), Root, d) <==> exists k :: k in m && Meets(m[k], Root, d);
  }

  lemma PartsAccepted(c: Source, m: map<string, Json>, p: Json, q: Json)
    requires HasParts(m, p, q) && !Aborts(c, p, []) && Inert(p) && !Aborts(c, q, []) && Inert(q)
    ensures !Aborts(c, Obj(m), []) && Inert(Obj(m))
  {
    FlatIsUntouched(c, m[COMPONENTS], Root);
  }

  lemma TwoPartsMeet(x: string, y: string, d: Def)
    ensures Meets(TwoParts(x, y), Root, d) <==> Meets(Part(x), Root, d) || Meets(Part(y), Root, d)
  {
    PathReads(x, y);
    PartsMeet(TwoParts(x, y).fields, Part(x), Part(y), d);
  }

  lemma TwoPartsRefer(x: string, y: string, z: string)
    ensures !Refers(TwoParts(x, y), z)
  {
    var m := TwoParts(x, y).fields;
    PathReads(x, y);
    PartRefers(x, z);
    PartRefers(y, z);
    forall k | k in m ensures !Refers(m[k], z) {
      assert k == COMPONENTS || k == "p" || k == "q";
    }
  }

  lemma TwoPartsAccepted(c: Source, x: string, y: string)
    requires c.components == map[]
    ensures !Aborts(c, TwoParts(x, y), []) && Inert(TwoParts(x, y))
  {
    PathReads(x, y);
    PartAccepted(c, x);
    PartAccepted(c, y);
    PartsAccepted(c, TwoParts(x, y).fields, Part(x), Part(y));
  }

  /** The document is ordinary: nothing but coherence is missing. */
  lemma TwoPartsOrdinary(c: Source, x: string, y: string)
    requires c.components == map[] && c.digest(OfType(x)) != c.digest(OfType(y))
    ensures Ordinary(c, TwoParts(x, y))
  {
    var spec, ds := TwoParts(x, y), Defs(TwoParts(x, y), Root);
    PathReads(x, y);
    TwoPartsAccepted(c, x, y);
    forall d, d' | d in ds && d' in ds && SyntheticName(c, d.name, d.schema) == SyntheticName(c, d'.name, d'.schema)
      ensures d.name == d'.name && d.schema == d'.schema
    {
      DefOfParts(x, y, d);
      DefOfParts(x, y, d');
      SyntheticApart(c, d, d');
    }
    forall z ensures !Refers(spec, z) {
      TwoPartsRefer(x, y, z);
    }
  }

  lemma DefOfParts(x: string, y: string, d: Def)
    requires d in Defs(TwoParts(x, y), Root)
    ensures (d.name == "A" && d.schema == ToNeighbour()) || (d.name == "B" && d.schema in {OfType(x), OfType(y)})
  {
    TwoPartsMeet(x, y, d);
    PartMeets(x, d);
    PartMeets(y, d);
  }

  lemma SyntheticApart(c: Source, d: Def, d': Def)
    requires |d.name| == |d'.name| && SyntheticName(c, d.name, d.schema) == SyntheticName(c, d'.name, d'.schema)
    ensures d.name == d'.name && c.digest(d.schema) == c.digest(d'.schema)
  {
    var s, s' := SyntheticName(c, d.name, d.schema), SyntheticName(c, d'.name, d'.schema);
    var k := |PROMOTED| + |d.name|;
    assert s[|PROMOTED|..k] == d.name && s'[|PROMOTED|..k] == d'.name;
    assert s[k + 1..] == c.digest(d.schema) && s'[k + 1..] == c.digest(d'.schema);
  }

  lemma TwoPartsNotAlike(c: Source, x: string, y: string)
    requires c.components == map[] && x != y
    ensures !Alike(c, Defs(TwoParts(x, y), Root))
  {
    var ds, e, e' := Defs(TwoParts(x, y), Root), PartScope(x), PartScope(y);
    var a, b := Def("A", ToNeighbour(), e), Def("A", ToNeighbour(), e');
    PartMeets(x, a);
    PartMeets(y, b);
    TwoPartsMeet(x, y, a);
    TwoPartsMeet(x, y, b);
    PartReads(x);
    PartReads(y);
    NoSiblings(Input(c, ds), 1, "B", e, true);
    NoSiblings(Input(c, ds), 1, "B", e', true);
    PartTarget(Input(c, ds), x);
    PartTarget(Input(c, ds), y);
    TypesDiffer(x, y);
    assert a in ds && b in ds && !SameInScope(Input(c, ds), 1, a, b);
  }

  lemma TypesDiffer(x: string, y: string)
    requires x != y
    ensures TypeLeaf(x) != TypeLeaf(y)
  {
    assert TypeLeaf(x).fields["type"] != TypeLeaf(y).fields["type"];
  }

  /** The condition can fail: an ordinary document whose two parts the walk rewrites to one text,
      so that whatever stands in `components.schemas`, one of them loses its meaning. */
  lemma OneTextTwoMeanings(c: Source, x: string, y: string)
    requires c.components == map[] && c.digest(OfType(x)) != c.digest(OfType(y))
    ensures var spec, ds := TwoParts(x, y), Defs(TwoParts(x, y), Root);
            && Ordinary(c, spec) && !Alike(c, ds) && !Coherent(ds)
            && forall table ::
                 var in_, out := Input(c, ds), Output(c, ds, table);
                 || Unfold(out, 2, Rewrite(c, Part(x), []), Root, false) != Unfold(in_, 2, Part(x), Root, false)
                 || Unfold(out, 2, Rewrite(c, Part(y), []), Root, false) != Unfold(in_, 2, Part(y), Root, false)
  {
    var spec, in_ := TwoParts(x, y), Input(c, Defs(TwoParts(x, y), Root));
    TwoPartsOrdinary(c, x, y);
    TwoPartsNotAlike(c, x, y);
    if Coherent(Defs(spec, Root)) {
      CoherentIsAlike(c, spec);
    }
    PartWalked(c, x);
    PartWalked(c, y);
    PartUnfolds(in_, x);
    PartUnfolds(in_, y);
    TypesDiffer(x, y);
    var a, b := map["r" := Ref(map[], Ref(map[], TypeLeaf(x)))], map["r" := Ref(map[], Ref(map[], TypeLeaf(y)))];
    assert a["r"] != b["r"];
  }

  /** The walk over the document or over one of its definitions writes a reference to `x`. */
  ghost predicate WritesSomewhere(c: Source, spec: Json, x: string) {
    Writes(c, spec, Root, x) || exists d :: d in Defs(spec, Root) && Writes(c, d.schema, d.env, x)
  }

  /** The document, or one of its definitions, has a component reference the walk leaves. */
  ghost predicate KeepsSomewhere(spec: Json, x: string) {
    Keeps(spec, x) || exists d :: d in Defs(spec, Root) && Keeps(d.schema, x)
  }

  /** No inline reference and no `$defs` block is left anywhere in the flattened document;
      its references are ones the walk wrote, none of which dangles, and ones it left. */
  lemma FlattenEliminates(c: Source, spec: Json, promotions: map<string, Json>)
    requires !Aborts(c, spec, []) && Inert(spec) && Stored(c, promotions, Defs(spec, Root), iset{})
    ensures Flat(Merged(Rewrite(c, spec, []), promotions))
    ensures forall x :: Refers(Merged(Rewrite(c, spec, []), promotions), x) ==>
              WritesSomewhere(c, spec, x) || KeepsSomewhere(spec, x)
    ensures forall x :: WritesSomewhere(c, spec, x) ==> x in c.components || x in promotions
    ensures TopSchemas(c, spec) ==>
              var doc := Merged(Rewrite(c, spec, []), promotions);
              HasSchemas(doc) && forall x :: WritesSomewhere(c, spec, x) ==>
                x in doc.fields[COMPONENTS].fields[SCHEMAS].fields
  {
    if TopSchemas(c, spec) {
      MergedParts(c, spec, promotions);
    }
    var ds, flat := Defs(spec, Root), Rewrite(c, spec, []);
    RewriteIsFlat(c, spec, []);
    forall t | t in promotions ensures Flat(promotions[t]) && PROMOTED <= t {
      PromotedFlat(c, spec, promotions, t);
    }
    MergedFlat(flat, promotions);
    forall x | Refers(Merged(flat, promotions), x) ensures WritesSomewhere(c, spec, x) || KeepsSomewhere(spec, x) {
      MergedRefers(flat, promotions, x);
      if Refers(flat, x) {
        RewrittenRefsExist(c, spec, Root, ds, x);
      } else {
        var t :| t in promotions && Refers(promotions[t], x);
        PromotedRefers(c, spec, promotions, t, x);
      }
    }
    forall x | WritesSomewhere(c, spec, x) ensures x in c.components || x in promotions {
      if Writes(c, spec, Root, x) {
        WrittenExist(c, spec, Root, ds, x);
      } else {
        var d :| d in ds && Writes(c, d.schema, d.env, x);
        MetIsWalked(c, ds, iset{}, spec, Root, d);
        WrittenExist(c, d.schema, d.env, ds, x);
      }
    }
  }

  lemma PromotedFlat(c: Source, spec: Json, promotions: map<string, Json>, t: string)
    requires !Aborts(c, spec, []) && Inert(spec) && Stored(c, promotions, Defs(spec, Root), iset{}) && t in promotions
    ensures Flat(promotions[t]) && PROMOTED <= t
  {
    var ds := Defs(spec, Root);
    var d :| d in ds && ResolvedName(c, d.name, d.schema) == t
             && promotions[t] == WriteBack(Rewrite(c, d.schema, Names(c, d.env)), t);
    MetIsWalked(c, ds, iset{}, spec, Root, d);
    RewriteIsFlat(c, d.schema, Names(c, d.env));
    RetitledFlat(Rewrite(c, d.schema, Names(c, d.env)), t);
  }

  lemma PromotedRefers(c: Source, spec: Json, promotions: map<string, Json>, t: string, x: string)
    requires !Aborts(c, spec, []) && Inert(spec) && Stored(c, promotions, Defs(spec, Root), iset{}) && t in promotions
    requires Refers(promotions[t], x)
    ensures WritesSomewhere(c, spec, x) || KeepsSomewhere(spec, x)
  {
    var ds := Defs(spec, Root);
    var d :| d in ds && ResolvedName(c, d.name, d.schema) == t
             && promotions[t] == WriteBack(Rewrite(c, d.schema, Names(c, d.env)), t);
    MetIsWalked(c, ds, iset{}, spec, Root, d);
    RetitledRefers(Rewrite(c, d.schema, Names(c, d.env)), t, x);
    RewrittenRefsExist(c, d.schema, d.env, ds, x);
  }

  lemma FlatTable(schemas: map<string, Json>, promotions: map<string, Json>)
    requires Flat(Obj(schemas)) && forall t :: t in promotions ==> Flat(promotions[t]) && PROMOTED <= t
    ensures Flat(Obj(promotions + schemas)) && ComponentName(promotions + schemas) == ComponentName(schemas)
  {
    FlatParts(Obj(schemas));
    assert PROMOTED[0] == 'I' && REF[0] == '$' && DEFS[0] == '$';
    assert REF !in promotions && DEFS !in promotions;
    FlatObj(promotions + schemas);
  }

  lemma FlatUpdate(m: map<string, Json>, k: string, v: Json)
    requires Flat(Obj(m)) && Flat(v) && k != REF && k != DEFS
    ensures Flat(Obj(m[k := v])) && ComponentName(m[k := v]) == ComponentName(m)
  {
    FlatParts(Obj(m));
    FlatObj(m[k := v]);
  }

  lemma MergedFlat(flat: Json, promotions: map<string, Json>)
    requires Flat(flat) && forall t :: t in promotions ==> Flat(promotions[t]) && PROMOTED <= t
    ensures Flat(Merged(flat, promotions))
  {
    if HasSchemas(flat) {
      var comp := flat.fields[COMPONENTS].fields;
      FlatParts(flat);
      FlatParts(flat.fields[COMPONENTS]);
      FlatTable(comp[SCHEMAS].fields, promotions);
      FlatUpdate(comp, SCHEMAS, Obj(promotions + comp[SCHEMAS].fields));
      FlatUpdate(flat.fields, COMPONENTS, Obj(comp[SCHEMAS := Obj(promotions + comp[SCHEMAS].fields)]));
    }
  }

  lemma UpdateRefers(m: map<string, Json>, k: string, v: Json, x: string)
    requires k in m && k != REF && Refers(Obj(m[k := v]), x)
    ensures Refers(Obj(m), x) || Refers(v, x)
  {
    var m' := m[k := v];
    assert ComponentName(m') == ComponentName(m);
    if ComponentName(m) != Some(x) {
      var n :| n in m' && Refers(m'[n], x);
      assert n != k ==> m'[n] == m[n];
    }
  }

  /** A reference of the merged document stands in the walked one or in a promotion. */
  lemma MergedRefers(flat: Json, promotions: map<string, Json>, x: string)
    requires forall t :: t in promotions ==> PROMOTED <= t
    requires Refers(Merged(flat, promotions), x)
    ensures Refers(flat, x) || exists t :: t in promotions && Refers(promotions[t], x)
  {
    if HasSchemas(flat) && !Refers(flat, x) {
      var comp := flat.fields[COMPONENTS].fields;
      var schemas := comp[SCHEMAS].fields;
      assert !Refers(Obj(comp), x) && !Refers(Obj(schemas), x);
      UpdateRefers(flat.fields, COMPONENTS, Obj(comp[SCHEMAS := Obj(promotions + schemas)]), x);
      UpdateRefers(comp, SCHEMAS, Obj(promotions + schemas), x);
      assert PROMOTED[0] == 'I' && REF[0] == '$';
      assert REF !in promotions && ComponentName(promotions + schemas) == ComponentName(schemas);
      var n :| n in promotions + schemas && Refers((promotions + schemas)[n], x);
      assert n !in schemas;
    }
  }

  lemma RetitledFlat(body: Json, t: string)
    requires Flat(body)
    ensures Flat(WriteBack(body, t))
  {
    if WriteBack(body, t) != body {
      FlatParts(body);
      FlatObj(WriteBack(body, t).fields);
    }
  }

  lemma RetitledRefers(body: Json, t: string, x: string)
    requires Refers(WriteBack(body, t), x)
    ensures Refers(body, x)
  {
    if WriteBack(body, t) != body && ComponentName(body.fields) != Some(x) {
      var m := WriteBack(body, t).fields;
      assert TITLE != REF && ComponentName(m) == ComponentName(body.fields);
      var k :| k in m && Refers(m[k], x);
      assert k != TITLE && m[k] == body.fields[k];
    }
  }
}
