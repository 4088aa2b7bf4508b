/**
 * The scope-aware walk that reports the tables a view reads and replaces one of them.
 *
 * `Walk`, `WalkFrom` and `Bind` are the project's own walk: one flat list of qualifier bindings, in
 * which a FROM clause's bindings are in force inside that FROM clause too, whatever columns its items have.
 */
module SqlRewrite {
  import opened Names
  import opened SqlTree

  datatype Replacement = Replacement(source: Relation, target: Relation)

  // ---------------------------------------------------------------- catalogue

  function FindNamed(objects: seq<Relation>, schema: string, name: string): (r: Option<Relation>)
    ensures r.Some? ==> r.value in objects && Same(r.value.schema, schema) && Same(r.value.name, name)
    ensures r.None? ==> forall o | o in objects :: !(Same(o.schema, schema) && Same(o.name, name))
  {
    if objects == [] then None
    else if Same(objects[0].schema, schema) && Same(objects[0].name, name) then Some(objects[0])
    else FindNamed(objects[1..], schema, name)
  }

  function FindIn(schemas: seq<string>, objects: seq<Relation>, name: string): Option<Relation> {
    if schemas == [] then None
    else match FindNamed(objects, schemas[0], name)
      case Some(r) => Some(r)
      case None => FindIn(schemas[1..], objects, name)
  }

  /** The relation a base table is taken to name. */
  function RelationOf(ctx: Context, ctes: set<string>, b: Tree): Relation
    requires b.Base?
  {
    var given := Relation(if b.schema == "" then ctx.schema else b.schema, b.name);
    if !IsCte(b, ctes) && IsLocal(b, ctx) then
      match FindIn(Schemas(ctx, b.schema), ctx.catalogue, b.name)
      case Some(r) => r
      case None => given
    else given
  }

  /** Is this base table the replaced source? */
  predicate Hit(ctx: Context, ctes: set<string>, rep: Option<Replacement>, b: Tree)
    requires b.Base?
  {
    && rep.Some? && !IsCte(b, ctes) && IsLocal(b, ctx)
    && Same(rep.value.source.schema, RelationOf(ctx, ctes, b).schema)
    && Same(rep.value.source.name, b.name)
  }

  function Replaced(ctx: Context, ctes: set<string>, rep: Option<Replacement>, b: Tree): (r: Tree)
    requires b.Base?
    ensures r.Base?
  {
    if Hit(ctx, ctes, rep, b) then b.(schema := rep.value.target.schema, name := rep.value.target.name) else b
  }

  function Qualifiers(database: string, schema: string, name: string): seq<seq<string>> {
    [[database, schema, name], [schema, name], [name]]
  }

  // ---------------------------------------------------------------- the project's walk

  datatype Binding = Binding(before: seq<string>, after: seq<string>)
  datatype Scope = Scope(ctes: set<string>, bindings: seq<Binding>)

  function Alias(alias: string): seq<Binding> {
    if alias == "" then [] else [Binding([alias], [alias])]
  }

  function Zip(before: seq<seq<string>>, after: seq<seq<string>>): seq<Binding>
    requires |before| == |after|
  {
    seq(|before|, i requires 0 <= i < |before| => Binding(before[i], after[i]))
  }

  function Bind(ctx: Context, ctes: set<string>, rep: Option<Replacement>, t: Tree): seq<Binding> {
    match t
    case Base(_, _, name, alias) =>
      if alias != "" then Alias(alias)
      else
        var before := Qualifiers(ctx.database, RelationOf(ctx, ctes, t).schema, name);
        Zip(before,
          if Hit(ctx, ctes, rep, t)
          then Qualifiers(ctx.database, rep.value.target.schema, rep.value.target.name)
          else before)
    case Join(_, left, right, _) => Bind(ctx, ctes, rep, left) + Bind(ctx, ctes, rep, right)
    case Sub(_, alias) => Alias(alias)
    case Op(_, _, alias) => Alias(alias)
    case _ => []
  }

  /** `before` is a proper, case-insensitive prefix of `names`. */
  predicate Covers(before: seq<string>, names: seq<string>) {
    |names| > |before| && LowerAll(names[..|before|]) == LowerAll(before)
  }

  /** The first binding that covers the reference rewrites its qualifier. */
  function RewriteNames(names: seq<string>, bindings: seq<Binding>): (r: seq<string>)
    ensures if names == [] then r == [] else r != [] && r[|r| - 1] == names[|names| - 1]
  {
    if bindings == [] then names
    else if Covers(bindings[0].before, names) then bindings[0].after + names[|bindings[0].before|..]
    else RewriteNames(names, bindings[1..])
  }

  function RewriteStar(qualifier: seq<string>, bindings: seq<Binding>): seq<string> {
    if qualifier == [] then [] else
    var r := RewriteNames(qualifier + ["*"], bindings);
    r[..|r| - 1]
  }

  function Walk(ctx: Context, rep: Option<Replacement>, scope: Scope, t: Tree): (r: Tree)
    decreases t, 0
  {
    match t
    case Select(defs, from, clauses, tag) =>
      var ctes := scope.ctes + Keys(defs);
      var inner := Scope(ctes, Bind(ctx, ctes, rep, from) + scope.bindings);
      Select(WalkDefs(ctx, rep, scope, defs), WalkFrom(ctx, rep, inner, from), WalkAll(ctx, rep, inner, clauses), tag)
    case SetOp(defs, op, left, right) =>
      var inner := Scope(scope.ctes + Keys(defs), scope.bindings);
      SetOp(WalkDefs(ctx, rep, scope, defs), op, Walk(ctx, rep, inner, left), Walk(ctx, rep, inner, right))
    case Recursive(defs, op, left, right) =>
      var inner := Scope(scope.ctes + Keys(defs), scope.bindings);
      Recursive(WalkDefs(ctx, rep, scope, defs), op, Walk(ctx, rep, inner, left), Walk(ctx, rep, inner, right))
    case Cte(key, query) => Cte(key, Walk(ctx, rep, scope, query))
    case Base(_, _, _, _) => t
    case Join(kind, left, right, on) =>
      Join(kind, Walk(ctx, rep, scope, left), Walk(ctx, rep, scope, right), WalkAll(ctx, rep, scope, on))
    case Sub(query, alias) => Sub(Walk(ctx, rep, scope, query), alias)
    case Op(op, args, alias) => Op(op, WalkAll(ctx, rep, scope, args), alias)
    case Ref(names, alias) => Ref(RewriteNames(names, scope.bindings), alias)
    case Star(qualifier) => Star(RewriteStar(qualifier, scope.bindings))
  }

  /** Base tables are replaced in FROM clauses, and in the joins of FROM clauses, only. */
  function WalkFrom(ctx: Context, rep: Option<Replacement>, scope: Scope, t: Tree): (r: Tree)
    decreases t, 1
  {
    match t
    case Base(_, _, _, _) => Replaced(ctx, scope.ctes, rep, t)
    case Join(kind, left, right, on) =>
      Join(kind, WalkFrom(ctx, rep, scope, left), WalkFrom(ctx, rep, scope, right), WalkAll(ctx, rep, scope, on))
    case _ => Walk(ctx, rep, scope, t)
  }

  function WalkAll(ctx: Context, rep: Option<Replacement>, scope: Scope, ts: seq<Tree>): (r: seq<Tree>)
    ensures |r| == |ts|
    ensures forall i | 0 <= i < |ts| :: r[i] == Walk(ctx, rep, scope, ts[i])
    decreases ts
  {
    if ts == [] then [] else [Walk(ctx, rep, scope, ts[0])] + WalkAll(ctx, rep, scope, ts[1..])
  }

  /** Definitions in order: each sees the earlier names, and its own when it is recursive. */
  function WalkDefs(ctx: Context, rep: Option<Replacement>, scope: Scope, defs: seq<Tree>): (r: seq<Tree>)
    ensures |r| == |defs|
    decreases defs
  {
    if defs == [] then [] else
    [Walk(ctx, rep, scope.(ctes := scope.ctes + Own(defs[0])), defs[0])]
      + WalkDefs(ctx, rep, scope.(ctes := scope.ctes + Keys(defs[..1])), defs[1..])
  }

  function Own(d: Tree): set<string> {
    if d.Cte? && d.query.Recursive? then {Lower(d.key)} else {}
  }

  // ---------------------------------------------------------------- items

  /** One item: the qualifiers that reach it, before and after the replacement, and its columns. */
  datatype Entry = Entry(before: seq<seq<string>>, after: seq<seq<string>>, cols: seq<string>)

  function AliasEntry(alias: string, cols: seq<string>): Entry {
    if alias == "" then Entry([], [], cols) else Entry([[alias]], [[alias]], cols)
  }

  /** The bindings that items give. */
  function Flat(entries: seq<Entry>): seq<Binding> {
    if entries == [] then []
    else
      var e := entries[0];
      (if |e.before| == |e.after| then Zip(e.before, e.after) else []) + Flat(entries[1..])
  }

  lemma {:induction false} FlatJoin(a: seq<Entry>, b: seq<Entry>)
    ensures Flat(a + b) == Flat(a) + Flat(b)
  {
    if a == [] {
      assert a + b == b;
    } else {
      assert (a + b)[1..] == a[1..] + b;
      FlatJoin(a[1..], b);
    }
  }

  /**
   * The items of a FROM clause as the walk binds them: every table by all three of its qualifiers, its
   * columns unseen.
   */
  function BoundEntries(ctx: Context, ctes: set<string>, rep: Option<Replacement>, t: Tree): seq<Entry> {
    match t
    case Base(_, _, _, _) => [BoundEntry(ctx, ctes, rep, t)]
    case Join(_, left, right, _) => BoundEntries(ctx, ctes, rep, left) + BoundEntries(ctx, ctes, rep, right)
    case Sub(_, alias) => [AliasEntry(alias, [])]
    case Op(_, _, alias) => [AliasEntry(alias, [])]
    case _ => []
  }

  function BoundEntry(ctx: Context, ctes: set<string>, rep: Option<Replacement>, b: Tree): Entry
    requires b.Base?
  {
    if b.alias != "" then AliasEntry(b.alias, [])
    else
      var before := Qualifiers(ctx.database, RelationOf(ctx, ctes, b).schema, b.name);
      Entry(before,
        if Hit(ctx, ctes, rep, b)
        then Qualifiers(ctx.database, rep.value.target.schema, rep.value.target.name)
        else before, [])
  }

  lemma FlatOne(e: Entry)
    requires |e.before| == |e.after|
    ensures Flat([e]) == Zip(e.before, e.after)
  {
    assert Flat([e][1..]) == [];
  }

  lemma {:induction false} BindIsFlat(ctx: Context, ctes: set<string>, rep: Option<Replacement>, t: Tree)
    ensures Bind(ctx, ctes, rep, t) == Flat(BoundEntries(ctx, ctes, rep, t))
  {
    match t
    case Base(_, _, _, alias) => FlatOne(BoundEntry(ctx, ctes, rep, t));
    case Join(_, left, right, _) =>
      BindIsFlat(ctx, ctes, rep, left);
      BindIsFlat(ctx, ctes, rep, right);
      FlatJoin(BoundEntries(ctx, ctes, rep, left), BoundEntries(ctx, ctes, rep, right));
    case Sub(_, alias) => FlatOne(AliasEntry(alias, []));
    case Op(_, _, alias) => FlatOne(AliasEntry(alias, []));
    case _ =>
  }

  // ---------------------------------------------------------------- reported references

  /** The base tables that a query reads and no CTE binds. */
  function FreeBases(ctes: set<string>, t: Tree): (r: seq<Tree>)
    ensures forall b | b in r :: b.Base?
    decreases t, 1
  {
    match t
    case Select(defs, from, clauses, _) =>
      var ctes1 := ctes + Keys(defs);
      FreeInDefs(ctes, defs) + FreeInFrom(ctes1, from) + FreeInAll(ctes1, clauses)
    case SetOp(defs, _, left, right) =>
      var ctes1 := ctes + Keys(defs);
      FreeInDefs(ctes, defs) + FreeBases(ctes1, left) + FreeBases(ctes1, right)
    case Recursive(defs, _, left, right) =>
      var ctes1 := ctes + Keys(defs);
      FreeInDefs(ctes, defs) + FreeBases(ctes1, left) + FreeBases(ctes1, right)
    case Cte(_, query) => FreeBases(ctes, query)
    case Base(_, _, _, _) => []
    case Join(_, left, right, on) => FreeBases(ctes, left) + FreeBases(ctes, right) + FreeInAll(ctes, on)
    case Sub(query, _) => FreeBases(ctes, query)
    case Op(_, args, _) => FreeInAll(ctes, args)
    case Ref(_, _) => []
    case Star(_) => []
  }

  function FreeInFrom(ctes: set<string>, t: Tree): (r: seq<Tree>)
    ensures forall b | b in r :: b.Base?
    decreases t, 2
  {
    match t
    case Base(_, _, _, _) => if IsCte(t, ctes) then [] else [t]
    case Join(_, left, right, on) => FreeInFrom(ctes, left) + FreeInFrom(ctes, right) + FreeInAll(ctes, on)
    case _ => FreeBases(ctes, t)
  }

  function FreeInAll(ctes: set<string>, ts: seq<Tree>): (r: seq<Tree>)
    ensures forall b | b in r :: b.Base?
    decreases ts, 0
  {
    if ts == [] then [] else FreeBases(ctes, ts[0]) + FreeInAll(ctes, ts[1..])
  }

  function FreeInDefs(ctes: set<string>, defs: seq<Tree>): (r: seq<Tree>)
    ensures forall b | b in r :: b.Base?
    decreases defs, 0
  {
    if defs == [] then [] else
    FreeBases(ctes + Own(defs[0]), defs[0]) + FreeInDefs(ctes + Keys(defs[..1]), defs[1..])
  }
}
