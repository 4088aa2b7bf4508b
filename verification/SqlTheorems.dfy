/** What replacing a source, and reporting references, means for a stored view. */
module SqlTheorems {
  import opened Names
  import opened SqlTree
  import opened SqlSemantics
  import opened SqlRewrite
  import opened SqlColumns
  import opened SqlScopes
  import opened SqlMeaning

  const NOWHERE := Scope({}, [])

  // ---------------------------------------------------------------- the catalogue

  /** The catalogue lists exactly the stored tables. */
  ghost predicate Catalogued(w: World) {
    forall k: (string, string) :: k in w.db.tables <==> exists r :: r in w.ctx.catalogue && KeyOf(r) == k
  }

  lemma {:induction false} FindsHolding(w: World, schemas: seq<string>, name: string)
    requires Catalogued(w)
    ensures var found := FindIn(schemas, w.ctx.catalogue, name);
            var schema := FirstHolding(schemas, name, w.db.tables.Keys);
            && (found.Some? <==> schema.Some?)
            && (found.Some? ==> KeyOf(found.value) == (Lower(schema.value), Lower(name)))
  {
    if schemas != [] {
      var k := (Lower(schemas[0]), Lower(name));
      var here := FindNamed(w.ctx.catalogue, schemas[0], name);
      if here.None? {
        forall r | r in w.ctx.catalogue ensures KeyOf(r) != k {
          assert !(Same(r.schema, schemas[0]) && Same(r.name, name));
        }
        assert k !in w.db.tables;
      } else {
        assert KeyOf(here.value) == k;
        assert k in w.db.tables;
      }
      FindsHolding(w, schemas[1..], name);
    }
  }

  /** A table that is qualified by the database alone, and that SQL finds in one of the default schemas. */
  predicate PassedOver(keys: set<(string, string)>, ctx: Context, b: Tree)
    requires b.Base?
  {
    && ByDatabase(ctx, b) && (Lower(b.schema), Lower(b.name)) !in keys
    && FirstHolding(Schemas(ctx, ""), b.name, keys).Some?
  }

  /** The relation that is reported for a free table is the one it reads, exactly if the table is not passed over. */
  lemma ReportsWhatItReads(w: World, b: Tree)
    requires b.Base? && IsLocal(b, w.ctx) && Catalogued(w)
    ensures KeyOf(RelationOf(w.ctx, {}, b)) == Place(w.db, w.ctx, b) <==> !PassedOver(w.db.tables.Keys, w.ctx, b)
    ensures Lower(RelationOf(w.ctx, {}, b).name) == Lower(b.name)
  {
    FindsHolding(w, Schemas(w.ctx, b.schema), b.name);
    if ByDatabase(w.ctx, b) {
      var keys := w.db.tables.Keys;
      assert Places(w.ctx, b)[0] == b.schema && Places(w.ctx, b)[1..] == Schemas(w.ctx, "");
      assert [b.schema][1..] == [];
      HoldsThere(Schemas(w.ctx, ""), b.name, keys);
    }
  }

  lemma {:induction false} HoldsThere(schemas: seq<string>, name: string, keys: set<(string, string)>)
    ensures var r := FirstHolding(schemas, name, keys); r.Some? ==> (Lower(r.value), Lower(name)) in keys
  {
    if schemas != [] { HoldsThere(schemas[1..], name, keys); }
  }

  // ---------------------------------------------------------------- replacement

  /** The database after the source's rows have become the target's; the source itself may be gone. */
  ghost predicate Moved(before: Database, after: Database, source: Relation, target: Relation) {
    && (forall c, n, t :: after.foreign(c, n, t) == before.foreign(c, n, t))
    && Stored(after, KeyOf(target)) == Stored(before, KeyOf(source))
    && (forall k: (string, string) | k.1 != Lower(target.name) && k != KeyOf(source) ::
          (k in after.tables <==> k in before.tables) && Stored(after, k) == Stored(before, k))
    && (KeyOf(source) in after.tables ==> KeyOf(source) in before.tables)
  }

  function Rename(database: string, rep: Replacement): Renaming {
    Renaming(LowerPaths(Qualifiers(database, rep.source.schema, rep.source.name)),
             LowerPaths(Qualifiers(database, rep.target.schema, rep.target.name)), Lower(rep.target.name))
  }

  /**
   * The target's name is another one than the source's and new to the view: no alias, table, schema,
   * database or qualifier is spelled with it.  Its schema is not called like the database.
   */
  ghost predicate NewNameIn(ctx: Context, rep: Replacement, q: Tree) {
    SafeTarget(rep) && !Same(rep.target.schema, ctx.database) && Everywhere(q, NewAt(ctx, rep))
  }

  /** A free table of the query is reported as the source exactly if it is the source. */
  predicate Recognized(keys: set<(string, string)>, ctx: Context, source: Relation, q: Tree) {
    forall b | b in FreeBases({}, q) && IsLocal(b, ctx) ::
      StoredKey(keys, ctx, b) == KeyOf(source) <==> KeyOf(RelationOf(ctx, {}, b)) == KeyOf(source)
  }

  predicate SafeTarget(rep: Replacement) {
    rep.target.schema != "" && !Same(rep.source.name, rep.target.name)
  }

  function NewAt(ctx: Context, rep: Replacement): Tree -> bool {
    t => Distinct(ctx, rep, t)
  }

  predicate Distinct(ctx: Context, rep: Replacement, t: Tree) {
    match t
    case Ref(names, _) => CleanNames(Rename(ctx.database, rep), names)
    case Star(q) => q == [] || CleanNames(Rename(ctx.database, rep), q + ["*"])
    case Base(catalog, schema, name, alias) =>
      && !Same(name, rep.target.name)
      && if alias != "" then !Same(alias, rep.target.name)
         else
           && !Same(catalog, rep.target.name) && !Same(schema, rep.target.name) && !Same(ctx.database, rep.target.name)
           && Lower(rep.target.name) !in LowerAll(Places(ctx, t))
    case Sub(_, alias) => alias == "" || !Same(alias, rep.target.name)
    case Op(_, _, alias) => alias == "" || !Same(alias, rep.target.name)
    case _ => true
  }

  lemma RenameLawful(database: string, rep: Replacement)
    requires SafeTarget(rep)
    ensures Lawful(Rename(database, rep))
  {
    hide Lower;
    LowerQualifiers(database, rep.source.schema, rep.source.name);
    LowerQualifiers(database, rep.target.schema, rep.target.name);
    TriplesLawful(Lower(database), Lower(rep.source.schema), Lower(rep.source.name), Lower(rep.target.schema),
      Lower(rep.target.name));
  }

  lemma TriplesLawful(d: string, a: string, s: string, b: string, t: string)
    requires s != t
    ensures Lawful(Renaming([[d, a, s], [a, s], [s]], [[d, b, t], [b, t], [t]], t))
  {
  }

  /** With a new target name, a table other than the source is found where it was. */
  lemma {:induction false} HoldingStays(schemas: seq<string>, name: string, before: Database, after: Database,
                                        source: Relation, target: Relation)
    requires Moved(before, after, source, target) && !Same(name, target.name)
    ensures var a := FirstHolding(schemas, name, before.tables.Keys);
            var b := FirstHolding(schemas, name, after.tables.Keys);
            (a.Some? && (Lower(a.value), Lower(name)) == KeyOf(source)) || a == b
  {
    if schemas != [] { HoldingStays(schemas[1..], name, before, after, source, target); }
  }

  /** A free table that is not the source is untouched; the source answers as the target. */
  lemma FreeAnswers(s: Setup, rep: Replacement, b: Tree)
    requires s.rep == Some(rep) && s.hidden == {} && Catalogued(s.w) && Moved(s.w.db, s.after, rep.source, rep.target)
    requires b.Base? && !Same(b.name, rep.target.name)
    requires IsLocal(b, s.w.ctx) ==>
               (Place(s.w.db, s.w.ctx, b) == KeyOf(rep.source)
                <==> KeyOf(RelationOf(s.w.ctx, {}, b)) == KeyOf(rep.source))
    ensures Answers(s, b)
  {
    if IsLocal(b, s.w.ctx) {
      ReportsWhatItReads(s.w, b);
      if !Hit(s.w.ctx, {}, s.rep, b) {
        HoldingStays(Places(s.w.ctx, b), b.name, s.w.db, s.after, rep.source, rep.target);
      }
    }
  }

  // ---------------------------------------------------------------- free tables

  /** Free tables are parts of the query. */
  lemma {:induction false} FreeInside(ctes: set<string>, t: Tree, p: Tree -> bool)
    requires Everywhere(t, p)
    ensures forall b | b in FreeBases(ctes, t) :: p(b)
    decreases t, 1
  {
    match t
    case Select(defs, from, clauses, _) =>
      FreeInsideDefs(ctes, defs, p);
      FreeInsideFrom(ctes + Keys(defs), from, p);
      FreeInsideAll(ctes + Keys(defs), clauses, p);
    case SetOp(defs, _, left, right) =>
      FreeInsideDefs(ctes, defs, p);
      FreeInside(ctes + Keys(defs), left, p);
      FreeInside(ctes + Keys(defs), right, p);
    case Recursive(defs, _, left, right) =>
      FreeInsideDefs(ctes, defs, p);
      FreeInside(ctes + Keys(defs), left, p);
      FreeInside(ctes + Keys(defs), right, p);
    case Cte(_, query) => FreeInside(ctes, query, p);
    case Join(_, left, right, on) =>
      FreeInside(ctes, left, p);
      FreeInside(ctes, right, p);
      FreeInsideAll(ctes, on, p);
    case Sub(query, _) => FreeInside(ctes, query, p);
    case Op(_, args, _) => FreeInsideAll(ctes, args, p);
    case _ =>
  }

  lemma {:induction false} FreeInsideFrom(ctes: set<string>, t: Tree, p: Tree -> bool)
    requires Everywhere(t, p)
    ensures forall b | b in FreeInFrom(ctes, t) :: p(b)
    decreases t, 2
  {
    match t
    case Base(_, _, _, _) =>
    case Join(_, left, right, on) =>
      FreeInsideFrom(ctes, left, p);
      FreeInsideFrom(ctes, right, p);
      FreeInsideAll(ctes, on, p);
    case _ => FreeInside(ctes, t, p);
  }

  lemma {:induction false} FreeInsideAll(ctes: set<string>, ts: seq<Tree>, p: Tree -> bool)
    requires forall t | t in ts :: Everywhere(t, p)
    ensures forall b | b in FreeInAll(ctes, ts) :: p(b)
    decreases ts, 0
  {
    if ts != [] {
      assert ts[0] in ts;
      FreeInside(ctes, ts[0], p);
      FreeInsideAll(ctes, ts[1..], p);
    }
  }

  lemma {:induction false} FreeInsideDefs(ctes: set<string>, defs: seq<Tree>, p: Tree -> bool)
    requires forall t | t in defs :: Everywhere(t, p)
    ensures forall b | b in FreeInDefs(ctes, defs) :: p(b)
    decreases defs, 0
  {
    if defs != [] {
      assert defs[0] in defs;
      FreeInside(ctes + Own(defs[0]), defs[0], p);
      FreeInsideDefs(ctes + Keys(defs[..1]), defs[1..], p);
    }
  }

  /** The relations a query reads from its own database: what the walk reports. */
  function References(ctx: Context, q: Tree): seq<Relation> {
    Reported(ctx, FreeBases({}, q))
  }

  function Reported(ctx: Context, bases: seq<Tree>): seq<Relation>
    requires forall b | b in bases :: b.Base?
  {
    if bases == [] then []
    else (if IsLocal(bases[0], ctx) then [RelationOf(ctx, {}, bases[0])] else []) + Reported(ctx, bases[1..])
  }

  lemma {:induction false} ReportedHas(ctx: Context, bases: seq<Tree>, b: Tree)
    requires forall x | x in bases :: x.Base?
    requires b in bases && IsLocal(b, ctx)
    ensures RelationOf(ctx, {}, b) in Reported(ctx, bases)
  {
    if b != bases[0] { ReportedHas(ctx, bases[1..], b); }
  }

  // ---------------------------------------------------------------- theorems

  lemma NoneInScope()
    ensures var c: Columns := map[]; c.Keys == {}
  {
  }

  function ViewRows(w: World, q: Tree): Table {
    Query(w, q, map[], [])
  }

  /**
   * Whatever rewrites a view so that its source is replaced and every reference denotes what it
   * denoted keeps every row of the view, if the target's name is new to it: through CTE shadowing,
   * aliases, joins, recursion and correlated subqueries.
   */
  lemma TurningKeepsRows(w: World, after: Database, rep: Replacement, q: Tree, u: Tree)
    requires Catalogued(w) && Moved(w.db, after, rep.source, rep.target) && NewNameIn(w.ctx, rep, q)
    requires Recognized(w.db.tables.Keys, w.ctx, rep.source, q)
    requires Turned(Reading(ShapesOf(w), w.ctx, Some(rep)), map[], [], q, u)
    ensures ViewRows(w.(db := after), u) == ViewRows(w, q)
  {
    hide Everywhere, Turned, Query, Answers, Moved;
    var s := Setup(w, after, Some(rep), {});
    FreeInside({}, q, NewAt(w.ctx, rep));
    forall b | b in FreeBases({}, q) ensures Answers(s, b) {
      assert NewAt(w.ctx, rep)(b);
      FreeAnswers(s, rep, b);
    }
    NoneInScope();
    QuerySame(s, q, u, map[], [], map[], map[], [], []);
  }

  /** A view's rows depend on nothing but its reported references (and on other databases). */
  lemma ReadsOnlyReferences(w: World, after: Database, q: Tree)
    requires Catalogued(w) && after.tables.Keys == w.db.tables.Keys
    requires forall c, n, t :: after.foreign(c, n, t) == w.db.foreign(c, n, t)
    requires forall b | b in FreeBases({}, q) && IsLocal(b, w.ctx) :: !PassedOver(w.db.tables.Keys, w.ctx, b)
    requires forall r | r in References(w.ctx, q) :: Stored(after, KeyOf(r)) == Stored(w.db, KeyOf(r))
    ensures ViewRows(w.(db := after), q) == ViewRows(w, q)
  {
    hide Query, Turned;
    var s := Setup(w, after, None, {});
    forall b | b in FreeBases({}, q) ensures Answers(s, b) {
      if IsLocal(b, w.ctx) {
        ReportsWhatItReads(w, b);
        ReportedHas(w.ctx, FreeBases({}, q), b);
      }
    }
    TurnedItself(Reads(s), map[], [], q);
    NoneInScope();
    QuerySame(s, q, q, map[], [], map[], map[], [], []);
  }
}
