/**
 * The exact condition under which the project's walk keeps a view's meaning.
 *
 * The walk strays from SQL's scoping in three places: it binds every table by its schema-qualified
 * names, CTEs and tables of other databases included, and none by its database and name alone; it applies
 * the bindings of a whole FROM clause inside that clause; and it does not ask whether an item has the
 * column.  `Unmixed` reads off the view and the columns of its tables whether any reference is claimed by
 * the source because of that, or kept from it; the walk is right exactly on the views where none is.
 */
module SqlClaims {
  import opened Names
  import opened SqlTree
  import opened SqlSemantics
  import opened SqlRewrite
  import opened SqlColumns
  import opened SqlScopes
  import opened SqlMeaning
  import opened SqlTheorems

  /** A replacement, and where it is read. */
  datatype Job = Job(sh: Shapes, ctx: Context, rep: Replacement)

  function Ren(j: Job): Renaming {
    Rename(j.ctx.database, j.rep)
  }

  function View(j: Job): Reading {
    Reading(j.sh, j.ctx, Some(j.rep))
  }

  /** Items visible to SQL, and items bound by the walk, in a FROM clause. */
  function Visible(j: Job, c: Columns, t: Tree): seq<Entry> {
    Entries(View(j), c, t)
  }

  function Walked(j: Job, ctes: set<string>, t: Tree): seq<Entry> {
    BoundEntries(j.ctx, ctes, Some(j.rep), t)
  }

  /** No reference in the tree is misclaimed, given the items that the walk has bound and the scopes that SQL sees. */
  predicate Unmixed(j: Job, c: Columns, ws: seq<Entry>, seen: seq<seq<Entry>>, t: Tree)
    decreases t, 1
  {
    match t
    case Select(defs, from, clauses, _) =>
      var c1 := DefColumns(View(j), c, defs);
      var bound := Walked(j, c1.Keys, from) + ws;
      && DefsUnmixed(j, c, ws, seen, defs) && FromUnmixed(j, c1, bound, seen, from)
      && AllUnmixed(j, c1, bound, [Visible(j, c1, from)] + seen, clauses)
    case SetOp(defs, _, left, right) =>
      var c1 := DefColumns(View(j), c, defs);
      DefsUnmixed(j, c, ws, seen, defs) && Unmixed(j, c1, ws, seen, left) && Unmixed(j, c1, ws, seen, right)
    case Recursive(_, _, _, _) => true
    case Cte(_, _) => true
    case Base(_, _, _, _) => true
    case Join(_, _, _, _) => true
    case Sub(query, _) => Unmixed(j, c, ws, seen, query)
    case Op(_, args, _) => AllUnmixed(j, c, ws, seen, args)
    case Ref(names, _) => !Misclaimed(Ren(j), ws, seen, names)
    case Star(q) => q == [] || seen == [] || WalkTakes(Ren(j), ws, q + ["*"]) == StarTakes(Ren(j), seen[0], q)
  }

  predicate BodyUnmixed(j: Job, c: Columns, ws: seq<Entry>, seen: seq<seq<Entry>>, d: Tree)
    requires d.Cte?
    decreases d, 0
  {
    var q := d.query;
    if !q.Recursive? then Unmixed(j, c, ws, seen, q)
    else
      && DefsUnmixed(j, AnchorIn(c, d), ws, seen, q.defs)
      && Unmixed(j, DefColumns(View(j), AnchorIn(c, d), q.defs), ws, seen, q.left)
      && DefsUnmixed(j, RoundIn(View(j), c, d), ws, seen, q.defs)
      && Unmixed(j, DefColumns(View(j), RoundIn(View(j), c, d), q.defs), ws, seen, q.right)
  }

  predicate FromUnmixed(j: Job, c: Columns, ws: seq<Entry>, seen: seq<seq<Entry>>, t: Tree)
    decreases t, 2
  {
    match t
    case Base(_, _, _, _) => true
    case Join(_, left, right, on) =>
      && FromUnmixed(j, c, ws, seen, left) && FromUnmixed(j, c, ws, [Visible(j, c, left)] + seen, right)
      && AllUnmixed(j, c, ws, [Visible(j, c, left) + Visible(j, c, right)] + seen, on)
    case _ => Unmixed(j, c, ws, seen, t)
  }

  predicate AllUnmixed(j: Job, c: Columns, ws: seq<Entry>, seen: seq<seq<Entry>>, ts: seq<Tree>)
    decreases ts, 0
  {
    forall i | 0 <= i < |ts| :: Unmixed(j, c, ws, seen, ts[i])
  }

  predicate DefsUnmixed(j: Job, c: Columns, ws: seq<Entry>, seen: seq<seq<Entry>>, defs: seq<Tree>)
    decreases defs, 0
  {
    defs != [] ==>
      && (defs[0].Cte? ==> BodyUnmixed(j, c, ws, seen, defs[0]))
      && DefsUnmixed(j, AddColumns(View(j), c, defs[0]), ws, seen, defs[1..])
  }

  // ---------------------------------------------------------------- items keep apart from the new name

  ghost predicate Fine(j: Job, ws: seq<Entry>, seen: seq<seq<Entry>>) {
    SafeTarget(j.rep) && Settled(Ren(j), ws) && AllKnown(Ren(j), seen)
  }

  function NewIn(j: Job): Tree -> bool {
    NewAt(j.ctx, j.rep)
  }

  lemma SettledBoth(r: Renaming, a: seq<Entry>, b: seq<Entry>)
    requires Settled(r, a) && Settled(r, b)
    ensures Settled(r, a + b)
  {
  }

  lemma KnownBoth(r: Renaming, a: seq<Entry>, b: seq<Entry>)
    requires Known(r, a) && Known(r, b)
    ensures Known(r, a + b)
  {
  }

  lemma KnownMore(r: Renaming, es: seq<Entry>, seen: seq<seq<Entry>>)
    requires Known(r, es) && AllKnown(r, seen)
    ensures AllKnown(r, [es] + seen)
  {
    hide Known;
  }

  lemma AliasSettled(j: Job, alias: string, cols: seq<string>)
    requires alias == "" || !Same(alias, j.rep.target.name)
    ensures Settled(Ren(j), [AliasEntry(alias, [])]) && Known(Ren(j), [AliasEntry(alias, cols)])
  {
    LowerOne(alias);
  }

  lemma NameKnown(j: Job, name: string, cols: seq<string>)
    requires !Same(name, j.rep.target.name)
    ensures Known(Ren(j), [Entry([[name]], [[name]], cols)])
  {
    LowerOne(name);
  }

  /** A table that stays, as the walk binds it and as SQL sees it. */
  lemma TableSettled(j: Job, database: string, schema: string, name: string, cols: seq<string>)
    requires !Same(name, j.rep.target.name) && !Same(database, j.rep.target.name) && !Same(schema, j.rep.target.name)
    ensures var q := Qualifiers(database, schema, name); Settled(Ren(j), [Entry(q, q, [])])
    ensures var q := TablePaths(database, schema, name); Known(Ren(j), [Entry(q, q, cols)])
  {
    LowerQualifiers(database, schema, name);
    LowerTable(database, schema, name);
  }

  lemma PlacedSettled(j: Job, schema: string, name: string, cols: seq<string>)
    requires !Same(name, j.rep.target.name) && !Same(j.ctx.database, j.rep.target.name)
    requires schema != Lower(j.rep.target.name) && Lower(schema) == schema
    ensures var q := TablePaths(j.ctx.database, schema, name); Known(Ren(j), [Entry(q, q, cols)])
  {
    TableSettled(j, j.ctx.database, schema, name, cols);
  }

  /** The source, as the walk binds it and as SQL sees it. */
  lemma HitSettled(j: Job, ctes: set<string>, b: Tree, cols: seq<string>)
    requires SafeTarget(j.rep) && b.Base? && Hit(j.ctx, ctes, Some(j.rep), b)
    ensures var schema, to := RelationOf(j.ctx, ctes, b).schema, j.rep.target;
            && Settled(Ren(j), [Entry(Qualifiers(j.ctx.database, schema, b.name),
                                      Qualifiers(j.ctx.database, to.schema, to.name), [])])
            && Known(Ren(j), [Entry(TablePaths(j.ctx.database, schema, b.name),
                                    TablePaths(j.ctx.database, to.schema, to.name), cols)])
  {
    var from, to := j.rep.source, j.rep.target;
    var schema := RelationOf(j.ctx, ctes, b).schema;
    LowerQualifiers(j.ctx.database, schema, b.name);
    LowerQualifiers(j.ctx.database, from.schema, from.name);
    LowerQualifiers(j.ctx.database, to.schema, to.name);
    LowerTable(j.ctx.database, schema, b.name);
    LowerTable(j.ctx.database, to.schema, to.name);
    SourceKnown(Ren(j), Lower(j.ctx.database), Lower(from.schema), Lower(from.name), Lower(to.schema), Lower(to.name),
      Entry(TablePaths(j.ctx.database, schema, b.name), TablePaths(j.ctx.database, to.schema, to.name), cols));
  }

  lemma SourceKnown(r: Renaming, d: string, a: string, s: string, b: string, t: string, e: Entry)
    requires r == Renaming([[d, a, s], [a, s], [s]], [[d, b, t], [b, t], [t]], t) && s != t
    requires LowerPaths(e.before) == TablePaths(d, a, s) && LowerPaths(e.after) == TablePaths(d, b, t)
    ensures Known(r, [e])
  {
    var p, q := TablePaths(d, a, s), TablePaths(d, b, t);
    assert p[0] == r.was[0] && p[1] == r.was[1] && p[3] == r.was[2];
    assert q[0] == r.now[0] && q[1] == r.now[1] && q[3] == r.now[2];
    assert Source(r, e);
  }

  lemma BaseSettled(j: Job, c: Columns, b: Tree)
    requires SafeTarget(j.rep) && b.Base? && NewIn(j)(b)
    ensures Known(Ren(j), [BaseEntry(View(j), c, b)])
    ensures Settled(Ren(j), [BoundEntry(j.ctx, c.Keys, Some(j.rep), b)])
  {
    hide Settled, Known, Hit, BaseColumns, TablePaths;
    var ctx, cols := j.ctx, BaseColumns(View(j), c, b);
    if b.alias != "" {
      AliasSettled(j, b.alias, cols);
    } else {
      RelationSchema(ctx, c.Keys, b);
      PlacedSchema(j.sh.stored.Keys, ctx, b);
      if Hit(ctx, c.Keys, Some(j.rep), b) {
        HitSettled(j, c.Keys, b, cols);
        HitIsFree(j, c.Keys, b);
      } else {
        TableSettled(j, ctx.database, RelationOf(ctx, c.Keys, b).schema, b.name, cols);
        PlacedSettled(j, StoredKey(j.sh.stored.Keys, ctx, b).0, b.name, cols);
      }
      if IsCte(b, c.Keys) { NameKnown(j, b.name, cols); }
      else if !IsLocal(b, ctx) { TableSettled(j, b.catalog, b.schema, b.name, cols); }
    }
  }

  lemma HitIsFree(j: Job, ctes: set<string>, b: Tree)
    requires b.Base? && Hit(j.ctx, ctes, Some(j.rep), b)
    ensures !IsCte(b, ctes) && IsLocal(b, j.ctx)
  {
  }

  lemma {:induction false} FromSettled(j: Job, c: Columns, t: Tree)
    requires SafeTarget(j.rep) && Everywhere(t, NewIn(j))
    ensures Known(Ren(j), Visible(j, c, t)) && Settled(Ren(j), Walked(j, c.Keys, t))
  {
    hide Settled, Known, BaseEntry, BoundEntry, SafeTarget, QueryColumns;
    assert NewIn(j)(t);
    match t
    case Base(_, _, _, _) => BaseSettled(j, c, t);
    case Join(_, left, right, _) =>
      FromSettled(j, c, left);
      FromSettled(j, c, right);
      KnownBoth(Ren(j), Visible(j, c, left), Visible(j, c, right));
      SettledBoth(Ren(j), Walked(j, c.Keys, left), Walked(j, c.Keys, right));
    case Sub(query, alias) => AliasSettled(j, alias, QueryColumns(View(j), c, query));
    case Op(op, _, alias) => AliasSettled(j, alias, j.sh.table(op));
    case _ => NoneSettled(Ren(j));
  }

  lemma NoneSettled(r: Renaming)
    ensures Settled(r, []) && Known(r, []) && AllKnown(r, [])
  {
  }

  // ---------------------------------------------------------------- the walk against SQL

  lemma ReferenceTurned(j: Job, ws: seq<Entry>, seen: seq<seq<Entry>>, t: Tree)
    requires Fine(j, ws, seen) && NewIn(j)(t) && t.Ref?
    ensures SameSpot(seen, t.names, RewriteNames(t.names, Flat(ws))) <==> !Misclaimed(Ren(j), ws, seen, t.names)
  {
    hide SameSpot, Misclaimed, Settled, RewriteNames, Flat, Lawful, Rename;
    RenameLawful(j.ctx.database, j.rep);
    ReferenceStays(Ren(j), ws, seen, t.names);
  }

  lemma StarTurned(j: Job, ws: seq<Entry>, seen: seq<seq<Entry>>, t: Tree)
    requires Fine(j, ws, seen) && NewIn(j)(t) && t.Star? && t.qualifier != [] && seen != []
    ensures SameStar(seen[0], t.qualifier, RewriteStar(t.qualifier, Flat(ws)))
            <==> WalkTakes(Ren(j), ws, t.qualifier + ["*"]) == StarTakes(Ren(j), seen[0], t.qualifier)
  {
    hide SameStar, WalkTakes, StarTakes, Settled, Known, RewriteNames, RewriteStar, Flat, Lawful, Rename, CleanNames;
    assert seen[0] in seen;
    RenameLawful(j.ctx.database, j.rep);
    StarStays(Ren(j), ws, seen[0], t.qualifier);
  }

  lemma StarKeepsLength(j: Job, ws: seq<Entry>, q: seq<string>)
    requires SafeTarget(j.rep) && Settled(Ren(j), ws)
    ensures RewriteStar(q, Flat(ws)) == [] <==> q == []
  {
    hide Settled, RewriteNames, Flat, Lawful, Rename, ClaimsSource, RenamedFirst, LowerAll;
    if q != [] {
      RenameLawful(j.ctx.database, j.rep);
      RewriteTakes(Ren(j), ws, q + ["*"]);
    }
  }

  /** The walked tree replaces the source and keeps every reference on what it denoted exactly if none is misclaimed. */
  lemma {:induction false} WalkTurns(j: Job, c: Columns, ws: seq<Entry>, seen: seq<seq<Entry>>, t: Tree)
    requires Fine(j, ws, seen) && Everywhere(t, NewIn(j))
    ensures Turned(View(j), c, seen, t, Walk(j.ctx, Some(j.rep), Scope(c.Keys, Flat(ws)), t)) <==>
              Unmixed(j, c, ws, seen, t)
    decreases t, 1
  {
    hide Fine, Misclaimed, SameSpot, SameStar, WalkTakes, StarTakes, Entries, BoundEntries, Bind, Keys, RewriteNames,
      RewriteStar, Flat, NewIn;
    assert NewIn(j)(t);
    match t
    case Select(_, _, _, _) => SelectTurns(j, c, ws, seen, t);
    case SetOp(defs, _, left, right) =>
      DefsTurn(j, c, ws, seen, defs);
      WalkTurns(j, DefColumns(View(j), c, defs), ws, seen, left);
      WalkTurns(j, DefColumns(View(j), c, defs), ws, seen, right);
    case Sub(query, _) => WalkTurns(j, c, ws, seen, query);
    case Op(_, args, _) => AllTurn(j, c, ws, seen, args);
    case Ref(_, _) => ReferenceTurned(j, ws, seen, t);
    case Star(q) =>
      FineBound(j, ws, seen);
      StarKeepsLength(j, ws, q);
      if q != [] && seen != [] { StarTurned(j, ws, seen, t); }
    case _ =>
  }

  lemma FineBound(j: Job, ws: seq<Entry>, seen: seq<seq<Entry>>)
    requires Fine(j, ws, seen)
    ensures SafeTarget(j.rep) && Settled(Ren(j), ws)
  {
  }

  lemma FineInside(j: Job, c: Columns, ws: seq<Entry>, seen: seq<seq<Entry>>, t: Tree)
    requires Fine(j, ws, seen) && Everywhere(t, NewIn(j))
    ensures Known(Ren(j), Visible(j, c, t)) && Fine(j, Walked(j, c.Keys, t) + ws, seen)
    ensures Bind(j.ctx, c.Keys, Some(j.rep), t) + Flat(ws) == Flat(Walked(j, c.Keys, t) + ws)
  {
    hide Settled, Known, SafeTarget;
    FromSettled(j, c, t);
    SettledBoth(Ren(j), Walked(j, c.Keys, t), ws);
    BindIsFlat(j.ctx, c.Keys, Some(j.rep), t);
    FlatJoin(Walked(j, c.Keys, t), ws);
  }

  lemma FineScope(j: Job, ws: seq<Entry>, es: seq<Entry>, seen: seq<seq<Entry>>)
    requires Fine(j, ws, seen) && Known(Ren(j), es)
    ensures Fine(j, ws, [es] + seen)
  {
    hide Settled, Known, SafeTarget;
    KnownMore(Ren(j), es, seen);
  }

  lemma {:induction false} SelectTurns(j: Job, c: Columns, ws: seq<Entry>, seen: seq<seq<Entry>>, t: Tree)
    requires t.Select? && Fine(j, ws, seen) && Everywhere(t, NewIn(j))
    ensures Turned(View(j), c, seen, t, Walk(j.ctx, Some(j.rep), Scope(c.Keys, Flat(ws)), t)) <==>
              Unmixed(j, c, ws, seen, t)
    decreases t, 0
  {
    hide Fine, Entries, BoundEntries, Bind, Keys, Flat, TurnedAll, TurnedFrom, TurnedDefs, FromUnmixed,
      DefsUnmixed, AllUnmixed, NewIn, Settled, Known, SameLabels;
    var c1 := DefColumns(View(j), c, t.defs);
    var bound := Walked(j, c1.Keys, t.from) + ws;
    FineInside(j, c1, ws, seen, t.from);
    FineScope(j, bound, Visible(j, c1, t.from), seen);
    DefsTurn(j, c, ws, seen, t.defs);
    FromTurns(j, c1, bound, seen, t.from);
    AllTurn(j, c1, bound, [Visible(j, c1, t.from)] + seen, t.clauses);
    WalkLabels(j, Scope(c1.Keys, Flat(bound)), t.clauses);
  }

  /** The walk keeps the last name of a reference. */
  lemma WalkLabels(j: Job, scope: Scope, ts: seq<Tree>)
    ensures SameLabels(ts, WalkAll(j.ctx, Some(j.rep), scope, ts))
  {
    hide Bind;
    forall i | 0 <= i < |ts| && ts[i].Ref?
      ensures LastName(WalkAll(j.ctx, Some(j.rep), scope, ts)[i].names) == LastName(ts[i].names)
    {
    }
  }

  lemma {:induction false} FromTurns(j: Job, c: Columns, ws: seq<Entry>, seen: seq<seq<Entry>>, t: Tree)
    requires Fine(j, ws, seen) && Everywhere(t, NewIn(j))
    ensures TurnedFrom(View(j), c, seen, t, WalkFrom(j.ctx, Some(j.rep), Scope(c.Keys, Flat(ws)), t))
            <==> FromUnmixed(j, c, ws, seen, t)
    decreases t, 2
  {
    hide Fine, Entries, BoundEntries, Flat, TurnedAll, AllUnmixed, NewIn, Settled, Known;
    match t
    case Base(_, _, _, _) =>
    case Join(_, left, right, on) =>
      var a, b := Visible(j, c, left), Visible(j, c, right);
      FromTurns(j, c, ws, seen, left);
      FineInside(j, c, ws, seen, left);
      FineScope(j, ws, a, seen);
      FromTurns(j, c, ws, [a] + seen, right);
      FineInside(j, c, ws, seen, right);
      KnownBoth(Ren(j), a, b);
      FineScope(j, ws, a + b, seen);
      AllTurn(j, c, ws, [a + b] + seen, on);
    case _ => WalkTurns(j, c, ws, seen, t);
  }

  lemma {:induction false} AllTurn(j: Job, c: Columns, ws: seq<Entry>, seen: seq<seq<Entry>>, ts: seq<Tree>)
    requires Fine(j, ws, seen) && forall t | t in ts :: Everywhere(t, NewIn(j))
    ensures TurnedAll(View(j), c, seen, ts, WalkAll(j.ctx, Some(j.rep), Scope(c.Keys, Flat(ws)), ts))
            <==> AllUnmixed(j, c, ws, seen, ts)
    decreases ts, 0
  {
    hide Fine, Turned, Unmixed, Flat, Walk, Everywhere, NewIn;
    var us := WalkAll(j.ctx, Some(j.rep), Scope(c.Keys, Flat(ws)), ts);
    forall i | 0 <= i < |ts|
      ensures Turned(View(j), c, seen, ts[i], us[i]) <==> Unmixed(j, c, ws, seen, ts[i])
    {
      WalkTurns(j, c, ws, seen, ts[i]);
    }
  }

  lemma {:induction false} BodyTurns(j: Job, c: Columns, ws: seq<Entry>, seen: seq<seq<Entry>>, d: Tree)
    requires d.Cte? && Fine(j, ws, seen) && Everywhere(d, NewIn(j))
    ensures var u := Walk(j.ctx, Some(j.rep), Scope(c.Keys + Own(d), Flat(ws)), d);
            u.Cte? && u.key == d.key && (TurnedBody(View(j), c, seen, d, u) <==> BodyUnmixed(j, c, ws, seen, d))
    decreases d, 0
  {
    hide Fine, Turned, Unmixed, TurnedDefs, DefsUnmixed, Flat, NewIn, Keys, DefColumns, OwnColumns;
    var q := d.query;
    assert q in Parts(d);
    if q.Recursive? {
      var a, b := AnchorIn(c, d), RoundIn(View(j), c, d);
      assert a.Keys == b.Keys == c.Keys + Own(d);
      DefsTurn(j, a, ws, seen, q.defs);
      WalkTurns(j, DefColumns(View(j), a, q.defs), ws, seen, q.left);
      DefsTurn(j, b, ws, seen, q.defs);
      WalkTurns(j, DefColumns(View(j), b, q.defs), ws, seen, q.right);
    } else {
      assert c.Keys + Own(d) == c.Keys;
      WalkTurns(j, c, ws, seen, q);
      WalkKind(j, Scope(c.Keys, Flat(ws)), q);
    }
  }

  lemma WalkKind(j: Job, scope: Scope, t: Tree)
    ensures Walk(j.ctx, Some(j.rep), scope, t).Recursive? == t.Recursive?
    ensures Walk(j.ctx, Some(j.rep), scope, t).Cte? == t.Cte?
  {
  }

  lemma {:induction false} DefsTurn(j: Job, c: Columns, ws: seq<Entry>, seen: seq<seq<Entry>>, defs: seq<Tree>)
    requires Fine(j, ws, seen) && forall t | t in defs :: Everywhere(t, NewIn(j))
    ensures TurnedDefs(View(j), c, seen, defs, WalkDefs(j.ctx, Some(j.rep), Scope(c.Keys, Flat(ws)), defs))
            <==> DefsUnmixed(j, c, ws, seen, defs)
    decreases defs, 0
  {
    hide Fine, TurnedBody, BodyUnmixed, Flat, Walk, Everywhere, NewIn, Keys, Own, AddColumns;
    if defs != [] {
      var d, c1 := defs[0], AddColumns(View(j), c, defs[0]);
      assert d in defs && defs[..1] == [d];
      WalkKind(j, Scope(c.Keys + Own(d), Flat(ws)), d);
      if d.Cte? { BodyTurns(j, c, ws, seen, d); }
      DefsTurn(j, c1, ws, seen, defs[1..]);
      var us := WalkDefs(j.ctx, Some(j.rep), Scope(c.Keys, Flat(ws)), defs);
      assert us[1..] == WalkDefs(j.ctx, Some(j.rep), Scope(c1.Keys, Flat(ws)), defs[1..]);
    }
  }

  /** On every view in which no reference is misclaimed, replacing the source keeps every row. */
  lemma WalkKeepsRows(w: World, after: Database, rep: Replacement, q: Tree)
    requires Catalogued(w) && Moved(w.db, after, rep.source, rep.target) && NewNameIn(w.ctx, rep, q)
    requires Recognized(w.db.tables.Keys, w.ctx, rep.source, q)
    requires Unmixed(Job(ShapesOf(w), w.ctx, rep), map[], [], [], q)
    ensures ViewRows(w.(db := after), Walk(w.ctx, Some(rep), NOWHERE, q)) == ViewRows(w, q)
  {
    hide Turned, Unmixed, Moved, Catalogued, Everywhere, ViewRows, Walk, SafeTarget;
    var j := Job(ShapesOf(w), w.ctx, rep);
    NoneSettled(Ren(j));
    NothingBound();
    NoneInScope();
    WalkTurns(j, map[], [], [], q);
    TurningKeepsRows(w, after, rep, q, Walk(w.ctx, Some(rep), NOWHERE, q));
  }

  lemma NothingBound()
    ensures Scope({}, Flat([])) == NOWHERE
  {
  }
}
