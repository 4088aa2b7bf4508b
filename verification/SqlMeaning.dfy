/**
 * Replacing a source preserves meaning.
 *
 * `Turned` says that a tree is another with its free source replaced and every reference denoting what
 * it denoted.  The core result relates one query under two databases, two CTE environments and two
 * sets of scopes: if every free table answers alike, the turned query has the same rows.
 */
module SqlMeaning {
  import opened Names
  import opened SqlTree
  import opened SqlSemantics
  import opened SqlRewrite
  import opened SqlColumns
  import opened SqlScopes

  /**
   * `after` is the database the turned query runs on, and `hidden` the CTE names on which the two
   * environments may differ.
   */
  datatype Setup = Setup(w: World, after: Database, rep: Option<Replacement>, hidden: set<string>)

  function After(s: Setup): World {
    s.w.(db := s.after)
  }

  function Reads(s: Setup): Reading {
    Reading(ShapesOf(s.w), s.w.ctx, s.rep)
  }

  ghost predicate Sound(s: Setup) {
    s.rep.Some? ==> s.rep.value.target.schema != "" && !Same(s.rep.value.target.schema, s.w.ctx.database)
  }

  // ---------------------------------------------------------------- turned trees

  /** `u` is `t` with the source replaced, each of its references denoting what it denoted. */
  ghost predicate Turned(r: Reading, c: Columns, seen: seq<seq<Entry>>, t: Tree, u: Tree)
    decreases t, 1
  {
    match t
    case Select(defs, from, clauses, tag) =>
      var c1 := DefColumns(r, c, defs);
      && u.Select? && u.tag == tag && TurnedDefs(r, c, seen, defs, u.defs) && TurnedFrom(r, c1, seen, from, u.from)
      && TurnedAll(r, c1, [Entries(r, c1, from)] + seen, clauses, u.clauses) && SameLabels(clauses, u.clauses)
    case SetOp(defs, op, left, right) =>
      var c1 := DefColumns(r, c, defs);
      && u.SetOp? && u.op == op && TurnedDefs(r, c, seen, defs, u.defs)
      && Turned(r, c1, seen, left, u.left) && Turned(r, c1, seen, right, u.right)
    case Recursive(_, _, _, _) => u.Recursive?
    case Cte(_, _) => u.Cte?
    case Base(_, _, _, _) => u.Base?
    case Join(_, _, _, _) => u.Join?
    case Sub(query, alias) => u.Sub? && u.alias == alias && Turned(r, c, seen, query, u.query)
    case Op(op, args, alias) => u.Op? && u.op == op && u.alias == alias && TurnedAll(r, c, seen, args, u.args)
    case Ref(names, alias) => u.Ref? && u.alias == alias && SameSpot(seen, names, u.names)
    case Star(q) =>
      && u.Star? && (q == [] <==> u.qualifier == [])
      && (q != [] && seen != [] ==> SameStar(seen[0], q, u.qualifier))
  }

  ghost predicate TurnedDef(r: Reading, c: Columns, seen: seq<seq<Entry>>, t: Tree, u: Tree)
    decreases t, 1
  {
    if t.Cte? then u.Cte? && u.key == t.key && TurnedBody(r, c, seen, t, u) else !u.Cte?
  }

  /**
   * A definition's query; a recursive one sees itself without columns in its anchor, and with the anchor's in
   * its rounds.
   */
  ghost predicate TurnedBody(r: Reading, c: Columns, seen: seq<seq<Entry>>, t: Tree, u: Tree)
    requires t.Cte? && u.Cte?
    decreases t, 0
  {
    var q, v := t.query, u.query;
    if !q.Recursive? then !v.Recursive? && Turned(r, c, seen, q, v)
    else
      && v.Recursive? && v.op == q.op
      && TurnedDefs(r, AnchorIn(c, t), seen, q.defs, v.defs)
      && Turned(r, DefColumns(r, AnchorIn(c, t), q.defs), seen, q.left, v.left)
      && TurnedDefs(r, RoundIn(r, c, t), seen, q.defs, v.defs)
      && Turned(r, DefColumns(r, RoundIn(r, c, t), q.defs), seen, q.right, v.right)
  }

  ghost predicate TurnedFrom(r: Reading, c: Columns, seen: seq<seq<Entry>>, t: Tree, u: Tree)
    decreases t, 2
  {
    match t
    case Base(_, _, _, _) => u == Replaced(r.ctx, c.Keys, r.rep, t)
    case Join(kind, left, right, on) =>
      && u.Join? && u.kind == kind
      && TurnedFrom(r, c, seen, left, u.left) && TurnedFrom(r, c, [Entries(r, c, left)] + seen, right, u.right)
      && TurnedAll(r, c, [Entries(r, c, left) + Entries(r, c, right)] + seen, on, u.on)
    case _ => Turned(r, c, seen, t, u)
  }

  ghost predicate TurnedAll(r: Reading, c: Columns, seen: seq<seq<Entry>>, ts: seq<Tree>, us: seq<Tree>)
    decreases ts, 0
  {
    |us| == |ts| && forall i | 0 <= i < |ts| :: Turned(r, c, seen, ts[i], us[i])
  }

  ghost predicate TurnedDefs(r: Reading, c: Columns, seen: seq<seq<Entry>>, defs: seq<Tree>, us: seq<Tree>)
    decreases defs, 0
  {
    && |us| == |defs|
    && (defs != [] ==>
          TurnedDef(r, c, seen, defs[0], us[0]) && TurnedDefs(r, AddColumns(r, c, defs[0]), seen, defs[1..], us[1..]))
  }

  /** Without an alias, a clause is labelled by the last name of its reference. */
  predicate SameLabels(ts: seq<Tree>, us: seq<Tree>) {
    && |us| == |ts|
    && forall i | 0 <= i < |ts| ::
      ts[i].Ref? && us[i].Ref? && ts[i].alias == "" ==> LastName(us[i].names) == LastName(ts[i].names)
  }

  function LastName(names: seq<string>): string {
    if names == [] then "" else names[|names| - 1]
  }

  // ---------------------------------------------------------------- free tables

  /**
   * A free table is not a hidden CTE, and answers alike before and after; one that is replaced is the one
   * that the catalogue names, and answers as the target.
   */
  ghost predicate Answers(s: Setup, b: Tree)
    requires b.Base?
  {
    && (b.catalog == "" && b.schema == "" ==> Lower(b.name) !in s.hidden)
    && if !IsLocal(b, s.w.ctx) then
      forall c, n, t :: s.after.foreign(c, n, t) == s.w.db.foreign(c, n, t)
    else
      var key := Place(s.w.db, s.w.ctx, b);
      if Hit(s.w.ctx, {}, s.rep, b) then
        && KeyOf(RelationOf(s.w.ctx, {}, b)) == key
        && Stored(s.after, KeyOf(s.rep.value.target)) == Stored(s.w.db, key)
      else
        Place(s.after, s.w.ctx, b) == key && Stored(s.after, key) == Stored(s.w.db, key)
  }

  /** Where a local table's rows are stored. */
  function Place(db: Database, ctx: Context, b: Tree): (string, string)
    requires b.Base?
  {
    StoredKey(db.tables.Keys, ctx, b)
  }

  ghost predicate AllAnswer(s: Setup, bases: seq<Tree>)
    requires forall b | b in bases :: b.Base?
  {
    forall b | b in bases :: Answers(s, b)
  }

  // ---------------------------------------------------------------- related environments

  /** Both environments have the CTEs in `c`, with the same rows and these columns; any other they have is hidden. */
  predicate Agree(s: Setup, c: Columns, e: map<string, Table>, f: map<string, Table>) {
    && (forall k | k in e :: k in c || k in s.hidden)
    && (forall k | k in f :: k in c || k in s.hidden)
    && forall k | k in c :: k in e && k in f && f[k] == e[k] && e[k].cols == c[k]
  }

  lemma AgreePut(s: Setup, c: Columns, e: map<string, Table>, f: map<string, Table>, key: string, t: Table)
    requires Agree(s, c, e, f)
    ensures Agree(s, c[key := t.cols], e[key := t], f[key := t])
  {
  }

  /** One scope on a row: the entries' items before and after, with the same values. */
  predicate AlikeRow(es: seq<Entry>, bs: seq<Bound>, bs': seq<Bound>) {
    && ItemsOf(bs) == BeforeItems(es) && ItemsOf(bs') == AfterItems(es)
    && forall i | 0 <= i < |es| :: bs'[i].vals == bs[i].vals
  }

  predicate Alike(seen: seq<seq<Entry>>, env: seq<seq<Bound>>, env': seq<seq<Bound>>) {
    |env| == |seen| == |env'| && forall d | 0 <= d < |seen| :: AlikeRow(seen[d], env[d], env'[d])
  }

  /** The two FROM clauses have the same rows, and items that differ only in their qualifiers. */
  predicate SameRows(es: seq<Entry>, v: FromValue, v': FromValue) {
    v.items == BeforeItems(es) && v'.items == AfterItems(es) && v'.rows == v.rows
  }

  lemma AttachAlike(es: seq<Entry>, row: seq<seq<Value>>)
    ensures AlikeRow(es, Attach(BeforeItems(es), row), Attach(AfterItems(es), row))
  {
    assert ItemsOf(Attach(BeforeItems(es), row)) == BeforeItems(es);
    assert ItemsOf(Attach(AfterItems(es), row)) == AfterItems(es);
  }

  lemma AlikeMore(es: seq<Entry>, bs: seq<Bound>, bs': seq<Bound>, seen: seq<seq<Entry>>, env: seq<seq<Bound>>,
                  env': seq<seq<Bound>>)
    requires AlikeRow(es, bs, bs') && Alike(seen, env, env')
    ensures Alike([es] + seen, [bs] + env, [bs'] + env')
  {
    hide AlikeRow;
  }

  // ---------------------------------------------------------------- base tables

  lemma {:induction false} FoundSchema(schemas: seq<string>, objects: seq<Relation>, name: string)
    ensures var r := FindIn(schemas, objects, name);
            r.Some? ==> Lower(r.value.schema) in LowerAll(schemas)
  {
    if schemas != [] {
      assert LowerAll(schemas)[1..] == LowerAll(schemas[1..]);
      assert LowerAll(schemas)[0] == Lower(schemas[0]);
      FoundSchema(schemas[1..], objects, name);
    }
  }

  lemma {:induction false} HeldSchema(schemas: seq<string>, name: string, keys: set<(string, string)>)
    ensures var r := FirstHolding(schemas, name, keys); r.Some? ==> Lower(r.value) in LowerAll(schemas)
  {
    if schemas != [] {
      assert LowerAll(schemas)[1..] == LowerAll(schemas[1..]);
      assert LowerAll(schemas)[0] == Lower(schemas[0]);
      HeldSchema(schemas[1..], name, keys);
    }
  }

  /** A table is looked up, and named by the catalogue, in the places where SQL looks. */
  lemma PlacedSchema(keys: set<(string, string)>, ctx: Context, b: Tree)
    requires b.Base?
    ensures StoredKey(keys, ctx, b).0 in LowerAll(Places(ctx, b))
    ensures forall s | s in LowerAll(Schemas(ctx, b.schema)) :: s in LowerAll(Places(ctx, b))
  {
    hide FirstHolding;
    HeldSchema(Places(ctx, b), b.name, keys);
    var places := LowerAll(Places(ctx, b));
    assert places[0] == Lower(Places(ctx, b)[0]);
    if ByDatabase(ctx, b) { assert LowerAll(Schemas(ctx, b.schema)) == [Lower(b.schema)]; }
  }

  lemma RelationSchema(ctx: Context, ctes: set<string>, b: Tree)
    requires b.Base?
    ensures Lower(RelationOf(ctx, ctes, b).schema) in LowerAll(Schemas(ctx, b.schema))
  {
    FoundSchema(Schemas(ctx, b.schema), ctx.catalogue, b.name);
    assert LowerAll(Schemas(ctx, b.schema))[0] == Lower(Schemas(ctx, b.schema)[0]);
  }

  lemma LowerQualifiers(database: string, schema: string, name: string)
    ensures LowerPaths(Qualifiers(database, schema, name)) ==
            [[Lower(database), Lower(schema), Lower(name)], [Lower(schema), Lower(name)], [Lower(name)]]
  {
    var q := Qualifiers(database, schema, name);
    assert LowerAll(q[0]) == [Lower(database), Lower(schema), Lower(name)];
    assert LowerAll(q[1]) == [Lower(schema), Lower(name)];
    assert LowerAll(q[2]) == [Lower(name)];
  }

  lemma LowerTable(database: string, schema: string, name: string)
    ensures LowerPaths(TablePaths(database, schema, name)) == TablePaths(Lower(database), Lower(schema), Lower(name))
  {
    var q := TablePaths(database, schema, name);
    assert LowerAll(q[0]) == [Lower(database), Lower(schema), Lower(name)];
    assert LowerAll(q[1]) == [Lower(schema), Lower(name)] && LowerAll(q[2]) == [Lower(database), Lower(name)];
    assert LowerAll(q[3]) == [Lower(name)];
  }

  lemma LowerOne(name: string)
    ensures LowerPaths([[name]]) == [[Lower(name)]]
  {
    assert LowerAll([name]) == [Lower(name)];
  }

  lemma AliasSame(alias: string, t: Table)
    ensures SameRows([AliasEntry(alias, t.cols)], Single(AliasPaths(alias), t), Single(AliasPaths(alias), t))
  {
    LowerOne(alias);
  }

  /** A base table reads the same rows after the replacement, under the qualifiers and columns of its entry. */
  lemma BaseSame(s: Setup, c: Columns, b: Tree, e: map<string, Table>, f: map<string, Table>)
    requires Sound(s) && b.Base? && Agree(s, c, e, f) && AllAnswer(s, FreeInFrom(c.Keys, b))
    ensures BaseAlike(s, c, b, e, f)
  {
    hide BaseAlike, Answers;
    if IsCte(b, c.Keys) {
      CteSame(s, c, b, e, f);
    } else {
      assert b in FreeInFrom(c.Keys, b);
      Unbound(s, c, b, e, f);
      if Hit(s.w.ctx, c.Keys, s.rep, b) { HitSame(s, c, b, e, f); } else { FreeSame(s, c, b, e, f); }
    }
  }

  predicate BaseAlike(s: Setup, c: Columns, b: Tree, e: map<string, Table>, f: map<string, Table>)
    requires b.Base?
  {
    var u, entry := Replaced(s.w.ctx, c.Keys, s.rep, b), BaseEntry(Reads(s), c, b);
    && BaseTable(s.after, s.w.ctx, f, u) == BaseTable(s.w.db, s.w.ctx, e, b)
    && BaseTable(s.w.db, s.w.ctx, e, b).cols == entry.cols
    && BasePaths(s.w.db, s.w.ctx, e.Keys, b) == LowerPaths(entry.before)
    && BasePaths(s.after, s.w.ctx, f.Keys, u) == LowerPaths(entry.after)
  }

  /** A table that no CTE in scope binds is bound by neither environment. */
  lemma Unbound(s: Setup, c: Columns, b: Tree, e: map<string, Table>, f: map<string, Table>)
    requires b.Base? && !IsCte(b, c.Keys) && Agree(s, c, e, f) && Answers(s, b)
    ensures !IsCte(b, e.Keys) && !IsCte(b, f.Keys)
  {
  }

  lemma CteSame(s: Setup, c: Columns, b: Tree, e: map<string, Table>, f: map<string, Table>)
    requires b.Base? && IsCte(b, c.Keys) && Agree(s, c, e, f)
    ensures BaseAlike(s, c, b, e, f)
  {
    LowerOne(b.alias);
    LowerOne(b.name);
  }

  lemma FreeSame(s: Setup, c: Columns, b: Tree, e: map<string, Table>, f: map<string, Table>)
    requires b.Base? && !IsCte(b, e.Keys) && !IsCte(b, f.Keys) && !IsCte(b, c.Keys) && Answers(s, b)
    requires !Hit(s.w.ctx, c.Keys, s.rep, b)
    ensures BaseAlike(s, c, b, e, f)
  {
    hide IsCte, RelationOf, StoredKey, TablePaths;
    FreeRelation(s.w.ctx, c.Keys, s.rep, b);
    StoredColumns(s, b);
    LowerOne(b.alias);
    LowerTable(s.w.ctx.database, Place(s.w.db, s.w.ctx, b).0, b.name);
    LowerTable(b.catalog, b.schema, b.name);
    StoredAt(s.w.db, s.w.ctx, b);
    StoredAt(s.after, s.w.ctx, b);
  }

  lemma StoredColumns(s: Setup, b: Tree)
    requires b.Base?
    ensures StoredKey(Reads(s).sh.stored.Keys, s.w.ctx, b) == Place(s.w.db, s.w.ctx, b)
    ensures var k, cols := Place(s.w.db, s.w.ctx, b), Reads(s).sh.stored;
            Stored(s.w.db, k).cols == if k in cols then cols[k] else []
  {
    assert Reads(s).sh.stored.Keys == s.w.db.tables.Keys;
  }

  lemma StoredAt(db: Database, ctx: Context, b: Tree)
    requires b.Base?
    ensures Place(db, ctx, b).1 == Lower(b.name) && Lower(Place(db, ctx, b).0) == Place(db, ctx, b).0
  {
    hide FirstHolding;
    match FirstHolding(Places(ctx, b), b.name, db.tables.Keys)
    case Some(schema) => LowerTwice(schema);
    case None => LowerTwice(if b.schema == "" then ctx.schema else b.schema);
  }

  lemma LowerTwice(s: string)
    ensures Lower(Lower(s)) == Lower(s)
  {
  }

  lemma FreeRelation(ctx: Context, ctes: set<string>, rep: Option<Replacement>, b: Tree)
    requires b.Base? && !IsCte(b, ctes)
    ensures RelationOf(ctx, ctes, b) == RelationOf(ctx, {}, b) && Hit(ctx, ctes, rep, b) == Hit(ctx, {}, rep, b)
  {
  }

  /** The source answers as the target. */
  lemma HitSame(s: Setup, c: Columns, b: Tree, e: map<string, Table>, f: map<string, Table>)
    requires Sound(s) && b.Base? && !IsCte(b, e.Keys) && !IsCte(b, f.Keys) && !IsCte(b, c.Keys) && Answers(s, b)
    requires Hit(s.w.ctx, c.Keys, s.rep, b)
    ensures BaseAlike(s, c, b, e, f)
  {
    hide RelationOf, StoredKey, TablePaths, FirstHolding;
    FreeRelation(s.w.ctx, c.Keys, s.rep, b);
    StoredColumns(s, b);
    HitPlace(s, c.Keys, b);
    LowerOne(b.alias);
    LowerTable(s.w.ctx.database, RelationOf(s.w.ctx, c.Keys, b).schema, b.name);
    StoredAt(s.w.db, s.w.ctx, b);
  }

  /** The replaced table is found by its schema. */
  lemma HitPlace(s: Setup, ctes: set<string>, b: Tree)
    requires Sound(s) && b.Base? && Hit(s.w.ctx, ctes, s.rep, b)
    ensures var u, to := Replaced(s.w.ctx, ctes, s.rep, b), s.rep.value.target;
            && Place(s.after, s.w.ctx, u) == KeyOf(to)
            && LowerPaths(TablePaths(s.w.ctx.database, to.schema, to.name)) ==
                 TablePaths(Lower(s.w.ctx.database), Lower(to.schema), Lower(to.name))
  {
    var u := Replaced(s.w.ctx, ctes, s.rep, b);
    LowerTable(s.w.ctx.database, s.rep.value.target.schema, s.rep.value.target.name);
    assert Places(s.w.ctx, u) == [u.schema];
    assert FirstHolding([u.schema][1..], u.name, s.after.tables.Keys) == None;
  }

  // ---------------------------------------------------------------- parts of a query

  lemma {:induction false} PartAnswers(s: Setup, ctes: set<string>, ts: seq<Tree>, i: nat)
    requires AllAnswer(s, FreeInAll(ctes, ts)) && i < |ts|
    ensures AllAnswer(s, FreeBases(ctes, ts[i]))
    decreases ts
  {
    hide Answers;
    SplitAnswers(s, FreeBases(ctes, ts[0]), FreeInAll(ctes, ts[1..]));
    if i > 0 { PartAnswers(s, ctes, ts[1..], i - 1); }
  }

  lemma SplitAnswers(s: Setup, a: seq<Tree>, b: seq<Tree>)
    requires forall x | x in a + b :: x.Base?
    requires AllAnswer(s, a + b)
    ensures forall x | x in a :: x in a + b
    ensures forall x | x in b :: x in a + b
    ensures forall x | x in a :: x.Base? && Answers(s, x)
    ensures forall x | x in b :: x.Base? && Answers(s, x)
  {
    forall x | x in a ensures x in a + b && Answers(s, x) { assert x in a + b; }
    forall x | x in b ensures x in a + b && Answers(s, x) { assert x in a + b; }
  }

  // ---------------------------------------------------------------- references and stars

  lemma AlikeShape(seen: seq<seq<Entry>>, env: seq<seq<Bound>>, env': seq<seq<Bound>>)
    requires Alike(seen, env, env')
    ensures Shape(env) == Befores(seen) && Shape(env') == Afters(seen)
  {
  }

  lemma Counts(seen: seq<seq<Entry>>)
    ensures forall d | 0 <= d < |seen| :: |Befores(seen)[d]| == |seen[d]|
  {
  }

  lemma SplitTail(a: seq<string>, b: seq<string>, k: nat)
    requires |a| == |b| > k && LowerAll(a[k..]) == LowerAll(b[k..])
    ensures Lower(a[k]) == Lower(b[k]) && LowerAll(a[k + 1..]) == LowerAll(b[k + 1..])
  {
    assert LowerAll(a[k..])[0] == Lower(a[k]) && LowerAll(b[k..])[0] == Lower(b[k]);
    assert LowerAll(a[k..])[1..] == LowerAll(a[k + 1..]) && LowerAll(b[k..])[1..] == LowerAll(b[k + 1..]);
  }

  lemma {:induction false} ColumnUpToCase(cols: seq<string>, vals: seq<Value>, a: string, b: string)
    requires Lower(a) == Lower(b)
    ensures ColumnAt(cols, vals, a) == ColumnAt(cols, vals, b)
  {
    if cols != [] && vals != [] { ColumnUpToCase(cols[1..], vals[1..], a, b); }
  }

  /** An item has the columns it had, and on alike rows their values. */
  lemma ItemSame(es: seq<Entry>, bs: seq<Bound>, bs': seq<Bound>, i: nat)
    requires AlikeRow(es, bs, bs') && i < |es|
    ensures i < |bs| && i < |bs'| && bs'[i].item.cols == bs[i].item.cols == es[i].cols && bs'[i].vals == bs[i].vals
  {
    assert |ItemsOf(bs)| == |bs| && |ItemsOf(bs')| == |bs'|;
    assert ItemsOf(bs)[i] == bs[i].item && ItemsOf(bs')[i] == bs'[i].item;
  }

  /** A reference that denotes what it denoted has the value it had. */
  lemma ReferenceSame(eng: Engine, names: seq<string>, out: seq<string>, seen: seq<seq<Entry>>, env: seq<seq<Bound>>,
                      env': seq<seq<Bound>>)
    requires SameSpot(seen, names, out) && Alike(seen, env, env')
    ensures Lookup(eng, env', out) == Lookup(eng, env, names)
  {
    hide Resolve, LowerAll, Shape, Befores, Afters, AlikeRow;
    AlikeShape(seen, env, env');
    Counts(seen);
    match Resolve(Befores(seen), names)
    case Column(d, i, n) =>
      ItemSame(seen[d], env[d], env'[d], i);
      SplitTail(out, names, n);
      ColumnUpToCase(env[d][i].item.cols, env[d][i].vals, out[n], names[n]);
    case Row(d, i) => ItemSame(seen[d], env[d], env'[d], i);
    case Lost =>
  }

  lemma StarValuesSame(es: seq<Entry>, q: seq<string>, out: seq<string>, bs: seq<Bound>, bs': seq<Bound>)
    requires AlikeRow(es, bs, bs') && (q == [] <==> out == []) && (q != [] ==> SameStar(es, q, out))
    ensures StarValues(bs', out) == StarValues(bs, q)
  {
    hide RowAt, BeforeItems, AfterItems;
    assert |ItemsOf(bs)| == |bs| && |ItemsOf(bs')| == |bs'|;
    if q == [] {
      assert seq(|bs'|, i requires 0 <= i < |bs'| => bs'[i].vals) == seq(|bs|, i requires 0 <= i < |bs| => bs[i].vals);
    }
  }

  lemma StarColumnsSame(es: seq<Entry>, q: seq<string>, out: seq<string>)
    requires (q == [] <==> out == []) && (q != [] ==> SameStar(es, q, out))
    ensures StarColumns(AfterItems(es), out) == StarColumns(BeforeItems(es), q)
  {
    hide RowAt;
    var a, b := AfterItems(es), BeforeItems(es);
    if q == [] {
      assert seq(|a|, i requires 0 <= i < |a| => a[i].cols) == seq(|b|, i requires 0 <= i < |b| => b[i].cols);
    }
  }

  lemma LabelsSame(r: Reading, c: Columns, es: seq<Entry>, seen: seq<seq<Entry>>, t: Tree, u: Tree)
    requires Turned(r, c, [es] + seen, t, u)
    requires t.Ref? && u.Ref? && t.alias == "" ==> LastName(u.names) == LastName(t.names)
    ensures Labels(AfterItems(es), u) == Labels(BeforeItems(es), t)
  {
    hide SameSpot, SameStar, StarColumns, BeforeItems, AfterItems;
    if t.Star? { StarColumnsSame(es, t.qualifier, u.qualifier); }
  }

  // ---------------------------------------------------------------- the simulation

  ghost predicate Ready(s: Setup, c: Columns, seen: seq<seq<Entry>>, e: map<string, Table>, f: map<string, Table>,
                        env: seq<seq<Bound>>, env': seq<seq<Bound>>) {
    Sound(s) && Agree(s, c, e, f) && Alike(seen, env, env')
  }

  /** A query node has the same rows, and the columns that its text tells. */
  lemma {:induction false} QuerySame(s: Setup, t: Tree, u: Tree, c: Columns, seen: seq<seq<Entry>>,
                                     e: map<string, Table>, f: map<string, Table>, env: seq<seq<Bound>>,
                                     env': seq<seq<Bound>>)
    requires Ready(s, c, seen, e, f, env, env') && AllAnswer(s, FreeBases(c.Keys, t)) && Turned(Reads(s), c, seen, t, u)
    ensures Query(After(s), u, f, env') == Query(s.w, t, e, env)
    ensures Query(s.w, t, e, env).cols == QueryColumns(Reads(s), c, t)
    decreases t, 1
  {
    hide Answers, Agree, Alike, Entries, Keys, Reads;
    match t
    case Select(defs, from, clauses, tag) => SelectSame(s, t, u, c, seen, e, f, env, env');
    case SetOp(defs, op, left, right) =>
      var c1 := DefColumns(Reads(s), c, defs);
      SplitAnswers(s, FreeInDefs(c.Keys, defs) + FreeBases(c1.Keys, left), FreeBases(c1.Keys, right));
      SplitAnswers(s, FreeInDefs(c.Keys, defs), FreeBases(c1.Keys, left));
      DefsSame(s, defs, u.defs, c, seen, e, f, env, env');
      var e1, f1 := Defs(s.w, defs, e, env), Defs(After(s), u.defs, f, env');
      QuerySame(s, left, u.left, c1, seen, e1, f1, env, env');
      QuerySame(s, right, u.right, c1, seen, e1, f1, env, env');
    case _ =>
  }

  lemma {:induction false} SelectSame(s: Setup, t: Tree, u: Tree, c: Columns, seen: seq<seq<Entry>>,
                                      e: map<string, Table>, f: map<string, Table>, env: seq<seq<Bound>>,
                                      env': seq<seq<Bound>>)
    requires t.Select? && Ready(s, c, seen, e, f, env, env') && AllAnswer(s, FreeBases(c.Keys, t))
    requires Turned(Reads(s), c, seen, t, u)
    ensures Query(After(s), u, f, env') == Query(s.w, t, e, env)
    ensures Query(s.w, t, e, env).cols == QueryColumns(Reads(s), c, t)
    decreases t, 0
  {
    hide Answers, Agree, Alike, Entries, Keys, SameRows, LabelTable, ClauseTable;
    var c1 := DefColumns(Reads(s), c, t.defs);
    SplitAnswers(s, FreeInDefs(c.Keys, t.defs) + FreeInFrom(c1.Keys, t.from), FreeInAll(c1.Keys, t.clauses));
    SplitAnswers(s, FreeInDefs(c.Keys, t.defs), FreeInFrom(c1.Keys, t.from));
    DefsSame(s, t.defs, u.defs, c, seen, e, f, env, env');
    var e1, f1 := Defs(s.w, t.defs, e, env), Defs(After(s), u.defs, f, env');
    FromSame(s, t.from, u.from, c1, seen, e1, f1, env, env');
    var v, v' := From(s.w, t.from, e1, env), From(After(s), u.from, f1, env');
    ItemsSame(Entries(Reads(s), c1, t.from), v, v');
    LabelTablesSame(Reads(s), c1, Entries(Reads(s), c1, t.from), seen, t.clauses, u.clauses);
    ClausesSame(s, t.clauses, u.clauses, c1, Entries(Reads(s), c1, t.from), seen, e1, f1, v, v', env, env');
  }

  lemma ItemsSame(es: seq<Entry>, v: FromValue, v': FromValue)
    requires SameRows(es, v, v')
    ensures v.items == BeforeItems(es) && v'.items == AfterItems(es)
  {
  }

  lemma LabelTablesSame(r: Reading, c: Columns, es: seq<Entry>, seen: seq<seq<Entry>>, ts: seq<Tree>, us: seq<Tree>)
    requires TurnedAll(r, c, [es] + seen, ts, us) && SameLabels(ts, us)
    ensures LabelTable(AfterItems(es), us) == LabelTable(BeforeItems(es), ts)
  {
    hide Turned, Labels;
    forall i | 0 <= i < |ts| ensures Labels(AfterItems(es), us[i]) == Labels(BeforeItems(es), ts[i]) {
      LabelsSame(r, c, es, seen, ts[i], us[i]);
    }
  }

  lemma {:induction false} ClausesSame(s: Setup, ts: seq<Tree>, us: seq<Tree>, c: Columns, es: seq<Entry>,
                                       seen: seq<seq<Entry>>, e: map<string, Table>, f: map<string, Table>,
                                       v: FromValue, v': FromValue, env: seq<seq<Bound>>, env': seq<seq<Bound>>)
    requires Ready(s, c, seen, e, f, env, env') && AllAnswer(s, FreeInAll(c.Keys, ts)) && SameRows(es, v, v')
    requires TurnedAll(Reads(s), c, [es] + seen, ts, us)
    ensures ClauseTable(After(s), us, f, v', env') == ClauseTable(s.w, ts, e, v, env)
    decreases ts, 3
  {
    hide Answers, Agree, Alike, TurnedAll, ClauseRow, Attach, BeforeItems, AfterItems, Reads;
    forall k | 0 <= k < |v.rows|
      ensures ClauseRow(After(s), us, f, Attach(v'.items, v.rows[k]), env') ==
                ClauseRow(s.w, ts, e, Attach(v.items, v.rows[k]), env)
    {
      AttachAlike(es, v.rows[k]);
      RowSame(s, ts, us, c, es, seen, e, f, Attach(v.items, v.rows[k]), Attach(v'.items, v.rows[k]), env, env');
    }
  }

  lemma {:induction false} RowSame(s: Setup, ts: seq<Tree>, us: seq<Tree>, c: Columns, es: seq<Entry>,
                                   seen: seq<seq<Entry>>, e: map<string, Table>, f: map<string, Table>,
                                   bs: seq<Bound>, bs': seq<Bound>, env: seq<seq<Bound>>, env': seq<seq<Bound>>)
    requires Ready(s, c, seen, e, f, env, env') && AllAnswer(s, FreeInAll(c.Keys, ts)) && AlikeRow(es, bs, bs')
    requires TurnedAll(Reads(s), c, [es] + seen, ts, us)
    ensures ClauseRow(After(s), us, f, bs', env') == ClauseRow(s.w, ts, e, bs, env)
    decreases ts, 2
  {
    hide Answers, Agree, Alike, AlikeRow, Turned, Clause, Reads;
    forall i | 0 <= i < |ts| ensures Clause(After(s), us[i], f, bs', env') == Clause(s.w, ts[i], e, bs, env) {
      PartAnswers(s, c.Keys, ts, i);
      ClauseSame(s, ts[i], us[i], c, es, seen, e, f, bs, bs', env, env');
    }
  }

  lemma {:induction false} ClauseSame(s: Setup, t: Tree, u: Tree, c: Columns, es: seq<Entry>,
                                      seen: seq<seq<Entry>>, e: map<string, Table>, f: map<string, Table>,
                                      bs: seq<Bound>, bs': seq<Bound>, env: seq<seq<Bound>>, env': seq<seq<Bound>>)
    requires Ready(s, c, seen, e, f, env, env') && AllAnswer(s, FreeBases(c.Keys, t)) && AlikeRow(es, bs, bs')
    requires Turned(Reads(s), c, [es] + seen, t, u)
    ensures Clause(After(s), u, f, bs', env') == Clause(s.w, t, e, bs, env)
    decreases t, 3
  {
    hide Answers, Agree, Alike, AlikeRow, Expr, Reads, SameStar, StarValues;
    KeepsShape(Reads(s), c, [es] + seen, t, u);
    if t.Star? {
      StarValuesSame(es, t.qualifier, u.qualifier, bs, bs');
    } else {
      AlikeMore(es, bs, bs', seen, env, env');
      ExprSame(s, t, u, c, [es] + seen, e, f, [bs] + env, [bs'] + env');
    }
  }

  lemma KeepsShape(r: Reading, c: Columns, seen: seq<seq<Entry>>, t: Tree, u: Tree)
    requires Turned(r, c, seen, t, u)
    ensures u.Star? == t.Star? && u.Cte? == t.Cte? && u.Recursive? == t.Recursive?
  {
  }

  function Put(w: World, d: Tree, e: map<string, Table>, env: seq<seq<Bound>>): map<string, Table> {
    if d.Cte? then e[Lower(d.key) := Def(w, d, e, env)] else e
  }

  lemma DefsStep(w: World, defs: seq<Tree>, e: map<string, Table>, env: seq<seq<Bound>>)
    requires defs != []
    ensures Defs(w, defs, e, env) == Defs(w, defs[1..], Put(w, defs[0], e, env), env)
  {
  }

  /** One definition extends both environments alike. */
  lemma {:induction false} PutSame(s: Setup, d: Tree, u: Tree, c: Columns, seen: seq<seq<Entry>>,
                                   e: map<string, Table>, f: map<string, Table>, env: seq<seq<Bound>>,
                                   env': seq<seq<Bound>>)
    requires Ready(s, c, seen, e, f, env, env') && AllAnswer(s, FreeBases(c.Keys + Own(d), d))
    requires TurnedDef(Reads(s), c, seen, d, u)
    ensures Agree(s, AddColumns(Reads(s), c, d), Put(s.w, d, e, env), Put(After(s), u, f, env'))
    decreases d, 4
  {
    hide Answers, Agree, Alike, Def, FreeBases, TurnedBody, OwnColumns;
    if d.Cte? {
      DefSame(s, d, u, c, seen, e, f, env, env');
      AgreePut(s, c, e, f, Lower(d.key), Def(s.w, d, e, env));
    }
  }

  /** Definitions extend both environments alike. */
  lemma {:induction false} DefsSame(s: Setup, defs: seq<Tree>, us: seq<Tree>, c: Columns, seen: seq<seq<Entry>>,
                                    e: map<string, Table>, f: map<string, Table>, env: seq<seq<Bound>>,
                                    env': seq<seq<Bound>>)
    requires Ready(s, c, seen, e, f, env, env') && AllAnswer(s, FreeInDefs(c.Keys, defs))
    requires TurnedDefs(Reads(s), c, seen, defs, us)
    ensures Agree(s, DefColumns(Reads(s), c, defs), Defs(s.w, defs, e, env), Defs(After(s), us, f, env'))
    decreases defs, 1
  {
    hide Answers, Agree, Alike, TurnedDef, Put, Keys, AddColumns;
    if defs != [] {
      var d, c1 := defs[0], AddColumns(Reads(s), c, defs[0]);
      assert defs[..1] == [d];
      SplitAnswers(s, FreeBases(c.Keys + Own(d), d), FreeInDefs(c1.Keys, defs[1..]));
      DefsStep(s.w, defs, e, env);
      DefsStep(After(s), us, f, env');
      PutSame(s, d, us[0], c, seen, e, f, env, env');
      DefsSame(s, defs[1..], us[1..], c1, seen, Put(s.w, d, e, env), Put(After(s), us[0], f, env'), env, env');
    }
  }

  lemma {:induction false} DefSame(s: Setup, d: Tree, u: Tree, c: Columns, seen: seq<seq<Entry>>,
                                   e: map<string, Table>, f: map<string, Table>, env: seq<seq<Bound>>,
                                   env': seq<seq<Bound>>)
    requires d.Cte? && u.Cte? && Ready(s, c, seen, e, f, env, env') && AllAnswer(s, FreeBases(c.Keys + Own(d), d))
    requires u.key == d.key && TurnedBody(Reads(s), c, seen, d, u)
    ensures Def(After(s), u, f, env') == Def(s.w, d, e, env)
    ensures Def(s.w, d, e, env).cols == OwnColumns(Reads(s), c, d)
    decreases d, 3
  {
    hide Answers, Agree, Alike, Query, Rounds, Turned, TurnedDefs;
    if d.query.Recursive? {
      RoundsSame(s, d, u, c, seen, e, f, env, env', s.w.eng.rounds);
    } else {
      assert c.Keys + Own(d) == c.Keys;
      QuerySame(s, d.query, u.query, c, seen, e, f, env, env');
    }
  }

  function RoundEnv(w: World, t: Tree, key: string, e: map<string, Table>, env: seq<seq<Bound>>, so: Table)
    : map<string, Table>
    requires t.Recursive?
  {
    Defs(w, t.defs, e[key := so], env)
  }

  lemma RoundsStep(w: World, t: Tree, key: string, e: map<string, Table>, env: seq<seq<Bound>>, n: nat)
    requires t.Recursive?
    ensures n == 0 ==> Rounds(w, t, key, e, env, n) == Query(w, t.left, RoundEnv(w, t, key, e, env, EMPTY), env)
    ensures n > 0 ==>
              var so := Rounds(w, t, key, e, env, n - 1);
              Rounds(w, t, key, e, env, n) ==
                Table(so.cols, w.eng.setop(t.op, so, Query(w, t.right, RoundEnv(w, t, key, e, env, so), env)))
  {
  }

  lemma {:induction false} RoundsSame(s: Setup, d: Tree, u: Tree, c: Columns, seen: seq<seq<Entry>>,
                                      e: map<string, Table>, f: map<string, Table>, env: seq<seq<Bound>>,
                                      env': seq<seq<Bound>>, n: nat)
    requires d.Cte? && u.Cte? && u.key == d.key && d.query.Recursive? && Ready(s, c, seen, e, f, env, env')
    requires AllAnswer(s, FreeBases(c.Keys + Own(d), d)) && TurnedBody(Reads(s), c, seen, d, u)
    ensures u.query.Recursive?
    ensures var key := Lower(d.key);
            && Rounds(After(s), u.query, key, f, env', n) == Rounds(s.w, d.query, key, e, env, n)
            && Rounds(s.w, d.query, key, e, env, n).cols == OwnColumns(Reads(s), c, d)
    decreases d, 2, n
  {
    hide Answers, Agree, Alike, Query, QueryColumns, Defs, Rounds, Keys, FreeBases, FreeInDefs, Turned, TurnedDefs,
      Reads;
    var key := Lower(d.key);
    RoundsStep(s.w, d.query, key, e, env, n);
    RoundsStep(After(s), u.query, key, f, env', n);
    if n == 0 {
      SideSame(s, d, u, true, c, seen, e, f, env, env', EMPTY);
    } else {
      RoundsSame(s, d, u, c, seen, e, f, env, env', n - 1);
      SideSame(s, d, u, false, c, seen, e, f, env, env', Rounds(s.w, d.query, key, e, env, n - 1));
    }
  }

  lemma RecursiveAnswers(s: Setup, c: Columns, d: Tree)
    requires d.Cte? && d.query.Recursive? && AllAnswer(s, FreeBases(c.Keys + Own(d), d))
    ensures var inner := c.Keys + {Lower(d.key)};
            && AllAnswer(s, FreeInDefs(inner, d.query.defs))
            && AllAnswer(s, FreeBases(inner + Keys(d.query.defs), d.query.left))
            && AllAnswer(s, FreeBases(inner + Keys(d.query.defs), d.query.right))
  {
    hide Answers, Keys;
    var inner, q := c.Keys + {Lower(d.key)}, d.query;
    var inside := inner + Keys(q.defs);
    SplitAnswers(s, FreeInDefs(inner, q.defs) + FreeBases(inside, q.left), FreeBases(inside, q.right));
    SplitAnswers(s, FreeInDefs(inner, q.defs), FreeBases(inside, q.left));
  }

  function SideOf(q: Tree, first: bool): Tree
    requires q.Recursive?
  {
    if first then q.left else q.right
  }

  /** One side of a recursive query, over the same rows so far. */
  lemma {:induction false} SideSame(s: Setup, d: Tree, u: Tree, first: bool, c: Columns, seen: seq<seq<Entry>>,
                                    e: map<string, Table>, f: map<string, Table>, env: seq<seq<Bound>>,
                                    env': seq<seq<Bound>>, so: Table)
    requires d.Cte? && u.Cte? && d.query.Recursive? && u.query.Recursive? && Ready(s, c, seen, e, f, env, env')
    requires AllAnswer(s, FreeBases(c.Keys + Own(d), d))
    requires TurnedDefs(Reads(s), c[Lower(d.key) := so.cols], seen, d.query.defs, u.query.defs)
    requires Turned(Reads(s), DefColumns(Reads(s), c[Lower(d.key) := so.cols], d.query.defs), seen,
                    SideOf(d.query, first), SideOf(u.query, first))
    ensures var key := Lower(d.key);
            var q := Query(s.w, SideOf(d.query, first), RoundEnv(s.w, d.query, key, e, env, so), env);
            && Query(After(s), SideOf(u.query, first), RoundEnv(After(s), u.query, key, f, env', so), env') == q
            && q.cols ==
                 QueryColumns(Reads(s), DefColumns(Reads(s), c[key := so.cols], d.query.defs), SideOf(d.query, first))
    decreases d, 1
  {
    hide Answers, Agree, Alike, Query, QueryColumns, Defs, Keys, FreeBases, FreeInDefs, Turned, TurnedDefs, Reads;
    var c1 := c[Lower(d.key) := so.cols];
    assert c1.Keys == c.Keys + {Lower(d.key)};
    RecursiveAnswers(s, c, d);
    AgreePut(s, c, e, f, Lower(d.key), so);
    DefsSame(s, d.query.defs, u.query.defs, c1, seen, e[Lower(d.key) := so], f[Lower(d.key) := so], env, env');
    QuerySame(s, SideOf(d.query, first), SideOf(u.query, first), DefColumns(Reads(s), c1, d.query.defs), seen,
      RoundEnv(s.w, d.query, Lower(d.key), e, env, so), RoundEnv(After(s), u.query, Lower(d.key), f, env', so),
        env, env');
  }

  lemma SingleSame(entry: Entry, paths: seq<seq<string>>, paths': seq<seq<string>>, t: Table)
    requires paths == LowerPaths(entry.before) && paths' == LowerPaths(entry.after) && t.cols == entry.cols
    ensures SameRows([entry], Single(paths, t), Single(paths', t))
  {
    hide LowerPaths;
  }

  /** A FROM clause has the same rows; its items differ only in their qualifiers. */
  lemma {:induction false} FromSame(s: Setup, t: Tree, u: Tree, c: Columns, seen: seq<seq<Entry>>,
                                    e: map<string, Table>, f: map<string, Table>, env: seq<seq<Bound>>,
                                    env': seq<seq<Bound>>)
    requires Ready(s, c, seen, e, f, env, env') && AllAnswer(s, FreeInFrom(c.Keys, t))
    requires TurnedFrom(Reads(s), c, seen, t, u)
    ensures SameRows(Entries(Reads(s), c, t), From(s.w, t, e, env), From(After(s), u, f, env'))
    decreases t, 2
  {
    hide Answers, Agree, Alike, Query, QueryColumns, BaseTable, BasePaths, BaseEntry, Values, AliasEntry, AliasPaths,
      SameRows, Single, Replaced;
    match t
    case Base(_, _, _, _) =>
      BaseSame(s, c, t, e, f);
      SingleSame(BaseEntry(Reads(s), c, t), BasePaths(s.w.db, s.w.ctx, e.Keys, t),
        BasePaths(s.after, s.w.ctx, f.Keys, u),
        BaseTable(s.w.db, s.w.ctx, e, t));
    case Join(_, _, _, _) => JoinSame(s, t, u, c, seen, e, f, env, env');
    case Sub(query, alias) =>
      QuerySame(s, query, u.query, c, seen, e, f, env, env');
      AliasSame(alias, Query(s.w, query, e, env));
    case Op(op, args, alias) =>
      ArgsSame(s, args, u.args, c, seen, e, f, env, env');
      AliasSame(alias, Table(s.w.eng.tableColumns(op), s.w.eng.table(op, Values(s.w, args, e, env))));
    case _ => NoneSame();
  }

  lemma NoneSame()
    ensures SameRows([], FromValue([], [[]]), FromValue([], [[]]))
  {
  }

  lemma {:induction false} ArgsSame(s: Setup, ts: seq<Tree>, us: seq<Tree>, c: Columns, seen: seq<seq<Entry>>,
                                    e: map<string, Table>, f: map<string, Table>, env: seq<seq<Bound>>,
                                    env': seq<seq<Bound>>)
    requires Ready(s, c, seen, e, f, env, env') && AllAnswer(s, FreeInAll(c.Keys, ts))
    requires TurnedAll(Reads(s), c, seen, ts, us)
    ensures Values(After(s), us, f, env') == Values(s.w, ts, e, env)
    decreases ts, 2
  {
    hide Answers, Agree, Alike, Expr, Turned;
    forall i | 0 <= i < |ts| ensures Expr(After(s), us[i], f, env') == Expr(s.w, ts[i], e, env) {
      PartAnswers(s, c.Keys, ts, i);
      ExprSame(s, ts[i], us[i], c, seen, e, f, env, env');
    }
  }

  // ---------------------------------------------------------------- joins

  lemma SideOfSame(es: seq<Entry>, v: FromValue, v': FromValue, pick: int)
    requires SameRows(es, v, v')
    ensures Side(v', pick) == Side(v, pick)
  {
    assert Nulls(AfterItems(es)) == Nulls(BeforeItems(es));
  }

  lemma ItemsJoin(a: seq<Entry>, b: seq<Entry>)
    ensures BeforeItems(a + b) == BeforeItems(a) + BeforeItems(b) && AfterItems(a + b) == AfterItems(a) + AfterItems(b)
  {
  }

  /** The right side of a join has the same rows on each row of the left side. */
  lemma {:induction false} RightSame(s: Setup, t: Tree, u: Tree, c: Columns, es: seq<Entry>, seen: seq<seq<Entry>>,
                                     e: map<string, Table>, f: map<string, Table>, l: FromValue, l': FromValue,
                                       pick: int,
                                     env: seq<seq<Bound>>, env': seq<seq<Bound>>)
    requires Ready(s, c, seen, e, f, env, env') && AllAnswer(s, FreeInFrom(c.Keys, t)) && SameRows(es, l, l')
    requires TurnedFrom(Reads(s), c, [es] + seen, t, u)
    ensures SameRows(Entries(Reads(s), c, t), Right(s.w, t, e, l, pick, env), Right(After(s), u, f, l', pick, env'))
    decreases t, 3
  {
    hide Answers, Agree, Alike, AlikeRow, TurnedFrom, From, Entries, Side, Attach, Reads;
    SideOfSame(es, l, l', pick);
    AttachAlike(es, Side(l, pick));
    var bs, bs' := Attach(l.items, Side(l, pick)), Attach(l'.items, Side(l', pick));
    AlikeMore(es, bs, bs', seen, env, env');
    FromSame(s, t, u, c, [es] + seen, e, f, [bs] + env, [bs'] + env');
  }

  /** The rows of a join, given those of its left side. */
  function Joined(w: World, t: Tree, e: map<string, Table>, l: FromValue, env: seq<seq<Bound>>): FromValue
    requires t.Join?
  {
    var picks := w.eng.join(t.kind, Tests(w, t, e, l, env));
    FromValue(l.items + Right(w, t.right, e, l, -1, env).items,
              seq(|picks|, k requires 0 <= k < |picks| => Picked(w, t.right, e, l, picks[k], env)))
  }

  lemma JoinStep(w: World, t: Tree, e: map<string, Table>, env: seq<seq<Bound>>)
    requires t.Join?
    ensures From(w, t, e, env) == Joined(w, t, e, From(w, t.left, e, env), env)
  {
    hide Tests, Right, Picked;
  }

  lemma {:induction false} JoinSame(s: Setup, t: Tree, u: Tree, c: Columns, seen: seq<seq<Entry>>,
                                    e: map<string, Table>, f: map<string, Table>, env: seq<seq<Bound>>,
                                    env': seq<seq<Bound>>)
    requires t.Join? && Ready(s, c, seen, e, f, env, env') && AllAnswer(s, FreeInFrom(c.Keys, t))
    requires TurnedFrom(Reads(s), c, seen, t, u)
    ensures SameRows(Entries(Reads(s), c, t), From(s.w, t, e, env), From(After(s), u, f, env'))
    decreases t, 1
  {
    hide Answers, Agree, Alike, SameRows, From, Joined, Reads;
    SplitAnswers(s, FreeInFrom(c.Keys, t.left) + FreeInFrom(c.Keys, t.right), FreeInAll(c.Keys, t.on));
    SplitAnswers(s, FreeInFrom(c.Keys, t.left), FreeInFrom(c.Keys, t.right));
    var a, b := Entries(Reads(s), c, t.left), Entries(Reads(s), c, t.right);
    FromSame(s, t.left, u.left, c, seen, e, f, env, env');
    JoinStep(s.w, t, e, env);
    JoinStep(After(s), u, f, env');
    JoinedSame(s, t, u, c, a, b, seen, e, f, From(s.w, t.left, e, env), From(After(s), u.left, f, env'), env, env');
  }

  lemma {:induction false} JoinedSame(s: Setup, t: Tree, u: Tree, c: Columns, a: seq<Entry>, b: seq<Entry>,
                                      seen: seq<seq<Entry>>, e: map<string, Table>, f: map<string, Table>,
                                      l: FromValue, l': FromValue, env: seq<seq<Bound>>, env': seq<seq<Bound>>)
    requires t.Join? && u.Join? && u.kind == t.kind && Ready(s, c, seen, e, f, env, env') && SameRows(a, l, l')
    requires AllAnswer(s, FreeInAll(c.Keys, t.on)) && AllAnswer(s, FreeInFrom(c.Keys, t.right))
    requires b == Entries(Reads(s), c, t.right) && TurnedFrom(Reads(s), c, [a] + seen, t.right, u.right)
    requires TurnedAll(Reads(s), c, [a + b] + seen, t.on, u.on)
    ensures SameRows(a + b, Joined(s.w, t, e, l, env), Joined(After(s), u, f, l', env'))
    decreases t, 0, 1
  {
    hide Answers, Agree, Alike, Entries, TurnedFrom, TurnedAll, Tests, Right, Picked, Reads, BeforeItems, AfterItems;
    TestsSame(s, t, u, c, a, b, seen, e, f, l, l', env, env');
    var picks := s.w.eng.join(t.kind, Tests(s.w, t, e, l, env));
    forall k | 0 <= k < |picks|
      ensures Picked(After(s), u.right, f, l', picks[k], env') == Picked(s.w, t.right, e, l, picks[k], env)
    {
      PickedSame(s, t.right, u.right, c, a, seen, e, f, l, l', picks[k], env, env');
    }
    RightSame(s, t.right, u.right, c, a, seen, e, f, l, l', -1, env, env');
    ItemsJoin(a, b);
  }

  lemma {:induction false} PickedSame(s: Setup, t: Tree, u: Tree, c: Columns, es: seq<Entry>, seen: seq<seq<Entry>>,
                                      e: map<string, Table>, f: map<string, Table>, l: FromValue, l': FromValue,
                                      pick: (int, int), env: seq<seq<Bound>>, env': seq<seq<Bound>>)
    requires Ready(s, c, seen, e, f, env, env') && AllAnswer(s, FreeInFrom(c.Keys, t)) && SameRows(es, l, l')
    requires TurnedFrom(Reads(s), c, [es] + seen, t, u)
    ensures Picked(After(s), u, f, l', pick, env') == Picked(s.w, t, e, l, pick, env)
    decreases t, 4
  {
    hide Answers, Agree, Alike, TurnedFrom, Right, Side, SameRows, Reads;
    SideOfSame(es, l, l', pick.0);
    RightSame(s, t, u, c, es, seen, e, f, l, l', pick.0, env, env');
    SideOfSame(Entries(Reads(s), c, t), Right(s.w, t, e, l, pick.0, env), Right(After(s), u, f, l', pick.0, env'),
      pick.1);
  }

  lemma {:induction false} TestsSame(s: Setup, t: Tree, u: Tree, c: Columns, a: seq<Entry>, b: seq<Entry>,
                                     seen: seq<seq<Entry>>, e: map<string, Table>, f: map<string, Table>,
                                     l: FromValue, l': FromValue, env: seq<seq<Bound>>, env': seq<seq<Bound>>)
    requires t.Join? && u.Join? && Ready(s, c, seen, e, f, env, env') && SameRows(a, l, l')
    requires AllAnswer(s, FreeInAll(c.Keys, t.on)) && AllAnswer(s, FreeInFrom(c.Keys, t.right))
    requires b == Entries(Reads(s), c, t.right) && TurnedFrom(Reads(s), c, [a] + seen, t.right, u.right)
    requires TurnedAll(Reads(s), c, [a + b] + seen, t.on, u.on)
    ensures Tests(After(s), u, f, l', env') == Tests(s.w, t, e, l, env)
    decreases t, 0, 0
  {
    hide Answers, Agree, Alike, TurnedAll, TurnedFrom, TestsOn, Right, Entries, BeforeItems, AfterItems, Reads;
    forall i | 0 <= i < |l.rows|
      ensures TestsOn(After(s), u.on, f, l', Right(After(s), u.right, f, l', i, env'), i, env') ==
                TestsOn(s.w, t.on, e, l, Right(s.w, t.right, e, l, i, env), i, env)
    {
      RightSame(s, t.right, u.right, c, a, seen, e, f, l, l', i, env, env');
      TestsOnSame(s, t.on, u.on, c, a, b, seen, e, f, l, l', Right(s.w, t.right, e, l, i, env),
        Right(After(s), u.right, f, l', i, env'), i, env, env');
    }
  }

  lemma {:induction false} TestsOnSame(s: Setup, ts: seq<Tree>, us: seq<Tree>, c: Columns, a: seq<Entry>, b: seq<Entry>,
                                       seen: seq<seq<Entry>>, e: map<string, Table>, f: map<string, Table>,
                                       l: FromValue, l': FromValue, r: FromValue, r': FromValue, i: nat,
                                       env: seq<seq<Bound>>, env': seq<seq<Bound>>)
    requires Ready(s, c, seen, e, f, env, env') && SameRows(a, l, l') && SameRows(b, r, r')
    requires AllAnswer(s, FreeInAll(c.Keys, ts)) && TurnedAll(Reads(s), c, [a + b] + seen, ts, us)
    ensures TestsOn(After(s), us, f, l', r', i, env') == TestsOn(s.w, ts, e, l, r, i, env)
    decreases ts, 3
  {
    hide Answers, Agree, Alike, AlikeRow, TurnedAll, Values, Side, Attach, BeforeItems, AfterItems, Reads;
    SideOfSame(a, l, l', i);
    ItemsJoin(a, b);
    forall j | 0 <= j < |r.rows|
      ensures Values(After(s), us, f, [Attach(l'.items + r'.items, Side(l', i) + r'.rows[j])] + env')
           == Values(s.w, ts, e, [Attach(l.items + r.items, Side(l, i) + r.rows[j])] + env)
    {
      var row := Side(l, i) + r.rows[j];
      AttachAlike(a + b, row);
      var bs, bs' := Attach(l.items + r.items, row), Attach(l'.items + r'.items, row);
      AlikeMore(a + b, bs, bs', seen, env, env');
      ArgsSame(s, ts, us, c, [a + b] + seen, e, f, [bs] + env, [bs'] + env');
    }
  }

  /** An expression has the same value on related rows. */
  lemma {:induction false} ExprSame(s: Setup, t: Tree, u: Tree, c: Columns, seen: seq<seq<Entry>>,
                                    e: map<string, Table>, f: map<string, Table>, env: seq<seq<Bound>>,
                                    env': seq<seq<Bound>>)
    requires Ready(s, c, seen, e, f, env, env') && AllAnswer(s, FreeBases(c.Keys, t)) && Turned(Reads(s), c, seen, t, u)
    ensures Expr(After(s), u, f, env') == Expr(s.w, t, e, env)
    decreases t, 2
  {
    hide Answers, Agree, Alike, SameSpot, Query, Lookup, Values;
    match t
    case Ref(names, _) => ReferenceSame(s.w.eng, names, u.names, seen, env, env');
    case Sub(query, _) => QuerySame(s, query, u.query, c, seen, e, f, env, env');
    case Op(op, args, _) => ArgsSame(s, args, u.args, c, seen, e, f, env, env');
    case _ =>
  }

  // ---------------------------------------------------------------- nothing replaced

  predicate Plain(es: seq<Entry>) {
    forall e | e in es :: e.after == e.before
  }

  predicate AllPlain(seen: seq<seq<Entry>>) {
    forall es | es in seen :: Plain(es)
  }

  lemma {:induction false} PlainEntries(r: Reading, c: Columns, t: Tree)
    requires r.rep.None?
    ensures Plain(Entries(r, c, t))
  {
    hide QueryColumns;
    match t
    case Join(_, left, right, _) => PlainEntries(r, c, left); PlainEntries(r, c, right);
    case _ =>
  }

  lemma PlainMore(es: seq<Entry>, seen: seq<seq<Entry>>)
    requires Plain(es) && AllPlain(seen)
    ensures AllPlain([es] + seen)
  {
    hide Plain;
  }

  lemma PlainItems(es: seq<Entry>)
    requires Plain(es)
    ensures AfterItems(es) == BeforeItems(es)
  {
  }

  lemma PlainReference(seen: seq<seq<Entry>>, names: seq<string>)
    requires AllPlain(seen)
    ensures SameSpot(seen, names, names)
  {
    hide Plain, BeforeItems, AfterItems, Resolve, LowerAll;
    forall d | 0 <= d < |seen| ensures AfterItems(seen[d]) == BeforeItems(seen[d]) {
      assert seen[d] in seen;
      PlainItems(seen[d]);
    }
    assert Befores(seen) == Afters(seen);
  }

  lemma PlainStar(seen: seq<seq<Entry>>, q: seq<string>)
    requires AllPlain(seen) && seen != []
    ensures SameStar(seen[0], q, q)
  {
    hide Plain, BeforeItems, AfterItems, RowAt, LowerAll;
    assert seen[0] in seen;
    PlainItems(seen[0]);
  }

  /** With nothing to replace, every tree is its own turned tree. */
  lemma {:induction false} TurnedItself(r: Reading, c: Columns, seen: seq<seq<Entry>>, t: Tree)
    requires r.rep.None? && AllPlain(seen)
    ensures Turned(r, c, seen, t, t)
    decreases t, 1
  {
    hide AllPlain, Entries, SameSpot, SameStar, DefColumns, OwnColumns;
    match t
    case Select(defs, from, clauses, _) =>
      var c1 := DefColumns(r, c, defs);
      DefsTurnedItself(r, c, seen, defs);
      FromTurnedItself(r, c1, seen, from);
      PlainEntries(r, c1, from);
      PlainMore(Entries(r, c1, from), seen);
      AllTurnedItself(r, c1, [Entries(r, c1, from)] + seen, clauses);
    case SetOp(defs, _, left, right) =>
      DefsTurnedItself(r, c, seen, defs);
      TurnedItself(r, DefColumns(r, c, defs), seen, left);
      TurnedItself(r, DefColumns(r, c, defs), seen, right);
    case Sub(query, _) => TurnedItself(r, c, seen, query);
    case Op(_, args, _) => AllTurnedItself(r, c, seen, args);
    case Ref(names, _) => PlainReference(seen, names);
    case Star(q) => if seen != [] { PlainStar(seen, q); }
    case _ =>
  }

  lemma {:induction false} BodyTurnedItself(r: Reading, c: Columns, seen: seq<seq<Entry>>, t: Tree)
    requires t.Cte? && r.rep.None? && AllPlain(seen)
    ensures TurnedBody(r, c, seen, t, t)
    decreases t, 0
  {
    hide AllPlain, DefColumns, AnchorIn, RoundIn;
    var q := t.query;
    if q.Recursive? {
      DefsTurnedItself(r, AnchorIn(c, t), seen, q.defs);
      TurnedItself(r, DefColumns(r, AnchorIn(c, t), q.defs), seen, q.left);
      DefsTurnedItself(r, RoundIn(r, c, t), seen, q.defs);
      TurnedItself(r, DefColumns(r, RoundIn(r, c, t), q.defs), seen, q.right);
    } else {
      TurnedItself(r, c, seen, q);
    }
  }

  lemma {:induction false} FromTurnedItself(r: Reading, c: Columns, seen: seq<seq<Entry>>, t: Tree)
    requires r.rep.None? && AllPlain(seen)
    ensures TurnedFrom(r, c, seen, t, t)
    decreases t, 2
  {
    hide AllPlain, Entries;
    match t
    case Join(_, left, right, on) =>
      var a, b := Entries(r, c, left), Entries(r, c, right);
      FromTurnedItself(r, c, seen, left);
      PlainEntries(r, c, left);
      PlainMore(a, seen);
      FromTurnedItself(r, c, [a] + seen, right);
      PlainEntries(r, c, right);
      PlainMore(a + b, seen);
      AllTurnedItself(r, c, [a + b] + seen, on);
    case Base(_, _, _, _) =>
    case _ => TurnedItself(r, c, seen, t);
  }

  lemma {:induction false} AllTurnedItself(r: Reading, c: Columns, seen: seq<seq<Entry>>, ts: seq<Tree>)
    requires r.rep.None? && AllPlain(seen)
    ensures TurnedAll(r, c, seen, ts, ts)
    decreases ts, 0
  {
    forall i | 0 <= i < |ts| ensures Turned(r, c, seen, ts[i], ts[i]) {
      TurnedItself(r, c, seen, ts[i]);
    }
  }

  lemma {:induction false} DefsTurnedItself(r: Reading, c: Columns, seen: seq<seq<Entry>>, defs: seq<Tree>)
    requires r.rep.None? && AllPlain(seen)
    ensures TurnedDefs(r, c, seen, defs, defs)
    decreases defs, 0
  {
    if defs != [] {
      if defs[0].Cte? { BodyTurnedItself(r, c, seen, defs[0]); }
      DefsTurnedItself(r, AddColumns(r, c, defs[0]), seen, defs[1..]);
    }
  }
}
