/**
 * Where the walk stops short, one view each.
 *
 * Renaming `main.s` to `main.t` changes the rows of seven views: one with a schema-qualified column of the
 * source, read inside a subquery over a CTE of the source's name; one with a correlated column inside a
 * FROM clause that reads the source further to the right; one that selects the source's row by its name;
 * one that reads a field of a column called like the source; one with a column qualified by database and
 * table; one with a correlated column of the source, read over another schema's table of the same name
 * that has no such column; and one that qualifies the source itself by the database alone.
 */
module SqlCapture {
  import opened Names
  import opened SqlTree
  import opened SqlSemantics
  import opened SqlRewrite
  import SqlMeaning
  import opened SqlScopes
  import opened SqlColumns
  import opened SqlTheorems
  import opened SqlClaims
  import opened SqlSample

  // ---------------------------------------------------------------- the new name is new

  function New(): Tree -> bool {
    NewAt(CONTEXT, RENAME)
  }

  lemma Leaf(t: Tree)
    requires New()(t) && Parts(t) == []
    ensures Everywhere(t, New())
  {
  }

  lemma NewRef(names: seq<string>)
    requires forall n | n in names :: Lower(n) != "t"
    ensures Everywhere(Ref(names, ""), New())
  {
    Spelled();
    if names != [] {
      var q := names[..|names| - 1];
      forall i | 0 <= i < |q| ensures LowerAll(q)[i] != "t" { assert q[i] in names; }
    }
    Leaf(Ref(names, ""));
  }

  lemma NewBase(schema: string, name: string, alias: string)
    requires schema in {"", "main", "other"} && Lower(name) != "t" && Lower(alias) != "t"
    ensures Everywhere(Base("", schema, name, alias), New())
  {
    Spelled();
    assert LowerAll(Schemas(CONTEXT, "")) == ["main", "main"];
    assert LowerAll(Schemas(CONTEXT, "main")) == ["main"] && LowerAll(Schemas(CONTEXT, "other")) == ["other"];
    Leaf(Base("", schema, name, alias));
  }

  lemma NewOp(alias: string)
    requires Lower(alias) != "t"
    ensures Everywhere(Op("one", [], alias), New())
  {
    Spelled();
    Leaf(Op("one", [], alias));
  }

  lemma NewSub(q: Tree, alias: string)
    requires Everywhere(q, New()) && Lower(alias) != "t"
    ensures Everywhere(Sub(q, alias), New())
  {
    hide Lower;
    Spelled();
    var p := New();
    assert p(Sub(q, alias));
    assert Parts(Sub(q, alias)) == [q];
  }

  lemma NewSelect(defs: seq<Tree>, from: Tree, c: Tree)
    requires (forall d | d in defs :: Everywhere(d, New())) && Everywhere(from, New()) && Everywhere(c, New())
    ensures Everywhere(Select(defs, from, [c], ""), New())
  {
    var t := Select(defs, from, [c], "");
    var p := New();
    assert p(t);
    assert Parts(t) == defs + [from] + [c];
  }

  lemma NewJoin(left: Tree, right: Tree)
    requires Everywhere(left, New()) && Everywhere(right, New())
    ensures Everywhere(Join("", left, right, []), New())
  {
    var t := Join("", left, right, []);
    var p := New();
    assert p(t);
    assert Parts(t) == [left, right];
  }

  lemma NewUnit(key: string)
    ensures Everywhere(Cte(key, UNIT), New())
  {
    hide NewAt, Everywhere;
    Spelled();
    NewOp("");
    NewOp("x");
    NewSelect([], UNIT.from, UNIT.clauses[0]);
    NewCte(key);
  }

  lemma NewCte(key: string)
    requires Everywhere(UNIT, New())
    ensures Everywhere(Cte(key, UNIT), New())
  {
    var t := Cte(key, UNIT);
    var p := New();
    assert p(t);
    assert Parts(t) == [UNIT];
  }

  // ---------------------------------------------------------------- the walk, piece by piece

  function Inside(scope: Scope, from: Tree): Scope {
    Scope({}, Bind(CONTEXT, {}, Some(RENAME), from) + scope.bindings)
  }

  /** The walk of `SELECT c FROM from`. */
  lemma WalkSelect(scope: Scope, from: Tree, c: Tree, from': Tree, c': Tree)
    requires scope.ctes == {}
    requires WalkFrom(CONTEXT, Some(RENAME), Inside(scope, from), from) == from'
    requires Walk(CONTEXT, Some(RENAME), Inside(scope, from), c) == c'
    ensures Walk(CONTEXT, Some(RENAME), scope, Select([], from, [c], "")) == Select([], from', [c'], "")
  {
    hide WalkFrom, Bind;
    assert scope.ctes + Keys([]) == {};
    assert [c][1..] == [];
    assert WalkAll(CONTEXT, Some(RENAME), Inside(scope, from), [c]) == [c'];
  }

  lemma WalkSub(scope: Scope, q: Tree, u: Tree, alias: string)
    requires Walk(CONTEXT, Some(RENAME), scope, q) == u
    ensures Walk(CONTEXT, Some(RENAME), scope, Sub(q, alias)) == Sub(u, alias)
    ensures WalkFrom(CONTEXT, Some(RENAME), scope, Sub(q, alias)) == Sub(u, alias)
  {
  }

  lemma WalkRef(scope: Scope, names: seq<string>, out: seq<string>)
    requires RewriteNames(names, scope.bindings) == out
    ensures Walk(CONTEXT, Some(RENAME), scope, Ref(names, "")) == Ref(out, "")
  {
  }

  lemma WalkOp(scope: Scope, alias: string)
    ensures Walk(CONTEXT, Some(RENAME), scope, Op("one", [], alias)) == Op("one", [], alias)
    ensures WalkFrom(CONTEXT, Some(RENAME), scope, Op("one", [], alias)) == Op("one", [], alias)
  {
    assert WalkAll(CONTEXT, Some(RENAME), scope, []) == [];
  }

  /** What the walk binds for a table, before and after. */
  function Bound3(schema: string, name: string, name': string): seq<Binding> {
    Zip(Qualifiers("db", schema, name), Qualifiers("db", schema, name'))
  }

  /** The source is replaced and bound by both names. */
  lemma SourceWalked(scope: Scope)
    requires scope.ctes == {}
    ensures WalkFrom(CONTEXT, Some(RENAME), scope, Base("", "main", "s", "")) == Base("", "main", "t", "")
    ensures Bind(CONTEXT, {}, Some(RENAME), Base("", "main", "s", "")) == Bound3("main", "s", "t")
  {
    Spelled();
    assert Schemas(CONTEXT, "main") == ["main"];
    assert FindNamed(CONTEXT.catalogue, "main", "s") == Some(SOURCE);
    assert FindIn(["main"], CONTEXT.catalogue, "s") == Some(SOURCE);
  }

  /** The table of another schema stays, bound by its own names. */
  lemma NamesakeWalked(scope: Scope)
    requires scope.ctes == {}
    ensures WalkFrom(CONTEXT, Some(RENAME), scope, Base("", "other", "s", "")) == Base("", "other", "s", "")
    ensures Bind(CONTEXT, {}, Some(RENAME), Base("", "other", "s", "")) == Bound3("other", "s", "s")
  {
    Spelled();
    assert Schemas(CONTEXT, "other") == ["other"];
    assert FindNamed(CONTEXT.catalogue, "other", "s") == Some(NAMESAKE) by {
      assert CONTEXT.catalogue[1..][1..] == [NAMESAKE];
    }
    assert FindIn(["other"], CONTEXT.catalogue, "s") == Some(NAMESAKE);
  }

  /** A table with an alias is bound by it. */
  lemma AliasWalked(scope: Scope)
    requires scope.ctes == {}
    ensures WalkFrom(CONTEXT, Some(RENAME), scope, Base("", "main", "o", "s")) == Base("", "main", "o", "s")
    ensures Bind(CONTEXT, {}, Some(RENAME), Base("", "main", "o", "s")) == [Binding(["s"], ["s"])]
  {
    Spelled();
  }

  lemma CoversShort(before: seq<string>, names: seq<string>)
    requires 1 <= |before| <= 2
    ensures Covers(before, names) <==>
              |names| > |before| && Same(names[0], before[0]) && (|before| == 2 ==> Same(names[1], before[1]))
  {
    if |names| > |before| {
      var p := LowerAll(names[..|before|]);
      assert p[0] == Lower(names[0]) && LowerAll(before)[0] == Lower(before[0]);
      if |before| == 2 {
        assert p[1] == Lower(names[1]) && LowerAll(before)[1] == Lower(before[1]);
        assert p == [Lower(names[0]), Lower(names[1])] && LowerAll(before) == [Lower(before[0]), Lower(before[1])];
      } else {
        assert p == [Lower(names[0])] && LowerAll(before) == [Lower(before[0])];
      }
    }
  }

  /** Rewriting by a table's bindings and then by the rest. */
  lemma RewriteBy3(schema: string, name: string, name': string, rest: seq<Binding>, names: seq<string>)
    requires |names| <= 3
    ensures RewriteNames(names, Bound3(schema, name, name') + rest) ==
              if |names| == 3 && Same(names[0], schema) && Same(names[1], name) then [schema, name'] + names[2..]
              else if |names| >= 2 && Same(names[0], name) then [name'] + names[1..]
              else RewriteNames(names, rest)
  {
    hide Covers;
    var a, b := Qualifiers("db", schema, name), Qualifiers("db", schema, name');
    var all := Bound3(schema, name, name') + rest;
    assert all[0] == Binding(a[0], b[0]) && all[1..][0] == Binding(a[1], b[1]) && all[2..][0] == Binding(a[2], b[2]);
    assert all[1..][1..] == all[2..] && all[2..][1..] == rest;
    assert !Covers(a[0], names) by { TooLong(a[0], names); }
    CoversShort(a[1], names);
    CoversShort(a[2], names);
    assert RewriteNames(names, all) == RewriteNames(names, all[1..]);
    assert RewriteNames(names, all[1..]) == if Covers(a[1], names) then b[1] + names[2..]
      else RewriteNames(names, all[2..]);
    assert RewriteNames(names, all[2..]) == if Covers(a[2], names) then b[2] + names[1..]
      else RewriteNames(names, rest);
  }

  lemma TooLong(before: seq<string>, names: seq<string>)
    requires |names| <= |before|
    ensures !Covers(before, names)
  {
  }

  /** Rewriting by an alias and then by the rest. */
  lemma RewriteByAlias(alias: string, rest: seq<Binding>, names: seq<string>)
    ensures RewriteNames(names, [Binding([alias], [alias])] + rest) ==
              if |names| >= 2 && Same(names[0], alias) then [alias] + names[1..] else RewriteNames(names, rest)
  {
    hide Covers;
    var all := [Binding([alias], [alias])] + rest;
    assert all[1..] == rest;
    CoversShort([alias], names);
  }

  /** `SELECT c FROM main.s`, if the walk turns `c` into `d` there. */
  lemma WalkedOver(c: Tree, d: Tree)
    requires Walk(CONTEXT, Some(RENAME), Scope({}, Bound3("main", "s", "t")), c) == d
    ensures Walk(CONTEXT, Some(RENAME), NOWHERE, Over("s", c)) == Over("t", d)
  {
    hide Bind, WalkFrom, Walk, Bound3;
    var inner := Inside(NOWHERE, Base("", "main", "s", ""));
    SourceWalked(inner);
    assert Bound3("main", "s", "t") + [] == Bound3("main", "s", "t");
    WalkSelect(NOWHERE, Base("", "main", "s", ""), c, Base("", "main", "t", ""), d);
  }

  /** `SELECT c FROM main.name`. */
  function Over(name: string, c: Tree): Tree {
    Select([], Base("", "main", name, ""), [c], "")
  }

  lemma OverNew(c: Tree)
    requires Everywhere(c, New())
    ensures NewNameIn(CONTEXT, RENAME, Over("s", c))
  {
    hide Everywhere, NewAt;
    Spelled();
    Setting("x");
    NewBase("main", "s", "");
    NewSelect([], Base("", "main", "s", ""), c);
  }

  lemma OverRows(w: World, name: string, column: string, c: Tree)
    requires Has(w, "main", name, Cell(column, 1)) && !c.Star?
    ensures ViewRows(w, Over(name, c)) ==
              Table(["x"], [[Expr(w, c, map[], [Row1(Paths("main", name), Cell(column, 1))])]])
  {
    hide Expr, Query, Row1, Paths;
    SelectFrom(w, "main", name, "", Cell(column, 1), c, map[], []);
    var bs := Row1(Paths("main", name), Cell(column, 1));
    assert [bs] + [] == [bs];
  }

  /** Every table of the view is reported as the source exactly if it is the source. */
  predicate Sees(column: string, q: Tree) {
    Recognized(Start(column).db.tables.Keys, CONTEXT, SOURCE, q)
  }

  /** Tables that are not qualified by the database alone are recognized. */
  lemma BySchema(column: string, q: Tree)
    requires SchemaNamed(FreeBases({}, q))
    ensures Sees(column, q)
  {
    hide FreeBases, Catalogued, RelationOf, StoredKey, KeyOf, Start;
    Setting(column);
    StartContext(column);
    Spelled();
    forall b | b in FreeBases({}, q) && IsLocal(b, CONTEXT)
      ensures KeyOf(RelationOf(CONTEXT, {}, b)) == StoredKey(Start(column).db.tables.Keys, CONTEXT, b)
    {
      assert !ByDatabase(CONTEXT, b);
      ReportsWhatItReads(Start(column), b);
    }
  }

  predicate SchemaNamed(bases: seq<Tree>)
    requires forall b | b in bases :: b.Base?
  {
    forall b | b in bases :: b.schema in {"main", "other"}
  }

  lemma StartContext(column: string)
    ensures Start(column).ctx == CONTEXT
  {
  }

  lemma OverFree(name: string, c: Tree)
    ensures FreeBases({}, Over(name, c)) == [Base("", "main", name, "")] + FreeBases({}, c)
  {
    hide FreeBases;
    SelectFree([], Base("", "main", name, ""), c);
  }

  lemma SelectFree(defs: seq<Tree>, from: Tree, c: Tree)
    requires defs == []
    ensures FreeBases({}, Select(defs, from, [c], "")) == FreeInFrom({}, from) + FreeBases({}, c)
  {
    assert {} + Keys([]) == {};
    assert [c][1..] == [];
    assert FreeInAll({}, [c]) == FreeBases({}, c) + [];
  }

  /** The renamed view: every condition of the renaming holds, and the rows change. */
  ghost predicate Loses(column: string, q: Tree) {
    && Catalogued(Start(column)) && Moved(Start(column).db, End(column).db, SOURCE, TARGET)
    && NewNameIn(CONTEXT, RENAME, q) && Sees(column, q)
    && ViewRows(End(column), Walk(CONTEXT, Some(RENAME), NOWHERE, q)) != ViewRows(Start(column), q)
  }

  /** A view over the source, if the walk turns its clause into one with another value. */
  lemma OverLoses(column: string, c: Tree, d: Tree)
    requires Everywhere(c, New()) && SchemaNamed(FreeBases({}, c)) && !c.Star? && !d.Star?
    requires Walk(CONTEXT, Some(RENAME), Scope({}, Bound3("main", "s", "t")), c) == d
    requires Expr(End(column), d, map[], [Row1(Paths("main", "t"), Cell(column, 1))]) !=
               Expr(Start(column), c, map[], [Row1(Paths("main", "s"), Cell(column, 1))])
    ensures Loses(column, Over("s", c))
  {
    hide Everywhere, NewAt, Catalogued, Moved, ViewRows, Walk, Expr, Row1, Paths, Over, NewNameIn, Has, Start, End,
      Sees,
      FreeBases;
    Setting(column);
    OverFree("s", c);
    BySchema(column, Over("s", c));
    Tables(column);
    OverNew(c);
    WalkedOver(c, d);
    OverRows(Start(column), "s", column, c);
    OverRows(End(column), "t", column, d);
  }

  /** A reference over the source, if the walk turns it into one with another value. */
  lemma RefLoses(column: string, names: seq<string>, out: seq<string>)
    requires |names| <= 3 && (|names| == 3 ==> !Same(names[0], "main")) && forall n | n in names :: Lower(n) != "t"
    requires out == if |names| >= 2 && Same(names[0], "s") then ["t"] + names[1..] else names
    requires Lookup(Stub(), [Row1(Paths("main", "t"), Cell(column, 1))], out) !=
               Lookup(Stub(), [Row1(Paths("main", "s"), Cell(column, 1))], names)
    ensures Loses(column, Over("s", Ref(names, "")))
  {
    hide Everywhere, NewAt, Lookup, Bound3, RewriteNames, Row1, Paths, Loses, Lower, Cell;
    NewRef(names);
    RefWalked(names, out);
    OverLoses(column, Ref(names, ""), Ref(out, ""));
  }

  // ---------------------------------------------------------------- the source's row by name

  const ROW := Ref(["s"], "")

  /** One bare name, no CTE and no subquery: the reference is left behind all the same. */
  lemma RowByNameLosesRows()
    ensures Loses("x", Over("s", ROW))
  {
    hide Lookup, Row1, Paths, Loses;
    Spelled();
    NamedRow("s");
    NamedRow("t");
    RefLoses("x", ["s"], ["s"]);
  }

  /** The walk of a short reference over the source. */
  lemma RefWalked(names: seq<string>, out: seq<string>)
    requires |names| <= 3 && (|names| == 3 ==> !Same(names[0], "main"))
    requires out == if |names| >= 2 && Same(names[0], "s") then ["t"] + names[1..] else names
    ensures Walk(CONTEXT, Some(RENAME), Scope({}, Bound3("main", "s", "t")), Ref(names, "")) == Ref(out, "")
  {
    hide Bound3;
    assert Bound3("main", "s", "t") + [] == Bound3("main", "s", "t");
    RewriteBy3("main", "s", "t", [], names);
    WalkRef(Scope({}, Bound3("main", "s", "t")), names, out);
  }

  lemma NamedRow(name: string)
    requires name == "s" || name == "t"
    ensures var v := Lookup(Stub(), [Row1(Paths("main", name), Cell("x", 1))], ["s"]); v.Struct? <==> name == "s"
  {
    hide Lookup, HasColumn, Here, Fields;
    Spelled();
    var paths, t := Paths("main", name), Cell("x", 1);
    OneColumn("x", "s");
    HereBare(Item(paths, ["x"]), "s");
    assert [Row1(paths, t)] + [] == [Row1(paths, t)] && ItemsOf(Row1(paths, t)) == [Item(paths, ["x"])];
    if name == "s" {
      assert paths[3] in paths;
      FoundHere(paths, t, [], ["s"]);
    } else {
      assert |paths[0]| == 3 && |paths[1]| == 2 && |paths[2]| == 2;
      Passed(Row1(paths, t), [], ["s"]);
      NowhereLeft(["s"]);
    }
  }

  // ---------------------------------------------------------------- a field of a column called like the source

  /** The table has a column `s`, and `s.f` is a field of it; the walk takes `s` for the table. */
  lemma StructFieldLosesRows()
    ensures Loses("s", Over("s", Ref(["s", "f"], "")))
  {
    hide Lookup, Row1, Paths, Loses;
    Spelled();
    FieldFound();
    FieldLost();
    RefLoses("s", ["s", "f"], ["t", "f"]);
  }

  lemma FieldFound()
    ensures Lookup(Stub(), [Row1(Paths("main", "s"), Cell("s", 1))], ["s", "f"]) == Num(2)
  {
    hide Lookup, HasColumn, Here, LowerAll;
    Spelled();
    var paths, t := Paths("main", "s"), Cell("s", 1);
    OneColumn("s", "f");
    OneColumn("s", "s");
    HerePair(Item(paths, ["s"]), "s", "f");
    assert [Row1(paths, t)] + [] == [Row1(paths, t)];
    FoundHere(paths, t, [], ["s", "f"]);
    assert |LowerAll(["s", "f"][1..])| == 1;
  }

  lemma FieldLost()
    ensures Lookup(Stub(), [Row1(Paths("main", "t"), Cell("s", 1))], ["t", "f"]) == Null
  {
    hide Lookup, HasColumn, Here;
    Spelled();
    var paths, t := Paths("main", "t"), Cell("s", 1);
    OneColumn("s", "f");
    OneColumn("s", "t");
    HerePair(Item(paths, ["s"]), "t", "f");
    assert |paths[0]| == 3 && paths[1][0] == "main" && paths[2][0] == "db" && |paths[3]| == 1;
    assert [Row1(paths, t)] + [] == [Row1(paths, t)] && ItemsOf(Row1(paths, t)) == [Item(paths, ["s"])];
    Passed(Row1(paths, t), [], ["t", "f"]);
    NowhereLeft(["t", "f"]);
  }

  // ---------------------------------------------------------------- a column qualified by database and table

  /** The walk binds no table by its database and its name alone, and leaves the qualifier behind. */
  lemma DatabaseQualifiedLosesRows()
    ensures Loses("x", Over("s", Ref(["db", "s", "x"], "")))
  {
    hide Lookup, Row1, Paths, Loses;
    Spelled();
    DatabaseColumn("s");
    DatabaseColumn("t");
    RefLoses("x", ["db", "s", "x"], ["db", "s", "x"]);
  }

  lemma DatabaseColumn(name: string)
    requires name == "s" || name == "t"
    ensures Lookup(Stub(), [Row1(Paths("main", name), Cell("x", 1))], ["db", "s", "x"]) == if name == "s"
              then Num(1) else Null
  {
    hide Lookup, HasColumn, Here, LowerAll;
    Spelled();
    var paths, t, names := Paths("main", name), Cell("x", 1), ["db", "s", "x"];
    OneColumn("x", "db");
    OneColumn("x", "s");
    OneColumn("x", "x");
    assert paths[2] in paths && paths[0][1] == "main" && paths[1][0] == "main" && |paths[3]| == 1;
    HereTriple(Item(paths, ["x"]), "db", "s", "x");
    assert [Row1(paths, t)] + [] == [Row1(paths, t)] && ItemsOf(Row1(paths, t)) == [Item(paths, ["x"])];
    if name == "s" {
      FoundHere(paths, t, [], names);
      assert names[3..] == [];
    } else {
      Passed(Row1(paths, t), [], names);
      NowhereLeft(names);
    }
  }

  // ---------------------------------------------------------------- subqueries over the source

  lemma SubValue(w: World, q: Tree, env: seq<seq<Bound>>, x: Value)
    requires Query(w, q, map[], env) == Table(["x"], [[x]])
    ensures Expr(w, Sub(q, "v"), map[], env) == Rows(Table(["x"], [[x]]))
  {
  }

  /** A subquery over the source, if the walk turns it into one with another value. */
  lemma SubLoses(q: Tree, u: Tree, x: Value, y: Value)
    requires Everywhere(q, New()) && SchemaNamed(FreeBases({}, q)) && x != y
    requires Walk(CONTEXT, Some(RENAME), Scope({}, Bound3("main", "s", "t")), q) == u
    requires Query(Start("x"), q, map[], [Row1(Paths("main", "s"), Cell("x", 1))]) == Table(["x"], [[x]])
    requires Query(End("x"), u, map[], [Row1(Paths("main", "t"), Cell("x", 1))]) == Table(["x"], [[y]])
    ensures Loses("x", Over("s", Sub(q, "v")))
  {
    hide Everywhere, NewAt, Query, Walk, Expr, Row1, Paths, Loses, Start, End, SchemaNamed;
    Spelled();
    SubFree(q);
    NewSub(q, "v");
    WalkSub(Scope({}, Bound3("main", "s", "t")), q, u, "v");
    SubValue(Start("x"), q, [Row1(Paths("main", "s"), Cell("x", 1))], x);
    SubValue(End("x"), u, [Row1(Paths("main", "t"), Cell("x", 1))], y);
    OverLoses("x", Sub(q, "v"), Sub(u, "v"));
  }

  lemma SubFree(q: Tree)
    ensures FreeBases({}, Sub(q, "v")) == FreeBases({}, q)
  {
  }

  /** `names` looked up past an inner item that does not have them, on the source or the target. */
  lemma OuterValue(paths: seq<seq<string>>, t: Table, name: string, names: seq<string>, n: nat)
    requires |t.rows| == 1 && names != [] && Here([Item(paths, t.cols)], names) == SqlSemantics.Lost
    requires var h := Here([Item(Paths("main", name), ["x"])], names);
             if name == "s" then h == Column(0, 0, n) && n + 1 == |names| && names[n] == "x" else h == SqlSemantics.Lost
    ensures Lookup(Stub(), [Row1(paths, t)] + [Row1(Paths("main", name), Cell("x", 1))], names) ==
              if name == "s" then Num(1) else Null
  {
    hide Lookup, Here, Paths, LowerAll;
    Spelled();
    var outer, c := Paths("main", name), Cell("x", 1);
    assert ItemsOf(Row1(paths, t)) == [Item(paths, t.cols)] && ItemsOf(Row1(outer, c)) == [Item(outer, c.cols)];
    Passed(Row1(paths, t), [Row1(outer, c)], names);
    assert [Row1(outer, c)] + [] == [Row1(outer, c)];
    if name == "s" {
      FoundHere(outer, c, [], names);
      assert names[n + 1..] == [];
      assert ColumnAt(c.cols, c.rows[0], "x") == Num(1);
    } else {
      Passed(Row1(outer, c), [], names);
      NowhereLeft(names);
    }
  }

  // ---------------------------------------------------------------- a qualified column through a CTE

  const COLUMN := Ref(["main", "s", "x"], "")
  const INNER := Select([Cte("s", UNIT)], Base("", "", "s", ""), [COLUMN], "")

  /** The walk binds the CTE by a schema-qualified name too, takes the column for its own and leaves it behind. */
  lemma QualifiedThroughCteLosesRows()
    ensures Loses("x", Over("s", Sub(INNER, "v")))
  {
    hide Everywhere, NewAt, Query, Walk, Paths, Loses, Start, End, Has, Bound3, Row1, Lower, FreeBases;
    Tables("x");
    InnerFree();
    HasStub(Start("x"), "s", Cell("x", 1));
    HasStub(End("x"), "t", Cell("x", 1));
    InnerNew();
    WalkedInner(Scope({}, Bound3("main", "s", "t")));
    InnerRows(Start("x"), "s");
    InnerRows(End("x"), "t");
    SubLoses(INNER, INNER, Num(1), Null);
  }

  lemma InnerFree()
    ensures FreeBases({}, INNER) == []
  {
    hide FreeInDefs, FreeInFrom, FreeInAll;
    InnerParts();
    UnitFree("s");
    Spelled();
    InnerFromFree();
  }

  lemma InnerParts()
    ensures FreeBases({}, INNER) ==
              FreeInDefs({}, INNER.defs) + FreeInFrom({"s"}, INNER.from) + FreeInAll({"s"}, [COLUMN])
  {
    hide FreeInDefs, FreeInFrom, FreeInAll;
    Spelled();
    assert Keys(INNER.defs) == {"s"} && {} + {"s"} == {"s"};
  }

  lemma InnerFromFree()
    ensures FreeInFrom({"s"}, INNER.from) == [] && FreeInAll({"s"}, [COLUMN]) == []
  {
    Spelled();
    assert [COLUMN][1..] == [];
  }

  lemma UnitFree(key: string)
    ensures FreeInDefs({}, [Cte(key, UNIT)]) == []
  {
    var d := Cte(key, UNIT);
    assert [d][1..] == [] && {} + Own(d) == {};
    SelectFree([], UNIT.from, UNIT.clauses[0]);
    assert FreeInAll({}, []) == [];
  }

  lemma InnerNew()
    ensures Everywhere(INNER, New())
  {
    hide Everywhere, NewAt;
    Spelled();
    NewUnit("s");
    NewBase("", "s", "");
    NewRef(COLUMN.names);
    NewSelect([Cte("s", UNIT)], INNER.from, COLUMN);
  }

  lemma InnerRows(w: World, name: string)
    requires w.eng == Stub() && name in {"s", "t"}
    ensures Query(w, INNER, map[], [Row1(Paths("main", name), Cell("x", 1))]) ==
              Table(["x"], [[if name == "s" then Num(1) else Null]])
  {
    hide Lookup, From, Defs, Stub, Here, Query, Row1, Paths, Lower;
    var env := [Row1(Paths("main", name), Cell("x", 1))];
    Spelled();
    UnitDef(w, "s", map[], env);
    var ctes := map["s" := UNIT_ROWS];
    var v := Single([["s"]], UNIT_ROWS);
    CteFrom(w, ctes, env);
    SingleRow([["s"]], UNIT_ROWS);
    SelectOne(w, INNER, map[], env, v);
    ColumnPlaces(name);
    OuterValue([["s"]], UNIT_ROWS, name, COLUMN.names, 2);
  }

  lemma CteFrom(w: World, ctes: map<string, Table>, env: seq<seq<Bound>>)
    requires ctes == map["s" := UNIT_ROWS]
    ensures From(w, Base("", "", "s", ""), ctes, env) == Single([["s"]], UNIT_ROWS)
  {
    hide StoredKey, Stored;
    Spelled();
  }

  lemma ColumnPlaces(name: string)
    requires name in {"s", "t"}
    ensures Here([Item([["s"]], ["x"])], COLUMN.names) == SqlSemantics.Lost
    ensures Here([Item(Paths("main", name), ["x"])], COLUMN.names) ==
              if name == "s" then Column(0, 0, 2) else SqlSemantics.Lost
  {
    hide Here, HasColumn;
    Spelled();
    OneColumn("x", "main");
    OneColumn("x", "s");
    OneColumn("x", "x");
    var paths := Paths("main", name);
    HereTriple(Item([["s"]], ["x"]), "main", "s", "x");
    assert paths[1] in paths && |paths[0]| == 3 && paths[0][0] == "db" && paths[2][0] == "db" && |paths[3]| == 1;
    HereTriple(Item(paths, ["x"]), "main", "s", "x");
  }

  lemma WalkedUnit(scope: Scope)
    requires scope.ctes == {}
    ensures WalkDefs(CONTEXT, Some(RENAME), scope, [Cte("s", UNIT)]) == [Cte("s", UNIT)]
  {
    hide Walk, WalkFrom, Bind;
    var d := Cte("s", UNIT);
    WalkOp(Inside(scope, UNIT.from), "");
    WalkOp(Inside(scope, UNIT.from), "x");
    WalkSelect(scope, UNIT.from, UNIT.clauses[0], UNIT.from, UNIT.clauses[0]);
    assert scope.ctes + Own(d) == scope.ctes;
    assert scope.(ctes := scope.ctes + Own(d)) == scope;
    assert [d][1..] == [];
    WalkedDef(scope, d);
  }

  lemma WalkedDef(scope: Scope, d: Tree)
    requires d.Cte? && Walk(CONTEXT, Some(RENAME), scope, d.query) == d.query
    ensures Walk(CONTEXT, Some(RENAME), scope, d) == d
  {
  }

  lemma WalkedInner(scope: Scope)
    requires scope.ctes == {}
    ensures Walk(CONTEXT, Some(RENAME), scope, INNER) == INNER
  {
    hide RewriteNames;
    Spelled();
    var b := INNER.from;
    assert Keys([Cte("s", UNIT)]) == {"s"};
    var ctes := scope.ctes + {"s"};
    assert IsCte(b, ctes) && !Hit(CONTEXT, ctes, Some(RENAME), b);
    var own := Bound3("main", "s", "s");
    assert Bind(CONTEXT, ctes, Some(RENAME), b) == own;
    var inner := Scope(ctes, own + scope.bindings);
    RewriteBy3("main", "s", "s", scope.bindings, COLUMN.names);
    assert ["main", "s"] + COLUMN.names[2..] == COLUMN.names;
    WalkRef(inner, COLUMN.names, COLUMN.names);
    assert [COLUMN][1..] == [];
    assert WalkAll(CONTEXT, Some(RENAME), inner, [COLUMN]) == [COLUMN];
    WalkedUnit(scope);
  }

  // ---------------------------------------------------------------- a namesake without the column

  const NEARER := Select([], Base("", "other", "s", ""), [Ref(["s", "x"], "")], "")

  /** The other schema's table has no such column: the reference is the outer one, and is left behind. */
  lemma NamesakeLosesRows()
    ensures Loses("x", Over("s", Sub(NEARER, "v")))
  {
    hide Everywhere, NewAt, Query, Walk, Paths, Loses, Start, End, Has, Bound3, Row1, FreeBases, Lower;
    Tables("x");
    NearerFree();
    NearerNew();
    NearerWalked();
    NearerRows(Start("x"), "s");
    NearerRows(End("x"), "t");
    SubLoses(NEARER, NEARER, Num(1), Null);
  }

  lemma NearerFree()
    ensures FreeBases({}, NEARER) == [Base("", "other", "s", "")]
  {
    SelectFree([], NEARER.from, NEARER.clauses[0]);
  }

  lemma NearerNew()
    ensures Everywhere(NEARER, New())
  {
    hide Everywhere, NewAt;
    Spelled();
    NewBase("other", "s", "");
    NewRef(["s", "x"]);
    NewSelect([], NEARER.from, NEARER.clauses[0]);
  }

  lemma NearerWalked()
    ensures Walk(CONTEXT, Some(RENAME), Scope({}, Bound3("main", "s", "t")), NEARER) == NEARER
  {
    hide Walk, WalkFrom, Bind, Bound3;
    Spelled();
    var scope := Scope({}, Bound3("main", "s", "t"));
    NamesakeWalked(Inside(scope, NEARER.from));
    RewriteBy3("other", "s", "s", scope.bindings, ["s", "x"]);
    WalkRef(Inside(scope, NEARER.from), ["s", "x"], ["s", "x"]);
    WalkSelect(scope, NEARER.from, NEARER.clauses[0], NEARER.from, NEARER.clauses[0]);
  }

  lemma NearerRows(w: World, name: string)
    requires Has(w, "other", "s", Cell("y", 4)) && name in {"s", "t"}
    ensures Query(w, NEARER, map[], [Row1(Paths("main", name), Cell("x", 1))]) ==
              Table(["x"], [[if name == "s" then Num(1) else Null]])
  {
    hide Lookup, Query, Here, Row1, Paths;
    var env := [Row1(Paths("main", name), Cell("x", 1))];
    SelectFrom(w, "other", "s", "", Cell("y", 4), NEARER.clauses[0], map[], env);
    NearerPlaces(name);
    OuterValue(Paths("other", "s"), Cell("y", 4), name, ["s", "x"], 1);
  }

  lemma NearerPlaces(name: string)
    requires name in {"s", "t"}
    ensures Here([Item(Paths("other", "s"), ["y"])], ["s", "x"]) == SqlSemantics.Lost
    ensures Here([Item(Paths("main", name), ["x"])], ["s", "x"]) ==
              if name == "s" then Column(0, 0, 1) else SqlSemantics.Lost
  {
    hide Here, HasColumn;
    Spelled();
    OneColumn("y", "x");
    OneColumn("y", "s");
    OneColumn("x", "x");
    OneColumn("x", "s");
    var near, paths := Paths("other", "s"), Paths("main", name);
    assert |near[0]| == 3 && near[1][0] == "other" && near[2][0] == "db" && |near[3]| == 1;
    HerePair(Item(near, ["y"]), "s", "x");
    assert paths[3] in paths && |paths[0]| == 3 && paths[1][0] == "main" && paths[2][0] == "db" && |paths[3]| == 1;
    HerePair(Item(paths, ["x"]), "s", "x");
  }

  // ---------------------------------------------------------------- a column caught inside a FROM clause

  const CAUGHT := Ref(["s", "x"], "")
  const STRAY := Ref(["t", "x"], "")

  function Derived(c: Tree): Tree {
    Select([], Op("one", [], ""), [c], "")
  }

  /** `SELECT q.x FROM (SELECT c FROM one()) AS q, main.name`. */
  function Joined(name: string, c: Tree): Tree {
    Select([], Join("", Sub(Derived(c), "q"), Base("", "main", name, ""), []), [Ref(["q", "x"], "")], "")
  }

  /** `SELECT (...) AS v FROM main.o AS s`: `s` is the outer alias, as the subquery stands left of `main.s`. */
  function Correlated(name: string, c: Tree): Tree {
    Select([], Base("", "main", "o", "s"), [Sub(Joined(name, c), "v")], "")
  }

  lemma CorrelatedNew()
    ensures NewNameIn(CONTEXT, RENAME, Correlated("s", CAUGHT))
  {
    hide NewAt, Everywhere, Lower, SafeTarget, Catalogued, Moved;
    Spelled();
    Setting("x");
    NewRef(["s", "x"]);
    NewRef(["q", "x"]);
    NewOp("");
    NewBase("main", "s", "");
    NewBase("main", "o", "s");
    NewSelect([], Op("one", [], ""), CAUGHT);
    NewSub(Derived(CAUGHT), "q");
    NewJoin(Sub(Derived(CAUGHT), "q"), Base("", "main", "s", ""));
    NewSelect([], Joined("s", CAUGHT).from, Ref(["q", "x"], ""));
    NewSub(Joined("s", CAUGHT), "v");
    NewSelect([], Base("", "main", "o", "s"), Sub(Joined("s", CAUGHT), "v"));
  }

  lemma CorrelatedFree()
    ensures FreeBases({}, Correlated("s", CAUGHT)) == [Base("", "main", "o", "s"), Base("", "main", "s", "")]
  {
    hide FreeBases, FreeInFrom;
    SelectFree([], Base("", "main", "o", "s"), Sub(Joined("s", CAUGHT), "v"));
    SelectFree([], Joined("s", CAUGHT).from, Ref(["q", "x"], ""));
    SelectFree([], Op("one", [], ""), CAUGHT);
    SubFree(Joined("s", CAUGHT));
    TablesFree();
    JoinFree(Derived(CAUGHT));
  }

  lemma TablesFree()
    ensures FreeInFrom({}, Base("", "main", "o", "s")) == [Base("", "main", "o", "s")]
    ensures FreeInFrom({}, Op("one", [], "")) == [] && FreeBases({}, CAUGHT) == []
              && FreeBases({}, Ref(["q", "x"], "")) == []
  {
    assert FreeInAll({}, []) == [];
  }

  lemma JoinFree(q: Tree)
    ensures FreeInFrom({}, Join("", Sub(q, "q"), Base("", "main", "s", ""), [])) ==
              FreeBases({}, q) + [Base("", "main", "s", "")]
  {
    assert FreeInAll({}, []) == [];
    assert FreeInFrom({}, Sub(q, "q")) == FreeBases({}, q);
  }

  const NO_COLUMNS := Table([], [[]])

  lemma OneFrom(w: World, env: seq<seq<Bound>>)
    requires w.eng == Stub()
    ensures From(w, Op("one", [], ""), map[], env) == Single([], NO_COLUMNS)
  {
  }

  lemma DerivedRows(w: World, c: Tree, env: seq<seq<Bound>>)
    requires w.eng == Stub() && c.Ref?
    ensures Query(w, Derived(c), map[], env) == Table(["x"], [[Lookup(w.eng, [Row1([], NO_COLUMNS)] + env, c.names)]])
  {
    hide Lookup, Query, From, Single, Row1;
    var v := Single([], NO_COLUMNS);
    OneFrom(w, env);
    SingleRow([], NO_COLUMNS);
    SelectOne(w, Derived(c), map[], env, v);
  }

  lemma JoinedFrom(w: World, name: string, t: Table, c: Tree, env: seq<seq<Bound>>, x: Value)
    requires Has(w, "main", name, t) && |t.rows| == 1 && Query(w, Derived(c), map[], env) == Table(["x"], [[x]])
    ensures var v := From(w, Joined(name, c).from, map[], env);
            |v.rows| == 1
              && Attach(v.items, v.rows[0]) == Row1([["q"]], Table(["x"], [[x]])) + Row1(Paths("main", name), t)
  {
    hide Query, Has, Paths, Tests, From, Right, Single, Side, Stub;
    HasStub(w, name, t);
    var q, join := Table(["x"], [[x]]), Joined(name, c).from;
    var l, r := Single([["q"]], q), Single(Paths("main", name), t);
    DerivedFrom(w, c, env, q);
    SqlMeaning.JoinStep(w, join, map[], env);
    SourceRight(w, name, t, l, -1, env);
    SourceRight(w, name, t, l, 0, env);
    OnePick(w, join, l, r, env);
    PickedRow(q, t, [["q"]], Paths("main", name));
  }

  lemma DerivedFrom(w: World, c: Tree, env: seq<seq<Bound>>, q: Table)
    requires Query(w, Derived(c), map[], env) == q
    ensures From(w, Sub(Derived(c), "q"), map[], env) == Single([["q"]], q)
  {
    hide Query;
    Spelled();
  }

  lemma SourceRight(w: World, name: string, t: Table, l: FromValue, pick: int, env: seq<seq<Bound>>)
    requires Has(w, "main", name, t)
    ensures Right(w, Base("", "main", name, ""), map[], l, pick, env) == Single(Paths("main", name), t)
  {
    hide From, Has, Single, Paths;
    TableFrom(w, "main", name, "", t, map[], [Attach(l.items, Side(l, pick))] + env);
  }

  lemma OnePick(w: World, join: Tree, l: FromValue, r: FromValue, env: seq<seq<Bound>>)
    requires join.Join? && w.eng == Stub()
    requires Right(w, join.right, map[], l, -1, env) == Right(w, join.right, map[], l, 0, env) == r
    ensures SqlMeaning.Joined(w, join, map[], l, env) == FromValue(l.items + r.items, [Side(l, 0) + Side(r, 0)])
  {
    hide Tests, Right, Side;
  }

  lemma PickedRow(a: Table, b: Table, p: seq<seq<string>>, q: seq<seq<string>>)
    requires |a.rows| == 1 && |b.rows| == 1
    ensures var l, r := Single(p, a), Single(q, b);
            Attach(l.items + r.items, Side(l, 0) + Side(r, 0)) == Row1(p, a) + Row1(q, b)
  {
  }

  lemma HasStub(w: World, name: string, t: Table)
    requires Has(w, "main", name, t)
    ensures w.eng == Stub()
  {
  }

  lemma QColumn(name: string, t: Table, x: Value, env: seq<seq<Bound>>)
    requires |t.rows| == 1
    ensures Lookup(Stub(), [Row1([["q"]], Table(["x"], [[x]])) + Row1(Paths("main", name), t)] + env, ["q", "x"]) == x
  {
    hide Paths, HasColumn, Here, LowerAll;
    var names := ["q", "x"];
    var bs := Row1([["q"]], Table(["x"], [[x]])) + Row1(Paths("main", name), t);
    FirstClaims(ItemsOf(bs));
    assert Shape([bs] + env)[0] == ItemsOf(bs);
    assert names[2..] == [];
  }

  lemma FirstClaims(items: seq<Item>)
    requires items != [] && items[0] == Item([["q"]], ["x"])
    ensures Here(items, ["q", "x"]) == Column(0, 0, 1)
  {
    hide HasColumn;
    var names := ["q", "x"];
    Spelled();
    OneColumn("x", "x");
    assert LowerAll(names[..1]) == ["q"];
    assert Claims(items[0], names, 1);
    assert ClaimIn(items, names, 1) == Claimed(0, 1);
  }

  lemma JoinedRows(w: World, name: string, t: Table, c: Tree, env: seq<seq<Bound>>)
    requires Has(w, "main", name, t) && |t.rows| == 1 && c.Ref?
    ensures Query(w, Joined(name, c), map[], env) ==
              Table(["x"], [[Lookup(w.eng, [Row1([], NO_COLUMNS)] + env, c.names)]])
  {
    hide Lookup, Query, From, Paths, Has;
    HasStub(w, name, t);
    var x := Lookup(w.eng, [Row1([], NO_COLUMNS)] + env, c.names);
    DerivedRows(w, c, env);
    JoinedFrom(w, name, t, c, env, x);
    QColumn(name, t, x, env);
    SelectOne(w, Joined(name, c), map[], env, From(w, Joined(name, c).from, map[], env));
  }

  lemma CorrelatedRows(w: World, name: string, c: Tree)
    requires Has(w, "main", name, Cell("x", 1)) && Has(w, "main", "o", Cell("x", 3)) && c.Ref?
    ensures ViewRows(w, Correlated(name, c)) ==
              Table(["x"], [[Rows(Table(["x"], [[Lookup(w.eng, [Row1([], NO_COLUMNS)] + [Row1([["s"]], Cell("x", 3))],
                                                        c.names)]]))]])
  {
    hide Lookup, Query, Row1, Has;
    Spelled();
    var outer := Row1([["s"]], Cell("x", 3));
    SelectFrom(w, "main", "o", "s", Cell("x", 3), Sub(Joined(name, c), "v"), map[], []);
    JoinedRows(w, name, Cell("x", 1), c, [outer]);
    assert [outer] + [] == [outer];
  }

  lemma CaughtValue(name: string)
    requires name in {"s", "t"}
    ensures Lookup(Stub(), [Row1([], NO_COLUMNS)] + [Row1([["s"]], Cell("x", 3))], [name, "x"]) ==
              if name == "s" then Num(3) else Null
  {
    hide Lookup, Here, HasColumn, LowerAll;
    Spelled();
    var outer, names := Row1([["s"]], Cell("x", 3)), [name, "x"];
    assert !HasColumn([], name) && !HasColumn([], "x") by { NoColumns(name); NoColumns("x"); }
    HerePair(Item([], []), name, "x");
    OneColumn("x", "x");
    OneColumn("x", name);
    HerePair(Item([["s"]], ["x"]), name, "x");
    assert ItemsOf(Row1([], NO_COLUMNS)) == [Item([], [])] && ItemsOf(outer) == [Item([["s"]], ["x"])];
    Passed(Row1([], NO_COLUMNS), [outer], names);
    assert [outer] + [] == [outer];
    if name == "s" {
      FoundHere([["s"]], Cell("x", 3), [], names);
      assert names[2..] == [];
    } else {
      Passed(outer, [], names);
      NowhereLeft(names);
    }
  }

  lemma NoColumns(name: string)
    ensures !HasColumn([], name)
  {
  }

  lemma WalkedJoined(scope: Scope)
    requires scope.ctes == {}
    ensures Walk(CONTEXT, Some(RENAME), scope, Joined("s", CAUGHT)) == Joined("t", STRAY)
  {
    hide RewriteNames, Bind, Derived, Bound3, WalkFrom, Walk;
    var from := Joined("s", CAUGHT).from;
    var inner := Inside(scope, from);
    JoinedBound(inner);
    var rest := Bound3("main", "s", "t") + scope.bindings;
    assert inner.bindings == [Binding(["q"], ["q"])] + rest;
    Spelled();
    RewriteByAlias("q", rest, ["s", "x"]);
    RewriteBy3("main", "s", "t", scope.bindings, ["s", "x"]);
    RewriteByAlias("q", rest, ["q", "x"]);
    WalkedDerived(inner);
    WalkSub(inner, Derived(CAUGHT), Derived(STRAY), "q");
    SourceWalked(inner);
    WalkJoin(inner, from.left, from.right, Sub(Derived(STRAY), "q"), Base("", "main", "t", ""));
    WalkRef(inner, ["q", "x"], ["q", "x"]);
    WalkSelect(scope, from, Ref(["q", "x"], ""), Joined("t", STRAY).from, Ref(["q", "x"], ""));
  }

  lemma JoinedBound(scope: Scope)
    requires scope.ctes == {}
    ensures Bind(CONTEXT, {}, Some(RENAME), Joined("s", CAUGHT).from) ==
              [Binding(["q"], ["q"])] + Bound3("main", "s", "t")
  {
    hide Hit, Bound3;
    SourceWalked(scope);
  }

  lemma WalkedDerived(scope: Scope)
    requires scope.ctes == {} && RewriteNames(["s", "x"], scope.bindings) == ["t", "x"]
    ensures Walk(CONTEXT, Some(RENAME), scope, Derived(CAUGHT)) == Derived(STRAY)
  {
    hide RewriteNames;
    var one := Op("one", [], "");
    assert Bind(CONTEXT, {}, Some(RENAME), one) == [];
    assert [] + scope.bindings == scope.bindings;
    WalkOp(scope, "");
    WalkSelect(scope, one, CAUGHT, one, STRAY);
  }

  lemma WalkJoin(scope: Scope, l: Tree, r: Tree, l': Tree, r': Tree)
    requires WalkFrom(CONTEXT, Some(RENAME), scope, l) == l' && WalkFrom(CONTEXT, Some(RENAME), scope, r) == r'
    ensures WalkFrom(CONTEXT, Some(RENAME), scope, Join("", l, r, [])) == Join("", l', r', [])
  {
    assert WalkAll(CONTEXT, Some(RENAME), scope, []) == [];
  }

  lemma WalkedCorrelated()
    ensures Walk(CONTEXT, Some(RENAME), NOWHERE, Correlated("s", CAUGHT)) == Correlated("t", STRAY)
  {
    hide Joined, Walk, Bind, WalkFrom;
    var from := Base("", "main", "o", "s");
    var inner := Inside(NOWHERE, from);
    AliasWalked(inner);
    WalkedJoined(inner);
    WalkSub(inner, Joined("s", CAUGHT), Joined("t", STRAY), "v");
    WalkSelect(NOWHERE, from, Sub(Joined("s", CAUGHT), "v"), from, Sub(Joined("t", STRAY), "v"));
  }

  /** Every qualifier has one part; the walk has bound the source before it comes to the subquery left of it. */
  lemma CaughtInFromLosesRows()
    ensures Loses("x", Correlated("s", CAUGHT))
  {
    hide Walk, Everywhere, ViewRows, Lookup, Catalogued, Moved, Correlated, NewNameIn, Has, Start, End, Sees, FreeBases;
    Setting("x");
    CorrelatedFree();
    BySchema("x", Correlated("s", CAUGHT));
    Tables("x");
    CorrelatedNew();
    WalkedCorrelated();
    CaughtValue("s");
    CaughtValue("t");
    HasStub(Start("x"), "s", Cell("x", 1));
    HasStub(End("x"), "t", Cell("x", 1));
    CorrelatedRows(Start("x"), "s", CAUGHT);
    CorrelatedRows(End("x"), "t", STRAY);
  }

  // ---------------------------------------------------------------- a table qualified by the database alone

  const BY_DATABASE := Select([], Base("", "db", "s", ""), [Ref(["x"], "")], "")

  /** The catalogue has no schema of that name, so the source is neither reported nor replaced. */
  lemma TableByDatabaseLosesRows()
    ensures Catalogued(Start("x")) && Moved(Start("x").db, End("x").db, SOURCE, TARGET)
    ensures NewNameIn(CONTEXT, RENAME, BY_DATABASE) && References(CONTEXT, BY_DATABASE) == [Relation("db", "s")]
    ensures Unmixed(Job(ShapesOf(Start("x")), CONTEXT, RENAME), map[], [], [], BY_DATABASE)
    ensures ViewRows(End("x"), Walk(CONTEXT, Some(RENAME), NOWHERE, BY_DATABASE)) != ViewRows(Start("x"), BY_DATABASE)
  {
    hide ViewRows, Walk, Catalogued, Moved, NewNameIn, References, Unmixed, Start, End;
    Setting("x");
    ByDatabaseNew();
    ByDatabaseReported();
    ByDatabaseUnmixed();
    ByDatabaseWalked();
    ByDatabaseBefore();
    ByDatabaseAfter();
  }

  lemma ByDatabaseNew()
    ensures NewNameIn(CONTEXT, RENAME, BY_DATABASE)
  {
    hide NewAt, Everywhere, Catalogued, Moved, Lower, Places;
    Spelled();
    Setting("x");
    ByDatabasePlaces();
    var b := BY_DATABASE.from;
    assert LowerAll(["db", "main", "main"]) == ["db", "main", "main"];
    ByDatabaseLeaf(b);
    NewRef(["x"]);
    NewSelect([], b, BY_DATABASE.clauses[0]);
  }

  lemma ByDatabaseLeaf(b: Tree)
    requires b == BY_DATABASE.from && LowerAll(Places(CONTEXT, b)) == ["db", "main", "main"]
    ensures Everywhere(b, New())
  {
    Spelled();
    Leaf(b);
  }

  lemma ByDatabaseRelation()
    ensures RelationOf(CONTEXT, {}, BY_DATABASE.from) == Relation("db", "s")
    ensures !Hit(CONTEXT, {}, Some(RENAME), BY_DATABASE.from)
  {
    Spelled();
    assert Schemas(CONTEXT, "db") == ["db"];
    assert FindNamed(CONTEXT.catalogue, "db", "s") == None;
    assert FindIn(["db"], CONTEXT.catalogue, "s") == None by { assert ["db"][1..] == []; }
  }

  lemma ByDatabaseReported()
    ensures References(CONTEXT, BY_DATABASE) == [Relation("db", "s")]
  {
    hide RelationOf, FreeBases;
    ByDatabaseRelation();
    SelectFree([], BY_DATABASE.from, BY_DATABASE.clauses[0]);
    ByDatabaseFree();
    var bases := FreeBases({}, BY_DATABASE);
    assert bases == [BY_DATABASE.from] && bases[1..] == [];
    assert Reported(CONTEXT, []) == [];
  }

  lemma ByDatabaseFree()
    ensures FreeInFrom({}, BY_DATABASE.from) == [BY_DATABASE.from] && FreeBases({}, BY_DATABASE.clauses[0]) == []
  {
  }

  lemma ByDatabaseWalked()
    ensures Walk(CONTEXT, Some(RENAME), NOWHERE, BY_DATABASE) == BY_DATABASE
  {
    hide Covers, RelationOf, Hit, Walk, WalkFrom;
    ByDatabaseRelation();
    var b := BY_DATABASE.from;
    var inner := Inside(NOWHERE, b);
    RewriteBy3("db", "s", "s", [], ["x"]);
    assert Bound3("db", "s", "s") + [] == inner.bindings;
    assert RewriteNames(["x"], []) == ["x"];
    ByDatabaseStays(inner);
    WalkRef(inner, ["x"], ["x"]);
    WalkSelect(NOWHERE, b, BY_DATABASE.clauses[0], b, BY_DATABASE.clauses[0]);
  }

  lemma ByDatabaseStays(scope: Scope)
    requires scope.ctes == {}
    ensures WalkFrom(CONTEXT, Some(RENAME), scope, BY_DATABASE.from) == BY_DATABASE.from
  {
    hide Hit;
    ByDatabaseRelation();
  }

  lemma ByDatabaseBefore()
    ensures |ViewRows(Start("x"), BY_DATABASE).rows| == 1
  {
    hide Clause, Query, From, Has;
    Tables("x");
    var w := Start("x");
    ByDatabaseFrom();
    SingleRow(Paths("main", "s"), Cell("x", 1));
    SelectOne(w, BY_DATABASE, map[], [], Single(Paths("main", "s"), Cell("x", 1)));
  }

  lemma ByDatabaseFrom()
    ensures From(Start("x"), BY_DATABASE.from, map[], []) == Single(Paths("main", "s"), Cell("x", 1))
  {
    hide Lower, StoredKey, Single;
    Spelled();
    Tables("x");
    ByDatabasePlace();
  }

  lemma ByDatabasePlace()
    ensures Start("x").ctx == CONTEXT
              && StoredKey(Start("x").db.tables.Keys, CONTEXT, BY_DATABASE.from) == ("main", "s")
  {
    hide Lower, Places;
    Spelled();
    SampleKeys();
    ByDatabasePlaces();
    var keys := Start("x").db.tables.Keys;
    assert keys == {("main", "o"), ("other", "s"), ("main", "s")};
    assert FirstHolding(["db", "main", "main"][1..], "s", keys) == Some("main");
    assert FirstHolding(["db", "main", "main"], "s", keys) == Some("main");
  }

  lemma ByDatabasePlaces()
    ensures Places(CONTEXT, BY_DATABASE.from) == ["db", "main", "main"]
  {
    Spelled();
  }

  lemma ByDatabaseAfter()
    ensures ViewRows(End("x"), BY_DATABASE).rows == []
  {
    hide From, LabelTable, End;
    EndStub();
    ByDatabaseGone();
    NoDefinitions(End("x"));
  }

  lemma EndStub()
    ensures End("x").eng == Stub()
  {
  }

  lemma NoDefinitions(w: World)
    ensures Defs(w, [], map[], []) == map[]
  {
  }

  lemma ByDatabaseGone()
    ensures From(End("x"), BY_DATABASE.from, map[], []).rows == []
  {
    hide Lower, FirstHolding, Places;
    Spelled();
    SampleKeys();
    ByDatabasePlaces();
    var keys := End("x").db.tables.Keys;
    assert keys == {("main", "o"), ("other", "s"), ("main", "t")};
    NotHeld(["db", "main", "main"], "s", keys);
    assert StoredKey(keys, CONTEXT, BY_DATABASE.from) == ("db", "s");
  }

  lemma {:induction false} NotHeld(schemas: seq<string>, name: string, keys: set<(string, string)>)
    requires forall s | s in schemas :: (Lower(s), Lower(name)) !in keys
    ensures FirstHolding(schemas, name, keys) == None
  {
    if schemas != [] { NotHeld(schemas[1..], name, keys); }
  }

  lemma ByDatabaseUnmixed()
    ensures Unmixed(Job(ShapesOf(Start("x")), CONTEXT, RENAME), map[], [], [], BY_DATABASE)
  {
    hide Entries, BoundEntries, Misclaimed, Start;
    var j, c: Columns, from := Job(ShapesOf(Start("x")), CONTEXT, RENAME), map[], BY_DATABASE.from;
    assert DefColumns(View(j), c, []) == c;
    BareUnmixed(j, c);
    assert Walked(j, c.Keys, from) + [] == Walked(j, c.Keys, from);
    assert [Visible(j, c, from)] + [] == [Visible(j, c, from)];
  }

  /** A bare column of the only item is nobody's to take. */
  lemma BareUnmixed(j: Job, c: Columns)
    requires j == Job(ShapesOf(Start("x")), CONTEXT, RENAME) && c == map[]
    ensures !Misclaimed(Ren(j), Walked(j, c.Keys, BY_DATABASE.from), [Visible(j, c, BY_DATABASE.from)], ["x"])
  {
    hide Lower, Here, RewriteNames, Source, Changed, Walked, Visible, LowerAll, LowerPaths, FirstPath, Ren, BeforeItems,
      AfterItems, Flat;
    var ws, seen := Walked(j, c.Keys, BY_DATABASE.from), [Visible(j, c, BY_DATABASE.from)];
    ByDatabaseSeen(j, c);
    BareIsNotTaken(Ren(j), ws[0]);
    assert ws[1..] == [];
  }

  lemma BareIsNotTaken(r: Renaming, e: Entry)
    requires |e.before| == 3 && forall p | p in e.before :: p != []
    ensures FirstPath(LowerPaths(e.before), ["x"]) == None
  {
    forall k | 0 <= k < 3 ensures !Reaches(LowerPaths(e.before)[k], ["x"]) { assert e.before[k] in e.before; }
  }

  lemma ByDatabaseSeen(j: Job, c: Columns)
    requires j == Job(ShapesOf(Start("x")), CONTEXT, RENAME) && c == map[]
    ensures Here(BeforeItems(Visible(j, c, BY_DATABASE.from)), ["x"]) == Column(0, 0, 0)
    ensures var ws := Walked(j, c.Keys, BY_DATABASE.from);
            |ws| == 1 && |ws[0].before| == 3 && forall p | p in ws[0].before :: p != []
  {
    hide Lower, Here, HasColumn, LowerPaths, BaseEntry, BoundEntry;
    var e := BaseEntry(View(j), c, BY_DATABASE.from);
    ByDatabaseColumns(j, c);
    OneColumn("x", "x");
    HereBare(Item(LowerPaths(e.before), ["x"]), "x");
    assert BeforeItems([e]) == [Item(LowerPaths(e.before), e.cols)];
    ByDatabaseBound(j, c.Keys);
  }

  lemma ByDatabaseBound(j: Job, ctes: set<string>)
    ensures var e := BoundEntry(j.ctx, ctes, Some(j.rep), BY_DATABASE.from);
            |e.before| == 3 && forall p | p in e.before :: p != []
  {
    hide RelationOf, Hit;
  }

  lemma ByDatabaseColumns(j: Job, c: Columns)
    requires j == Job(ShapesOf(Start("x")), CONTEXT, RENAME) && c == map[]
    ensures BaseEntry(View(j), c, BY_DATABASE.from).cols == ["x"]
  {
    hide Lower, StoredKey, RelationOf, Hit;
    Spelled();
    SampleKeys();
    ByDatabasePlace();
    assert ShapesOf(Start("x")).stored.Keys == Start("x").db.tables.Keys;
  }
}
