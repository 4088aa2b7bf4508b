/**
 * Where the guard of a query-layer edit stops short, one edit each: it is accepted, and what is stored has
 * other rows than the edit over the rows of the previous definition.
 *
 * An own CTE takes the input's name in another case; a column is qualified by the input in another case;
 * a nearer item goes by the input's or the mark's name in another case; an own CTE goes by the name of a
 * table that the previous definition reads; the input is read a second time; the input's row is a clause
 * without an alias.
 */
module SqlAccepted {
  import opened Names
  import opened SqlTree
  import opened SqlSemantics
  import opened SqlTheorems
  import opened SqlWrap
  import opened SqlEdits
  import opened SqlSample

  function Sample(): World {
    Start("x")
  }

  const STARS := [Star([])]

  /** `SELECT * FROM main.o`. */
  const PREVIOUS_VIEW := Select([], Base("", "main", "o", ""), STARS, "")

  /** An edit of one clause, and what is stored for it. */
  function Outer(defs: seq<Tree>, c: Tree): Tree {
    Select(defs, Base("", "", INPUT, ""), [c], "")
  }

  function Saved(defs: seq<Tree>, previous: Tree, c: Tree): Tree {
    Select(defs, Sub(previous, PREVIOUS), [c], "")
  }

  /** The edit is accepted, and what is stored has other rows. */
  ghost predicate Differs(outer: Tree, previous: Tree) {
    && Wrap(outer, previous).Edited?
    && ViewRows(Sample(), Wrap(outer, previous).tree) !=
         Query(Sample(), outer, map[INPUT_KEY := ViewRows(Sample(), previous)], [])
  }

  lemma InWorld()
    ensures Sample().eng == Stub() && Has(Sample(), "main", "o", Cell("x", 3))
              && Has(Sample(), "main", "s", Cell("x", 1))
  {
    hide Has;
    Tables("x");
  }

  /** The sample's tables have names of one letter. */
  lemma ShortTables()
    ensures Sample().ctx == CONTEXT && forall k | k in Sample().db.tables :: |k.1| == 1
  {
    Spelled();
  }

  // ---------------------------------------------------------------- the guard

  lemma Accepts(defs: seq<Tree>, c: Tree, d: Tree, previous: Tree)
    requires NoneReserved(defs) && !HasReserved(c) && RenameAll(defs) == defs && RenameInput(c) == d
    ensures Wrap(Outer(defs, c), previous) == Edited(Saved(defs, previous, d))
  {
    hide HasReserved, Sample;
    var t := Outer(defs, c);
    assert Parts(t) == defs + [t.from] + [c];
    NotReserved(t.from);
    OnlyParts(t);
    assert t.(from := Base("", "", INPUT, "")) == t;
    assert RenameAll([c]) == [d] by { assert [c][1..] == []; }
    assert RenameInput(Sub(previous, PREVIOUS)) == Sub(previous, PREVIOUS);
  }

  lemma NotReserved(t: Tree)
    requires !ReservedAt(t) && Parts(t) == []
    ensures !HasReserved(t)
  {
  }

  lemma OnlyParts(t: Tree)
    requires !ReservedAt(t) && forall c | c in Parts(t) :: !HasReserved(c)
    ensures !HasReserved(t)
  {
  }

  /** The unit definition may take any name but the reserved ones. */
  lemma UnitAccepted(key: string)
    requires key != INPUT && key != PREVIOUS
    ensures NoneReserved([Cte(key, UNIT)]) && RenameAll([Cte(key, UNIT)]) == [Cte(key, UNIT)]
  {
    hide HasReserved, Sample;
    var d := Cte(key, UNIT);
    NotReserved(UNIT.from);
    NotReserved(UNIT.clauses[0]);
    assert Parts(UNIT) == [UNIT.from, UNIT.clauses[0]];
    OnlyParts(UNIT);
    assert Parts(d) == [UNIT];
    OnlyParts(d);
    assert RenameAll([]) == [] && UNIT.clauses[1..] == [] && [d][1..] == [];
    assert RenameInput(UNIT) == UNIT;
  }

  /** A subquery `SELECT c FROM b` in an edit. */
  lemma SubAccepted(b: Tree, c: Tree, d: Tree)
    requires b.Base? && !ReservedAt(b) && !ReservedAt(c) && Parts(c) == [] && RenameInput(c) == d
    ensures !HasReserved(Sub(Select([], b, [c], ""), "v"))
    ensures RenameInput(Sub(Select([], b, [c], ""), "v")) == Sub(Select([], b, [d], ""), "v")
  {
    hide HasReserved, Sample;
    var q := Select([], b, [c], "");
    NotReserved(b);
    NotReserved(c);
    assert Parts(q) == [b, c];
    OnlyParts(q);
    assert Parts(Sub(q, "v")) == [q];
    assert |"v"| != |INPUT| && |"v"| != |PREVIOUS|;
    OnlyParts(Sub(q, "v"));
    assert RenameAll([]) == [] && RenameAll([c]) == [d] by { assert [c][1..] == []; }
  }

  // ---------------------------------------------------------------- rows of the edit, and of what is stored

  lemma EditRow(defs: seq<Tree>, c: Tree, t: Table, over: Table)
    requires var e := Defs(Sample(), defs, map[INPUT_KEY := t], []);
             INPUT_KEY in e && e[INPUT_KEY] == over && |over.rows| == 1
    ensures Query(Sample(), Outer(defs, c), map[INPUT_KEY := t], []) ==
              Table(["x"],
                [Clause(Sample(), c, Defs(Sample(), defs, map[INPUT_KEY := t], []), Row1([[INPUT_KEY]], over), [])])
  {
    hide Clause, Query, Defs, Row1, Single, Lower, From, Sample;
    InWorld();
    var e := Defs(Sample(), defs, map[INPUT_KEY := t], []);
    InputFrom(e, []);
    SingleRow([[INPUT_KEY]], over);
    SelectOne(Sample(), Outer(defs, c), map[INPUT_KEY := t], [], Single([[INPUT_KEY]], over));
  }

  lemma InputFrom(e: map<string, Table>, env: seq<seq<Bound>>)
    requires INPUT_KEY in e
    ensures From(Sample(), Base("", "", INPUT, ""), e, env) == Single([[INPUT_KEY]], e[INPUT_KEY])
  {
    hide Single, Sample;
    assert |INPUT| > 0;
  }

  lemma SavedRow(defs: seq<Tree>, previous: Tree, c: Tree, p: Table)
    requires Query(Sample(), previous, Defs(Sample(), defs, map[], []), []) == p && |p.rows| == 1
    ensures ViewRows(Sample(), Saved(defs, previous, c)) ==
              Table(["x"], [Clause(Sample(), c, Defs(Sample(), defs, map[], []), Row1([[PREVIOUS_KEY]], p), [])])
  {
    hide Clause, Query, Defs, Row1, Single, Lower, From, Sample;
    InWorld();
    MarkedFrom(Sample(), previous, Defs(Sample(), defs, map[], []));
    SingleRow([[PREVIOUS_KEY]], p);
    SelectOne(Sample(), Saved(defs, previous, c), map[], [], Single([[PREVIOUS_KEY]], p));
  }

  lemma StarRow(e: map<string, Table>, paths: seq<seq<string>>, t: Table)
    requires |t.rows| == 1
    ensures Clause(Sample(), Star([]), e, Row1(paths, t), []) == t.rows[0]
  {
    var bs := Row1(paths, t);
    assert seq(|bs|, i requires 0 <= i < |bs| => bs[i].vals) == [t.rows[0]];
    assert Concat([t.rows[0]]) == t.rows[0] by { assert [t.rows[0]][1..] == []; }
  }

  /** The previous view has the row of `o`, whatever CTEs are in scope. */
  lemma PreviousRows(e: map<string, Table>)
    ensures Query(Sample(), PREVIOUS_VIEW, e, []) == Cell("x", 3)
  {
    hide Clause, Query, Has, Row1, Sample;
    InWorld();
    SelectFrom(Sample(), "main", "o", "", Cell("x", 3), Star([]), e, []);
    StarRow(e, Paths("main", "o"), Cell("x", 3));
  }

  lemma NoDefs(e: map<string, Table>)
    ensures Defs(Sample(), [], e, []) == e
  {
  }

  /** Edits without CTEs over the previous view. */
  lemma PlainRows(c: Tree, d: Tree)
    requires Wrap(Outer([], c), PREVIOUS_VIEW) == Edited(Saved([], PREVIOUS_VIEW, d))
    requires Clause(Sample(), d, map[], Row1([[PREVIOUS_KEY]], Cell("x", 3)), []) !=
               Clause(Sample(), c, map[INPUT_KEY := Cell("x", 3)], Row1([[INPUT_KEY]], Cell("x", 3)), [])
    ensures Differs(Outer([], c), PREVIOUS_VIEW)
  {
    hide Wrap, Query, Clause, Defs, Row1, Outer, Saved, Lower, Sample;
    NoDefs(map[]);
    NoDefs(map[INPUT_KEY := Cell("x", 3)]);
    PreviousRows(map[]);
    EditRow([], c, Cell("x", 3), Cell("x", 3));
    SavedRow([], PREVIOUS_VIEW, d, Cell("x", 3));
  }

  // ---------------------------------------------------------------- a shadowed input

  const SHADOW_NAME := "__WF_CURRENT"
  const SHADOW_MARK := "__WF_PREVIOUS"

  lemma ShadowName()
    ensures Lower(SHADOW_NAME) == INPUT_KEY == INPUT && SHADOW_NAME != INPUT && SHADOW_NAME != PREVIOUS
    ensures Lower(SHADOW_MARK) == PREVIOUS_KEY == PREVIOUS && SHADOW_MARK != INPUT && SHADOW_MARK != PREVIOUS
    ensures INPUT_KEY != PREVIOUS_KEY
  {
    LowerCase(INPUT);
    LowerCase(PREVIOUS);
    assert SHADOW_NAME[5] == 'C' && SHADOW_MARK[5] == 'P' && PREVIOUS[5] == 'p';
    assert |SHADOW_NAME| != |PREVIOUS| && |INPUT| != |PREVIOUS|;
  }

  /** A CTE takes the input's name in another case: the edit reads it, what is stored does not. */
  lemma ShadowedInputIsAccepted()
    ensures INPUT_KEY in Keys([Cte(SHADOW_NAME, UNIT)])
    ensures Differs(Outer([Cte(SHADOW_NAME, UNIT)], Star([])), PREVIOUS_VIEW)
  {
    hide Wrap, Query, Clause, Defs, Row1, Outer, Saved, Lower, HasReserved, Has, Sample;
    ShadowName();
    var d := Cte(SHADOW_NAME, UNIT);
    assert d in [d];
    UnitAccepted(SHADOW_NAME);
    NotReserved(Star([]));
    Accepts([d], Star([]), Star([]), PREVIOUS_VIEW);
    InWorld();
    var t, e := Cell("x", 3), Defs(Sample(), [d], map[INPUT_KEY := Cell("x", 3)], []);
    UnitDef(Sample(), SHADOW_NAME, map[INPUT_KEY := t], []);
    EditRow([d], Star([]), t, UNIT_ROWS);
    StarRow(e, [[INPUT_KEY]], UNIT_ROWS);
    PreviousRows(map[]);
    PreviousRows(Defs(Sample(), [d], map[], []));
    SavedRow([d], PREVIOUS_VIEW, Star([]), t);
    StarRow(Defs(Sample(), [d], map[], []), [[PREVIOUS_KEY]], t);
  }

  // ---------------------------------------------------------------- a captured table of the previous definition

  /** `SELECT * FROM o`. */
  const BARE_VIEW := Select([], Base("", "", "o", ""), STARS, "")

  lemma BareFrom(e: map<string, Table>)
    ensures From(Sample(), Base("", "", "o", ""), e, []) ==
              if "o" in e then Single([["o"]], e["o"]) else Single(Paths("main", "o"), Cell("x", 3))
  {
    hide Lower, Sample;
    Spelled();
    InWorld();
    var b := Base("", "", "o", "");
    if "o" !in e {
      assert FirstHolding(["main", "main"], "o", Sample().db.tables.Keys) == Some("main");
      assert Schemas(CONTEXT, "") == ["main", "main"];
      assert StoredKey(Sample().db.tables.Keys, CONTEXT, b) == ("main", "o");
    }
  }

  lemma BareRows(e: map<string, Table>)
    requires "o" in e ==> e["o"] == UNIT_ROWS
    ensures Query(Sample(), BARE_VIEW, e, []) == if "o" in e then UNIT_ROWS else Cell("x", 3)
  {
    hide Clause, Query, Has, Row1, From, Single, Sample;
    InWorld();
    BareFrom(e);
    NoDefs(e);
    var paths, t := if "o" in e then [["o"]] else Paths("main", "o"), if "o" in e then UNIT_ROWS else Cell("x", 3);
    SingleRow(paths, t);
    SelectOne(Sample(), BARE_VIEW, e, [], Single(paths, t));
    StarRow(e, paths, t);
  }

  /** A CTE goes by the name of a table that the previous definition reads: what is stored reads the CTE there. */
  lemma CapturedTableIsAccepted()
    ensures Differs(Outer([Cte("o", UNIT)], Star([])), BARE_VIEW)
  {
    hide Wrap, Query, Clause, Defs, Row1, Outer, Saved, Lower, HasReserved, Has, Sample;
    ShadowName();
    Spelled();
    var d := Cte("o", UNIT);
    assert |"o"| != |INPUT| && |"o"| != |PREVIOUS|;
    UnitAccepted("o");
    NotReserved(Star([]));
    Accepts([d], Star([]), Star([]), BARE_VIEW);
    InWorld();
    var t := Cell("x", 3);
    UnitDef(Sample(), "o", map[INPUT_KEY := t], []);
    UnitDef(Sample(), "o", map[], []);
    EditRow([d], Star([]), t, t);
    StarRow(Defs(Sample(), [d], map[INPUT_KEY := t], []), [[INPUT_KEY]], t);
    BareRows(map[]);
    BareRows(Defs(Sample(), [d], map[], []));
    SavedRow([d], BARE_VIEW, Star([]), UNIT_ROWS);
    StarRow(Defs(Sample(), [d], map[], []), [[PREVIOUS_KEY]], UNIT_ROWS);
  }

  // ---------------------------------------------------------------- the input in another case

  const LOUD := Ref([SHADOW_NAME, "x"], "")

  /** `key.x` or another name's, over one item called `key`. */
  lemma QualifiedValue(key: string, n: int, env: seq<seq<Bound>>, name: string)
    requires Lower(name) != "x"
    ensures Lookup(Stub(), [Row1([[key]], Cell("x", n))] + env, [name, "x"]) ==
              if Lower(name) == key then Num(n) else Lookup(Stub(), env, [name, "x"])
  {
    hide Lookup, Here, HasColumn, LowerAll, Lower, Sample;
    Spelled();
    var t, names := Cell("x", n), [name, "x"];
    OneColumn("x", "x");
    OneColumn("x", name);
    HerePair(Item([[key]], ["x"]), name, "x");
    assert ItemsOf(Row1([[key]], t)) == [Item([[key]], ["x"])];
    if Lower(name) == key {
      FoundHere([[key]], t, env, names);
      assert names[2..] == [];
    } else {
      Passed(Row1([[key]], t), env, names);
    }
  }

  lemma LongName(name: string)
    requires |name| > 1
    ensures Lower(name) != "x"
  {
    assert |Lower(name)| == |name|;
  }

  /** A column is qualified by the input in another case: the wrapper leaves the qualifier behind. */
  lemma OtherCaseIsAccepted()
    ensures Differs(Outer([], LOUD), PREVIOUS_VIEW)
  {
    hide Wrap, Query, Lookup, Row1, Outer, Saved, Lower, HasReserved, Differs, Sample;
    ShadowName();
    NotReserved(LOUD);
    assert RenameAll([]) == [];
    Accepts([], LOUD, LOUD, PREVIOUS_VIEW);
    LongName(SHADOW_NAME);
    InWorld();
    RefClause(Sample(), LOUD.names, map[], Row1([[PREVIOUS_KEY]], Cell("x", 3)), []);
    RefClause(Sample(), LOUD.names, map[INPUT_KEY := Cell("x", 3)], Row1([[INPUT_KEY]], Cell("x", 3)), []);
    QualifiedValue(INPUT_KEY, 3, [], SHADOW_NAME);
    QualifiedValue(PREVIOUS_KEY, 3, [], SHADOW_NAME);
    NowhereLeft(LOUD.names);
    PlainRows(LOUD, LOUD);
  }

  // ---------------------------------------------------------------- a nearer item in another case

  /** `(SELECT name.x FROM main.s AS alias)`. */
  function Nearer(alias: string, name: string): Tree {
    Sub(Select([], Base("", "main", "s", alias), [Ref([name, "x"], "")], ""), "v")
  }

  lemma NearerClause(alias: string, name: string, e: map<string, Table>, key: string)
    requires alias != "" && Lower(name) == name && |name| > 1
    ensures Clause(Sample(), Nearer(alias, name), e, Row1([[key]], Cell("x", 3)), []) ==
              [Rows(Table(["x"], [[if Lower(alias) == name then Num(1) else if key == name then Num(3) else Null]]))]
  {
    hide Query, Lookup, Row1, Has, Lower, Sample;
    InWorld();
    LongName(name);
    var c, env := Ref([name, "x"], ""), [Row1([[key]], Cell("x", 3))] + [];
    SelectFrom(Sample(), "main", "s", alias, Cell("x", 1), c, e, env);
    QualifiedValue(Lower(alias), 1, env, name);
    QualifiedValue(key, 3, [], name);
    NowhereLeft([name, "x"]);
  }

  /**
   * A nearer item goes by the input's name in another case and takes the reference, or by the mark's name
   * in another case and takes what the wrapper makes of it.
   */
  lemma NearerItemIsAccepted(alias: string)
    requires alias == SHADOW_NAME || alias == SHADOW_MARK
    ensures Differs(Outer([], Nearer(alias, INPUT)), PREVIOUS_VIEW)
  {
    hide Wrap, Query, Clause, Row1, Outer, Saved, Lower, HasReserved, Differs, Sample;
    ShadowName();
    SubAccepted(Base("", "main", "s", alias), Ref([INPUT, "x"], ""), Ref([PREVIOUS, "x"], ""));
    assert RenameAll([]) == [];
    Accepts([], Nearer(alias, INPUT), Nearer(alias, PREVIOUS), PREVIOUS_VIEW);
    NearerClause(alias, INPUT, map[INPUT_KEY := Cell("x", 3)], INPUT_KEY);
    NearerClause(alias, PREVIOUS, map[], PREVIOUS_KEY);
    PlainRows(Nearer(alias, INPUT), Nearer(alias, PREVIOUS));
  }

  // ---------------------------------------------------------------- the input read twice

  /** `(SELECT x FROM __wf_current)`. */
  const AGAIN := Sub(Select([], Base("", "", INPUT, ""), [Ref(["x"], "")], ""), "v")

  lemma AgainInput()
    ensures Query(Sample(), AGAIN.query, map[INPUT_KEY := Cell("x", 3)], [Row1([[INPUT_KEY]], Cell("x", 3))]) ==
              Cell("x", 3)
  {
    hide Lookup, Row1, Lower, Query, From, Single, Defs, Has, Sample, Clause;
    InWorld();
    var e, env, t := map[INPUT_KEY := Cell("x", 3)], [Row1([[INPUT_KEY]], Cell("x", 3))], Cell("x", 3);
    InputFrom(e, env);
    NoDefsIn(e, env);
    SingleRow([[INPUT_KEY]], t);
    SelectOne(Sample(), AGAIN.query, e, env, Single([[INPUT_KEY]], t));
    BareClause(e, t, env);
  }

  lemma NoDefsIn(e: map<string, Table>, env: seq<seq<Bound>>)
    ensures Defs(Sample(), [], e, env) == e
  {
  }

  lemma BareClause(e: map<string, Table>, t: Table, env: seq<seq<Bound>>)
    requires t == Cell("x", 3)
    ensures Clause(Sample(), Ref(["x"], ""), e, Row1([[INPUT_KEY]], t), env) == [Num(3)]
  {
    hide Lookup, Row1, Lower, Has, Sample, Clause, Stub;
    InWorld();
    RefClause(Sample(), ["x"], e, Row1([[INPUT_KEY]], t), env);
    BareColumn(t, env);
  }

  lemma BareColumn(t: Table, env: seq<seq<Bound>>)
    requires t == Cell("x", 3)
    ensures Lookup(Stub(), [Row1([[INPUT_KEY]], t)] + env, ["x"]) == Num(3)
  {
    hide Lookup, Here, HasColumn, Lower, Sample;
    OneColumn("x", "x");
    HereBare(Item([[INPUT_KEY]], ["x"]), "x");
    FoundHere([[INPUT_KEY]], t, env, ["x"]);
    assert ["x"][1..] == [];
  }

  lemma NoInput(env: seq<seq<Bound>>)
    ensures From(Sample(), Base("", "", INPUT, ""), map[], env).rows == []
  {
    hide Sample, FirstHolding;
    ShortTables();
    ShadowName();
    var b := Base("", "", INPUT, "");
    assert |StoredKey(Sample().db.tables.Keys, CONTEXT, b).1| == |INPUT| > 1;
  }

  /** Where the input is not bound, no table goes by its name. */
  lemma AgainNothing(env: seq<seq<Bound>>)
    ensures Query(Sample(), AGAIN.query, map[], env).rows == []
  {
    hide Lower, Sample, Labels, Clause, Has, Defs;
    InWorld();
    NoDefsIn(map[], env);
    NoInput(env);
  }

  /** The input is read again in a subquery: what is stored reads whatever table goes by that name there. */
  lemma SecondReadIsAccepted()
    ensures Differs(Outer([], AGAIN), PREVIOUS_VIEW)
  {
    hide Wrap, Query, Row1, Outer, Saved, Lower, HasReserved, Differs, Sample;
    ShadowName();
    SubAccepted(Base("", "", INPUT, ""), Ref(["x"], ""), Ref(["x"], ""));
    assert RenameAll([]) == [];
    Accepts([], AGAIN, AGAIN, PREVIOUS_VIEW);
    AgainInput();
    AgainNothing([Row1([[PREVIOUS_KEY]], Cell("x", 3))]);
    SubClause(map[INPUT_KEY := Cell("x", 3)], [[INPUT_KEY]]);
    SubClause(map[], [[PREVIOUS_KEY]]);
    PlainRows(AGAIN, AGAIN);
  }

  lemma SubClause(e: map<string, Table>, paths: seq<seq<string>>)
    ensures var bs := Row1(paths, Cell("x", 3));
              Clause(Sample(), AGAIN, e, bs, []) == [Rows(Query(Sample(), AGAIN.query, e, [bs]))]
  {
    hide Query, Sample;
    var bs := Row1(paths, Cell("x", 3));
    assert [bs] + [] == [bs];
  }

  // ---------------------------------------------------------------- the input's row as a column

  const WHOLE := Ref([INPUT], "")

  /** The sample under an engine that names columns by their labels. */
  function Naming(): World {
    Sample().(eng := Stub().(columns := (tag, labels) => Concat(labels)))
  }

  /** The input's row is a clause without an alias: what is stored has the mark for the column's name. */
  lemma RowLabelIsAccepted()
    ensures Wrap(Outer([], WHOLE), PREVIOUS_VIEW).Edited?
    ensures Query(Naming(), Outer([], WHOLE), map[INPUT_KEY := ViewRows(Naming(), PREVIOUS_VIEW)], []).cols == [INPUT]
    ensures ViewRows(Naming(), Wrap(Outer([], WHOLE), PREVIOUS_VIEW).tree).cols == [PREVIOUS] != [INPUT]
  {
    hide Wrap, HasReserved, ClauseTable, From, Lower;
    NotReserved(WHOLE);
    assert RenameAll([]) == [];
    Accepts([], WHOLE, Ref([PREVIOUS], ""), PREVIOUS_VIEW);
    OneLabel(Outer([], WHOLE), map[INPUT_KEY := ViewRows(Naming(), PREVIOUS_VIEW)]);
    OneLabel(Saved([], PREVIOUS_VIEW, Ref([PREVIOUS], "")), map[]);
    assert |INPUT| != |PREVIOUS|;
  }

  lemma OneLabel(t: Tree, e: map<string, Table>)
    requires t.Select? && |t.clauses| == 1 && t.clauses[0].Ref? && t.clauses[0].alias == "" && |t.clauses[0].names| == 1
    ensures Query(Naming(), t, e, []).cols == t.clauses[0].names
  {
    hide ClauseTable, From, Defs, Naming;
    var w, names := Naming(), t.clauses[0].names;
    var v := From(w, t.from, Defs(w, t.defs, e, []), []);
    assert LabelTable(v.items, t.clauses) == [[names[0]]];
    NamesColumn(t.tag, names[0]);
  }

  lemma NamesColumn(tag: string, name: string)
    ensures Naming().eng.columns(tag, [[name]]) == [name]
  {
    hide Sample, Stub;
    assert [[name]][1..] == [];
    assert Concat([[name]]) == [name] + Concat([]);
  }
}
