/**
 * Renaming a relation of a project: its table or view, and the definitions of all views that read it.
 *
 * The rows of a project are those of its tables, and of its views one after the other, each evaluated
 * over what is there so far; in an order with dependencies first this is what every view means.
 */
module SqlProject {
  import opened Names
  import opened SqlTree
  import opened SqlSemantics
  import opened SqlRewrite
  import opened SqlColumns
  import opened SqlScopes
  import opened SqlMeaning
  import opened SqlTheorems
  import opened SqlClaims
  import Renames

  datatype View = View(relation: Relation, query: Tree)

  /** `base` has every relation of the catalogue, the views among them still empty. */
  datatype Project = Project(
    eng: Engine, database: string, searchPath: seq<string>, catalogue: seq<Relation>, base: Database, views: seq<View>)

  function ContextOf(p: Project, v: View): Context {
    Context(p.database, v.relation.schema, p.searchPath, p.catalogue)
  }

  function Put(db: Database, k: (string, string), t: Table): Database {
    db.(tables := db.tables[k := t])
  }

  function WorldOf(p: Project, db: Database, v: View): World {
    World(p.eng, db, ContextOf(p, v))
  }

  /** The rows of all tables and of the first `n` views. */
  function RowsOf(p: Project, n: nat): Database
    requires n <= |p.views|
  {
    if n == 0 then p.base
    else
      Next(p, RowsOf(p, n - 1), p.views[n - 1])
  }

  /** The views and the catalogue name relations that exist, and the catalogue names them all. */
  ghost predicate Consistent(p: Project) {
    && (forall k: (string, string) :: k in p.base.tables <==> exists r :: r in p.catalogue && KeyOf(r) == k)
    && (forall v | v in p.views :: KeyOf(v.relation) in p.base.tables)
  }

  lemma {:induction false} RowsKeys(p: Project, n: nat)
    requires Consistent(p) && n <= |p.views|
    ensures RowsOf(p, n).tables.Keys == p.base.tables.Keys && RowsOf(p, n).foreign == p.base.foreign
  {
    hide ViewRows;
    if n > 0 {
      RowsKeys(p, n - 1);
      assert p.views[n - 1] in p.views;
    }
  }

  // ---------------------------------------------------------------- the rename

  /** The view reads the relation, by what its definition reports. */
  ghost predicate ReadsRelation(ctx: Context, q: Tree, r: Relation) {
    exists x | x in References(ctx, q) :: SameRelation(x, r)
  }

  /** Views that read the source are redefined; the others, the source itself among them, keep their definition. */
  ghost function Redefined(p: Project, rep: Replacement, v: View): Tree {
    if ReadsRelation(ContextOf(p, v), v.query, rep.source)
    then Walk(ContextOf(p, v), Some(rep), NOWHERE, v.query) else v.query
  }

  ghost function RenamedView(p: Project, rep: Replacement, v: View): View {
    View(if SameRelation(v.relation, rep.source) then rep.target else v.relation, Redefined(p, rep, v))
  }

  ghost function RenamedProject(p: Project, rep: Replacement): Project {
    var moved := p.base.tables - {KeyOf(rep.source)};
    var base := if KeyOf(rep.source) in p.base.tables
      then moved[KeyOf(rep.target) := p.base.tables[KeyOf(rep.source)]] else moved;
    p.(base := p.base.(tables := base),
       views := seq(|p.views|, i requires 0 <= i < |p.views| => RenamedView(p, rep, p.views[i])))
  }

  /**
   * The name is new to the project and to each of its views, and no view has a misclaimed reference or
   * reads the source, or takes another table for it, under a name that is not reported so.
   */
  ghost predicate CanRename(p: Project, rep: Replacement) {
    && rep.target.schema == rep.source.schema && KeyOf(rep.target) !in p.base.tables
    && forall i | 0 <= i < |p.views| ::
         && NewNameIn(ContextOf(p, p.views[i]), rep, p.views[i].query)
         && Recognized(p.base.tables.Keys, ContextOf(p, p.views[i]), rep.source, p.views[i].query)
         && Unmixed(JobAt(p, rep, i), map[], [], [], p.views[i].query)
  }

  /** What a view is read against: the columns of the tables and of the views before it. */
  function JobAt(p: Project, rep: Replacement, i: nat): Job
    requires i < |p.views|
  {
    Job(ShapesOf(WorldOf(p, RowsOf(p, i), p.views[i])), ContextOf(p, p.views[i]), rep)
  }

  /** The source's rows are the target's, and everything else is where it was. */
  ghost predicate Shifted(before: Database, after: Database, rep: Replacement) {
    && after.foreign == before.foreign
    && KeyOf(rep.source) !in after.tables && Stored(after, KeyOf(rep.target)) == Stored(before, KeyOf(rep.source))
    && forall k: (string, string) | k != KeyOf(rep.source) && k != KeyOf(rep.target) ::
         (k in after.tables <==> k in before.tables) && Stored(after, k) == Stored(before, k)
  }

  lemma ShiftedIsMoved(before: Database, after: Database, rep: Replacement)
    requires Shifted(before, after, rep)
    ensures Moved(before, after, rep.source, rep.target)
  {
  }

  /** A table other than the source answers alike. */
  lemma OtherAnswers(w: World, after: Database, rep: Replacement, b: Tree)
    requires Catalogued(w) && Shifted(w.db, after, rep) && b.Base? && !Same(b.name, rep.target.name)
    requires IsLocal(b, w.ctx) ==> Place(w.db, w.ctx, b) != KeyOf(rep.source)
    ensures Answers(Setup(w, after, None, {}), b)
  {
    ShiftedIsMoved(w.db, after, rep);
    if IsLocal(b, w.ctx) {
      HoldingStays(Places(w.ctx, b), b.name, w.db, after, rep.source, rep.target);
    }
  }

  /** A view that does not read the source keeps its rows under its own definition. */
  lemma UntouchedView(w: World, after: Database, rep: Replacement, q: Tree)
    requires Catalogued(w) && Shifted(w.db, after, rep) && NewNameIn(w.ctx, rep, q)
    requires Recognized(w.db.tables.Keys, w.ctx, rep.source, q) && !ReadsRelation(w.ctx, q, rep.source)
    ensures ViewRows(w.(db := after), q) == ViewRows(w, q)
  {
    hide Everywhere, Turned, Query, Answers, Shifted, Catalogued, SafeTarget;
    var s := Setup(w, after, None, {});
    FreeInside({}, q, NewAt(w.ctx, rep));
    forall b | b in FreeBases({}, q) ensures Answers(s, b) {
      assert NewAt(w.ctx, rep)(b);
      if IsLocal(b, w.ctx) {
        ReportedHas(w.ctx, FreeBases({}, q), b);
        assert !SameRelation(RelationOf(w.ctx, {}, b), rep.source);
      }
      OtherAnswers(w, after, rep, b);
    }
    TurnedItself(Reads(s), map[], [], q);
    NoneInScope();
    QuerySame(s, q, q, map[], [], map[], map[], [], []);
  }

  lemma RedefinedRows(p: Project, rep: Replacement, i: nat, before: Database, after: Database)
    requires CanRename(p, rep) && i < |p.views| && before == RowsOf(p, i) && Shifted(before, after, rep)
    requires Catalogued(WorldOf(p, before, p.views[i])) && before.tables.Keys == p.base.tables.Keys
    ensures var v := p.views[i];
            ViewRows(WorldOf(p, after, v), Redefined(p, rep, v)) == ViewRows(WorldOf(p, before, v), v.query)
  {
    hide ViewRows, Shifted, Catalogued, Unmixed, Recognized, NewNameIn, ReadsRelation, Walk, ShapesOf, RowsOf;
    var v := p.views[i];
    var w := WorldOf(p, before, v);
    assert w.(db := after) == WorldOf(p, after, v);
    if ReadsRelation(w.ctx, v.query, rep.source) {
      ShiftedIsMoved(before, after, rep);
      WalkKeepsRows(w, after, rep, v.query);
    } else {
      UntouchedView(w, after, rep, v.query);
    }
  }

  lemma PutShifted(before: Database, after: Database, rep: Replacement, k: (string, string), t: Table)
    requires Shifted(before, after, rep) && k in before.tables && KeyOf(rep.target) !in before.tables
    ensures Shifted(Put(before, k, t), Put(after, if k == KeyOf(rep.source) then KeyOf(rep.target) else k, t), rep)
  {
  }

  lemma RenamedContext(p: Project, rep: Replacement, v: View, db: Database)
    requires rep.target.schema == rep.source.schema
    ensures var v' := RenamedView(p, rep, v);
            && (SameRelation(v.relation, rep.source) ==>
              KeyOf(v'.relation) == KeyOf(rep.target) && KeyOf(v.relation) == KeyOf(rep.source))
            && (!SameRelation(v.relation, rep.source) ==>
              v'.relation == v.relation && KeyOf(v.relation) != KeyOf(rep.source))
            && (v.relation.schema == rep.source.schema || !SameRelation(v.relation, rep.source) ==>
                  WorldOf(RenamedProject(p, rep), db, v') == WorldOf(p, db, v))
  {
  }

  /** The project spells the schema of the source as the source does. */
  ghost predicate Spelled(p: Project, rep: Replacement) {
    forall v | v in p.views :: SameRelation(v.relation, rep.source) ==> v.relation.schema == rep.source.schema
  }

  lemma {:induction false} RowsShift(p: Project, rep: Replacement, n: nat)
    requires Consistent(p) && CanRename(p, rep) && Spelled(p, rep) && KeyOf(rep.source) in p.base.tables
               && n <= |p.views|
    ensures Shifted(RowsOf(p, n), RowsOf(RenamedProject(p, rep), n), rep)
  {
    hide ViewRows, CanRename, Shifted, RenamedProject, Consistent, Spelled, RowsOf;
    if n == 0 {
      RowsAtStart(p);
      RowsAtStart(RenamedProject(p, rep));
      BaseShifts(p, rep);
    } else {
      RowsShift(p, rep, n - 1);
      RenamedViews(p, rep);
      ViewShifts(p, rep, n, RowsOf(p, n - 1), RowsOf(RenamedProject(p, rep), n - 1));
      RowsStep(p, n);
      RowsStep(RenamedProject(p, rep), n);
    }
  }

  lemma RowsAtStart(p: Project)
    ensures RowsOf(p, 0) == p.base
  {
  }

  lemma RowsStep(p: Project, n: nat)
    requires 0 < n <= |p.views|
    ensures RowsOf(p, n) == Next(p, RowsOf(p, n - 1), p.views[n - 1])
  {
  }

  function Next(p: Project, db: Database, v: View): Database {
    Put(db, KeyOf(v.relation), ViewRows(WorldOf(p, db, v), v.query))
  }

  lemma RenamedViews(p: Project, rep: Replacement)
    ensures |RenamedProject(p, rep).views| == |p.views|
    ensures forall i | 0 <= i < |p.views| :: RenamedProject(p, rep).views[i] == RenamedView(p, rep, p.views[i])
  {
  }

  lemma ViewShifts(p: Project, rep: Replacement, n: nat, before: Database, after: Database)
    requires Consistent(p) && CanRename(p, rep) && Spelled(p, rep) && 0 < n <= |p.views|
    requires before == RowsOf(p, n - 1) && Shifted(before, after, rep)
    ensures var v := p.views[n - 1];
            Shifted(Next(p, before, v), Next(RenamedProject(p, rep), after, RenamedView(p, rep, v)), rep)
  {
    hide ViewRows, CanRename, Shifted, Redefined, RowsOf, RenamedProject, Put;
    var v := p.views[n - 1];
    assert v in p.views;
    RowsKeys(p, n - 1);
    InCatalogue(p, v, before);
    RedefinedRows(p, rep, n - 1, before, after);
    NewTarget(p, rep);
    RenamedContext(p, rep, v, after);
    PutShifted(before, after, rep, KeyOf(v.relation), ViewRows(WorldOf(p, before, v), v.query));
  }

  lemma InCatalogue(p: Project, v: View, db: Database)
    requires Consistent(p) && db.tables.Keys == p.base.tables.Keys
    ensures Catalogued(WorldOf(p, db, v))
  {
  }

  lemma NewTarget(p: Project, rep: Replacement)
    requires CanRename(p, rep)
    ensures rep.target.schema == rep.source.schema && KeyOf(rep.target) !in p.base.tables
  {
  }

  lemma BaseShifts(p: Project, rep: Replacement)
    requires CanRename(p, rep) && KeyOf(rep.source) in p.base.tables
    ensures Shifted(p.base, RenamedProject(p, rep).base, rep)
  {
  }

  /**
   * After the rename every view of the project has the rows it had, views over views included, and
   * the renamed relation has them under its new name.
   */
  lemma RenameKeepsEveryView(p: Project, rep: Replacement, i: nat)
    requires Consistent(p) && CanRename(p, rep) && Spelled(p, rep) && KeyOf(rep.source) in p.base.tables
               && i < |p.views|
    ensures var q, n := RenamedProject(p, rep), |p.views|;
            && q.views[i].relation ==
              (if SameRelation(p.views[i].relation, rep.source) then rep.target else p.views[i].relation)
            && Stored(RowsOf(q, n), KeyOf(q.views[i].relation)) == Stored(RowsOf(p, n), KeyOf(p.views[i].relation))
            && Stored(RowsOf(q, n), KeyOf(rep.target)) == Stored(RowsOf(p, n), KeyOf(rep.source))
  {
    hide RowsOf, CanRename, Redefined;
    RowsShift(p, rep, |p.views|);
    RenamedContext2(p, rep, i);
    NewTarget(p, rep);
    assert p.views[i] in p.views;
  }

  lemma RenamedContext2(p: Project, rep: Replacement, i: nat)
    requires i < |p.views|
    ensures var v, v' := p.views[i], RenamedProject(p, rep).views[i];
            && v'.relation == (if SameRelation(v.relation, rep.source) then rep.target else v.relation)
            && (SameRelation(v.relation, rep.source) <==> KeyOf(v.relation) == KeyOf(rep.source))
  {
  }

  // ---------------------------------------------------------------- the loop that redefines

  function Definitions(p: Project): map<(string, string), Tree> {
    map v | v in p.views && UniqueIn(p.views, v) :: KeyOf(v.relation) := v.query
  }

  predicate UniqueIn(views: seq<View>, v: View) {
    forall w | w in views && KeyOf(w.relation) == KeyOf(v.relation) :: w == v
  }

  /** The views that the rename collects, with what each of them refers to. */
  ghost function Rewrites(p: Project, rep: Replacement, views: seq<View>): seq<Renames.Rewrite> {
    if views == [] then []
    else
      var v := views[0];
      (if ReadsRelation(ContextOf(p, v), v.query, rep.source)
       then [Renames.Rewrite(v.relation, Redefined(p, rep, v), References(ContextOf(p, v), v.query))] else [])
      + Rewrites(p, rep, views[1..])
  }

  ghost predicate IsRewrite(p: Project, rep: Replacement, v: View, x: Renames.Rewrite) {
    && ReadsRelation(ContextOf(p, v), v.query, rep.source)
    && x == Renames.Rewrite(v.relation, Redefined(p, rep, v), References(ContextOf(p, v), v.query))
  }

  lemma {:induction false} RewritesAre(p: Project, rep: Replacement, views: seq<View>, x: Renames.Rewrite)
    ensures x in Rewrites(p, rep, views) <==> exists v | v in views :: IsRewrite(p, rep, v, x)
  {
    hide ReadsRelation, Redefined, References;
    if views != [] {
      var v, rest := views[0], views[1..];
      assert views == [v] + rest;
      RewritesAre(p, rep, rest, x);
      assert x in Rewrites(p, rep, views) <==> IsRewrite(p, rep, v, x) || x in Rewrites(p, rep, rest);
      if w :| w in rest && IsRewrite(p, rep, w, x) { assert w in views; }
    }
  }

  /**
   * When the loop has redefined the collected views, in whatever order it found, every view that reads
   * the source has its rewritten definition and every other view its own: the renamed project's.
   */
  lemma LoopRedefines(p: Project, rep: Replacement, order: seq<Renames.Rewrite>, v: View)
    requires (forall w | w in p.views :: UniqueIn(p.views, w)) && v in p.views
    requires multiset(order) == multiset(Rewrites(p, rep, p.views))
    ensures var defs := Renames.Redefine(Definitions(p), order);
            KeyOf(v.relation) in defs && defs[KeyOf(v.relation)] == Redefined(p, rep, v)
  {
    hide Redefined, References, ReadsRelation, Renames.Redefine, KeyOf;
    var k := KeyOf(v.relation);
    forall x ensures x in order <==> x in Rewrites(p, rep, p.views) {
      assert x in multiset(order) <==> x in multiset(Rewrites(p, rep, p.views));
    }
    forall x
      ensures x in order <==> exists w | w in p.views :: IsRewrite(p, rep, w, x)
    {
      RewritesAre(p, rep, p.views, x);
    }
    Renames.RedefinedEach(Definitions(p), order, k);
    assert k in Definitions(p) && Definitions(p)[k] == v.query;
    if ReadsRelation(ContextOf(p, v), v.query, rep.source) {
      var x := Renames.Rewrite(v.relation, Redefined(p, rep, v), References(ContextOf(p, v), v.query));
      assert IsRewrite(p, rep, v, x);
      assert x in order;
    } else {
      NotRedefined(p, rep, v);
    }
  }

  lemma NotRedefined(p: Project, rep: Replacement, v: View)
    requires !ReadsRelation(ContextOf(p, v), v.query, rep.source)
    ensures Redefined(p, rep, v) == v.query
  {
  }
}
