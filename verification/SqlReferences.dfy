/** The references that the walk reports: exactly the free tables, and what a replacement makes of them. */
module SqlReferences {
  import opened Names
  import opened SqlTree
  import opened SqlRewrite
  import opened SqlTheorems

  // ---------------------------------------------------------------- exactly the free tables

  /**
   * The CTE names that a tree adds for its `i`-th part: a definition sees the earlier ones, and itself if
   * recursive.
   */
  function Adds(t: Tree, i: nat): set<string> {
    if t.Select? || t.SetOp? || t.Recursive? then
      if i < |t.defs| then Keys(t.defs[..i]) + Own(t.defs[i]) else Keys(t.defs)
    else {}
  }

  /** The `i`-th part of a tree is read as a table: a query's FROM, or a side of a join that is itself read. */
  predicate Reads(t: Tree, read: bool, i: nat) {
    (t.Select? && i == |t.defs|) || (t.Join? && read && i < 2)
  }

  /** `b` is written somewhere inside `t` where it is read and no enclosing CTE has its name. */
  ghost predicate OccursFree(t: Tree, read: bool, ctes: set<string>, b: Tree)
    requires b.Base?
    decreases t
  {
    || (read && t == b && !IsCte(b, ctes))
    || exists i :: 0 <= i < |Parts(t)| && OccursFree(Parts(t)[i], Reads(t, read, i), ctes + Adds(t, i), b)
  }

  /** The free tables of a tree that is, or is not, read as a table. */
  function FreeAt(read: bool, ctes: set<string>, t: Tree): seq<Tree> {
    if read then FreeInFrom(ctes, t) else FreeBases(ctes, t)
  }

  lemma {:induction false} InAll(ctes: set<string>, ts: seq<Tree>, b: Tree)
    ensures b in FreeInAll(ctes, ts) <==> exists i :: 0 <= i < |ts| && b in FreeBases(ctes, ts[i])
  {
    if ts != [] {
      InAll(ctes, ts[1..], b);
      if i :| 0 <= i < |ts| && b in FreeBases(ctes, ts[i]) {
        if i > 0 { assert ts[i] == ts[1..][i - 1]; }
      }
    }
  }

  function At(ctes: set<string>, defs: seq<Tree>, i: nat): set<string>
    requires i < |defs|
  {
    ctes + (Keys(defs[..i]) + Own(defs[i]))
  }

  lemma AtNext(ctes: set<string>, defs: seq<Tree>, i: nat)
    requires 0 < i < |defs|
    ensures At(ctes, defs, i) == At(ctes + Keys(defs[..1]), defs[1..], i - 1) && defs[i] == defs[1..][i - 1]
  {
    assert defs[..i] == defs[..1] + defs[1..][..i - 1];
    assert Keys(defs[..i]) == Keys(defs[..1]) + Keys(defs[1..][..i - 1]);
  }

  lemma {:induction false} InDefs(ctes: set<string>, defs: seq<Tree>, b: Tree)
    ensures b in FreeInDefs(ctes, defs) <==> exists i :: 0 <= i < |defs| && b in FreeBases(At(ctes, defs, i), defs[i])
    decreases defs
  {
    hide FreeBases, Own;
    if defs != [] {
      var rest, ctes1 := defs[1..], ctes + Keys(defs[..1]);
      InDefs(ctes1, rest, b);
      assert At(ctes, defs, 0) == ctes + Own(defs[0]) by { assert Keys(defs[..0]) == {}; }
      if b in FreeInDefs(ctes1, rest) {
        var i :| 0 <= i < |rest| && b in FreeBases(At(ctes1, rest, i), rest[i]);
        AtNext(ctes, defs, i + 1);
      }
      if i :| 0 < i < |defs| && b in FreeBases(At(ctes, defs, i), defs[i]) {
        AtNext(ctes, defs, i);
      }
    }
  }

  predicate IsNode(t: Tree) {
    t.Select? || t.SetOp? || t.Recursive?
  }

  /** `b` is among the free tables of some part. */
  ghost predicate InPart(t: Tree, read: bool, ctes: set<string>, b: Tree) {
    exists i :: 0 <= i < |Parts(t)| && b in FreeAt(Reads(t, read, i), ctes + Adds(t, i), Parts(t)[i])
  }

  lemma HasPart(t: Tree, read: bool, ctes: set<string>, b: Tree, i: nat)
    requires i < |Parts(t)| && b in FreeAt(Reads(t, read, i), ctes + Adds(t, i), Parts(t)[i])
    ensures InPart(t, read, ctes, b)
  {
  }

  /** A definition of a node. */
  lemma DefPart(t: Tree, read: bool, ctes: set<string>, i: nat)
    requires IsNode(t) && i < |t.defs|
    ensures i < |Parts(t)| && Parts(t)[i] == t.defs[i] && ctes + Adds(t, i) == At(ctes, t.defs, i) && !Reads(t, read, i)
  {
  }

  lemma InDefPart(t: Tree, read: bool, ctes: set<string>, b: Tree)
    requires IsNode(t) && b in FreeInDefs(ctes, t.defs)
    ensures InPart(t, read, ctes, b)
  {
    hide FreeBases, FreeInFrom, FreeInDefs, Parts, Adds, Reads, At, InPart;
    InDefs(ctes, t.defs, b);
    var i :| 0 <= i < |t.defs| && b in FreeBases(At(ctes, t.defs, i), t.defs[i]);
    DefPart(t, read, ctes, i);
    HasPart(t, read, ctes, b, i);
  }

  lemma FromDefPart(t: Tree, read: bool, ctes: set<string>, b: Tree, i: nat)
    requires IsNode(t) && i < |t.defs| && b in FreeAt(Reads(t, read, i), ctes + Adds(t, i), Parts(t)[i])
    ensures b in FreeInDefs(ctes, t.defs)
  {
    hide FreeBases, FreeInFrom, FreeInDefs, Adds, At;
    DefPart(t, read, ctes, i);
    InDefs(ctes, t.defs, b);
  }

  lemma SelectParts(t: Tree, read: bool, ctes: set<string>, b: Tree)
    requires t.Select?
    ensures b in FreeBases(ctes, t) <==> InPart(t, read, ctes, b)
  {
    hide FreeInFrom, FreeInDefs, FreeInAll, FreeAt, InPart;
    var n, ctes1 := |t.defs|, ctes + Keys(t.defs);
    assert Parts(t)[n] == t.from && Reads(t, read, n) && Adds(t, n) == Keys(t.defs);
    InAll(ctes1, t.clauses, b);
    assert b in FreeBases(ctes, t) <==>
      b in FreeInDefs(ctes, t.defs) || b in FreeInFrom(ctes1, t.from) || b in FreeInAll(ctes1, t.clauses);
    if b in FreeInDefs(ctes, t.defs) { InDefPart(t, read, ctes, b); }
    if b in FreeInFrom(ctes1, t.from) { FreeAtRead(ctes1, t.from); HasPart(t, read, ctes, b, n); }
    if b in FreeInAll(ctes1, t.clauses) {
      var i :| 0 <= i < |t.clauses| && b in FreeBases(ctes1, t.clauses[i]);
      ClausePart(t, read, ctes, i);
      FreeAtRead(ctes1, t.clauses[i]);
      HasPart(t, read, ctes, b, n + 1 + i);
    }
    if InPart(t, read, ctes, b) {
      var i := PartOf(t, read, ctes, b);
      if i < n { FromDefPart(t, read, ctes, b, i); }
      else if i == n { FreeAtRead(ctes1, t.from); }
      else { ClausePart(t, read, ctes, i - n - 1); FreeAtRead(ctes1, t.clauses[i - n - 1]); }
    }
  }

  lemma FreeAtRead(ctes: set<string>, t: Tree)
    ensures FreeAt(true, ctes, t) == FreeInFrom(ctes, t) && FreeAt(false, ctes, t) == FreeBases(ctes, t)
  {
  }

  lemma PartOf(t: Tree, read: bool, ctes: set<string>, b: Tree) returns (i: nat)
    requires InPart(t, read, ctes, b)
    ensures i < |Parts(t)| && b in FreeAt(Reads(t, read, i), ctes + Adds(t, i), Parts(t)[i])
  {
    i :| 0 <= i < |Parts(t)| && b in FreeAt(Reads(t, read, i), ctes + Adds(t, i), Parts(t)[i]);
  }

  lemma ClausePart(t: Tree, read: bool, ctes: set<string>, i: nat)
    requires t.Select? && i < |t.clauses|
    ensures var k := |t.defs| + 1 + i;
            k < |Parts(t)| && Parts(t)[k] == t.clauses[i] && !Reads(t, read, k) && Adds(t, k) == Keys(t.defs)
  {
  }

  lemma SetParts(t: Tree, read: bool, ctes: set<string>, b: Tree)
    requires t.SetOp? || t.Recursive?
    ensures b in FreeBases(ctes, t) <==> InPart(t, read, ctes, b)
  {
    hide FreeInFrom, FreeInDefs, FreeAt, InPart;
    var n, ctes1 := |t.defs|, ctes + Keys(t.defs);
    assert Parts(t) == t.defs + [t.left, t.right];
    assert Parts(t)[n] == t.left && Parts(t)[n + 1] == t.right && !Reads(t, read, n) && !Reads(t, read, n + 1);
    assert Adds(t, n) == Keys(t.defs) == Adds(t, n + 1);
    FreeAtRead(ctes1, t.left);
    FreeAtRead(ctes1, t.right);
    assert b in FreeBases(ctes, t) <==>
      b in FreeInDefs(ctes, t.defs) || b in FreeBases(ctes1, t.left) || b in FreeBases(ctes1, t.right);
    if b in FreeInDefs(ctes, t.defs) { InDefPart(t, read, ctes, b); }
    if b in FreeBases(ctes1, t.left) { HasPart(t, read, ctes, b, n); }
    if b in FreeBases(ctes1, t.right) { HasPart(t, read, ctes, b, n + 1); }
    if InPart(t, read, ctes, b) {
      var i := PartOf(t, read, ctes, b);
      if i < n { FromDefPart(t, read, ctes, b, i); }
    }
  }

  lemma JoinFree(t: Tree, read: bool, ctes: set<string>)
    requires t.Join?
    ensures FreeAt(read, ctes, t) == FreeAt(read, ctes, t.left) + FreeAt(read, ctes, t.right) + FreeInAll(ctes, t.on)
  {
  }

  lemma JoinParts(t: Tree, read: bool, ctes: set<string>, b: Tree)
    requires t.Join?
    ensures b in FreeAt(read, ctes, t) <==> InPart(t, read, ctes, b)
  {
    hide FreeBases, FreeInFrom, FreeInAll, InPart;
    InAll(ctes, t.on, b);
    forall i: nat ensures ctes + Adds(t, i) == ctes { }
    JoinFree(t, read, ctes);
    if b in FreeAt(read, ctes, t.left) { HasPart(t, read, ctes, b, 0); }
    if b in FreeAt(read, ctes, t.right) { HasPart(t, read, ctes, b, 1); }
    if b in FreeInAll(ctes, t.on) {
      var i :| 0 <= i < |t.on| && b in FreeBases(ctes, t.on[i]);
      assert Parts(t)[i + 2] == t.on[i];
      HasPart(t, read, ctes, b, i + 2);
    }
    if InPart(t, read, ctes, b) {
      var i := PartOf(t, read, ctes, b);
      if i >= 2 { assert Parts(t)[i] == t.on[i - 2]; }
    }
  }

  lemma OtherParts(t: Tree, read: bool, ctes: set<string>, b: Tree)
    requires !IsNode(t) && !t.Join? && !t.Base?
    ensures b in FreeBases(ctes, t) <==> InPart(t, read, ctes, b)
  {
    hide FreeInAll, InPart;
    forall i: nat ensures ctes + Adds(t, i) == ctes && !Reads(t, read, i) { }
    InAll(ctes, Parts(t), b);
    if t.Cte? || t.Sub? { assert Parts(t)[0] == t.query; }
    assert b in FreeBases(ctes, t) <==> exists i :: 0 <= i < |Parts(t)| && b in FreeBases(ctes, Parts(t)[i]);
    if b in FreeBases(ctes, t) {
      var i :| 0 <= i < |Parts(t)| && b in FreeBases(ctes, Parts(t)[i]);
      HasPart(t, read, ctes, b, i);
    }
    if InPart(t, read, ctes, b) { var i := PartOf(t, read, ctes, b); }
  }

  lemma InParts(t: Tree, read: bool, ctes: set<string>, b: Tree)
    requires !t.Base?
    ensures b in FreeAt(read, ctes, t) <==> InPart(t, read, ctes, b)
  {
    hide InPart, FreeBases;
    if t.Join? { JoinParts(t, read, ctes, b); }
    else if t.Select? { SelectParts(t, read, ctes, b); }
    else if IsNode(t) { SetParts(t, read, ctes, b); }
    else { OtherParts(t, read, ctes, b); }
  }

  /** The collected base tables are exactly those that occur free. */
  lemma {:induction false} CollectsFree(t: Tree, read: bool, ctes: set<string>, b: Tree)
    requires b.Base?
    ensures b in FreeAt(read, ctes, t) <==> OccursFree(t, read, ctes, b)
    decreases t
  {
    hide Adds, Reads, FreeBases, FreeInFrom;
    if t.Base? {
      BaseParts(read, ctes, t);
    } else {
      InParts(t, read, ctes, b);
      forall i | 0 <= i < |Parts(t)|
        ensures b in FreeAt(Reads(t, read, i), ctes + Adds(t, i), Parts(t)[i])
                <==> OccursFree(Parts(t)[i], Reads(t, read, i), ctes + Adds(t, i), b)
      {
        CollectsFree(Parts(t)[i], Reads(t, read, i), ctes + Adds(t, i), b);
      }
    }
  }

  lemma BaseParts(read: bool, ctes: set<string>, t: Tree)
    requires t.Base?
    ensures FreeAt(read, ctes, t) == if read && !IsCte(t, ctes) then [t] else []
  {
  }

  /** Reported references are exactly the relations of free, local tables. */
  lemma ReportsExactlyFree(ctx: Context, q: Tree, r: Relation)
    ensures r in References(ctx, q) <==>
            exists b: Tree :: b.Base? && OccursFree(q, false, {}, b) && IsLocal(b, ctx) && RelationOf(ctx, {}, b) == r
  {
    var bases := FreeBases({}, q);
    if r in References(ctx, q) {
      var b := ReportedFrom(ctx, bases, r);
      CollectsFree(q, false, {}, b);
    }
    if b: Tree :| b.Base? && OccursFree(q, false, {}, b) && IsLocal(b, ctx) && RelationOf(ctx, {}, b) == r {
      CollectsFree(q, false, {}, b);
      ReportedHas(ctx, bases, b);
    }
  }

  lemma {:induction false} ReportedFrom(ctx: Context, bases: seq<Tree>, r: Relation) returns (b: Tree)
    requires forall x | x in bases :: x.Base?
    requires r in Reported(ctx, bases)
    ensures b in bases && IsLocal(b, ctx) && RelationOf(ctx, {}, b) == r
  {
    if IsLocal(bases[0], ctx) && RelationOf(ctx, {}, bases[0]) == r {
      b := bases[0];
    } else {
      b := ReportedFrom(ctx, bases[1..], r);
    }
  }

  // ---------------------------------------------------------------- references after a replacement

  function Swap(ctx: Context, rep: Option<Replacement>, bases: seq<Tree>): (r: seq<Tree>)
    requires forall b | b in bases :: b.Base?
    ensures |r| == |bases| && forall b | b in r :: b.Base?
  {
    seq(|bases|, i requires 0 <= i < |bases| => Replaced(ctx, {}, rep, bases[i]))
  }

  ghost predicate Qualified(rep: Option<Replacement>) {
    rep.Some? ==> rep.value.target.schema != ""
  }

  lemma SwapJoin(ctx: Context, rep: Option<Replacement>, a: seq<Tree>, b: seq<Tree>)
    requires forall x | x in a + b :: x.Base?
    requires forall x | x in a :: x.Base?
    requires forall x | x in b :: x.Base?
    ensures Swap(ctx, rep, a + b) == Swap(ctx, rep, a) + Swap(ctx, rep, b)
  {
  }

  /** The walk never turns a definition into something else. */
  lemma WalkKeepsKind(ctx: Context, rep: Option<Replacement>, scope: Scope, t: Tree)
    ensures var u := Walk(ctx, rep, scope, t);
            && u.Cte? == t.Cte? && (t.Cte? ==> u.key == t.key) && Own(u) == Own(t)
  {
  }

  lemma {:induction false} WalkKeepsKeys(ctx: Context, rep: Option<Replacement>, scope: Scope, defs: seq<Tree>)
    ensures Keys(WalkDefs(ctx, rep, scope, defs)) == Keys(defs)
    decreases defs
  {
    if defs != [] {
      var after := WalkDefs(ctx, rep, scope, defs);
      var next := scope.(ctes := scope.ctes + Keys(defs[..1]));
      WalkKeepsKeys(ctx, rep, next, defs[1..]);
      FirstKeys(after);
      FirstKeys(defs);
      WalkKeepsKind(ctx, rep, scope.(ctes := scope.ctes + Own(defs[0])), defs[0]);
      assert after[1..] == WalkDefs(ctx, rep, next, defs[1..]);
    }
  }

  /** A replaced table is schema-qualified, so no CTE captures it: free tables stay free, swapped. */
  lemma {:induction false} FreeAfterWalk(ctx: Context, rep: Option<Replacement>, scope: Scope, t: Tree)
    requires Qualified(rep)
    ensures FreeBases(scope.ctes, Walk(ctx, rep, scope, t)) == Swap(ctx, rep, FreeBases(scope.ctes, t))
    decreases t, 1
  {
    hide Swap, Bind, Keys, RewriteNames;
    if IsNode(t) {
      FreeAfterNode(ctx, rep, scope, t);
    } else {
      match t
      case Cte(_, query) => FreeAfterWalk(ctx, rep, scope, query);
      case Join(_, left, right, on) =>
        FreeAfterWalk(ctx, rep, scope, left);
        FreeAfterWalk(ctx, rep, scope, right);
        FreeAfterAll(ctx, rep, scope, on);
        var a, b, c := FreeBases(scope.ctes, left), FreeBases(scope.ctes, right), FreeInAll(scope.ctes, on);
        SwapJoin(ctx, rep, a, b);
        SwapJoin(ctx, rep, a + b, c);
      case Sub(query, _) => FreeAfterWalk(ctx, rep, scope, query);
      case Op(_, args, _) => FreeAfterAll(ctx, rep, scope, args);
      case _ => SwapNothing(ctx, rep);
    }
  }

  lemma SwapNothing(ctx: Context, rep: Option<Replacement>)
    ensures Swap(ctx, rep, []) == []
  {
  }

  lemma SwapOne(ctx: Context, rep: Option<Replacement>, ctes: set<string>, b: Tree)
    requires Qualified(rep) && b.Base?
    ensures FreeInFrom(ctes, Replaced(ctx, ctes, rep, b)) == Swap(ctx, rep, FreeInFrom(ctes, b))
  {
  }

  lemma {:induction false} FreeAfterFrom(ctx: Context, rep: Option<Replacement>, scope: Scope, t: Tree)
    requires Qualified(rep)
    ensures FreeInFrom(scope.ctes, WalkFrom(ctx, rep, scope, t)) == Swap(ctx, rep, FreeInFrom(scope.ctes, t))
    decreases t, 2
  {
    hide Swap, Replaced;
    match t
    case Base(_, _, _, _) => SwapOne(ctx, rep, scope.ctes, t);
    case Join(_, left, right, on) =>
      FreeAfterFrom(ctx, rep, scope, left);
      FreeAfterFrom(ctx, rep, scope, right);
      FreeAfterAll(ctx, rep, scope, on);
      var a, b, c := FreeInFrom(scope.ctes, left), FreeInFrom(scope.ctes, right), FreeInAll(scope.ctes, on);
      SwapJoin(ctx, rep, a, b);
      SwapJoin(ctx, rep, a + b, c);
    case _ => FreeAfterWalk(ctx, rep, scope, t);
  }

  lemma {:induction false} FreeAfterNode(ctx: Context, rep: Option<Replacement>, scope: Scope, t: Tree)
    requires Qualified(rep) && IsNode(t)
    ensures FreeBases(scope.ctes, Walk(ctx, rep, scope, t)) == Swap(ctx, rep, FreeBases(scope.ctes, t))
    decreases t, 0
  {
    hide Swap, Bind, Keys;
    var ctes := scope.ctes + Keys(t.defs);
    WalkKeepsKeys(ctx, rep, scope, t.defs);
    FreeAfterDefs(ctx, rep, scope, t.defs);
    var a := FreeInDefs(scope.ctes, t.defs);
    if t.Select? {
      var inner := Scope(ctes, Bind(ctx, ctes, rep, t.from) + scope.bindings);
      FreeAfterFrom(ctx, rep, inner, t.from);
      FreeAfterAll(ctx, rep, inner, t.clauses);
      SwapJoin(ctx, rep, a, FreeInFrom(ctes, t.from));
      SwapJoin(ctx, rep, a + FreeInFrom(ctes, t.from), FreeInAll(ctes, t.clauses));
    } else {
      var inner := Scope(ctes, scope.bindings);
      FreeAfterWalk(ctx, rep, inner, t.left);
      FreeAfterWalk(ctx, rep, inner, t.right);
      SwapJoin(ctx, rep, a, FreeBases(ctes, t.left));
      SwapJoin(ctx, rep, a + FreeBases(ctes, t.left), FreeBases(ctes, t.right));
    }
  }

  lemma {:induction false} FreeAfterAll(ctx: Context, rep: Option<Replacement>, scope: Scope, ts: seq<Tree>)
    requires Qualified(rep)
    ensures FreeInAll(scope.ctes, WalkAll(ctx, rep, scope, ts)) == Swap(ctx, rep, FreeInAll(scope.ctes, ts))
    decreases ts, 0
  {
    if ts != [] {
      FreeAfterWalk(ctx, rep, scope, ts[0]);
      FreeAfterAll(ctx, rep, scope, ts[1..]);
      assert WalkAll(ctx, rep, scope, ts)[1..] == WalkAll(ctx, rep, scope, ts[1..]);
      SwapJoin(ctx, rep, FreeBases(scope.ctes, ts[0]), FreeInAll(scope.ctes, ts[1..]));
    }
  }

  lemma {:induction false} FreeAfterDefs(ctx: Context, rep: Option<Replacement>, scope: Scope, defs: seq<Tree>)
    requires Qualified(rep)
    ensures FreeInDefs(scope.ctes, WalkDefs(ctx, rep, scope, defs)) == Swap(ctx, rep, FreeInDefs(scope.ctes, defs))
    decreases defs, 0
  {
    if defs != [] {
      var own, next := scope.(ctes := scope.ctes + Own(defs[0])), scope.(ctes := scope.ctes + Keys(defs[..1]));
      var after := WalkDefs(ctx, rep, scope, defs);
      FreeAfterWalk(ctx, rep, own, defs[0]);
      FreeAfterDefs(ctx, rep, next, defs[1..]);
      WalkKeepsKind(ctx, rep, own, defs[0]);
      assert after[1..] == WalkDefs(ctx, rep, next, defs[1..]);
      FirstKeys(after);
      FirstKeys(defs);
      SwapJoin(ctx, rep, FreeBases(own.ctes, defs[0]), FreeInDefs(next.ctes, defs[1..]));
    }
  }

  /** The source becomes the target; every other relation is itself. */
  function Image(rep: Replacement, r: Relation): Relation {
    if SameRelation(r, rep.source) then rep.target else r
  }

  lemma {:induction false} ReportedAfterSwap(ctx: Context, rep: Replacement, bases: seq<Tree>)
    requires rep.target.schema != "" && forall b | b in bases :: b.Base?
    ensures var was, now := Reported(ctx, bases), Reported(ctx, Swap(ctx, Some(rep), bases));
            |now| == |was| && forall i | 0 <= i < |was| :: SameRelation(now[i], Image(rep, was[i]))
  {
    if bases != [] {
      var b := bases[0];
      var c := Replaced(ctx, {}, Some(rep), b);
      assert Swap(ctx, Some(rep), bases)[1..] == Swap(ctx, Some(rep), bases[1..]);
      ReportedAfterSwap(ctx, rep, bases[1..]);
      FoundIsNamed(Schemas(ctx, b.schema), ctx.catalogue, b.name);
      FoundIsNamed(Schemas(ctx, c.schema), ctx.catalogue, c.name);
      if IsLocal(b, ctx) && Hit(ctx, {}, Some(rep), b) {
        assert Schemas(ctx, c.schema) == [c.schema];
        OneSchema(c.schema, ctx.catalogue, c.name);
      }
    }
  }

  lemma {:induction false} FoundIsNamed(schemas: seq<string>, objects: seq<Relation>, name: string)
    ensures var r := FindIn(schemas, objects, name); r.Some? ==> Same(r.value.name, name)
  {
    if schemas != [] { FoundIsNamed(schemas[1..], objects, name); }
  }

  lemma OneSchema(schema: string, objects: seq<Relation>, name: string)
    ensures var r := FindIn([schema], objects, name); r.Some? ==> Same(r.value.schema, schema)
  {
    assert FindIn([schema][1..], objects, name) == None;
  }

  /** The references of the rewritten view are the original ones with the source mapped to the target. */
  lemma ReferencesFollow(ctx: Context, rep: Replacement, q: Tree)
    requires rep.target.schema != ""
    ensures var was, now := References(ctx, q), References(ctx, Walk(ctx, Some(rep), NOWHERE, q));
            |now| == |was| && forall i | 0 <= i < |was| :: SameRelation(now[i], Image(rep, was[i]))
  {
    FreeAfterWalk(ctx, Some(rep), NOWHERE, q);
    ReportedAfterSwap(ctx, rep, FreeBases({}, q));
  }
}
