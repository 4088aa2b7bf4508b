/** Undoing an edit and replacing a source can be done in either order. */
module SqlCommute {
  import opened Names
  import opened SqlTree
  import opened SqlRewrite
  import opened SqlTheorems
  import opened SqlReferences
  import opened SqlWrap

  const MARK := Binding([PREVIOUS], [PREVIOUS])

  /** Names that begin like the mark spell it exactly, or a binding in force covers them. */
  predicate MarkReads(bs: seq<Binding>, names: seq<string>) {
    |names| >= 2 && Same(names[0], PREVIOUS) && names[0] != PREVIOUS ==> exists b | b in bs :: Covers(b.before, names)
  }

  /** No reference of the tree is respelled by the mark's binding, given those in force. */
  predicate MarkKept(ctx: Context, rep: Option<Replacement>, scope: Scope, t: Tree)
    decreases t, 0
  {
    match t
    case Select(defs, from, clauses, _) =>
      var ctes := scope.ctes + Keys(defs);
      var inner := Scope(ctes, Bind(ctx, ctes, rep, from) + scope.bindings);
      && DefsMarkKept(ctx, rep, scope, defs) && FromMarkKept(ctx, rep, inner, from)
      && AllMarkKept(ctx, rep, inner, clauses)
    case SetOp(defs, _, left, right) =>
      var inner := Scope(scope.ctes + Keys(defs), scope.bindings);
      DefsMarkKept(ctx, rep, scope, defs) && MarkKept(ctx, rep, inner, left) && MarkKept(ctx, rep, inner, right)
    case Recursive(defs, _, left, right) =>
      var inner := Scope(scope.ctes + Keys(defs), scope.bindings);
      DefsMarkKept(ctx, rep, scope, defs) && MarkKept(ctx, rep, inner, left) && MarkKept(ctx, rep, inner, right)
    case Cte(_, query) => MarkKept(ctx, rep, scope, query)
    case Base(_, _, _, _) => true
    case Join(_, left, right, on) =>
      MarkKept(ctx, rep, scope, left) && MarkKept(ctx, rep, scope, right) && AllMarkKept(ctx, rep, scope, on)
    case Sub(query, _) => MarkKept(ctx, rep, scope, query)
    case Op(_, args, _) => AllMarkKept(ctx, rep, scope, args)
    case Ref(names, _) => MarkReads(scope.bindings, names)
    case Star(q) => q == [] || MarkReads(scope.bindings, q + ["*"])
  }

  predicate FromMarkKept(ctx: Context, rep: Option<Replacement>, scope: Scope, t: Tree)
    decreases t, 1
  {
    match t
    case Base(_, _, _, _) => true
    case Join(_, left, right, on) =>
      FromMarkKept(ctx, rep, scope, left) && FromMarkKept(ctx, rep, scope, right) && AllMarkKept(ctx, rep, scope, on)
    case _ => MarkKept(ctx, rep, scope, t)
  }

  predicate AllMarkKept(ctx: Context, rep: Option<Replacement>, scope: Scope, ts: seq<Tree>)
    decreases ts
  {
    ts == [] || (MarkKept(ctx, rep, scope, ts[0]) && AllMarkKept(ctx, rep, scope, ts[1..]))
  }

  predicate DefsMarkKept(ctx: Context, rep: Option<Replacement>, scope: Scope, defs: seq<Tree>)
    decreases defs
  {
    defs == [] ||
    (MarkKept(ctx, rep, scope.(ctes := scope.ctes + Own(defs[0])), defs[0])
     && DefsMarkKept(ctx, rep, scope.(ctes := scope.ctes + Keys(defs[..1])), defs[1..]))
  }

  /** A scope with the mark's binding outermost and further CTE names. */
  function Marked(scope: Scope, extra: set<string>): Scope {
    Scope(scope.ctes + extra, scope.bindings + [MARK])
  }

  ghost predicate Untouched(extra: set<string>, bases: seq<Tree>)
    requires forall b | b in bases :: b.Base?
  {
    forall b | b in bases :: !IsCte(b, extra)
  }

  lemma {:induction false} MarkIsLast(names: seq<string>, bs: seq<Binding>)
    ensures RewriteNames(names, bs + [MARK]) == RewriteNames(names, bs) <==> MarkReads(bs, names)
  {
    if bs == [] {
      MarkAlone(names);
    } else {
      assert (bs + [MARK])[0] == bs[0] && (bs + [MARK])[1..] == bs[1..] + [MARK];
      MarkIsLast(names, bs[1..]);
      assert bs == [bs[0]] + bs[1..];
      if !Covers(bs[0].before, names) {
        assert MarkReads(bs, names) == MarkReads(bs[1..], names);
      }
    }
  }

  lemma MarkAlone(names: seq<string>)
    ensures RewriteNames(names, [] + [MARK]) == names <==> MarkReads([], names)
  {
    assert [] + [MARK] == [MARK] && [MARK][1..] == [];
    if |names| >= 2 {
      assert LowerAll(names[..1]) == [Lower(names[0])] && LowerAll([PREVIOUS]) == [Lower(PREVIOUS)];
      assert names == [names[0]] + names[1..];
    }
  }

  lemma StarIsLast(q: seq<string>, bs: seq<Binding>)
    requires q != []
    ensures RewriteStar(q, bs + [MARK]) == RewriteStar(q, bs) <==> MarkReads(bs, q + ["*"])
  {
    hide RewriteNames;
    MarkIsLast(q + ["*"], bs);
    var a, b := RewriteNames(q + ["*"], bs + [MARK]), RewriteNames(q + ["*"], bs);
    assert a == a[..|a| - 1] + ["*"] && b == b[..|b| - 1] + ["*"];
  }

  lemma SplitUntouched(extra: set<string>, a: seq<Tree>, b: seq<Tree>)
    requires forall x | x in a + b :: x.Base?
    requires Untouched(extra, a + b)
    ensures forall x | x in a :: x in a + b && !IsCte(x, extra)
    ensures forall x | x in b :: x in a + b && !IsCte(x, extra)
  {
    forall x | x in a ensures x in a + b { }
    forall x | x in b ensures x in a + b { }
  }

  lemma {:induction false} BindSame(ctx: Context, rep: Option<Replacement>, ctes: set<string>, extra: set<string>,
                                    t: Tree)
    requires Untouched(extra, FreeInFrom(ctes, t))
    ensures Bind(ctx, ctes + extra, rep, t) == Bind(ctx, ctes, rep, t)
  {
    match t
    case Base(_, _, _, _) => BaseBound(ctes, extra, t);
    case Join(_, left, right, on) =>
      SplitUntouched(extra, FreeInFrom(ctes, left) + FreeInFrom(ctes, right), FreeInAll(ctes, on));
      SplitUntouched(extra, FreeInFrom(ctes, left), FreeInFrom(ctes, right));
      BindSame(ctx, rep, ctes, extra, left);
      BindSame(ctx, rep, ctes, extra, right);
    case _ =>
  }

  lemma BaseBound(ctes: set<string>, extra: set<string>, b: Tree)
    requires b.Base? && Untouched(extra, FreeInFrom(ctes, b))
    ensures IsCte(b, ctes + extra) == IsCte(b, ctes)
  {
    if !IsCte(b, ctes) { assert b in FreeInFrom(ctes, b); }
  }

  lemma Regroup(ctes: set<string>, extra: set<string>, keys: set<string>)
    ensures ctes + extra + keys == ctes + keys + extra
  {
  }

  /** The mark and unread CTE names make no difference to the walk, exactly if no reference is respelled by the mark. */
  lemma {:induction false} WalkMarked(ctx: Context, rep: Option<Replacement>, scope: Scope, extra: set<string>, t: Tree)
    requires Untouched(extra, FreeBases(scope.ctes, t))
    ensures Walk(ctx, rep, Marked(scope, extra), t) == Walk(ctx, rep, scope, t) <==> MarkKept(ctx, rep, scope, t)
    decreases t, 1
  {
    if IsNode(t) {
      NodeMarked(ctx, rep, scope, extra, t);
    } else {
      match t
      case Cte(_, query) => WalkMarked(ctx, rep, scope, extra, query);
      case Base(_, _, _, _) =>
      case Join(_, left, right, on) =>
        SplitUntouched(extra, FreeBases(scope.ctes, left) + FreeBases(scope.ctes, right), FreeInAll(scope.ctes, on));
        SplitUntouched(extra, FreeBases(scope.ctes, left), FreeBases(scope.ctes, right));
        WalkMarked(ctx, rep, scope, extra, left);
        WalkMarked(ctx, rep, scope, extra, right);
        AllMarked(ctx, rep, scope, extra, on);
      case Sub(query, _) => WalkMarked(ctx, rep, scope, extra, query);
      case Op(_, args, _) => AllMarked(ctx, rep, scope, extra, args);
      case Ref(names, _) => MarkIsLast(names, scope.bindings);
      case Star(q) => if q != [] { StarIsLast(q, scope.bindings); }
    }
  }

  lemma {:induction false} FromMarked(ctx: Context, rep: Option<Replacement>, scope: Scope, extra: set<string>, t: Tree)
    requires Untouched(extra, FreeInFrom(scope.ctes, t))
    ensures WalkFrom(ctx, rep, Marked(scope, extra), t) == WalkFrom(ctx, rep, scope, t) <==>
              FromMarkKept(ctx, rep, scope, t)
    decreases t, 2
  {
    hide Untouched, Marked;
    match t
    case Base(_, _, _, _) => BaseMarked(ctx, rep, scope, extra, t);
    case Join(_, left, right, on) =>
      SplitMarked(extra, FreeInFrom(scope.ctes, left) + FreeInFrom(scope.ctes, right), FreeInAll(scope.ctes, on));
      SplitMarked(extra, FreeInFrom(scope.ctes, left), FreeInFrom(scope.ctes, right));
      FromMarked(ctx, rep, scope, extra, left);
      FromMarked(ctx, rep, scope, extra, right);
      AllMarked(ctx, rep, scope, extra, on);
    case _ => WalkMarked(ctx, rep, scope, extra, t);
  }

  lemma BaseMarked(ctx: Context, rep: Option<Replacement>, scope: Scope, extra: set<string>, b: Tree)
    requires b.Base? && Untouched(extra, FreeInFrom(scope.ctes, b))
    ensures Replaced(ctx, Marked(scope, extra).ctes, rep, b) == Replaced(ctx, scope.ctes, rep, b)
  {
    BaseBound(scope.ctes, extra, b);
  }

  lemma SplitMarked(extra: set<string>, a: seq<Tree>, b: seq<Tree>)
    requires forall x | x in a + b :: x.Base?
    requires Untouched(extra, a + b) && (forall x | x in a :: x.Base?) && (forall x | x in b :: x.Base?)
    ensures Untouched(extra, a) && Untouched(extra, b)
  {
    SplitUntouched(extra, a, b);
  }

  lemma {:induction false} NodeMarked(ctx: Context, rep: Option<Replacement>, scope: Scope, extra: set<string>, t: Tree)
    requires IsNode(t) && Untouched(extra, FreeBases(scope.ctes, t))
    ensures Walk(ctx, rep, Marked(scope, extra), t) == Walk(ctx, rep, scope, t) <==> MarkKept(ctx, rep, scope, t)
    decreases t, 0
  {
    var ctes := scope.ctes + Keys(t.defs);
    Regroup(scope.ctes, extra, Keys(t.defs));
    if t.Select? {
      SplitUntouched(extra, FreeInDefs(scope.ctes, t.defs) + FreeInFrom(ctes, t.from), FreeInAll(ctes, t.clauses));
      SplitUntouched(extra, FreeInDefs(scope.ctes, t.defs), FreeInFrom(ctes, t.from));
      var bound := Bind(ctx, ctes, rep, t.from);
      var inner := Scope(ctes, bound + scope.bindings);
      BindSame(ctx, rep, ctes, extra, t.from);
      assert bound + scope.bindings + [MARK] == bound + (scope.bindings + [MARK]);
      DefsMarked(ctx, rep, scope, extra, t.defs);
      FromMarked(ctx, rep, inner, extra, t.from);
      AllMarked(ctx, rep, inner, extra, t.clauses);
    } else {
      SplitUntouched(extra, FreeInDefs(scope.ctes, t.defs) + FreeBases(ctes, t.left), FreeBases(ctes, t.right));
      SplitUntouched(extra, FreeInDefs(scope.ctes, t.defs), FreeBases(ctes, t.left));
      DefsMarked(ctx, rep, scope, extra, t.defs);
      WalkMarked(ctx, rep, Scope(ctes, scope.bindings), extra, t.left);
      WalkMarked(ctx, rep, Scope(ctes, scope.bindings), extra, t.right);
    }
  }

  lemma {:induction false} AllMarked(ctx: Context, rep: Option<Replacement>, scope: Scope, extra: set<string>,
                                     ts: seq<Tree>)
    requires Untouched(extra, FreeInAll(scope.ctes, ts))
    ensures WalkAll(ctx, rep, Marked(scope, extra), ts) == WalkAll(ctx, rep, scope, ts) <==>
              AllMarkKept(ctx, rep, scope, ts)
    decreases ts, 0
  {
    if ts != [] {
      assert ts[0] in ts;
      SplitUntouched(extra, FreeBases(scope.ctes, ts[0]), FreeInAll(scope.ctes, ts[1..]));
      WalkMarked(ctx, rep, scope, extra, ts[0]);
      AllMarked(ctx, rep, scope, extra, ts[1..]);
    }
  }

  lemma {:induction false} DefsMarked(ctx: Context, rep: Option<Replacement>, scope: Scope, extra: set<string>,
                                      defs: seq<Tree>)
    requires Untouched(extra, FreeInDefs(scope.ctes, defs))
    ensures WalkDefs(ctx, rep, Marked(scope, extra), defs) == WalkDefs(ctx, rep, scope, defs) <==>
              DefsMarkKept(ctx, rep, scope, defs)
    decreases defs, 0
  {
    if defs != [] {
      assert defs[0] in defs;
      var own, next := scope.(ctes := scope.ctes + Own(defs[0])), scope.(ctes := scope.ctes + Keys(defs[..1]));
      SplitUntouched(extra, FreeBases(own.ctes, defs[0]), FreeInDefs(next.ctes, defs[1..]));
      Regroup(scope.ctes, extra, Own(defs[0]));
      Regroup(scope.ctes, extra, Keys(defs[..1]));
      WalkMarked(ctx, rep, own, extra, defs[0]);
      DefsMarked(ctx, rep, next, extra, defs[1..]);
      var us, vs := WalkDefs(ctx, rep, Marked(scope, extra), defs), WalkDefs(ctx, rep, scope, defs);
      assert us == [us[0]] + us[1..] && vs == [vs[0]] + vs[1..];
      assert us[0] == Walk(ctx, rep, Marked(own, extra), defs[0]) && vs[0] == Walk(ctx, rep, own, defs[0]);
      assert us[1..] == WalkDefs(ctx, rep, Marked(next, extra), defs[1..])
        && vs[1..] == WalkDefs(ctx, rep, next, defs[1..]);
    }
  }

  /**
   * Replacing a source in an edited view and then undoing the edit gives the previous definition with
   * the source replaced, where the edit's CTE names are not free in that definition, if and only if no
   * reference in it takes the mark for its item in another spelling.
   */
  lemma UndoAfterReplacement(ctx: Context, rep: Replacement, outer: Tree, previous: Tree)
    requires Wrap(outer, previous).Edited? && Untouched(Keys(outer.defs), FreeBases({}, previous))
    ensures Unwrap(Walk(ctx, Some(rep), NOWHERE, Wrap(outer, previous).tree)) ==
              Edited(Walk(ctx, Some(rep), NOWHERE, previous))
            <==> MarkKept(ctx, Some(rep), NOWHERE, previous)
  {
    var marked := Sub(previous, PREVIOUS);
    var wrapped := Wrap(outer, previous).tree;
    assert RenameInput(marked) == marked;
    assert wrapped.from == marked && wrapped.defs == RenameAll(outer.defs);
    RenameKeys(outer.defs);
    var inner := Marked(NOWHERE, Keys(outer.defs));
    assert NOWHERE.ctes + Keys(outer.defs) == inner.ctes && [MARK] + [] == inner.bindings;
    assert Alias(PREVIOUS) == [MARK] by { assert |PREVIOUS| > 0; }
    WalkMarked(ctx, Some(rep), NOWHERE, Keys(outer.defs), previous);
    assert WalkFrom(ctx, Some(rep), inner, marked) == Sub(Walk(ctx, Some(rep), inner, previous), PREVIOUS);
  }
}
