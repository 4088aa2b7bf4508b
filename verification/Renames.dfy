/** Renaming a relation: the order in which dependent views are redefined, and names that are still free. */
module Renames {
  import opened Names
  import opened Numbering
  import opened SqlTree

  /** A view to redefine, its new definition and the relations that it referred to. */
  datatype Rewrite = Rewrite(view: Relation, definition: Tree, refs: seq<Relation>)

  predicate Depends(a: Rewrite, b: Rewrite) {
    exists r | r in a.refs :: SameRelation(r, b.view)
  }

  // ---------------------------------------------------------------- cycles

  ghost predicate Chain(rs: seq<Rewrite>, c: seq<Rewrite>) {
    && |c| > 0 && (forall x | x in c :: x in rs)
    && forall i | 0 <= i < |c| - 1 :: Depends(c[i], c[i + 1])
  }

  /** Views that depend on one another in a circle, or a view that depends on itself. */
  ghost predicate Cyclic(rs: seq<Rewrite>) {
    exists c :: Chain(rs, c) && Depends(c[|c| - 1], c[0])
  }

  /** Every view depends on one of them. */
  ghost predicate AllBlocked(rs: seq<Rewrite>) {
    forall x | x in rs :: !Free(x, rs)
  }

  predicate Free(x: Rewrite, rs: seq<Rewrite>) {
    forall y | y in rs :: !Depends(x, y)
  }

  /** If every view depends on another one, following the dependencies from any of them runs into a circle. */
  lemma {:induction false} BlockedIsCyclic(rs: seq<Rewrite>, c: seq<Rewrite>)
    requires AllBlocked(rs)
    requires Chain(rs, c)
    ensures Cyclic(rs)
    decreases Elements(rs) - Elements(c)
  {
    hide Depends, Chain, Cyclic, AllBlocked;
    var y := Onwards(rs, c);
    if y in c {
      CloseCircle(rs, c, y);
    } else {
      Lengthen(rs, c, y);
      assert y in Elements(rs) - Elements(c) && Elements(c + [y]) == Elements(c) + {y};
      BlockedIsCyclic(rs, c + [y]);
    }
  }

  lemma Onwards(rs: seq<Rewrite>, c: seq<Rewrite>) returns (y: Rewrite)
    requires AllBlocked(rs)
    requires Chain(rs, c)
    ensures y in rs && Depends(c[|c| - 1], y)
  {
    hide Depends;
    assert c[|c| - 1] in rs && !Free(c[|c| - 1], rs);
    y :| y in rs && Depends(c[|c| - 1], y);
  }

  lemma CloseCircle(rs: seq<Rewrite>, c: seq<Rewrite>, y: Rewrite)
    requires Chain(rs, c) && Depends(c[|c| - 1], y) && y in c
    ensures Cyclic(rs)
  {
    hide Depends;
    var k :| 0 <= k < |c| && c[k] == y;
    var circle := c[k..];
    forall i | 0 <= i < |circle| - 1 ensures Depends(circle[i], circle[i + 1]) {
      assert Depends(c[k + i], c[k + i + 1]);
    }
    assert Chain(rs, circle) && Depends(circle[|circle| - 1], circle[0]);
  }

  lemma Lengthen(rs: seq<Rewrite>, c: seq<Rewrite>, y: Rewrite)
    requires Chain(rs, c) && Depends(c[|c| - 1], y) && y in rs
    ensures Chain(rs, c + [y])
  {
    hide Depends;
    var longer := c + [y];
    forall i | 0 <= i < |longer| - 1 ensures Depends(longer[i], longer[i + 1]) {
      if i < |c| - 1 { assert Depends(c[i], c[i + 1]); }
    }
  }

  lemma CyclicPart(rs: seq<Rewrite>, all: seq<Rewrite>)
    requires Cyclic(rs) && forall x | x in rs :: x in all
    ensures Cyclic(all)
  {
    var c :| Chain(rs, c) && Depends(c[|c| - 1], c[0]);
    assert Chain(all, c);
  }

  /** No view comes before one that it depends on, or depends on itself. */
  ghost predicate DependenciesFirst(order: seq<Rewrite>) {
    forall i, j | 0 <= i <= j < |order| :: !Depends(order[i], order[j])
  }

  lemma {:induction false} ChainDescends(order: seq<Rewrite>, c: seq<Rewrite>, i: nat, j: nat)
    requires DependenciesFirst(order) && Chain(order, c)
    requires i < |order| && order[i] == c[0] && j < |order| && order[j] == c[|c| - 1] && |c| > 1
    ensures j < i
    decreases |c|
  {
    hide Depends;
    assert Depends(c[0], c[1]);
    if |c| > 2 {
      var rest := c[1..];
      forall k | 0 <= k < |rest| - 1 ensures Depends(rest[k], rest[k + 1]) { assert Depends(c[k + 1], c[k + 2]); }
      assert c[1] in order;
      var m :| 0 <= m < |order| && order[m] == c[1];
      ChainDescends(order, rest, m, j);
    }
  }

  lemma OrderedIsAcyclic(order: seq<Rewrite>)
    requires DependenciesFirst(order)
    ensures !Cyclic(order)
  {
    hide Depends;
    if c :| Chain(order, c) && Depends(c[|c| - 1], c[0]) {
      assert c[0] in order && c[|c| - 1] in order;
      var i :| 0 <= i < |order| && order[i] == c[0];
      var j :| 0 <= j < |order| && order[j] == c[|c| - 1];
      if |c| > 1 { ChainDescends(order, c, i, j); }
      assert false;
    }
  }

  /** Each view comes after every view that it refers to, ignoring case, and does not refer to itself. */
  lemma ReferencesFirst(order: seq<Rewrite>)
    ensures DependenciesFirst(order) <==>
            forall i, j, r | 0 <= i < |order| && 0 <= j < |order| && r in order[i].refs
                             && Lower(r.schema) == Lower(order[j].view.schema)
                             && Lower(r.name) == Lower(order[j].view.name) :: j < i
  {
  }

  // ---------------------------------------------------------------- the loop

  method IsFree(rewrites: seq<Rewrite>, x: Rewrite) returns (free: bool)
    ensures free == Free(x, rewrites)
  {
    var i := 0;
    while i < |rewrites|
      invariant i <= |rewrites| && forall j | 0 <= j < i :: !Depends(x, rewrites[j])
    {
      if Depends(x, rewrites[i]) { return false; }
      i := i + 1;
    }
    return true;
  }

  /** The first view that refers to none of those that remain. */
  method FirstFree(rewrites: seq<Rewrite>) returns (index: Option<nat>)
    ensures index.Some? ==> index.value < |rewrites| && Free(rewrites[index.value], rewrites)
    ensures index.None? ==> AllBlocked(rewrites)
  {
    hide Free;
    var i := 0;
    while i < |rewrites|
      invariant i <= |rewrites| && forall j | 0 <= j < i :: !Free(rewrites[j], rewrites)
    {
      var free := IsFree(rewrites, rewrites[i]);
      if free { return Some(i); }
      i := i + 1;
    }
    return None;
  }

  /**
   * Redefines every view exactly once, after all those it depends on; gives up exactly if they depend on one
   * another in a circle, or if the database refuses one of the definitions.
   */
  method RedefineAll(rewrites: seq<Rewrite>, refused: Relation -> bool) returns (ok: bool, redefined: seq<Rewrite>)
    ensures ok <==> !Cyclic(rewrites) && forall x | x in rewrites :: !refused(x.view)
    ensures ok ==> multiset(redefined) == multiset(rewrites)
    ensures multiset(redefined) <= multiset(rewrites) && DependenciesFirst(redefined)
  {
    hide *;
    redefined := [];
    var rest := rewrites;
    StartPlan(rewrites);
    while rest != []
      invariant Plan(rewrites, redefined, rest)
      invariant forall x | x in redefined :: !refused(x.view)
      decreases |rest|
    {
      var index := FirstFree(rest);
      if index.None? {
        Stuck(rewrites, redefined, rest);
        return false, redefined;
      }
      var x := rest[index.value];
      if refused(x.view) {
        Planned(rewrites, redefined, rest, x);
        return false, redefined;
      }
      Extend(rewrites, redefined, rest, index.value);
      redefined := redefined + [x];
      rest := rest[..index.value] + rest[index.value + 1..];
    }
    Finished(rewrites, redefined);
    return true, redefined;
  }

  lemma Planned(rewrites: seq<Rewrite>, redefined: seq<Rewrite>, rest: seq<Rewrite>, x: Rewrite)
    requires Plan(rewrites, redefined, rest) && x in rest
    ensures x in rewrites && multiset(redefined) <= multiset(rewrites) && DependenciesFirst(redefined)
  {
    assert x in multiset(rest) && x in multiset(rewrites);
  }

  /** What is redefined and what remains make up the views, and nothing redefined depends on what remains. */
  ghost predicate Plan(rewrites: seq<Rewrite>, redefined: seq<Rewrite>, rest: seq<Rewrite>) {
    && multiset(redefined) + multiset(rest) == multiset(rewrites) && multiset(redefined) <= multiset(rewrites)
    && DependenciesFirst(redefined)
    && forall x | x in redefined :: Free(x, rest)
  }

  lemma StartPlan(rewrites: seq<Rewrite>)
    ensures Plan(rewrites, [], rewrites)
  {
  }

  lemma Extend(rewrites: seq<Rewrite>, redefined: seq<Rewrite>, rest: seq<Rewrite>, at: nat)
    requires Plan(rewrites, redefined, rest) && at < |rest| && Free(rest[at], rest)
    ensures Plan(rewrites, redefined + [rest[at]], rest[..at] + rest[at + 1..])
  {
    hide Depends;
    var x, shorter, longer := rest[at], rest[..at] + rest[at + 1..], redefined + [rest[at]];
    assert rest == rest[..at] + [x] + rest[at + 1..];
    assert multiset(rest) == multiset(shorter) + multiset{x};
    assert x in rest && forall y | y in shorter :: y in rest;
    forall i, j | 0 <= i <= j < |longer| ensures !Depends(longer[i], longer[j]) {
      if j == |redefined| { assert Free(longer[i], rest); }
    }
    forall y | y in longer ensures Free(y, shorter) { assert Free(y, rest); }
  }

  lemma Stuck(rewrites: seq<Rewrite>, redefined: seq<Rewrite>, rest: seq<Rewrite>)
    requires Plan(rewrites, redefined, rest) && rest != [] && AllBlocked(rest)
    ensures Cyclic(rewrites) && multiset(redefined) <= multiset(rewrites) && DependenciesFirst(redefined)
  {
    hide Depends, Cyclic, AllBlocked;
    assert Chain(rest, [rest[0]]);
    BlockedIsCyclic(rest, [rest[0]]);
    forall x | x in rest ensures x in rewrites { assert x in multiset(rest) && x in multiset(rewrites); }
    CyclicPart(rest, rewrites);
  }

  lemma Finished(rewrites: seq<Rewrite>, redefined: seq<Rewrite>)
    requires Plan(rewrites, redefined, [])
    ensures !Cyclic(rewrites) && multiset(redefined) == multiset(rewrites) && DependenciesFirst(redefined)
    ensures forall x | x in rewrites :: x in redefined
  {
    hide Depends, Cyclic;
    forall x | x in rewrites ensures x in redefined { assert x in multiset(rewrites) && x in multiset(redefined); }
    OrderedIsAcyclic(redefined);
    SameCycles(rewrites, redefined);
  }

  lemma SameCycles(a: seq<Rewrite>, b: seq<Rewrite>)
    requires multiset(a) == multiset(b) && !Cyclic(b)
    ensures !Cyclic(a)
  {
    hide Cyclic;
    forall x | x in a ensures x in b { assert x in multiset(a) && x in multiset(b); }
    if Cyclic(a) { CyclicPart(a, b); }
  }

  // ---------------------------------------------------------------- the definitions afterwards

  /** Definitions by view, after redefining some of them one by one. */
  function Redefine(defs: map<(string, string), Tree>, order: seq<Rewrite>): map<(string, string), Tree>
    decreases order
  {
    if order == [] then defs
      else Redefine(defs, order[..|order| - 1])[KeyOf(order[|order| - 1].view) := order[|order| - 1].definition]
  }

  predicate DistinctViews(order: seq<Rewrite>) {
    forall x, y | x in order && y in order && KeyOf(x.view) == KeyOf(y.view) :: x == y
  }

  /** In whatever order, each view ends up with its new definition and every other with its own. */
  lemma {:induction false} RedefinedEach(defs: map<(string, string), Tree>, order: seq<Rewrite>, k: (string, string))
    requires DistinctViews(order)
    ensures (exists x | x in order :: KeyOf(x.view) == k) ==>
              k in Redefine(defs, order)
                && forall x | x in order && KeyOf(x.view) == k :: Redefine(defs, order)[k] == x.definition
    ensures (forall x | x in order :: KeyOf(x.view) != k) ==>
              (k in Redefine(defs, order) <==> k in defs) && (k in defs ==> Redefine(defs, order)[k] == defs[k])
    decreases |order|
  {
    hide KeyOf;
    if order != [] {
      var rest, last := order[..|order| - 1], order[|order| - 1];
      assert order == rest + [last] && last in order;
      forall x | x in rest ensures x in order { }
      RedefinedEach(defs, rest, k);
    }
  }

  // ---------------------------------------------------------------- free names

  /** The first numbered name that is not taken, ignoring case; there always is one. */
  method UniqueName(taken: set<string>, base: string) returns (name: string, ghost at: nat)
    ensures Lower(name) !in taken
    ensures at >= 1 && name == Numbered(base, "", at) && forall i | 1 <= i < at :: Lower(Numbered(base, "", i)) in taken
  {
    hide Digits, Lower, Numbered;
    name := base;
    FirstName(base, "");
    var suffix := 2;
    while Lower(name) in taken
      invariant suffix >= 2 && name == Numbered(base, "", suffix - 1)
      invariant forall i | 1 <= i < suffix - 1 :: Lower(Numbered(base, "", i)) in taken
      decreases |taken| + 2 - suffix
    {
      forall i | 1 <= i < suffix ensures Numbered(Lower(base), "", i) in taken { LowerNumbered(base, i); }
      TriedAll(taken, Lower(base), "", suffix);
      NextName(base, "", suffix);
      name := base + "_" + Digits(suffix);
      suffix := suffix + 1;
    }
    at := suffix - 1;
  }
}
