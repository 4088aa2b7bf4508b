/**
 * Query-layer edits.  An edit is a SELECT over the reserved input; it is stored with the previous
 * definition as a marked FROM subquery, and undo takes that subquery out again.
 */
module SqlWrap {
  import opened Names
  import opened SqlTree

  const INPUT := "__wf_current"
  const PREVIOUS := "__wf_previous"

  datatype Edit = Edited(tree: Tree) | Rejected(code: string)

  predicate ReservedAt(t: Tree) {
    match t
    case Cte(key, _) => key == PREVIOUS || key == INPUT
    case Base(_, _, _, alias) => alias == PREVIOUS || alias == INPUT
    case Sub(_, alias) => alias == PREVIOUS || alias == INPUT
    case Op(_, _, alias) => alias == PREVIOUS || alias == INPUT
    case Ref(_, alias) => alias == PREVIOUS || alias == INPUT
    case _ => false
  }

  predicate HasReserved(t: Tree)
    decreases t
  {
    ReservedAt(t) || exists c | c in Parts(t) :: HasReserved(c)
  }

  /** Input qualifiers follow the item to its new alias; the inserted definition is left untouched. */
  function RenameInput(t: Tree): Tree
    decreases t
  {
    match t
    case Select(defs, from, clauses, tag) => Select(RenameAll(defs), RenameInput(from), RenameAll(clauses), tag)
    case SetOp(defs, op, left, right) => SetOp(RenameAll(defs), op, RenameInput(left), RenameInput(right))
    case Recursive(defs, op, left, right) => Recursive(RenameAll(defs), op, RenameInput(left), RenameInput(right))
    case Cte(key, query) => Cte(key, RenameInput(query))
    case Base(_, _, _, _) => t
    case Join(kind, left, right, on) => Join(kind, RenameInput(left), RenameInput(right), RenameAll(on))
    case Sub(query, alias) => if alias == PREVIOUS then t else Sub(RenameInput(query), alias)
    case Op(op, args, alias) => Op(op, RenameAll(args), alias)
    case Ref(names, alias) => Ref(if names != [] && names[0] == INPUT then [PREVIOUS] + names[1..] else names, alias)
    case Star(q) => if q == [INPUT] then Star([PREVIOUS]) else t
  }

  function RenameAll(ts: seq<Tree>): (r: seq<Tree>)
    ensures |r| == |ts|
    ensures forall i | 0 <= i < |ts| :: r[i] == RenameInput(ts[i])
    decreases ts
  {
    if ts == [] then [] else [RenameInput(ts[0])] + RenameAll(ts[1..])
  }

  lemma {:induction false} RenameKeys(defs: seq<Tree>)
    ensures Keys(RenameAll(defs)) == Keys(defs)
  {
    if defs != [] {
      RenameKeys(defs[1..]);
      FirstKeys(defs);
      FirstKeys(RenameAll(defs));
      assert RenameAll(defs)[1..] == RenameAll(defs[1..]);
    }
  }

  predicate FromInput(t: Tree) {
    && t.Select? && t.from.Base? && t.from.name == INPUT && t.from.schema == "" && t.from.catalog == ""
    && (t.from.alias == "" || t.from.alias == INPUT)
  }

  function Wrap(outer: Tree, previous: Tree): Edit {
    if !FromInput(outer) then Rejected("invalid")
    else if HasReserved(outer.(from := Base("", "", INPUT, ""))) then Rejected("invalid")
    else Edited(RenameInput(outer.(from := Sub(previous, PREVIOUS))))
  }

  // ---------------------------------------------------------------- which edits are accepted

  /** The tree `c` is reached from `t` by going, at each step, into the part with the next number. */
  ghost predicate At(t: Tree, path: seq<nat>, c: Tree)
    decreases path
  {
    if path == [] then c == t else path[0] < |Parts(t)| && At(Parts(t)[path[0]], path[1..], c)
  }

  /** The tree's own alias, or the key of a definition, is this name. */
  ghost predicate Called(t: Tree, name: string) {
    (t.Cte? && t.key == name) || ((t.Base? || t.Sub? || t.Op? || t.Ref?) && t.alias == name)
  }

  /** Nothing in the tree goes by this name, except perhaps what is found along the one path. */
  ghost predicate NothingCalled(t: Tree, name: string, except: seq<nat>) {
    forall path: seq<nat>, c: Tree | At(t, path, c) && path != except :: !Called(c, name)
  }

  /** Somewhere in the tree something goes by a reserved name. */
  ghost predicate Somewhere(t: Tree) {
    exists path: seq<nat>, c: Tree :: At(t, path, c) && (Called(c, INPUT) || Called(c, PREVIOUS))
  }

  lemma {:induction false} ReservedIsSomewhere(t: Tree)
    ensures HasReserved(t) <==> Somewhere(t)
    decreases t
  {
    if HasReserved(t) {
      if ReservedAt(t) {
        assert At(t, [], t);
      } else {
        var p :| p in Parts(t) && HasReserved(p);
        var i :| 0 <= i < |Parts(t)| && Parts(t)[i] == p;
        ReservedIsSomewhere(p);
        var path: seq<nat>, c: Tree :| At(p, path, c) && (Called(c, INPUT) || Called(c, PREVIOUS));
        assert ([i] + path)[1..] == path;
        assert At(t, [i] + path, c);
      }
    } else if Somewhere(t) {
      var path: seq<nat>, c: Tree :| At(t, path, c) && (Called(c, INPUT) || Called(c, PREVIOUS));
      ReservedFound(t, path, c);
    }
  }

  lemma {:induction false} ReservedFound(t: Tree, path: seq<nat>, c: Tree)
    requires At(t, path, c) && (Called(c, INPUT) || Called(c, PREVIOUS))
    ensures HasReserved(t)
    decreases path
  {
    if path != [] {
      ReservedFound(Parts(t)[path[0]], path[1..], c);
      assert Parts(t)[path[0]] in Parts(t);
    }
  }

  /** Putting another table of no parts in the FROM of a query changes nothing but what is found there. */
  lemma OtherFrom(t: Tree, b: Tree, path: seq<nat>, c: Tree)
    requires t.Select? && Parts(t.from) == [] && Parts(b) == [] && path != [|t.defs|]
    ensures path != [] ==> (At(t, path, c) <==> At(t.(from := b), path, c))
  {
    var u := t.(from := b);
    if path != [] {
      if path[0] == |t.defs| {
        assert path == [|t.defs|] + path[1..];
      } else if path[0] < |Parts(t)| {
        assert Parts(t)[path[0]] == Parts(u)[path[0]];
      }
    }
  }

  /**
   * An edit is accepted exactly if it is a SELECT over the bare input, which may be called by its own name
   * there, and nothing else in it has the name of the input or of the mark for an alias or for a definition.
   */
  lemma AcceptsExactly(outer: Tree, previous: Tree)
    ensures Wrap(outer, previous).Edited? <==>
            && outer.Select?
            && (outer.from == Base("", "", INPUT, "") || outer.from == Base("", "", INPUT, INPUT))
            && NothingCalled(outer, INPUT, [|outer.defs|]) && NothingCalled(outer, PREVIOUS, [|outer.defs|])
    ensures Wrap(outer, previous).Rejected? ==> Wrap(outer, previous) == Rejected("invalid")
  {
    hide HasReserved, RenameInput, At;
    if outer.Select? && (outer.from == Base("", "", INPUT, "") || outer.from == Base("", "", INPUT, INPUT)) {
      var plain := outer.(from := Base("", "", INPUT, ""));
      ReservedIsSomewhere(plain);
      if path: seq<nat>, c: Tree :| At(plain, path, c) && (Called(c, INPUT) || Called(c, PREVIOUS)) {
        FoundElsewhere(plain, outer.from, path, c);
      }
      if path: seq<nat>, c: Tree :|
        At(outer, path, c) && path != [|outer.defs|] && (Called(c, INPUT) || Called(c, PREVIOUS))
      {
        FoundElsewhere(outer, plain.from, path, c);
      }
    }
  }

  /** What is found in one query, but not in its FROM, is found in the other; nothing is called so in a bare FROM. */
  lemma FoundElsewhere(t: Tree, b: Tree, path: seq<nat>, c: Tree)
    requires t.Select? && Parts(t.from) == [] && Parts(b) == []
    requires At(t, path, c) && (Called(c, INPUT) || Called(c, PREVIOUS))
    requires path == [|t.defs|] ==> t.from.Base? && t.from.alias == ""
    ensures path != [|t.defs|]
    ensures exists d :: At(t.(from := b), path, d) && (Called(d, INPUT) || Called(d, PREVIOUS))
  {
    hide At;
    FromAt(t);
    if path == [] {
      Root(t, c);
    } else {
      OtherFrom(t, b, path, c);
    }
  }

  lemma Root(t: Tree, c: Tree)
    ensures At(t, [], c) <==> c == t
  {
  }

  lemma FromAt(t: Tree)
    requires t.Select?
    ensures forall c :: At(t, [|t.defs|], c) <==> c == t.from
  {
    assert Parts(t)[|t.defs|] == t.from && [|t.defs|][1..] == [];
  }

  // ---------------------------------------------------------------- undo

  predicate CanUndo(t: Tree) {
    t.Select? && t.from.Sub? && t.from.alias == PREVIOUS
  }

  function Unwrap(t: Tree): Edit {
    if CanUndo(t) then Edited(t.from.query) else Rejected("nothing_to_undo")
  }

  // ---------------------------------------------------------------- histories

  datatype Step = Change(outer: Tree) | Undo

  /** A step that is rejected leaves the definition as it was. */
  function Apply(t: Tree, step: Step): Tree {
    var r := match step case Change(outer) => Wrap(outer, t) case Undo => Unwrap(t);
    if r.Edited? then r.tree else t
  }

  function Run(t: Tree, steps: seq<Step>): Tree {
    if steps == [] then t else Apply(Run(t, steps[..|steps| - 1]), steps[|steps| - 1])
  }

  /** The accepted edits that have not been undone, oldest first. */
  function Pending(t: Tree, steps: seq<Step>): seq<Tree> {
    if steps == [] then []
    else
      var before := Pending(t, steps[..|steps| - 1]);
      match steps[|steps| - 1]
      case Change(outer) => if Wrap(outer, Stack(t, before)).Edited? then before + [outer] else before
      case Undo => if before == [] then [] else before[..|before| - 1]
  }

  /** A definition with edits applied on top of it. */
  function Stack(t: Tree, edits: seq<Tree>): Tree {
    if edits == [] then t
    else Apply(Stack(t, edits[..|edits| - 1]), Change(edits[|edits| - 1]))
  }

  /** Undo is a left inverse of every accepted edit: the definition comes back exactly as it was. */
  lemma UndoInvertsEdit(outer: Tree, previous: Tree)
    requires Wrap(outer, previous).Edited?
    ensures CanUndo(Wrap(outer, previous).tree) && Unwrap(Wrap(outer, previous).tree) == Edited(previous)
  {
    var marked := Sub(previous, PREVIOUS);
    assert RenameInput(marked) == marked;
    assert RenameInput(outer.(from := marked)).from == marked;
  }

  /** A definition in which nothing goes by the mark's name has nothing to undo. */
  lemma NothingToUndo(t: Tree)
    requires forall path: seq<nat>, c: Tree | At(t, path, c) :: !Called(c, PREVIOUS)
    ensures !CanUndo(t) && Unwrap(t) == Rejected("nothing_to_undo")
  {
    if t.Select? {
      FromAt(t);
      assert At(t, [|t.defs|], t.from);
    }
  }

  /** Every edit of a stack was accepted when it was made. */
  ghost predicate Accepted(t: Tree, edits: seq<Tree>) {
    forall i | 0 <= i < |edits| :: Wrap(edits[i], Stack(t, edits[..i])).Edited?
  }

  lemma AcceptedPush(t: Tree, edits: seq<Tree>, outer: Tree)
    requires Accepted(t, edits) && Wrap(outer, Stack(t, edits)).Edited?
    ensures Accepted(t, edits + [outer])
  {
    hide Wrap, Stack;
    var all := edits + [outer];
    forall i | 0 <= i < |all| ensures Wrap(all[i], Stack(t, all[..i])).Edited? {
      assert all[..i] == edits[..i];
      if i == |edits| { assert edits[..i] == edits; }
    }
  }

  lemma AcceptedPop(t: Tree, edits: seq<Tree>)
    requires Accepted(t, edits) && edits != []
    ensures Accepted(t, edits[..|edits| - 1])
    ensures Wrap(edits[|edits| - 1], Stack(t, edits[..|edits| - 1])).Edited?
  {
    hide Wrap, Stack;
    var kept := edits[..|edits| - 1];
    forall i | 0 <= i < |kept| ensures Wrap(kept[i], Stack(t, kept[..i])).Edited? {
      assert kept[..i] == edits[..i];
    }
  }

  /** Over any history of edits and undos, the definition is the base under the edits not yet undone. */
  lemma {:induction false} HistoryIsStack(t: Tree, steps: seq<Step>)
    requires !CanUndo(t)
    ensures Run(t, steps) == Stack(t, Pending(t, steps)) && Accepted(t, Pending(t, steps))
  {
    hide Wrap, Accepted;
    if steps == [] {
      NoneAccepted(t);
    } else {
      var before := Pending(t, steps[..|steps| - 1]);
      HistoryIsStack(t, steps[..|steps| - 1]);
      match steps[|steps| - 1]
      case Change(outer) =>
        if Wrap(outer, Stack(t, before)).Edited? {
          assert (before + [outer])[..|before|] == before;
          AcceptedPush(t, before, outer);
        }
      case Undo =>
        if before != [] {
          AcceptedPop(t, before);
          UndoInvertsEdit(before[|before| - 1], Stack(t, before[..|before| - 1]));
        }
    }
  }

  lemma NoneAccepted(t: Tree)
    ensures Accepted(t, [])
  {
  }

  function Undos(n: nat): (r: seq<Step>)
    ensures |r| == n
  {
    if n == 0 then [] else Undos(n - 1) + [Undo]
  }

  /** n edits and then n undos restore the original definition. */
  lemma UndoAll(t: Tree, edits: seq<Tree>)
    requires Accepted(t, edits)
    ensures Run(Stack(t, edits), Undos(|edits|)) == t
  {
    UndoSome(t, edits, |edits|);
  }

  lemma StackStep(t: Tree, edits: seq<Tree>)
    requires Accepted(t, edits) && edits != []
    ensures var below := Stack(t, edits[..|edits| - 1]); var w := Wrap(edits[|edits| - 1], below);
            w.Edited? && Stack(t, edits) == w.tree && Apply(w.tree, Undo) == below
  {
    hide Wrap, Unwrap;
    AcceptedPop(t, edits);
    UndoInvertsEdit(edits[|edits| - 1], Stack(t, edits[..|edits| - 1]));
  }

  lemma RunUndo(t: Tree, n: nat)
    requires n > 0
    ensures Run(t, Undos(n)) == Apply(Run(t, Undos(n - 1)), Undo)
  {
    hide Apply;
    assert Undos(n)[..n - 1] == Undos(n - 1);
  }

  lemma AcceptedPart(t: Tree, edits: seq<Tree>, k: nat)
    requires Accepted(t, edits) && k <= |edits|
    ensures Accepted(t, edits[..k])
  {
    hide Wrap, Stack;
    forall i | 0 <= i < k ensures Wrap(edits[..k][i], Stack(t, edits[..k][..i])).Edited? {
      assert edits[..k][..i] == edits[..i];
    }
  }

  lemma {:induction false} UndoSome(t: Tree, edits: seq<Tree>, n: nat)
    requires Accepted(t, edits) && n <= |edits|
    ensures Run(Stack(t, edits), Undos(n)) == Stack(t, edits[..|edits| - n])
    decreases n
  {
    hide Wrap, Unwrap, Run, Stack, Apply, Accepted;
    if n == 0 {
      assert edits[..|edits|] == edits;
      NothingRun(Stack(t, edits));
    } else {
      UndoSome(t, edits, n - 1);
      RunUndo(Stack(t, edits), n);
      var kept := edits[..|edits| - n + 1];
      assert kept[..|kept| - 1] == edits[..|edits| - n];
      AcceptedPart(t, edits, |kept|);
      StackStep(t, kept);
    }
  }

  lemma NothingRun(t: Tree)
    ensures Run(t, Undos(0)) == t
  {
  }
}
