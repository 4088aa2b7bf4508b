/**
 * What an edit means.
 *
 * Wrapping renames the references that spell the input's name; `InputKept` is the exact condition under
 * which every reference of the edit then denotes over the marked previous definition what it denoted
 * over the input.
 */
module SqlEdits {
  import opened Names
  import opened SqlTree
  import opened SqlSemantics
  import opened SqlRewrite
  import opened SqlColumns
  import opened SqlScopes
  import opened SqlMeaning
  import opened SqlStrays
  import opened SqlTheorems
  import opened SqlWrap

  const INPUT_KEY := Lower(INPUT)
  const PREVIOUS_KEY := Lower(PREVIOUS)

  /** The input of an edit, which is the marked item in what is stored. */
  function Input(cols: seq<string>): Entry {
    Entry([[INPUT]], [[PREVIOUS]], cols)
  }

  /** The outermost scope: the input with its columns, or nothing inside a definition. */
  function Outermost(input: Option<seq<string>>): seq<seq<Entry>> {
    match input case Some(cols) => [[Input(cols)]] case None => []
  }

  function Onto(names: seq<string>): (r: seq<string>)
    ensures |r| == |names|
  {
    if names != [] && names[0] == INPUT then [PREVIOUS] + names[1..] else names
  }

  function OntoStar(q: seq<string>): (r: seq<string>)
    ensures |r| == |q|
  {
    if q == [INPUT] then [PREVIOUS] else q
  }

  // ---------------------------------------------------------------- the exact condition

  /**
   * Names that nothing nearer resolves: as a column of the input they are spelled with its name exactly;
   * as a bare column, or as nothing, they are not, and the mark does not claim them either; as its row,
   * they are its name exactly, and no column is called like the mark.
   */
  predicate OutermostReads(input: Option<seq<string>>, names: seq<string>)
    requires names != []
  {
    match input
    case None => names[0] != INPUT
    case Some(cols) =>
      var field := |names| >= 2 && HasColumn(cols, names[1]);
      if Same(names[0], INPUT) && field then names[0] == INPUT
      else if HasColumn(cols, names[0]) then names[0] != INPUT && !(Same(names[0], PREVIOUS) && field)
      else if Same(names[0], INPUT) && |names| == 1 then names[0] == INPUT && !HasColumn(cols, PREVIOUS)
      else names[0] != INPUT && !(Same(names[0], PREVIOUS) && (|names| == 1 || field))
  }

  /** A scope that resolves names resolves them alike with the mark for the input: the item goes by both. */
  predicate StillHere(items: seq<Item>, names: seq<string>)
    requires names != []
  {
    var h := Here(items, names);
    Here(items, Onto(names)) == h && !(h.Column? && h.used == 0)
  }

  /** No nearer item is reached by names that spell the input, nor by what the mark makes of them. */
  predicate InputReads(seen: seq<seq<Entry>>, input: Option<seq<string>>, names: seq<string>) {
    if names == [] then true
    else if seen == [] then OutermostReads(input, names)
    else if Here(BeforeItems(seen[0]), names) != Lost then names[0] != INPUT || StillHere(BeforeItems(seen[0]), names)
    else
      && (names[0] == INPUT ==> Here(BeforeItems(seen[0]), Onto(names)) == Lost)
      && InputReads(seen[1..], input, names)
  }

  /** A star spells the input exactly, and only over the input; no star is spelled like the mark there. */
  predicate StarReads(seen: seq<seq<Entry>>, input: Option<seq<string>>, q: seq<string>) {
    if seen != [] then q != [INPUT]
    else input.None? || (|q| == 1 && (Same(q[0], INPUT) || Same(q[0], PREVIOUS)) ==> q == [INPUT])
  }

  /** No reference of the tree strays when the input's name is exchanged for the mark. */
  predicate InputKept(r: Reading, c: Columns, seen: seq<seq<Entry>>, input: Option<seq<string>>, t: Tree)
    decreases t, 1
  {
    match t
    case Select(defs, from, clauses, _) =>
      var c1 := DefColumns(r, c, defs);
      && DefsKept(r, c, seen, input, defs) && FromKept(r, c1, seen, input, from)
      && AllKept(r, c1, [Entries(r, c1, from)] + seen, input, clauses) && LabelsKept(clauses)
    case SetOp(defs, _, left, right) =>
      var c1 := DefColumns(r, c, defs);
      DefsKept(r, c, seen, input, defs) && InputKept(r, c1, seen, input, left) && InputKept(r, c1, seen, input, right)
    case Recursive(_, _, _, _) => true
    case Cte(_, _) => true
    case Base(_, _, _, _) => true
    case Join(_, _, _, _) => true
    case Sub(query, _) => InputKept(r, c, seen, input, query)
    case Op(_, args, _) => AllKept(r, c, seen, input, args)
    case Ref(names, _) => InputReads(seen, input, names)
    case Star(q) => StarReads(seen, input, q)
  }

  predicate BodyKept(r: Reading, c: Columns, seen: seq<seq<Entry>>, input: Option<seq<string>>, d: Tree)
    requires d.Cte?
    decreases d, 0
  {
    var q := d.query;
    if !q.Recursive? then InputKept(r, c, seen, input, q)
    else
      && DefsKept(r, AnchorIn(c, d), seen, input, q.defs)
      && InputKept(r, DefColumns(r, AnchorIn(c, d), q.defs), seen, input, q.left)
      && DefsKept(r, RoundIn(r, c, d), seen, input, q.defs)
      && InputKept(r, DefColumns(r, RoundIn(r, c, d), q.defs), seen, input, q.right)
  }

  predicate FromKept(r: Reading, c: Columns, seen: seq<seq<Entry>>, input: Option<seq<string>>, t: Tree)
    decreases t, 2
  {
    match t
    case Base(_, _, _, _) => true
    case Join(_, left, right, on) =>
      && FromKept(r, c, seen, input, left) && FromKept(r, c, [Entries(r, c, left)] + seen, input, right)
      && AllKept(r, c, [Entries(r, c, left) + Entries(r, c, right)] + seen, input, on)
    case _ => InputKept(r, c, seen, input, t)
  }

  predicate AllKept(r: Reading, c: Columns, seen: seq<seq<Entry>>, input: Option<seq<string>>, ts: seq<Tree>)
    decreases ts, 0
  {
    forall i | 0 <= i < |ts| :: InputKept(r, c, seen, input, ts[i])
  }

  predicate DefsKept(r: Reading, c: Columns, seen: seq<seq<Entry>>, input: Option<seq<string>>, defs: seq<Tree>)
    decreases defs, 0
  {
    defs != [] ==>
      && (defs[0].Cte? ==> BodyKept(r, c, seen, input, defs[0]))
      && DefsKept(r, AddColumns(r, c, defs[0]), seen, input, defs[1..])
  }

  /** The input's row is not a clause without an alias: its label would be the mark. */
  predicate LabelsKept(ts: seq<Tree>) {
    forall i | 0 <= i < |ts| && ts[i].Ref? && ts[i].alias == "" :: ts[i].names != [INPUT]
  }

  // ---------------------------------------------------------------- items that stay

  /** Items that keep their qualifiers, each with at most one of a single part. */
  predicate Spread(es: seq<Entry>) {
    forall e | e in es :: e.after == e.before
             && forall i, j | 0 <= i < j < |e.before| :: |e.before[i]| > 1 || |e.before[j]| > 1
  }

  predicate AllSpread(seen: seq<seq<Entry>>) {
    forall es | es in seen :: Spread(es)
  }

  lemma SpreadMore(es: seq<Entry>, seen: seq<seq<Entry>>)
    requires Spread(es) && AllSpread(seen)
    ensures AllSpread([es] + seen)
  {
    hide Spread;
  }

  lemma SpreadBoth(a: seq<Entry>, b: seq<Entry>)
    requires Spread(a) && Spread(b)
    ensures Spread(a + b)
  {
  }

  lemma {:induction false} EntriesSpread(r: Reading, c: Columns, t: Tree)
    requires r.rep.None?
    ensures Spread(Entries(r, c, t))
  {
    hide QueryColumns, BaseColumns, RelationOf;
    match t
    case Join(_, left, right, _) =>
      EntriesSpread(r, c, left);
      EntriesSpread(r, c, right);
      SpreadBoth(Entries(r, c, left), Entries(r, c, right));
    case _ =>
  }

  lemma SpreadItems(es: seq<Entry>)
    requires Spread(es)
    ensures AfterItems(es) == BeforeItems(es)
  {
  }

  /** An item has one name of a single part at most. */
  lemma OnePath(es: seq<Entry>, i: nat, p: seq<string>, q: seq<string>)
    requires Spread(es) && i < |es| && |p| == |q| == 1 && p != q && p in BeforeItems(es)[i].paths
    ensures q !in BeforeItems(es)[i].paths
  {
    hide LowerAll;
    var e := es[i];
    assert e in es;
    var j :| 0 <= j < |e.before| && LowerPaths(e.before)[j] == p;
    forall k | 0 <= k < |e.before| ensures LowerPaths(e.before)[k] != q {
      assert LowerPaths(e.before)[k] == LowerAll(e.before[k]) && LowerPaths(e.before)[j] == LowerAll(e.before[j]);
    }
  }

  // ---------------------------------------------------------------- one reference

  lemma ReservedKeys()
    ensures INPUT_KEY != PREVIOUS_KEY
    ensures LowerPaths([[INPUT]]) == [[INPUT_KEY]] && LowerPaths([[PREVIOUS]]) == [[PREVIOUS_KEY]]
  {
    assert |INPUT_KEY| == |INPUT| != |PREVIOUS| == |PREVIOUS_KEY|;
    assert LowerAll([INPUT]) == [INPUT_KEY] && LowerAll([PREVIOUS]) == [PREVIOUS_KEY];
  }

  /** Exchanged names differ in their first part. */
  lemma OntoDiffers(names: seq<string>, n: nat)
    requires names != [] && names[0] == INPUT && n <= |names|
    ensures n > 0 ==> LowerAll(Onto(names)[..n]) != LowerAll(names[..n])
    ensures LowerAll(Onto(names)) != LowerAll(names)
    ensures n > 0 ==> Onto(names)[n..] == names[n..]
  {
    ReservedKeys();
    var out := Onto(names);
    assert LowerAll(out)[0] == PREVIOUS_KEY && LowerAll(names)[0] == INPUT_KEY;
    if n > 0 {
      assert LowerAll(out[..n])[0] == PREVIOUS_KEY && LowerAll(names[..n])[0] == INPUT_KEY;
    }
  }

  /** The outermost scope, before and after. */
  lemma InputItems(cols: seq<string>)
    ensures BeforeItems([Input(cols)]) == [Item([[INPUT_KEY]], cols)]
    ensures AfterItems([Input(cols)]) == [Item([[PREVIOUS_KEY]], cols)]
  {
    ReservedKeys();
  }

  /** What a single item with one one-part qualifier makes of names. */
  lemma {:induction false} HereOne(key: string, cols: seq<string>, names: seq<string>)
    requires names != []
    ensures Here([Item([[key]], cols)], names) ==
              if |names| >= 2 && Lower(names[0]) == key && HasColumn(cols, names[1]) then Column(0, 0, 1)
              else if HasColumn(cols, names[0]) then Column(0, 0, 0)
              else if |names| == 1 && Lower(names[0]) == key then Row(0, 0)
              else Lost
  {
    hide HasColumn;
    OneClaimed(key, cols, names, |names| - 1);
    var it := Item([[key]], cols);
    assert LowerAll(names) == [key] <==> |names| == 1 && Lower(names[0]) == key by {
      if |names| == 1 { assert LowerAll(names) == [Lower(names[0])]; }
    }
    assert [it][1..] == [];
  }

  lemma {:induction false} OneClaimed(key: string, cols: seq<string>, names: seq<string>, n: nat)
    requires n < |names|
    ensures ClaimIn([Item([[key]], cols)], names, n) ==
              if n >= 1 && Lower(names[0]) == key && HasColumn(cols, names[1]) then Claimed(0, 1)
              else if HasColumn(cols, names[0]) then Claimed(0, 0)
              else Unclaimed
  {
    hide HasColumn;
    var it := Item([[key]], cols);
    assert [it][1..] == [];
    if n == 1 { assert LowerAll(names[..1]) == [Lower(names[0])]; }
    if n > 0 { OneClaimed(key, cols, names, n - 1); }
  }

  lemma OutermostReference(cols: seq<string>, names: seq<string>)
    requires names != []
    ensures SameSpot([[Input(cols)]], names, Onto(names)) <==> OutermostReads(Some(cols), names)
  {
    hide HasColumn, Here, BeforeItems, AfterItems, SameSpot, LowerAll;
    var seen, out := [[Input(cols)]], Onto(names);
    ReservedKeys();
    InputItems(cols);
    HereOne(INPUT_KEY, cols, names);
    HereOne(PREVIOUS_KEY, cols, out);
    if names[0] == INPUT { OntoDiffers(names, if |names| >= 2 then 1 else 0); WholeTail(names); WholeTail(out); }
    if Here(BeforeItems(seen[0]), names) != Lost {
      SpotHere(seen, names, out);
    } else if Here(AfterItems(seen[0]), out) != Lost {
      SpotNearer(seen, names, out);
    } else {
      SpotOuter(seen, names, out);
      assert seen[1..] == [];
      SpotNowhere(names, out);
    }
  }

  lemma WholeTail(names: seq<string>)
    ensures names[0..] == names
  {
  }

  /**
   * Under the mark a reference denotes what it denoted over the input exactly if `InputReads` says so:
   * nothing nearer is reached by the names before or after, and the input is spelled as the wrapper expects.
   */
  lemma {:induction false} InputReference(seen: seq<seq<Entry>>, input: Option<seq<string>>, names: seq<string>)
    requires AllSpread(seen)
    ensures SameSpot(seen + Outermost(input), names, Onto(names)) <==> InputReads(seen, input, names)
    decreases |seen|
  {
    hide Spread, SameSpot, BeforeItems, AfterItems, Here, LowerAll, OutermostReads;
    var all, out := seen + Outermost(input), Onto(names);
    if names == [] {
      NoNames(all, out);
    } else if seen == [] {
      assert all == Outermost(input);
      OutermostOnly(input, names);
    } else {
      assert seen[0] in seen && all[0] == seen[0] && all[1..] == seen[1..] + Outermost(input);
      SpreadItems(seen[0]);
      InputReference(seen[1..], input, names);
      NearerReference(all, names);
    }
  }

  lemma OutermostOnly(input: Option<seq<string>>, names: seq<string>)
    requires names != []
    ensures SameSpot(Outermost(input), names, Onto(names)) <==> OutermostReads(input, names)
  {
    hide SameSpot, LowerAll;
    match input
    case Some(cols) => OutermostReference(cols, names);
    case None =>
      SpotNowhere(names, Onto(names));
      if names[0] == INPUT { OntoDiffers(names, 0); }
  }

  /** One scope of items that stay: if it resolves the names it must go on to do so; else the next ones decide. */
  lemma NearerReference(all: seq<seq<Entry>>, names: seq<string>)
    requires all != [] && Spread(all[0]) && names != []
    ensures SameSpot(all, names, Onto(names)) <==>
              if Here(BeforeItems(all[0]), names) != Lost then names[0] != INPUT
                || StillHere(BeforeItems(all[0]), names)
              else
                && (names[0] == INPUT ==> Here(BeforeItems(all[0]), Onto(names)) == Lost)
                && SameSpot(all[1..], names, Onto(names))
  {
    hide Spread, SameSpot, BeforeItems, AfterItems, Here, LowerAll;
    var out := Onto(names);
    SpreadItems(all[0]);
    var h := Here(BeforeItems(all[0]), names);
    if h != Lost {
      SpotHere(all, names, out);
      if names[0] == INPUT && h.Column? {
        OntoDiffers(names, h.used);
        WholeTail(names);
        WholeTail(out);
      }
    } else if Here(AfterItems(all[0]), out) != Lost {
      SpotNearer(all, names, out);
    } else {
      SpotOuter(all, names, out);
    }
  }

  /**
   * In values: a reference to what an edit's scopes hold strays on some of their rows exactly if `InputReads`
   * fails.
   */
  lemma InputStrays(seen: seq<seq<Entry>>, input: Option<seq<string>>, names: seq<string>)
    requires var all := seen + Outermost(input);
             AllSpread(seen) && HaveColumns(all) && Resolve(Befores(all), names) != Lost
    ensures !InputReads(seen, input, names) <==>
            exists eng: Engine, env, env' | Alike(seen + Outermost(input), env, env') ::
              Lookup(eng, env', Onto(names)) != Lookup(eng, env, names)
  {
    hide AllSpread, HaveColumns, Resolve, Alike, SameSpot, InputReads, Lookup, Told, Befores, Afters, Outermost, Onto;
    var all, out := seen + Outermost(input), Onto(names);
    InputReference(seen, input, names);
    if SameSpot(all, names, out) {
      forall eng: Engine, env, env' | Alike(all, env, env') ensures Lookup(eng, env', out) == Lookup(eng, env, names) {
        ReferenceSame(eng, names, out, all, env, env');
      }
    } else {
      SpotStrays(all, names, out);
    }
  }

  // ---------------------------------------------------------------- one star

  lemma InputStar(seen: seq<seq<Entry>>, input: Option<seq<string>>, q: seq<string>)
    requires AllSpread(seen) && q != [] && seen + Outermost(input) != []
    ensures SameStar((seen + Outermost(input))[0], q, OntoStar(q)) <==> StarReads(seen, input, q)
  {
    hide Spread, SameStar, BeforeItems, AfterItems, LowerAll;
    if seen != [] {
      assert seen[0] in seen;
      NearerStar(seen[0], q);
    } else {
      OutermostStar(input.value, q);
    }
  }

  lemma NearerStar(es: seq<Entry>, q: seq<string>)
    requires Spread(es) && q != []
    ensures SameStar(es, q, OntoStar(q)) <==> q != [INPUT]
  {
    hide Spread, BeforeItems, AfterItems, LowerAll, RowAt;
    SpreadItems(es);
    if q == [INPUT] {
      OntoDiffers(q, 1);
      assert OntoStar(q) == Onto(q);
      var was := RowAt(BeforeItems(es), q);
      if was.Some? { OnePath(es, was.value, LowerAll(q), LowerAll(OntoStar(q))); }
    }
  }

  lemma OutermostStar(cols: seq<string>, q: seq<string>)
    requires q != []
    ensures SameStar([Input(cols)], q, OntoStar(q)) <==> StarReads([], Some(cols), q)
  {
    hide BeforeItems, AfterItems;
    ReservedKeys();
    InputItems(cols);
    RowOne(INPUT_KEY, cols, q);
    RowOne(PREVIOUS_KEY, cols, OntoStar(q));
  }

  lemma RowOne(key: string, cols: seq<string>, q: seq<string>)
    requires q != []
    ensures RowAt([Item([[key]], cols)], q) == if |q| == 1 && Lower(q[0]) == key then Some(0) else None
  {
    assert [Item([[key]], cols)][1..] == [];
    if |q| == 1 { assert LowerAll(q) == [Lower(q[0])]; }
  }

  // ---------------------------------------------------------------- the whole edit

  predicate NoneReserved(ts: seq<Tree>) {
    forall t | t in ts :: !HasReserved(t)
  }

  lemma UnreservedParts(t: Tree)
    requires !HasReserved(t)
    ensures NoneReserved(Parts(t)) && !ReservedAt(t)
  {
  }

  /** A tree over the input is turned into itself over the mark exactly if no reference in it strays. */
  lemma {:induction false} RenameTurns(r: Reading, c: Columns, seen: seq<seq<Entry>>, input: Option<seq<string>>,
                                       t: Tree)
    requires r.rep.None? && AllSpread(seen) && !HasReserved(t)
    ensures Turned(r, c, seen + Outermost(input), t, RenameInput(t)) <==> InputKept(r, c, seen, input, t)
    decreases t, 1
  {
    hide AllSpread, Entries, SameSpot, SameStar, TurnedAll, TurnedDefs, TurnedFrom, AllKept, DefsKept, FromKept,
      HasReserved,
      DefColumns, InputReads, StarReads, Outermost;
    UnreservedParts(t);
    match t
    case Select(_, _, _, _) => SelectRenames(r, c, seen, input, t);
    case SetOp(defs, _, left, right) =>
      DefsRename(r, c, seen, input, defs);
      RenameTurns(r, DefColumns(r, c, defs), seen, input, left);
      RenameTurns(r, DefColumns(r, c, defs), seen, input, right);
    case Sub(query, _) => RenameTurns(r, c, seen, input, query);
    case Op(_, args, _) => AllRename(r, c, seen, input, args);
    case Ref(names, _) => InputReference(seen, input, names);
    case Star(q) => StarRenames(seen, input, q);
    case _ =>
  }

  lemma StarRenames(seen: seq<seq<Entry>>, input: Option<seq<string>>, q: seq<string>)
    requires AllSpread(seen)
    ensures RenameInput(Star(q)) == Star(OntoStar(q))
    ensures var all := seen + Outermost(input);
            (q != [] && all != [] ==> SameStar(all[0], q, OntoStar(q))) <==> StarReads(seen, input, q)
  {
    hide AllSpread, SameStar;
    if q != [] && seen + Outermost(input) != [] { InputStar(seen, input, q); }
  }

  lemma {:induction false} SelectRenames(r: Reading, c: Columns, seen: seq<seq<Entry>>, input: Option<seq<string>>,
                                         t: Tree)
    requires t.Select? && r.rep.None? && AllSpread(seen) && !HasReserved(t)
    ensures Turned(r, c, seen + Outermost(input), t, RenameInput(t)) <==> InputKept(r, c, seen, input, t)
    decreases t, 0
  {
    hide AllSpread, Spread, Entries, TurnedAll, TurnedDefs, TurnedFrom, AllKept, DefsKept, FromKept, HasReserved,
      SameLabels,
      LabelsKept, DefColumns, Outermost;
    UnreservedParts(t);
    var c1 := DefColumns(r, c, t.defs);
    var es := Entries(r, c1, t.from);
    DefsRename(r, c, seen, input, t.defs);
    FromRenames(r, c1, seen, input, t.from);
    EntriesSpread(r, c1, t.from);
    SpreadMore(es, seen);
    AllRename(r, c1, [es] + seen, input, t.clauses);
    assert [es] + seen + Outermost(input) == [es] + (seen + Outermost(input));
    LabelsRename(t.clauses);
  }

  lemma LabelsRename(ts: seq<Tree>)
    ensures SameLabels(ts, RenameAll(ts)) <==> LabelsKept(ts)
  {
    forall i | 0 <= i < |ts| && ts[i].Ref?
      ensures RenameInput(ts[i]).Ref?
      ensures LastName(RenameInput(ts[i]).names) == LastName(ts[i].names) <==> ts[i].names != [INPUT]
    {
      LastOnto(ts[i].names);
    }
  }

  lemma LastOnto(names: seq<string>)
    ensures LastName(Onto(names)) == LastName(names) <==> names != [INPUT]
  {
    assert |INPUT| != |PREVIOUS|;
  }

  lemma {:induction false} FromRenames(r: Reading, c: Columns, seen: seq<seq<Entry>>, input: Option<seq<string>>,
                                       t: Tree)
    requires r.rep.None? && AllSpread(seen) && !HasReserved(t)
    ensures TurnedFrom(r, c, seen + Outermost(input), t, RenameInput(t)) <==> FromKept(r, c, seen, input, t)
    decreases t, 2
  {
    hide AllSpread, Entries, Turned, InputKept, TurnedAll, AllKept, HasReserved, Outermost;
    match t
    case Base(_, _, _, _) =>
    case Join(_, _, _, _) => JoinRenames(r, c, seen, input, t);
    case _ => RenameTurns(r, c, seen, input, t);
  }

  lemma {:induction false} JoinRenames(r: Reading, c: Columns, seen: seq<seq<Entry>>, input: Option<seq<string>>,
                                       t: Tree)
    requires t.Join? && r.rep.None? && AllSpread(seen) && !HasReserved(t)
    ensures TurnedFrom(r, c, seen + Outermost(input), t, RenameInput(t)) <==> FromKept(r, c, seen, input, t)
    decreases t, 1
  {
    hide AllSpread, Spread, Entries, Turned, InputKept, TurnedAll, AllKept, HasReserved, Outermost;
    UnreservedParts(t);
    var a, b, tail := Entries(r, c, t.left), Entries(r, c, t.right), Outermost(input);
    EntriesSpread(r, c, t.left);
    EntriesSpread(r, c, t.right);
    SpreadBoth(a, b);
    SpreadMore(a, seen);
    SpreadMore(a + b, seen);
    FromRenames(r, c, seen, input, t.left);
    FromRenames(r, c, [a] + seen, input, t.right);
    AllRename(r, c, [a + b] + seen, input, t.on);
    assert [a] + seen + tail == [a] + (seen + tail) && [a + b] + seen + tail == [a + b] + (seen + tail);
  }

  lemma {:induction false} AllRename(r: Reading, c: Columns, seen: seq<seq<Entry>>, input: Option<seq<string>>,
                                     ts: seq<Tree>)
    requires r.rep.None? && AllSpread(seen) && NoneReserved(ts)
    ensures TurnedAll(r, c, seen + Outermost(input), ts, RenameAll(ts)) <==> AllKept(r, c, seen, input, ts)
    decreases ts, 0
  {
    hide Turned, AllSpread, HasReserved, RenameInput, InputKept, Outermost;
    forall i | 0 <= i < |ts|
      ensures Turned(r, c, seen + Outermost(input), ts[i], RenameAll(ts)[i]) <==> InputKept(r, c, seen, input, ts[i])
    {
      RenameTurns(r, c, seen, input, ts[i]);
    }
  }

  lemma {:induction false} BodyRenames(r: Reading, c: Columns, seen: seq<seq<Entry>>, input: Option<seq<string>>,
                                       d: Tree)
    requires d.Cte? && r.rep.None? && AllSpread(seen) && !HasReserved(d)
    ensures var u := RenameInput(d);
            u.Cte? && u.key == d.key
              && (TurnedBody(r, c, seen + Outermost(input), d, u) <==> BodyKept(r, c, seen, input, d))
    decreases d, 0
  {
    hide AllSpread, Turned, TurnedDefs, InputKept, DefsKept, HasReserved, DefColumns, AnchorIn, RoundIn, Outermost;
    UnreservedParts(d);
    var q := d.query;
    assert q in Parts(d);
    if q.Recursive? {
      UnreservedParts(q);
      assert NoneReserved(q.defs) && q.left in Parts(q) && q.right in Parts(q);
      DefsRename(r, AnchorIn(c, d), seen, input, q.defs);
      RenameTurns(r, DefColumns(r, AnchorIn(c, d), q.defs), seen, input, q.left);
      DefsRename(r, RoundIn(r, c, d), seen, input, q.defs);
      RenameTurns(r, DefColumns(r, RoundIn(r, c, d), q.defs), seen, input, q.right);
    } else {
      RenameTurns(r, c, seen, input, q);
    }
  }

  lemma {:induction false} DefsRename(r: Reading, c: Columns, seen: seq<seq<Entry>>, input: Option<seq<string>>,
                                      defs: seq<Tree>)
    requires r.rep.None? && AllSpread(seen) && NoneReserved(defs)
    ensures TurnedDefs(r, c, seen + Outermost(input), defs, RenameAll(defs)) <==> DefsKept(r, c, seen, input, defs)
    decreases defs, 0
  {
    hide TurnedBody, BodyKept, AllSpread, HasReserved, AddColumns, Outermost;
    if defs != [] {
      assert defs[0] in defs;
      if defs[0].Cte? { BodyRenames(r, c, seen, input, defs[0]); }
      DefsRename(r, AddColumns(r, c, defs[0]), seen, input, defs[1..]);
      assert RenameAll(defs)[1..] == RenameAll(defs[1..]);
    }
  }

  // ---------------------------------------------------------------- an edit is a substitution

  /** The same database before and after: only the CTEs in `hidden` may differ. */
  function Still(w: World, hidden: set<string>): Setup {
    Setup(w, w.db, None, hidden)
  }

  function Unreplaced(w: World): Reading {
    Reading(ShapesOf(w), w.ctx, None)
  }

  lemma StillReads(w: World, hidden: set<string>)
    ensures Reads(Still(w, hidden)) == Unreplaced(w) && After(Still(w, hidden)) == w
  {
  }

  /** Environments without scopes that have no CTEs but hidden ones. */
  lemma NothingSeen(w: World, hidden: set<string>, e: map<string, Table>, f: map<string, Table>)
    requires e.Keys <= hidden && f.Keys <= hidden
    ensures Ready(Still(w, hidden), map[], [], e, f, [], [])
  {
  }

  lemma StillAnswers(w: World, hidden: set<string>, b: Tree)
    requires b.Base? && !IsCte(b, hidden)
    ensures Answers(Still(w, hidden), b)
  {
  }

  /** CTEs that a query does not read make no difference. */
  lemma QueryStill(w: World, q: Tree, hidden: set<string>, e: map<string, Table>)
    requires e.Keys <= hidden && forall b | b in FreeBases({}, q) :: !IsCte(b, hidden)
    ensures Query(w, q, e, []) == ViewRows(w, q) && ViewRows(w, q).cols == QueryColumns(Unreplaced(w), map[], q)
  {
    hide Answers, Turned, Query, QueryColumns, AllPlain, Ready, FreeBases;
    var s := Still(w, hidden);
    NothingSeen(w, hidden, map[], e);
    forall b | b in FreeBases({}, q) ensures Answers(s, b) { StillAnswers(w, hidden, b); }
    NonePlain();
    TurnedItself(Unreplaced(w), map[], [], q);
    StillReads(w, hidden);
    NoneInScope();
    QuerySame(s, q, q, map[], [], map[], e, [], []);
  }

  lemma NonePlain()
    ensures AllPlain([]) && AllSpread([])
  {
  }

  /** Definitions that read no input are the same with and without it, as they are stored. */
  lemma DefsStill(w: World, defs: seq<Tree>, e: map<string, Table>)
    requires e.Keys <= {INPUT_KEY} && NoneReserved(defs)
    requires DefsKept(Unreplaced(w), map[], [], None, defs)
    requires forall b | b in FreeInDefs({}, defs) :: !IsCte(b, {INPUT_KEY})
    ensures Agree(Still(w, {INPUT_KEY}), DefColumns(Unreplaced(w), map[], defs), Defs(w, defs, e, []),
                  Defs(w, RenameAll(defs), map[], []))
  {
    hide Answers, TurnedDefs, DefsKept, Defs, DefColumns, HasReserved, Ready, Agree, FreeInDefs;
    var s := Still(w, {INPUT_KEY});
    NothingSeen(w, {INPUT_KEY}, e, map[]);
    forall b | b in FreeInDefs({}, defs) ensures Answers(s, b) { StillAnswers(w, {INPUT_KEY}, b); }
    NonePlain();
    DefsRename(Unreplaced(w), map[], [], None, defs);
    assert [] + Outermost(None) == [];
    StillReads(w, {INPUT_KEY});
    NoneInScope();
    DefsSame(s, defs, RenameAll(defs), map[], [], e, map[], [], []);
  }

  /** The clauses of an edit, over the input and over the marked previous definition. */
  lemma EditClauses(w: World, clauses: seq<Tree>, c: Columns, e: map<string, Table>, f: map<string, Table>, t: Table)
    requires Agree(Still(w, {INPUT_KEY}), c, e, f) && NoneReserved(clauses) && LabelsKept(clauses)
    requires AllKept(Unreplaced(w), c, [], Some(t.cols), clauses)
    requires forall b | b in FreeInAll(c.Keys, clauses) :: !IsCte(b, {INPUT_KEY})
    ensures var v, v', after := Single([[INPUT_KEY]], t), Single([[PREVIOUS_KEY]], t), RenameAll(clauses);
            && LabelTable(v'.items, after) == LabelTable(v.items, clauses)
            && ClauseTable(w, after, f, v', []) == ClauseTable(w, clauses, e, v, [])
  {
    hide Answers, Agree, TurnedAll, AllKept, SameLabels, LabelsKept, LabelTable, ClauseTable, HasReserved, BeforeItems,
      AfterItems;
    var v, v', s := Single([[INPUT_KEY]], t), Single([[PREVIOUS_KEY]], t), Still(w, {INPUT_KEY});
    var es, after, r := [Input(t.cols)], RenameAll(clauses), Unreplaced(w);
    forall b | b in FreeInAll(c.Keys, clauses) ensures Answers(s, b) { StillAnswers(w, {INPUT_KEY}, b); }
    InputItems(t.cols);
    NonePlain();
    AllRename(r, c, [], Some(t.cols), clauses);
    assert [] + Outermost(Some(t.cols)) == [es] + [];
    LabelsRename(clauses);
    LabelTablesSame(r, c, es, [], clauses, after);
    StillReads(w, {INPUT_KEY});
    ClausesSame(s, clauses, after, c, es, [], e, f, v, v', [], []);
  }

  /** The previous definition does not read a table that the edit's own CTEs name. */
  ghost predicate Uncaptured(outer: Tree, previous: Tree)
    requires outer.Select?
  {
    forall b | b in FreeBases({}, previous) :: !IsCte(b, Keys(outer.defs))
  }

  /** The input is read in the outermost FROM only, if no definition takes its name. */
  ghost predicate ReadsInputOnce(outer: Tree)
    requires outer.Select?
  {
    && (forall b | b in FreeInDefs({}, outer.defs) :: !IsCte(b, {INPUT_KEY}))
    && (forall b | b in FreeInAll(Keys(outer.defs), outer.clauses) :: !IsCte(b, {INPUT_KEY}))
  }

  /** No reference of the edit strays, its input having the columns of the previous definition. */
  predicate EditKept(w: World, outer: Tree, previous: Tree)
    requires outer.Select?
  {
    var r := Unreplaced(w);
    && DefsKept(r, map[], [], None, outer.defs) && LabelsKept(outer.clauses)
    && AllKept(r, DefColumns(r, map[], outer.defs), [], Some(QueryColumns(r, map[], previous)), outer.clauses)
  }

  /** The definitions of an edit whose input has these rows. */
  function InputDefs(w: World, outer: Tree, t: Table): map<string, Table>
    requires outer.Select?
  {
    Defs(w, outer.defs, map[INPUT_KEY := t], [])
  }

  /** The clauses of an edit whose input has the rows `t`, run over the rows `over`. */
  function ClausesOver(w: World, outer: Tree, t: Table, over: Table): Table
    requires outer.Select?
  {
    var v := Single([[INPUT_KEY]], over);
    var labels := LabelTable(v.items, outer.clauses);
    Table(w.eng.columns(outer.tag, labels),
          w.eng.finish(outer.tag, labels, ClauseTable(w, outer.clauses, InputDefs(w, outer, t), v, [])))
  }

  lemma WrapParts(outer: Tree, previous: Tree)
    requires Wrap(outer, previous).Edited?
    ensures var u := Wrap(outer, previous).tree;
            && outer.Select? && NoneReserved(outer.defs) && NoneReserved(outer.clauses)
            && u == Select(RenameAll(outer.defs), Sub(previous, PREVIOUS), RenameAll(outer.clauses), outer.tag)
  {
    hide HasReserved;
    var bare := outer.(from := Base("", "", INPUT, ""));
    UnreservedParts(bare);
    assert forall d | d in outer.defs :: d in Parts(bare);
    assert forall c | c in outer.clauses :: c in Parts(bare);
    assert RenameInput(Sub(previous, PREVIOUS)) == Sub(previous, PREVIOUS);
  }

  /** What is stored: the clauses run over the previous rows, never over a definition that takes the input's name. */
  lemma StoredMeans(w: World, outer: Tree, previous: Tree)
    requires Wrap(outer, previous).Edited?
    requires ReadsInputOnce(outer) && EditKept(w, outer, previous) && Uncaptured(outer, previous)
    ensures var t := ViewRows(w, previous); ViewRows(w, Wrap(outer, previous).tree) == ClausesOver(w, outer, t, t)
  {
    hide Agree, LabelTable, ClauseTable, HasReserved, AllKept, DefsKept, LabelsKept, Wrap;
    WrapParts(outer, previous);
    var t, c := ViewRows(w, previous), DefColumns(Unreplaced(w), map[], outer.defs);
    var e, f := InputDefs(w, outer, t), Defs(w, RenameAll(outer.defs), map[], []);
    NoneInScope();
    assert c.Keys == Keys(outer.defs);
    DefsStill(w, outer.defs, map[INPUT_KEY := t]);
    RenameKeys(outer.defs);
    QueryStill(w, previous, Keys(outer.defs), f);
    EditClauses(w, outer.clauses, c, e, f, t);
    MarkedFrom(w, previous, f);
  }

  lemma MarkedFrom(w: World, previous: Tree, f: map<string, Table>)
    ensures From(w, Sub(previous, PREVIOUS), f, []) == Single([[PREVIOUS_KEY]], Query(w, previous, f, []))
  {
    assert |PREVIOUS| > 0;
  }

  /** What the edit itself means: its clauses run over a definition that takes the input's name, if there is one. */
  lemma EditMeans(w: World, outer: Tree, t: Table)
    requires FromInput(outer)
    ensures INPUT_KEY in InputDefs(w, outer, t)
    ensures Query(w, outer, map[INPUT_KEY := t], []) == ClausesOver(w, outer, t, InputDefs(w, outer, t)[INPUT_KEY])
    ensures INPUT_KEY !in Keys(outer.defs) ==> InputDefs(w, outer, t)[INPUT_KEY] == t
  {
    hide LabelTable, ClauseTable;
    var e := InputDefs(w, outer, t);
    if INPUT_KEY !in Keys(outer.defs) { DefsKeep(w, outer.defs, map[INPUT_KEY := t], INPUT_KEY); }
    assert From(w, outer.from, e, []) == Single([[INPUT_KEY]], e[INPUT_KEY]) by { assert |INPUT| > 0; }
  }

  /**
   * A stored edit means the edit with its input bound to the rows of the previous definition, if no
   * definition takes the input's name, or if one does and has those rows.
   */
  lemma EditSubstitutes(w: World, outer: Tree, previous: Tree)
    requires Wrap(outer, previous).Edited?
    requires ReadsInputOnce(outer) && EditKept(w, outer, previous) && Uncaptured(outer, previous)
    requires var t := ViewRows(w, previous);
             INPUT_KEY !in Keys(outer.defs)
               || (INPUT_KEY in InputDefs(w, outer, t) && InputDefs(w, outer, t)[INPUT_KEY] == t)
    ensures ViewRows(w, Wrap(outer, previous).tree) == Query(w, outer, map[INPUT_KEY := ViewRows(w, previous)], [])
  {
    hide ClausesOver, ViewRows, Query, EditKept, InputDefs, HasReserved;
    StoredMeans(w, outer, previous);
    EditMeans(w, outer, ViewRows(w, previous));
  }

  /** A definition never rebinds a name that is not its own. */
  lemma {:induction false} DefsKeep(w: World, defs: seq<Tree>, e: map<string, Table>, k: string)
    requires k in e && k !in Keys(defs)
    ensures k in Defs(w, defs, e, []) && Defs(w, defs, e, [])[k] == e[k]
    decreases defs
  {
    if defs != [] {
      FirstKeys(defs);
      DefsStep(w, defs, e, []);
      DefsKeep(w, defs[1..], Put(w, defs[0], e, []), k);
    }
  }
}
