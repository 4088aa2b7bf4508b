/**
 * When a rewritten reference denotes what it denoted.
 *
 * The walk rewrites a reference by the first of the items it has bound, whatever their columns; SQL
 * resolves it scope by scope, by the columns that items have.  The reference stays what it was exactly
 * if the two agree on how many of its names stand for the replaced source, and no nearer scope claims
 * the new names.
 */
module SqlScopes {
  import opened Names
  import opened SqlTree
  import opened SqlSemantics
  import opened SqlRewrite
  import opened SqlColumns

  /**
   * The qualifiers by which the walk binds the renamed item, lower-cased, before and after; `novel` ends
   * every new one.
   */
  datatype Renaming = Renaming(was: seq<seq<string>>, now: seq<seq<string>>, novel: string)

  ghost predicate Lawful(r: Renaming) {
    && |r.was| == |r.now| > 0
    && (forall j | 0 <= j < |r.now| ::
          |r.now[j]| == |r.was[j]| > 0 && Ends(r.now[j], r.novel) && !Ends(r.was[j], r.novel))
    && (forall i, j | 0 <= i < j < |r.now| :: |r.now[i]| > |r.now[j]|)
  }

  predicate Ends(p: seq<string>, name: string) {
    p != [] && p[|p| - 1] == name
  }

  /** Names none of whose qualifiers is spelled with the fresh name. */
  predicate CleanNames(r: Renaming, names: seq<string>) {
    names == [] || r.novel !in LowerAll(names[..|names| - 1])
  }

  /** The renamed item as the walk binds it. */
  predicate Changed(r: Renaming, e: Entry) {
    LowerPaths(e.before) == r.was && LowerPaths(e.after) == r.now
  }

  /** The renamed item as SQL sees it: it may have further qualifiers, old and new ones. */
  predicate Source(r: Renaming, e: Entry) {
    && (forall p | p in r.was :: p in LowerPaths(e.before)) && (forall p | p in r.now :: p in LowerPaths(e.after))
    && (forall p | p in LowerPaths(e.before) :: p != [] && !Ends(p, r.novel))
    && (forall p | p in LowerPaths(e.after) :: Ends(p, r.novel))
  }

  /** Another item: no qualifier of it is spelled with the fresh name. */
  predicate Unchanged(r: Renaming, e: Entry) {
    e.after == e.before && forall p | p in LowerPaths(e.before) :: p != [] && r.novel !in p
  }

  /** Items that the walk has bound. */
  predicate Settled(r: Renaming, es: seq<Entry>) {
    forall e | e in es :: |e.before| == |e.after| && (Changed(r, e) || Unchanged(r, e))
  }

  /** Items that SQL sees. */
  predicate Known(r: Renaming, es: seq<Entry>) {
    forall e | e in es :: Source(r, e) || Unchanged(r, e)
  }

  predicate AllKnown(r: Renaming, seen: seq<seq<Entry>>) {
    forall es | es in seen :: Known(r, es)
  }

  // ---------------------------------------------------------------- qualifiers

  /** `path` is a proper, case-insensitive prefix of `names`. */
  predicate Reaches(path: seq<string>, names: seq<string>) {
    |names| > |path| && LowerAll(names[..|path|]) == path
  }

  /** The first path of the list that is one. */
  function FirstPath(paths: seq<seq<string>>, names: seq<string>): (r: Option<nat>)
    ensures r.Some? ==> r.value < |paths| && Reaches(paths[r.value], names)
    ensures r.Some? ==> forall j | 0 <= j < r.value :: !Reaches(paths[j], names)
    ensures r.None? ==> forall j | 0 <= j < |paths| :: !Reaches(paths[j], names)
  {
    if paths == [] then None
    else if Reaches(paths[0], names) then Some(0)
    else match FirstPath(paths[1..], names)
      case None => None
      case Some(j) => Some(j + 1)
  }

  // ---------------------------------------------------------------- one entry

  lemma CoversIsReaches(before: seq<string>, names: seq<string>)
    ensures Covers(before, names) == Reaches(LowerAll(before), names)
  {
  }

  /** Rewriting by one entry and then by the rest. */
  lemma {:induction false} RewriteSplit(names: seq<string>, before: seq<seq<string>>, after: seq<seq<string>>,
                                        rest: seq<Binding>)
    requires |before| == |after|
    ensures match FirstPath(LowerPaths(before), names)
            case Some(j) => RewriteNames(names, Zip(before, after) + rest) == after[j] + names[|before[j]|..]
            case None => RewriteNames(names, Zip(before, after) + rest) == RewriteNames(names, rest)
    decreases |before|
  {
    if before == [] {
      assert Zip(before, after) + rest == rest;
    } else {
      var all := Zip(before, after) + rest;
      assert all[0] == Binding(before[0], after[0]);
      assert all[1..] == Zip(before[1..], after[1..]) + rest;
      assert LowerPaths(before)[1..] == LowerPaths(before[1..]);
      CoversIsReaches(before[0], names);
      RewriteSplit(names, before[1..], after[1..], rest);
    }
  }

  /** The qualifier was the renamed item's `j`-th, and is its new one. */
  ghost predicate Renamed(r: Renaming, names: seq<string>, out: seq<string>, j: nat)
    requires j < |r.was| == |r.now|
  {
    && Reaches(r.was[j], names)
    && |out| == |r.now[j]| + |names| - |r.was[j]|
    && LowerAll(out[..|r.now[j]|]) == r.now[j]
    && out[|r.now[j]|..] == names[|r.was[j]|..]
  }

  lemma PrefixLower(a: seq<string>, b: seq<string>, k: nat)
    requires LowerAll(a) == LowerAll(b) && k <= |a|
    ensures |a| == |b| && LowerAll(a[..k]) == LowerAll(b[..k]) && LowerAll(a[k..]) == LowerAll(b[k..])
    ensures k < |a| ==> Lower(a[k]) == Lower(b[k])
  {
    assert |a| == |LowerAll(a)| == |b|;
    forall i | 0 <= i < k ensures LowerAll(a[..k])[i] == LowerAll(b[..k])[i] {
      assert LowerAll(a)[i] == LowerAll(b)[i];
    }
    forall i | 0 <= i < |a| - k ensures LowerAll(a[k..])[i] == LowerAll(b[k..])[i] {
      assert LowerAll(a)[k + i] == LowerAll(b)[k + i];
    }
    if k < |a| { assert LowerAll(a)[k] == LowerAll(b)[k]; }
  }

  // ---------------------------------------------------------------- claims

  /** Is the first item that claims the names the renamed one? */
  predicate ClaimsSource(r: Renaming, es: seq<Entry>, names: seq<string>) {
    es != [] &&
    if FirstPath(LowerPaths(es[0].before), names).Some? then Changed(r, es[0]) else ClaimsSource(r, es[1..], names)
  }

  /** What rewriting by some items makes of a reference: one renamed qualifier, or the same names up to case. */
  ghost predicate Took(r: Renaming, es: seq<Entry>, names: seq<string>, out: seq<string>) {
    && |out| == |names| && (names != [] ==> out[|out| - 1] == names[|names| - 1])
    && if ClaimsSource(r, es, names) then RenamedFirst(r, names, out) else LowerAll(out) == LowerAll(names)
  }

  ghost predicate RenamedFirst(r: Renaming, names: seq<string>, out: seq<string>) {
    |r.now| == |r.was| && FirstPath(r.was, names).Some? && Renamed(r, names, out, FirstPath(r.was, names).value)
  }

  lemma {:induction false} RewriteTakes(r: Renaming, ws: seq<Entry>, names: seq<string>)
    requires Lawful(r) && Settled(r, ws)
    ensures Took(r, ws, names, RewriteNames(names, Flat(ws)))
    decreases |ws|
  {
    hide Changed, Unchanged, Lawful, Covers, Reaches, Renamed;
    if ws != [] {
      var e := ws[0];
      assert e in ws;
      RewriteSplit(names, e.before, e.after, Flat(ws[1..]));
      match FirstPath(LowerPaths(e.before), names)
      case Some(j) =>
        CoveredLength(e.before, names, j);
        EntryTakes(r, e, names, e.after[j] + names[|e.before[j]|..], j);
      case None => RewriteTakes(r, ws[1..], names);
    }
  }

  lemma CoveredLength(before: seq<seq<string>>, names: seq<string>, j: nat)
    requires FirstPath(LowerPaths(before), names) == Some(j)
    ensures |LowerPaths(before)[j]| == |before[j]| < |names| && LowerPaths(before)[j] == LowerAll(before[j])
    ensures Reaches(LowerAll(before[j]), names)
  {
  }

  lemma EntryTakes(r: Renaming, e: Entry, names: seq<string>, out: seq<string>, j: nat)
    requires Lawful(r) && |e.before| == |e.after| && (Changed(r, e) || Unchanged(r, e))
    requires FirstPath(LowerPaths(e.before), names) == Some(j) && |e.before[j]| < |names|
    requires out == e.after[j] + names[|e.before[j]|..]
    ensures |out| == |names| && names != [] && out[|out| - 1] == names[|names| - 1]
    ensures if Changed(r, e) then RenamedFirst(r, names, out) else LowerAll(out) == LowerAll(names)
  {
    hide FirstPath, LowerAll, Lawful;
    CoveredLength(e.before, names, j);
    if Changed(r, e) {
      RenamedHere(r, e, names, out, j);
    } else {
      Respelled(e.before[j], names);
    }
  }

  lemma RenamedHere(r: Renaming, e: Entry, names: seq<string>, out: seq<string>, j: nat)
    requires Lawful(r) && |e.before| == |e.after| && Changed(r, e)
    requires FirstPath(LowerPaths(e.before), names) == Some(j) && |e.before[j]| < |names|
    requires out == e.after[j] + names[|e.before[j]|..]
    ensures |out| == |names| && out[|out| - 1] == names[|names| - 1] && RenamedFirst(r, names, out)
  {
    hide FirstPath, Reaches;
    CoveredLength(e.before, names, j);
    var k := |e.before[j]|;
    assert LowerPaths(e.after)[j] == LowerAll(e.after[j]) && |e.after[j]| == k;
    assert out[..k] == e.after[j] && out[k..] == names[k..];
    assert FirstPath(r.was, names) == Some(j) && Reaches(r.was[j], names);
  }

  lemma Respelled(before: seq<string>, names: seq<string>)
    requires Reaches(LowerAll(before), names)
    ensures LowerAll(before + names[|before|..]) == LowerAll(names)
  {
    var out := before + names[|before|..];
    forall i | 0 <= i < |names| ensures LowerAll(out)[i] == LowerAll(names)[i] {
      if i < |before| { assert LowerAll(names[..|before|])[i] == LowerAll(before)[i]; }
    }
  }

  // ---------------------------------------------------------------- one item, before and after

  function Was(e: Entry): Item {
    Item(LowerPaths(e.before), e.cols)
  }

  function Now(e: Entry): Item {
    Item(LowerPaths(e.after), e.cols)
  }

  /** The number of names that the renamed qualifier takes. */
  function Taken(r: Renaming, names: seq<string>): nat {
    match FirstPath(r.was, names) case Some(j) => |r.was[j]| case None => 0
  }

  lemma SameColumn(cols: seq<string>, a: string, b: string)
    requires Lower(a) == Lower(b)
    ensures HasColumn(cols, a) == HasColumn(cols, b)
  {
  }

  lemma LowerPrefix(names: seq<string>, n: nat, i: nat)
    requires i < n <= |names|
    ensures LowerAll(names[..n])[i] == Lower(names[i])
  {
  }

  /** A new qualifier of the renamed item is not the old names up to there. */
  lemma NovelMisses(r: Renaming, e: Entry, names: seq<string>, n: nat)
    requires CleanNames(r, names) && Source(r, e) && 0 < n < |names|
    ensures LowerAll(names[..n]) !in Now(e).paths
  {
    hide CleanNames;
    LowerPrefix(names, n, n - 1);
    NotNovel(r, names, n - 1);
  }

  lemma NotNovel(r: Renaming, names: seq<string>, i: nat)
    requires CleanNames(r, names) && i + 1 < |names|
    ensures Lower(names[i]) != r.novel
  {
    LowerPrefix(names, |names| - 1, i);
    assert LowerAll(names[..|names| - 1])[i] in LowerAll(names[..|names| - 1]);
  }

  /** Kept names: another item claims them as before, the renamed one only without a qualifier. */
  lemma KeptClaim(r: Renaming, e: Entry, names: seq<string>, out: seq<string>, n: nat)
    requires Lawful(r) && CleanNames(r, names) && (Source(r, e) || Unchanged(r, e))
    requires LowerAll(out) == LowerAll(names) && n < |names|
    ensures Claims(Now(e), out, n) == (Claims(Was(e), names, n) && (Source(r, e) ==> n == 0))
  {
    hide CleanNames, Lawful, LowerAll, Lower, HasColumn;
    PrefixLower(out, names, n);
    SameColumn(e.cols, out[n], names[n]);
    if Source(r, e) {
      if n > 0 {
        CleanUpToCase(r, names, out);
        NovelMisses(r, e, out, n);
      }
    } else {
      SamePaths(r, e);
    }
  }

  lemma CleanUpToCase(r: Renaming, names: seq<string>, out: seq<string>)
    requires CleanNames(r, names) && LowerAll(out) == LowerAll(names)
    ensures CleanNames(r, out)
  {
    assert |out| == |LowerAll(out)| == |names|;
    if names != [] { PrefixLower(out, names, |names| - 1); }
  }

  /** A qualifier of another item is not spelled with the novel name. */
  lemma OtherPath(r: Renaming, e: Entry, names: seq<string>, n: nat, i: nat)
    requires Unchanged(r, e) && i < n <= |names| && Lower(names[i]) == r.novel
    ensures LowerAll(names[..n]) !in LowerPaths(e.before)
  {
    LowerPrefix(names, n, i);
    assert LowerAll(names[..n])[i] in LowerAll(names[..n]);
  }

  lemma Lengths(r: Renaming, j: nat)
    requires Lawful(r) && j < |r.was|
    ensures |r.now[j]| == |r.was[j]| > 0
    ensures r.was[j][|r.was[j]| - 1] != r.novel == r.now[j][|r.now[j]| - 1]
    ensures r.was[j] in r.was && r.now[j] in r.now
  {
  }

  lemma ReachesPrefix(path: seq<string>, names: seq<string>)
    requires Reaches(path, names)
    ensures |names| > |path| && LowerAll(names[..|path|]) == path
  {
  }

  /** What a renamed reference looks like, name by name. */
  lemma RenamedNames(r: Renaming, names: seq<string>, out: seq<string>)
    requires Lawful(r) && RenamedFirst(r, names, out)
    ensures var k := Taken(r, names);
            && r.was != [] && 0 < k < |names| && |out| == |names| && out[k..] == names[k..]
            && Lower(out[k - 1]) == r.novel != Lower(names[k - 1])
            && LowerAll(out[..k]) in r.now && LowerAll(names[..k]) in r.was
  {
    hide FirstPath, Reaches, Lawful, LowerAll, Lower;
    var j := FirstPath(r.was, names).value;
    var k := |r.was[j]|;
    Lengths(r, j);
    ReachesPrefix(r.was[j], names);
    LowerPrefix(out, k, k - 1);
    LowerPrefix(names, k, k - 1);
  }

  /** Renamed names: no item claims them by a longer qualifier, and only the renamed one by the new qualifier. */
  lemma RenamedClaim(r: Renaming, e: Entry, names: seq<string>, out: seq<string>, n: nat)
    requires Lawful(r) && CleanNames(r, names) && (Source(r, e) || Unchanged(r, e))
    requires RenamedFirst(r, names, out) && Taken(r, names) <= n < |names|
    ensures n > Taken(r, names) ==> !Claims(Now(e), out, n)
    ensures n == Taken(r, names) ==> Claims(Now(e), out, n) == (Source(r, e) && Claims(Was(e), names, n))
  {
    hide Lawful, LowerAll, HasColumn, CleanNames, Unchanged, RenamedFirst, FirstPath;
    var k := Taken(r, names);
    RenamedNames(r, names, out);
    assert out[n] == out[k..][n - k] == names[k..][n - k] == names[n];
    if Source(r, e) {
      if n > k { LongerMisses(r, e, names, out, n); }
    } else {
      OtherRenamed(r, e, names, out, n);
    }
  }

  lemma LongerMisses(r: Renaming, e: Entry, names: seq<string>, out: seq<string>, n: nat)
    requires CleanNames(r, names) && Source(r, e) && 0 < n < |names| && |out| == |names|
    requires out[n - 1] == names[n - 1]
    ensures LowerAll(out[..n]) !in Now(e).paths
  {
    hide CleanNames;
    LowerPrefix(out, n, n - 1);
    NotNovel(r, names, n - 1);
  }

  lemma OtherRenamed(r: Renaming, e: Entry, names: seq<string>, out: seq<string>, n: nat)
    requires Lawful(r) && CleanNames(r, names) && Unchanged(r, e) && RenamedFirst(r, names, out)
    requires Taken(r, names) <= n < |names|
    ensures LowerAll(out[..n]) !in Now(e).paths
  {
    hide Lawful, LowerAll, Unchanged, RenamedFirst, FirstPath;
    RenamedNames(r, names, out);
    OtherPath(r, e, out, n, Taken(r, names) - 1);
    SamePaths(r, e);
  }

  lemma SamePaths(r: Renaming, e: Entry)
    requires Unchanged(r, e)
    ensures e.after == e.before
  {
  }

  // ---------------------------------------------------------------- one scope, before and after

  lemma ItemsAt(es: seq<Entry>, i: nat)
    requires i < |es|
    ensures BeforeItems(es)[i] == Was(es[i]) && AfterItems(es)[i] == Now(es[i])
  {
  }

  lemma KeptAt(r: Renaming, es: seq<Entry>, names: seq<string>, out: seq<string>, n: nat)
    requires Lawful(r) && CleanNames(r, names) && Known(r, es)
    requires LowerAll(out) == LowerAll(names) && n < |names|
    ensures var was, now := ClaimAt(BeforeItems(es), names, n), ClaimAt(AfterItems(es), out, n);
            && (was.None? ==> now.None?)
            && (was.Some? ==> if n == 0 || !Source(r, es[was.value]) then now == was else now != was)
  {
    hide Lawful, CleanNames, LowerAll, Claims, ClaimAt, Source, Unchanged, BeforeItems, AfterItems;
    forall i | 0 <= i < |es|
      ensures BeforeItems(es)[i] == Was(es[i]) && AfterItems(es)[i] == Now(es[i])
      ensures Claims(Now(es[i]), out, n) == (Claims(Was(es[i]), names, n) && (Source(r, es[i]) ==> n == 0))
    {
      ItemsAt(es, i);
      assert es[i] in es;
      KeptClaim(r, es[i], names, out, n);
      Exclusive(r, es[i]);
    }
  }

  lemma Exclusive(r: Renaming, e: Entry)
    requires Lawful(r)
    ensures !(Source(r, e) && Unchanged(r, e))
  {
    if Source(r, e) {
      assert r.now[0] in r.now && r.now[0] in LowerPaths(e.after);
      assert r.now[0][|r.now[0]| - 1] in r.now[0];
    }
  }

  lemma {:induction false} KeptIn(r: Renaming, es: seq<Entry>, names: seq<string>, out: seq<string>, n: nat)
    requires Lawful(r) && CleanNames(r, names) && Known(r, es)
    requires LowerAll(out) == LowerAll(names) && n < |names|
    ensures var was, now := ClaimIn(BeforeItems(es), names, n), ClaimIn(AfterItems(es), out, n);
            && (was.Unclaimed? ==> now.Unclaimed?)
            && (was.Claimed? ==> if was.used == 0 || !Source(r, es[was.item]) then now == was else now != was)
  {
    hide Lawful, CleanNames, LowerAll, Claims, ClaimAt, Source, Known;
    KeptAt(r, es, names, out, n);
    if n > 0 { KeptIn(r, es, names, out, n - 1); }
  }

  lemma RenamedAt(r: Renaming, es: seq<Entry>, names: seq<string>, out: seq<string>, n: nat)
    requires Lawful(r) && CleanNames(r, names) && Known(r, es)
    requires RenamedFirst(r, names, out) && Taken(r, names) <= n < |names|
    ensures var was, now := ClaimAt(BeforeItems(es), names, n), ClaimAt(AfterItems(es), out, n);
            && (n > Taken(r, names) ==> now.None?)
            && (n == Taken(r, names) && was.Some? && Source(r, es[was.value]) ==> now == was)
            && (n == Taken(r, names) && now.Some? ==> Source(r, es[now.value]))
  {
    hide Lawful, CleanNames, LowerAll, Claims, ClaimAt, Source, Unchanged, BeforeItems, AfterItems, RenamedFirst, Taken;
    forall i | 0 <= i < |es|
      ensures BeforeItems(es)[i] == Was(es[i]) && AfterItems(es)[i] == Now(es[i])
      ensures n > Taken(r, names) ==> !Claims(Now(es[i]), out, n)
      ensures n == Taken(r, names) ==> Claims(Now(es[i]), out, n) == (Source(r, es[i]) && Claims(Was(es[i]), names, n))
    {
      ItemsAt(es, i);
      assert es[i] in es;
      RenamedClaim(r, es[i], names, out, n);
    }
  }

  lemma {:induction false} RenamedIn(r: Renaming, es: seq<Entry>, names: seq<string>, out: seq<string>, n: nat)
    requires Lawful(r) && CleanNames(r, names) && Known(r, es)
    requires RenamedFirst(r, names, out) && n < |names|
    ensures var was, now, k := ClaimIn(BeforeItems(es), names, n), ClaimIn(AfterItems(es), out, n), Taken(r, names);
            && (now.Claimed? ==> now.used <= k && (now.used == k ==> Source(r, es[now.item])))
            && (was.Claimed? && was.used == k && Source(r, es[was.item]) ==> now == was)
  {
    hide Lawful, CleanNames, LowerAll, Claims, ClaimAt, Source, Known, RenamedFirst, Taken;
    if n >= Taken(r, names) { RenamedAt(r, es, names, out, n); }
    if n > 0 { RenamedIn(r, es, names, out, n - 1); }
  }

  // ---------------------------------------------------------------- rows by name

  lemma RowKept(r: Renaming, es: seq<Entry>, names: seq<string>, out: seq<string>)
    requires Lawful(r) && Known(r, es) && LowerAll(out) == LowerAll(names)
    ensures var was, now := RowAt(BeforeItems(es), names), RowAt(AfterItems(es), out);
            was.Some? ==> if Source(r, es[was.value]) then now != was else now == was
  {
    hide LowerAll, LowerPaths, Lawful, BeforeItems, AfterItems, RowAt, Source, Unchanged;
    var was := RowAt(BeforeItems(es), names);
    if was.Some? {
      var i, p := was.value, LowerAll(names);
      ItemsAt(es, i);
      assert es[i] in es;
      WasIsOther(r, es[i], p);
      forall j | 0 <= j < |es|
        ensures BeforeItems(es)[j] == Was(es[j]) && AfterItems(es)[j] == Now(es[j])
        ensures p in Now(es[j]).paths <==> p in Was(es[j]).paths && !Source(r, es[j])
      {
        ItemsAt(es, j);
        assert es[j] in es;
        KeptRow(r, es[j], p);
      }
    }
  }

  lemma KeptRow(r: Renaming, e: Entry, p: seq<string>)
    requires !Ends(p, r.novel) && (Source(r, e) || Unchanged(r, e))
    ensures p in Now(e).paths <==> p in Was(e).paths && !Source(r, e)
  {
  }

  lemma WasIsOther(r: Renaming, e: Entry, p: seq<string>)
    requires p in Was(e).paths && (Source(r, e) || Unchanged(r, e))
    ensures !Ends(p, r.novel)
  {
  }

  /** No row that the old names called is called by the renamed ones. */
  lemma RowRenamed(r: Renaming, es: seq<Entry>, names: seq<string>, out: seq<string>)
    requires Lawful(r) && CleanNames(r, names) && Known(r, es) && RenamedFirst(r, names, out)
    ensures var was := RowAt(BeforeItems(es), names); was.Some? ==> RowAt(AfterItems(es), out) != was
  {
    hide LowerAll, Lawful, BeforeItems, AfterItems, RenamedFirst, FirstPath, CleanNames, Source, Unchanged;
    var was := RowAt(BeforeItems(es), names);
    if was.Some? && RowAt(AfterItems(es), out) == was {
      var i := was.value;
      ItemsAt(es, i);
      assert es[i] in es;
      if Source(r, es[i]) { SourceRow(r, es[i], names, out); } else { OtherRow(r, es[i], names, out); }
      assert false;
    }
  }

  lemma SourceRow(r: Renaming, e: Entry, names: seq<string>, out: seq<string>)
    requires Lawful(r) && RenamedFirst(r, names, out) && Source(r, e) && LowerAll(names) in Was(e).paths
    ensures LowerAll(out) !in Now(e).paths
  {
    hide RenamedFirst, Lawful, Taken, FirstPath;
    RenamedNames(r, names, out);
    var k, n := Taken(r, names), |names|;
    assert out[n - 1] == out[k..][n - 1 - k] == names[k..][n - 1 - k] == names[n - 1];
    assert LowerAll(names)[n - 1] == Lower(names[n - 1]) && LowerAll(out)[n - 1] == Lower(out[n - 1]);
  }

  lemma OtherRow(r: Renaming, e: Entry, names: seq<string>, out: seq<string>)
    requires Lawful(r) && RenamedFirst(r, names, out) && Unchanged(r, e)
    ensures LowerAll(out) !in Now(e).paths
  {
    hide RenamedFirst, Lawful, Taken, Unchanged;
    RenamedNames(r, names, out);
    assert out[..|out|] == out;
    OtherPath(r, e, out, |out|, Taken(r, names) - 1);
    SamePaths(r, e);
  }

  // ---------------------------------------------------------------- what one scope makes of a reference

  lemma HereKept(r: Renaming, es: seq<Entry>, names: seq<string>, out: seq<string>)
    requires Lawful(r) && CleanNames(r, names) && Known(r, es)
    requires LowerAll(out) == LowerAll(names) && names != []
    ensures |out| == |names|
    ensures match Here(BeforeItems(es), names)
            case Column(_, i, n) => (Here(AfterItems(es), out) == Column(0, i, n)) == (n == 0 || !Source(r, es[i]))
            case Row(_, i) => (Here(AfterItems(es), out) == Row(0, i)) == !Source(r, es[i])
            case Lost => true
  {
    hide Lawful, CleanNames, LowerAll, ClaimIn, RowAt, Source, Known;
    assert |out| == |LowerAll(out)| == |names|;
    KeptIn(r, es, names, out, |names| - 1);
    RowKept(r, es, names, out);
  }

  lemma HereRenamed(r: Renaming, es: seq<Entry>, names: seq<string>, out: seq<string>)
    requires Lawful(r) && CleanNames(r, names) && Known(r, es) && RenamedFirst(r, names, out)
    ensures names != [] && |out| == |names|
    ensures match Here(BeforeItems(es), names)
            case Column(_, i, n) =>
              && (n == Taken(r, names) && Source(r, es[i]) ==> Here(AfterItems(es), out) == Column(0, i, n))
              && (Here(AfterItems(es), out) == Column(0, i, n) ==>
                    n < Taken(r, names) || (n == Taken(r, names) && Source(r, es[i])))
            case Row(_, i) => Here(AfterItems(es), out) != Row(0, i)
            case Lost => true
  {
    hide Lawful, CleanNames, LowerAll, ClaimIn, RowAt, Source, Known, RenamedFirst, Taken;
    RenamedNames(r, names, out);
    RenamedIn(r, es, names, out, |names| - 1);
    RowRenamed(r, es, names, out);
  }

  // ---------------------------------------------------------------- the same reference

  /** Resolved to the same thing, with the same names left over up to case. */
  ghost predicate SameSpot(seen: seq<seq<Entry>>, names: seq<string>, out: seq<string>) {
    var was := Resolve(Befores(seen), names);
    && |out| == |names| && Resolve(Afters(seen), out) == was
    && match was
       case Column(_, _, n) => LowerAll(out[n..]) == LowerAll(names[n..])
       case Row(_, _) => true
       case Lost => LowerAll(out) == LowerAll(names)
  }

  /** The new reference denotes what the old one denoted, under the same label. */
  ghost predicate SameReference(seen: seq<seq<Entry>>, names: seq<string>, out: seq<string>) {
    SameSpot(seen, names, out) && (names != [] ==> out[|out| - 1] == names[|names| - 1])
  }

  lemma Shift(seen: seq<seq<Entry>>)
    requires seen != []
    ensures Befores(seen)[0] == BeforeItems(seen[0]) && Afters(seen)[0] == AfterItems(seen[0])
    ensures Befores(seen)[1..] == Befores(seen[1..]) && Afters(seen)[1..] == Afters(seen[1..])
  {
  }

  /** The first scope decides, if it resolves the old names. */
  lemma SpotHere(seen: seq<seq<Entry>>, names: seq<string>, out: seq<string>)
    requires seen != [] && names != [] && |out| == |names| && Here(BeforeItems(seen[0]), names) != Lost
    ensures var h := Here(BeforeItems(seen[0]), names);
            SameSpot(seen, names, out) <==>
              && Here(AfterItems(seen[0]), out) == h
              && (h.Column? ==> LowerAll(out[h.used..]) == LowerAll(names[h.used..]))
  {
    hide Here, LowerAll, BeforeItems, AfterItems;
    Shift(seen);
  }

  /** A nearer scope that resolves the new names only loses the reference. */
  lemma SpotNearer(seen: seq<seq<Entry>>, names: seq<string>, out: seq<string>)
    requires seen != [] && names != [] && |out| == |names|
    requires Here(BeforeItems(seen[0]), names) == Lost != Here(AfterItems(seen[0]), out)
    ensures !SameSpot(seen, names, out)
  {
    hide Here, LowerAll, BeforeItems, AfterItems;
    Shift(seen);
  }

  /** Otherwise the scopes around it decide. */
  lemma SpotOuter(seen: seq<seq<Entry>>, names: seq<string>, out: seq<string>)
    requires seen != [] && names != [] && |out| == |names|
    requires Here(BeforeItems(seen[0]), names) == Lost == Here(AfterItems(seen[0]), out)
    ensures SameSpot(seen, names, out) <==> SameSpot(seen[1..], names, out)
  {
    hide Here, LowerAll, BeforeItems, AfterItems;
    Shift(seen);
  }

  lemma SpotNowhere(names: seq<string>, out: seq<string>)
    requires |out| == |names|
    ensures SameSpot([], names, out) <==> LowerAll(out) == LowerAll(names)
  {
    hide LowerAll;
    assert Befores([]) == [] && Afters([]) == [];
  }

  // ---------------------------------------------------------------- the exact condition

  /** How many names the walk takes for the source. */
  function WalkTakes(r: Renaming, ws: seq<Entry>, names: seq<string>): nat {
    if ClaimsSource(r, ws, names) then Taken(r, names) else 0
  }

  /** How many names stand for the source in SQL: a qualifier of it, or all of them for its row. */
  function SourceTakes(r: Renaming, seen: seq<seq<Entry>>, names: seq<string>): nat {
    if seen == [] || names == [] then 0
    else match Here(BeforeItems(seen[0]), names)
      case Column(_, i, n) => if Source(r, seen[0][i]) then n else 0
      case Row(_, i) => if Source(r, seen[0][i]) then |names| else 0
      case Lost => SourceTakes(r, seen[1..], names)
  }

  /** A scope nearer than the one that resolves the old names resolves the new ones. */
  predicate Captured(seen: seq<seq<Entry>>, names: seq<string>, out: seq<string>) {
    seen != [] && names != [] && out != [] && Here(BeforeItems(seen[0]), names) == Lost
    && (Here(AfterItems(seen[0]), out) != Lost || Captured(seen[1..], names, out))
  }

  /**
   * The walk and SQL take different numbers of the names for the source, or a nearer scope claims what
   * the walk makes of them.
   */
  predicate Misclaimed(r: Renaming, ws: seq<Entry>, seen: seq<seq<Entry>>, names: seq<string>) {
    WalkTakes(r, ws, names) != SourceTakes(r, seen, names) || Captured(seen, names, RewriteNames(names, Flat(ws)))
  }

  lemma {:induction false} KeptScopes(r: Renaming, seen: seq<seq<Entry>>, names: seq<string>, out: seq<string>)
    requires Lawful(r) && CleanNames(r, names) && AllKnown(r, seen) && LowerAll(out) == LowerAll(names)
    ensures |out| == |names|
    ensures SameSpot(seen, names, out) <==> SourceTakes(r, seen, names) == 0 && !Captured(seen, names, out)
    decreases |seen|
  {
    hide Lawful, CleanNames, LowerAll, Here, Source, Known, SameSpot, BeforeItems, AfterItems;
    assert |out| == |LowerAll(out)| == |names|;
    if names == [] {
      NoNames(seen, out);
    } else if seen == [] {
      SpotNowhere(names, out);
    } else {
      assert seen[0] in seen;
      HereKept(r, seen[0], names, out);
      var h := Here(BeforeItems(seen[0]), names);
      if h != Lost {
        if h.Column? { PrefixLower(out, names, h.used); }
        SpotHere(seen, names, out);
      } else if Here(AfterItems(seen[0]), out) != Lost {
        SpotNearer(seen, names, out);
      } else {
        SpotOuter(seen, names, out);
        KeptScopes(r, seen[1..], names, out);
      }
    }
  }

  lemma NoNames(seen: seq<seq<Entry>>, out: seq<string>)
    requires out == []
    ensures SameSpot(seen, [], out)
  {
  }

  lemma {:induction false} RenamedScopes(r: Renaming, seen: seq<seq<Entry>>, names: seq<string>, out: seq<string>)
    requires Lawful(r) && CleanNames(r, names) && AllKnown(r, seen) && RenamedFirst(r, names, out)
    ensures SameSpot(seen, names, out) <==>
              SourceTakes(r, seen, names) == Taken(r, names) && !Captured(seen, names, out)
    decreases |seen|
  {
    hide Lawful, CleanNames, LowerAll, Here, Source, Known, SameSpot, BeforeItems, AfterItems, RenamedFirst, Taken;
    RenamedNames(r, names, out);
    if seen == [] {
      SpotNowhere(names, out);
      RenamedApart(r, names, out, 0);
      assert names[0..] == names && out[0..] == out;
    } else {
      assert seen[0] in seen;
      HereRenamed(r, seen[0], names, out);
      var h := Here(BeforeItems(seen[0]), names);
      if h != Lost {
        SpotHere(seen, names, out);
        if h.Column? && h.used < Taken(r, names) { RenamedApart(r, names, out, h.used); }
      } else if Here(AfterItems(seen[0]), out) != Lost {
        SpotNearer(seen, names, out);
      } else {
        SpotOuter(seen, names, out);
        RenamedScopes(r, seen[1..], names, out);
      }
    }
  }

  /** A renamed reference has other names where the qualifier ended. */
  lemma RenamedApart(r: Renaming, names: seq<string>, out: seq<string>, n: nat)
    requires Lawful(r) && RenamedFirst(r, names, out) && n < Taken(r, names)
    ensures n <= |out| == |names| && LowerAll(out[n..]) != LowerAll(names[n..])
  {
    hide RenamedFirst, Lawful, Taken;
    RenamedNames(r, names, out);
    var k := Taken(r, names);
    assert LowerAll(out[n..])[k - 1 - n] == Lower(out[k - 1]) && LowerAll(names[n..])[k - 1 - n] == Lower(names[k - 1]);
  }

  /**
   * The exact condition: rewritten by the items that the walk has bound, a reference denotes what it
   * denoted in the scopes that SQL sees if and only if it is not misclaimed.
   */
  lemma ReferenceStays(r: Renaming, ws: seq<Entry>, seen: seq<seq<Entry>>, names: seq<string>)
    requires Lawful(r) && CleanNames(r, names) && Settled(r, ws) && AllKnown(r, seen)
    ensures SameReference(seen, names, RewriteNames(names, Flat(ws))) <==> !Misclaimed(r, ws, seen, names)
  {
    hide Lawful, CleanNames, LowerAll, Known, SameSpot, RenamedFirst, ClaimsSource, SourceTakes, Captured;
    var out := RewriteNames(names, Flat(ws));
    RewriteTakes(r, ws, names);
    if ClaimsSource(r, ws, names) { RenamedScopes(r, seen, names, out); } else { KeptScopes(r, seen, names, out); }
  }

  // ---------------------------------------------------------------- stars

  /** The qualifier of a star names an item of the own FROM clause. */
  ghost predicate SameStar(es: seq<Entry>, q: seq<string>, out: seq<string>) {
    var was := RowAt(BeforeItems(es), q);
    |out| == |q| && RowAt(AfterItems(es), out) == was && (was.None? ==> LowerAll(out) == LowerAll(q))
  }

  /** How many names of a star's qualifier stand for the source: all, or none. */
  function StarTakes(r: Renaming, es: seq<Entry>, q: seq<string>): nat {
    match RowAt(BeforeItems(es), q) case Some(i) => if Source(r, es[i]) then |q| else 0 case None => 0
  }

  lemma StarKept(r: Renaming, es: seq<Entry>, q: seq<string>, out: seq<string>)
    requires Lawful(r) && CleanNames(r, q + ["*"]) && Known(r, es) && q != [] && LowerAll(out) == LowerAll(q)
    ensures SameStar(es, q, out) <==> StarTakes(r, es, q) == 0
  {
    hide Lawful, LowerAll, Source;
    assert |out| == |LowerAll(out)| == |q|;
    RowKept(r, es, q, out);
    var was := RowAt(BeforeItems(es), q);
    if was.None? {
      forall i | 0 <= i < |es| ensures LowerAll(out) !in AfterItems(es)[i].paths {
        ItemsAt(es, i);
        assert es[i] in es;
        if Source(r, es[i]) { StarNovel(r, es[i], q); } else { SamePaths(r, es[i]); }
      }
    }
  }

  lemma StarNovel(r: Renaming, e: Entry, q: seq<string>)
    requires Lawful(r) && CleanNames(r, q + ["*"]) && Source(r, e) && q != []
    ensures LowerAll(q) !in Now(e).paths
  {
    var names := q + ["*"];
    assert names[..|q|] == q;
    NovelMisses(r, e, names, |q|);
  }

  lemma StarRenamed(r: Renaming, es: seq<Entry>, q: seq<string>, out: seq<string>)
    requires Lawful(r) && CleanNames(r, q + ["*"]) && Known(r, es) && q != [] && |out| == |q|
    requires RenamedFirst(r, q + ["*"], out + ["*"])
    ensures SameStar(es, q, out) <==> StarTakes(r, es, q) == Taken(r, q + ["*"])
  {
    hide Lawful, LowerAll, Source, Unchanged, RenamedFirst, Taken, CleanNames;
    var names, n, k := q + ["*"], |q|, Taken(r, q + ["*"]);
    RenamedNames(r, names, out + ["*"]);
    assert names[..n] == q && (out + ["*"])[..n] == out;
    StarOther(r, q, out);
    forall i | 0 <= i < |es|
      ensures !Source(r, es[i]) ==> LowerAll(out) !in AfterItems(es)[i].paths
      ensures Source(r, es[i]) ==> (LowerAll(out) in AfterItems(es)[i].paths <==> k == n)
      ensures Source(r, es[i]) && k == n ==> LowerAll(q) in BeforeItems(es)[i].paths
    {
      ItemsAt(es, i);
      assert es[i] in es;
      if Source(r, es[i]) { StarSource(r, es[i], q, out); } else { OtherRenamed(r, es[i], names, out + ["*"], n); }
    }
    assert LowerAll(out) != LowerAll(q);
  }

  lemma StarOther(r: Renaming, q: seq<string>, out: seq<string>)
    requires Lawful(r) && |out| == |q| && RenamedFirst(r, q + ["*"], out + ["*"])
    ensures LowerAll(out) != LowerAll(q)
  {
    hide Lawful, RenamedFirst, Taken;
    RenamedNames(r, q + ["*"], out + ["*"]);
    var k := Taken(r, q + ["*"]);
    assert LowerAll(out)[k - 1] == Lower(out[k - 1]) && LowerAll(q)[k - 1] == Lower(q[k - 1]);
    assert (out + ["*"])[k - 1] == out[k - 1] && (q + ["*"])[k - 1] == q[k - 1];
  }

  lemma StarSource(r: Renaming, e: Entry, q: seq<string>, out: seq<string>)
    requires Lawful(r) && CleanNames(r, q + ["*"]) && q != [] && |out| == |q| && Source(r, e)
    requires RenamedFirst(r, q + ["*"], out + ["*"])
    ensures LowerAll(out) in Now(e).paths <==> Taken(r, q + ["*"]) == |q|
    ensures Taken(r, q + ["*"]) == |q| ==> LowerAll(q) in Was(e).paths
  {
    hide Lawful, LowerAll, RenamedFirst, Taken, CleanNames;
    var names, n, k := q + ["*"], |q|, Taken(r, q + ["*"]);
    RenamedNames(r, names, out + ["*"]);
    assert names[..n] == q && (out + ["*"])[..n] == out;
    if k < n {
      assert (out + ["*"])[n - 1] == (out + ["*"])[k..][n - 1 - k] == names[k..][n - 1 - k] == names[n - 1];
      LongerMisses(r, e, names, out + ["*"], n);
    }
  }

  /** The exact condition for the qualifier of a star. */
  lemma StarStays(r: Renaming, ws: seq<Entry>, es: seq<Entry>, q: seq<string>)
    requires Lawful(r) && q != [] && CleanNames(r, q + ["*"]) && Settled(r, ws) && Known(r, es)
    ensures RewriteStar(q, Flat(ws)) + ["*"] == RewriteNames(q + ["*"], Flat(ws)) && |RewriteStar(q, Flat(ws))| == |q|
    ensures SameStar(es, q, RewriteStar(q, Flat(ws))) <==> WalkTakes(r, ws, q + ["*"]) == StarTakes(r, es, q)
  {
    hide Lawful, CleanNames, LowerAll, Known, SameStar, RenamedFirst, ClaimsSource, StarTakes;
    RewriteTakes(r, ws, q + ["*"]);
    var names, all := q + ["*"], RewriteNames(q + ["*"], Flat(ws));
    var out := all[..|all| - 1];
    assert all == out + ["*"];
    if ClaimsSource(r, ws, names) {
      RenamedNames(r, names, all);
      StarRenamed(r, es, q, out);
    } else {
      PrefixLower(all, names, |q|);
      assert all[..|q|] == out && names[..|q|] == q;
      StarKept(r, es, q, out);
    }
  }
}
