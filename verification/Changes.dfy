/** Commit scopes: which relations a committed change invalidates, and the stamps that record it. */
module Changes {
  import opened Names

  /** A relation as stamps and scopes compare it. */
  type Key = (string, string)

  function Keys(rs: seq<Relation>): set<Key> {
    set r | r in rs :: KeyOf(r)
  }

  datatype Node = Node(relation: Relation, diagnostic: Option<string>, uncertain: bool)
  datatype Edge = Edge(source: Relation, target: Relation)
  datatype Graph = Graph(nodes: seq<Node>, edges: seq<Edge>)

  datatype Resource = GraphResource | Tabs | SqlCells | Project | SqlTypes

  datatype Scope = Scope(all: bool, objects: seq<Relation>, resources: seq<Resource>, analyses: seq<nat>)

  // ---------------------------------------------------------------- reachability

  predicate Flagged(n: Node) {
    n.diagnostic.Some? || n.uncertain
  }

  predicate Links(gs: seq<Graph>, a: Key, b: Key) {
    exists g, e | g in gs && e in g.edges :: KeyOf(e.source) == a && KeyOf(e.target) == b
  }

  /** A chain of dependencies, each in one of the graphs. */
  ghost predicate Path(gs: seq<Graph>, p: seq<Key>) {
    |p| > 0 && forall i | 0 <= i < |p| - 1 :: Links(gs, p[i], p[i + 1])
  }

  ghost predicate Reachable(gs: seq<Graph>, from: set<Key>, k: Key) {
    exists p :: Path(gs, p) && p[0] in from && p[|p| - 1] == k
  }

  /** Where invalidation starts: what changed, and what could not be analysed. */
  function Seeds(objects: seq<Relation>, gs: seq<Graph>): set<Key> {
    Keys(objects) + set g, n | g in gs && n in g.nodes && Flagged(n) :: KeyOf(n.relation)
  }

  lemma ReachableSeed(gs: seq<Graph>, from: set<Key>, k: Key)
    requires k in from
    ensures Reachable(gs, from, k)
  {
    assert Path(gs, [k]);
  }

  lemma ReachableLink(gs: seq<Graph>, from: set<Key>, a: Key, b: Key)
    requires Reachable(gs, from, a) && Links(gs, a, b)
    ensures Reachable(gs, from, b)
  {
    var p :| Path(gs, p) && p[0] in from && p[|p| - 1] == a;
    var q := p + [b];
    forall i | 0 <= i < |q| - 1 ensures Links(gs, q[i], q[i + 1]) {
      if i < |p| - 1 { assert q[i] == p[i] && q[i + 1] == p[i + 1]; }
    }
    assert Path(gs, q) && q[0] in from && q[|q| - 1] == b;
  }

  ghost predicate Closed(gs: seq<Graph>, s: set<Key>) {
    forall a, b | a in s && Links(gs, a, b) :: b in s
  }

  /** A closed set holds everything reachable from its members. */
  lemma {:induction false} PathStays(gs: seq<Graph>, s: set<Key>, p: seq<Key>)
    requires Closed(gs, s) && Path(gs, p) && p[0] in s
    ensures p[|p| - 1] in s
    decreases |p|
  {
    hide Links;
    if |p| > 1 {
      var q := p[..|p| - 1];
      forall i | 0 <= i < |q| - 1 ensures Links(gs, q[i], q[i + 1]) { assert Links(gs, p[i], p[i + 1]); }
      PathStays(gs, s, q);
      assert Links(gs, p[|p| - 2], p[|p| - 1]);
    }
  }

  /** Every member reachable and the set closed: nothing more and nothing less than what is reachable. */
  lemma ClosureIsReachable(gs: seq<Graph>, from: set<Key>, s: set<Key>)
    requires from <= s && Closed(gs, s) && AllReachable(gs, from, s)
    ensures forall k :: k in s <==> Reachable(gs, from, k)
  {
    hide Closed, Links;
    forall k | Reachable(gs, from, k) ensures k in s {
      var p :| Path(gs, p) && p[0] in from && p[|p| - 1] == k;
      PathStays(gs, s, p);
    }
  }

  // ---------------------------------------------------------------- the fixpoint

  /** The new list starts with the old one, and names nothing twice beyond it. */
  ghost predicate Grown(before: seq<Relation>, after: seq<Relation>) {
    && before <= after
    && forall i, j | 0 <= i < j < |after| && |before| <= j :: KeyOf(after[i]) != KeyOf(after[j])
  }

  ghost predicate AllReachable(gs: seq<Graph>, from: set<Key>, s: set<Key>) {
    forall k | k in s :: Reachable(gs, from, k)
  }

  lemma GrownOn(a: seq<Relation>, b: seq<Relation>, c: seq<Relation>)
    requires Grown(a, b) && Grown(b, c)
    ensures Grown(a, c)
  {
    forall i, j | 0 <= i < j < |c| && |a| <= j ensures KeyOf(c[i]) != KeyOf(c[j]) {
      if j < |b| { assert c[i] == b[i] && c[j] == b[j]; }
    }
  }

  /** Growing adds as many keys as entries. */
  lemma {:induction false} GrownCount(before: seq<Relation>, after: seq<Relation>)
    requires Grown(before, after)
    ensures Keys(before) <= Keys(after) && |Keys(after)| - |Keys(before)| == |after| - |before|
    decreases |after|
  {
    if |after| > |before| {
      var n := |after| - 1;
      var rest := after[..n];
      assert forall i | 0 <= i < n :: rest[i] == after[i];
      GrownCount(before, rest);
      assert after == rest + [after[n]];
      assert Keys(after) == Keys(rest) + {KeyOf(after[n])};
      assert KeyOf(after[n]) !in Keys(rest);
    } else {
      assert before == after;
    }
  }

  method Include(objects: seq<Relation>, relation: Relation) returns (r: seq<Relation>)
    ensures Grown(objects, r) && Keys(r) == Keys(objects) + {KeyOf(relation)}
  {
    var i := 0;
    while i < |objects|
      invariant i <= |objects| && forall j | 0 <= j < i :: KeyOf(objects[j]) != KeyOf(relation)
    {
      if SameRelation(objects[i], relation) { assert objects[i] in objects; return objects; }
      i := i + 1;
    }
    r := objects + [relation];
  }

  /** Add the nodes that could not be analysed. */
  method IncludeFlagged(graph: Graph, objects: seq<Relation>) returns (r: seq<Relation>)
    ensures Grown(objects, r)
    ensures Keys(r) == Keys(objects) + set n | n in graph.nodes && Flagged(n) :: KeyOf(n.relation)
  {
    r := objects;
    var i := 0;
    while i < |graph.nodes|
      invariant i <= |graph.nodes| && Grown(objects, r)
      invariant Keys(r) == Keys(objects) + set n | n in graph.nodes[..i] && Flagged(n) :: KeyOf(n.relation)
    {
      assert graph.nodes[..i + 1] == graph.nodes[..i] + [graph.nodes[i]];
      if Flagged(graph.nodes[i]) {
        var next := Include(r, graph.nodes[i].relation);
        GrownOn(objects, r, next);
        r := next;
      }
      i := i + 1;
    }
    assert graph.nodes[..i] == graph.nodes;
  }

  lemma GrownItself(a: seq<Relation>)
    ensures Grown(a, a)
  {
  }

  lemma GrownSize(a: seq<Relation>, b: seq<Relation>)
    requires Grown(a, b)
    ensures |a| <= |b| && (|a| == |b| ==> a == b)
  {
  }

  lemma NamesKey(rs: seq<Relation>, r: Relation)
    ensures (exists o | o in rs :: SameRelation(o, r)) <==> KeyOf(r) in Keys(rs)
  {
  }

  lemma EdgeReaches(gs: seq<Graph>, from: set<Key>, g: Graph, e: Edge, s: set<Key>)
    requires g in gs && e in g.edges && KeyOf(e.source) in s && AllReachable(gs, from, s)
    ensures AllReachable(gs, from, s + {KeyOf(e.target)}) && KeyOf(e.target) in Targets(gs)
  {
    hide Reachable;
    assert Links(gs, KeyOf(e.source), KeyOf(e.target));
    ReachableLink(gs, from, KeyOf(e.source), KeyOf(e.target));
  }

  /** One pass over the edges of a graph; if it adds nothing, no edge leads out. */
  method SweepGraph(ghost gs: seq<Graph>, ghost from: set<Key>, graph: Graph,
                    objects: seq<Relation>) returns (r: seq<Relation>)
    requires graph in gs && AllReachable(gs, from, Keys(objects))
    ensures Grown(objects, r) && AllReachable(gs, from, Keys(r)) && Keys(r) <= Keys(objects) + Targets(gs)
    ensures |r| == |objects| ==> forall e | e in graph.edges && KeyOf(e.source) in Keys(objects) ::
              KeyOf(e.target) in Keys(objects)
  {
    hide Grown, AllReachable, Targets, KeyOf, Keys, SameRelation;
    r := objects;
    GrownItself(objects);
    var i := 0;
    while i < |graph.edges|
      invariant i <= |graph.edges| && Grown(objects, r) && AllReachable(gs, from, Keys(r))
                  && Keys(r) <= Keys(objects) + Targets(gs)
      invariant |r| == |objects| ==> forall j | 0 <= j < i ::
                  KeyOf(graph.edges[j].source) in Keys(objects) ==> KeyOf(graph.edges[j].target) in Keys(objects)
    {
      var e := graph.edges[i];
      GrownSize(objects, r);
      NamesKey(r, e.source);
      if exists o | o in r :: SameRelation(o, e.source) {
        EdgeReaches(gs, from, graph, e, Keys(r));
        var next := Include(r, e.target);
        GrownSize(r, next);
        GrownOn(objects, r, next);
        r := next;
      }
      i := i + 1;
    }
  }

  function Targets(gs: seq<Graph>): set<Key> {
    set g, e | g in gs && e in g.edges :: KeyOf(e.target)
  }

  /** One pass over all graphs. */
  method Sweep(gs: seq<Graph>, ghost from: set<Key>, objects: seq<Relation>) returns (r: seq<Relation>)
    requires AllReachable(gs, from, Keys(objects))
    ensures Grown(objects, r) && AllReachable(gs, from, Keys(r)) && Keys(r) <= Keys(objects) + Targets(gs)
    ensures |r| == |objects| ==> r == objects && Closed(gs, Keys(r))
  {
    hide AllReachable;
    r := objects;
    var i := 0;
    while i < |gs|
      invariant i <= |gs| && Grown(objects, r) && AllReachable(gs, from, Keys(r))
                  && Keys(r) <= Keys(objects) + Targets(gs)
      invariant |r| == |objects| ==>
                  forall g, e | g in gs[..i] && e in g.edges && KeyOf(e.source) in Keys(objects) ::
                    KeyOf(e.target) in Keys(objects)
    {
      assert gs[..i + 1] == gs[..i] + [gs[i]];
      var next := SweepGraph(gs, from, gs[i], r);
      GrownOn(objects, r, next);
      assert |r| == |objects| ==> r == objects;
      r := next;
      i := i + 1;
    }
    assert gs[..i] == gs;
  }

  /** Start from the changed objects and the nodes that could not be analysed. */
  method IncludeAllFlagged(gs: seq<Graph>, objects: seq<Relation>) returns (r: seq<Relation>)
    ensures Grown(objects, r) && Keys(r) == Seeds(objects, gs)
  {
    hide Grown;
    r := objects;
    GrownItself(objects);
    var i := 0;
    while i < |gs|
      invariant i <= |gs| && Grown(objects, r) && Keys(r) == Seeds(objects, gs[..i])
    {
      assert gs[..i + 1] == gs[..i] + [gs[i]];
      var next := IncludeFlagged(gs[i], r);
      GrownOn(objects, r, next);
      r := next;
      i := i + 1;
    }
    assert gs[..i] == gs;
  }

  lemma SeedsReach(gs: seq<Graph>, from: set<Key>)
    ensures AllReachable(gs, from, from)
  {
    hide Reachable;
    forall k | k in from ensures Reachable(gs, from, k) { ReachableSeed(gs, from, k); }
  }

  /** The scope of a change is exactly what can be reached from it along the dependencies before and after. */
  method Closure(gs: seq<Graph>, objects: seq<Relation>) returns (r: seq<Relation>)
    ensures Grown(objects, r)
    ensures forall k :: k in Keys(r) <==> Reachable(gs, Seeds(objects, gs), k)
  {
    hide Reachable, Closed, Grown, Keys, Seeds, AllReachable, Targets;
    r := IncludeAllFlagged(gs, objects);
    ghost var from := Seeds(objects, gs);
    SeedsReach(gs, from);
    var more := true;
    while more
      invariant Grown(objects, r) && from <= Keys(r) <= from + Targets(gs) && AllReachable(gs, from, Keys(r))
      invariant !more ==> Closed(gs, Keys(r))
      decreases |from + Targets(gs)| - |Keys(r)|, more
    {
      var next := Sweep(gs, from, r);
      GrownOn(objects, r, next);
      GrownCount(r, next);
      GrownSize(r, next);
      SubsetSize(Keys(r), from + Targets(gs));
      SubsetSize(Keys(next), from + Targets(gs));
      more := |next| != |r|;
      r := next;
    }
    ClosureIsReachable(gs, from, Keys(r));
  }

  // ---------------------------------------------------------------- stamps

  datatype Stamps = Stamps(broad: nat, sequence: nat, objects: map<Key, nat>)
  datatype MutationStamp = MutationStamp(broad: nat, own: nat)

  const FIRST := Stamps(0, 0, map[])

  function StampOf(s: Stamps, r: Relation): MutationStamp {
    MutationStamp(s.broad, if KeyOf(r) in s.objects then s.objects[KeyOf(r)] else 0)
  }

  /** A scope that says nothing is not published. */
  predicate Published(scope: Scope) {
    scope.all || scope.objects != [] || scope.resources != [] || scope.analyses != []
  }

  function AfterPublish(s: Stamps, scope: Scope): Stamps {
    if !Published(scope) then s
    else if scope.all then Stamps(s.sequence + 1, s.sequence + 1, map[])
    else Stamps(s.broad, s.sequence + 1, map k | k in s.objects.Keys + Keys(scope.objects) ::
                  if k in Keys(scope.objects) then s.sequence + 1 else s.objects[k])
  }

  function AfterAll(s: Stamps, scopes: seq<Scope>): Stamps {
    if scopes == [] then s else AfterPublish(AfterAll(s, scopes[..|scopes| - 1]), scopes[|scopes| - 1])
  }

  /** The scope is broad or names the relation. */
  predicate Touches(scope: Scope, r: Relation) {
    scope.all || exists o | o in scope.objects :: SameRelation(o, r)
  }

  predicate WellStamped(s: Stamps) {
    s.broad <= s.sequence && forall k | k in s.objects :: s.objects[k] <= s.sequence
  }

  function Latest(m: MutationStamp): nat {
    if m.broad < m.own then m.own else m.broad
  }

  lemma TouchesKey(scope: Scope, r: Relation)
    ensures Touches(scope, r) <==> scope.all || KeyOf(r) in Keys(scope.objects)
  {
  }

  /** A publication changes a relation's stamp exactly when it touches the relation, and then raises it. */
  lemma PublishStamps(s: Stamps, scope: Scope, r: Relation)
    requires WellStamped(s)
    ensures WellStamped(AfterPublish(s, scope))
    ensures !Touches(scope, r) ==> StampOf(AfterPublish(s, scope), r) == StampOf(s, r)
    ensures Touches(scope, r) ==> Latest(StampOf(AfterPublish(s, scope), r)) > Latest(StampOf(s, r))
  {
    TouchesKey(scope, r);
  }

  /** A scope that says something takes the next number, for everything if it is broad and else for its objects. */
  lemma PublishExactly(s: Stamps, scope: Scope, r: Relation)
    ensures var t := AfterPublish(s, scope);
            if !scope.all && |scope.objects| + |scope.resources| + |scope.analyses| == 0 then t == s
            else
              && t.sequence == s.sequence + 1
              && StampOf(t, r) ==
                 if scope.all then MutationStamp(t.sequence, 0)
                 else if exists o :: o in scope.objects && Same(o.schema, r.schema) && Same(o.name, r.name)
                   then MutationStamp(s.broad, t.sequence)
                 else StampOf(s, r)
  {
    TouchesKey(scope, r);
    if o :| o in scope.objects && Same(o.schema, r.schema) && Same(o.name, r.name) { assert SameRelation(o, r); }
  }

  lemma {:induction false} PublishAllStamps(s: Stamps, scopes: seq<Scope>, r: Relation)
    requires WellStamped(s)
    ensures WellStamped(AfterAll(s, scopes))
    ensures (forall c | c in scopes :: !Touches(c, r)) ==> StampOf(AfterAll(s, scopes), r) == StampOf(s, r)
    ensures (exists c | c in scopes :: Touches(c, r)) ==>
              Latest(StampOf(AfterAll(s, scopes), r)) > Latest(StampOf(s, r))
    decreases |scopes|
  {
    hide Touches, AfterPublish, WellStamped, StampOf;
    if scopes != [] {
      var n := |scopes| - 1;
      assert scopes == scopes[..n] + [scopes[n]];
      PublishAllStamps(s, scopes[..n], r);
      PublishStamps(AfterAll(s, scopes[..n]), scopes[n], r);
    }
  }

  /** Between two points of a run a relation's stamp is unchanged exactly if no publication in between touched it. */
  lemma StampUnchanged(earlier: seq<Scope>, later: seq<Scope>, r: Relation)
    ensures var s := AfterAll(FIRST, earlier);
            StampOf(AfterAll(s, later), r) == StampOf(s, r) <==> forall c | c in later :: !Touches(c, r)
  {
    hide Touches, AfterPublish, AfterAll, StampOf;
    PublishAllStamps(FIRST, earlier, r);
    PublishAllStamps(AfterAll(FIRST, earlier), later, r);
  }

  /** Commit boundaries update the stamps that editors check. */
  class Notifications {
    var broad: nat
    var sequence: nat
    var objects: map<Key, nat>

    ghost function State(): Stamps
      reads this
    {
      Stamps(broad, sequence, objects)
    }

    ghost predicate Valid()
      reads this
    {
      WellStamped(State())
    }

    constructor ()
      ensures State() == FIRST && Valid()
    {
      broad, sequence, objects := 0, 0, map[];
    }

    method Stamp(r: Relation) returns (m: MutationStamp)
      ensures m == StampOf(State(), r)
    {
      m := MutationStamp(broad, if KeyOf(r) in objects then objects[KeyOf(r)] else 0);
    }

    method Publish(scope: Scope)
      requires Valid()
      modifies this
      ensures Valid() && State() == AfterPublish(old(State()), scope)
    {
      if !Published(scope) { return; }
      sequence := sequence + 1;
      if scope.all {
        broad := sequence;
        objects := map[];
      } else {
        var i := 0;
        while i < |scope.objects|
          invariant i <= |scope.objects| && broad == old(broad) && sequence == old(sequence) + 1
          invariant objects.Keys == old(objects).Keys + Keys(scope.objects[..i])
          invariant forall k | k in objects :: objects[k] == if k in Keys(scope.objects[..i]) then sequence
                      else old(objects)[k]
        {
          assert scope.objects[..i + 1] == scope.objects[..i] + [scope.objects[i]];
          objects := objects[KeyOf(scope.objects[i]) := sequence];
          i := i + 1;
        }
        assert scope.objects[..i] == scope.objects;
      }
    }
  }

  // ---------------------------------------------------------------- commits

  /** A change that has not been committed, with the dependencies from before it. */
  datatype Pending = Pending(scope: Scope, before: Option<Graph>)

  predicate NeedsGraph(scope: Scope) {
    !scope.all && scope.objects != []
  }

  /** Reading the dependencies may fail, and then everything is invalidated. */
  function Begin(scope: Scope, graph: Option<Graph>): Pending {
    if !NeedsGraph(scope) then Pending(scope, None)
    else if graph.None? then Pending(scope.(all := true), None)
    else Pending(scope, graph)
  }

  function Graphs(before: Option<Graph>, after: Graph): seq<Graph> {
    (if before.Some? then [before.value] else []) + [after]
  }

  method Finish(p: Pending, after: Option<Graph>) returns (scope: Scope)
    ensures scope.resources == p.scope.resources && scope.analyses == p.scope.analyses
    ensures scope.all <==> p.scope.all || (p.scope.objects != [] && after.None?)
    ensures NeedsGraph(p.scope) && after.Some? ==>
              var gs := Graphs(p.before, after.value);
              && Grown(p.scope.objects, scope.objects)
              && forall k :: k in Keys(scope.objects) <==> Reachable(gs, Seeds(p.scope.objects, gs), k)
    ensures !(NeedsGraph(p.scope) && after.Some?) ==> scope.objects == p.scope.objects
  {
    scope := p.scope;
    if NeedsGraph(scope) {
      if after.Some? {
        var objects := Closure(Graphs(p.before, after.value), scope.objects);
        scope := scope.(objects := objects);
      } else {
        scope := scope.(all := true);
      }
    }
  }

  /** Where a change starts: at its objects, and at every node, before or after, that could not be analysed. */
  ghost predicate StartsAt(objects: seq<Relation>, before: Graph, after: Graph, k: Key) {
    || (exists o | o in objects :: KeyOf(o) == k)
    || exists n | n in before.nodes || n in after.nodes :: (n.uncertain || n.diagnostic.Some?) && KeyOf(n.relation) == k
  }

  /** Each relation of the chain is a target of the one before it, before or after the change. */
  ghost predicate Chain(before: Graph, after: Graph, p: seq<Key>) {
    p != [] && forall i | 0 <= i < |p| - 1 :: Leads(before, after, p[i], p[i + 1])
  }

  /** A dependency, before or after the change. */
  ghost predicate Leads(before: Graph, after: Graph, a: Key, b: Key) {
    exists e | e in before.edges || e in after.edges :: KeyOf(e.source) == a && KeyOf(e.target) == b
  }

  /** A chain leads here from where the change starts. */
  ghost predicate LedTo(objects: seq<Relation>, before: Graph, after: Graph, k: Key) {
    exists p :: Chain(before, after, p) && p[|p| - 1] == k && StartsAt(objects, before, after, p[0])
  }

  /**
   * What a change invalidates: everything if it says so, or names an object while the dependencies cannot be
   * read; otherwise, if it names an object, what a chain leads to from where it starts.
   */
  ghost predicate Invalidates(scope: Scope, before: Option<Graph>, after: Option<Graph>, r: Relation) {
    || scope.all
    || (scope.objects != []
        && (before.None? || after.None? || LedTo(scope.objects, before.value, after.value, KeyOf(r))))
  }

  lemma SeedsStart(objects: seq<Relation>, before: Graph, after: Graph)
    ensures forall k :: k in Seeds(objects, [before, after]) <==> StartsAt(objects, before, after, k)
  {
  }

  lemma PathsAreChains(before: Graph, after: Graph, p: seq<Key>)
    ensures Path([before, after], p) <==> Chain(before, after, p)
  {
    hide Links, Leads;
    forall i | 0 <= i < |p| - 1
      ensures Links([before, after], p[i], p[i + 1]) <==> Leads(before, after, p[i], p[i + 1])
    {
      LinksAreEdges(before, after, p[i], p[i + 1]);
    }
  }

  lemma LinksAreEdges(before: Graph, after: Graph, a: Key, b: Key)
    ensures Links([before, after], a, b) <==> Leads(before, after, a, b)
  {
    if e :| (e in before.edges || e in after.edges) && KeyOf(e.source) == a && KeyOf(e.target) == b {
      assert before in [before, after] && after in [before, after];
    }
  }

  lemma ReachedByChain(objects: seq<Relation>, before: Graph, after: Graph, k: Key)
    ensures Reachable([before, after], Seeds(objects, [before, after]), k) <==> LedTo(objects, before, after, k)
  {
    hide Path, Chain, Seeds, StartsAt;
    SeedsStart(objects, before, after);
    forall p ensures Path([before, after], p) <==> Chain(before, after, p) { PathsAreChains(before, after, p); }
    forall p | Path([before, after], p) ensures p != [] { NotEmptyPath([before, after], p); }
  }

  lemma NotEmptyPath(gs: seq<Graph>, p: seq<Key>)
    requires Path(gs, p)
    ensures p != []
  {
  }

  /**
   * A change that is abandoned leaves every stamp alone; a committed one changes the stamps of exactly the
   * relations that it invalidates.
   */
  method Commit(n: Notifications, scope: Scope, before: Option<Graph>, after: Option<Graph>, refreshed: bool,
                cancelled: bool, committed: bool)
    returns (ok: bool)
    requires n.Valid()
    modifies n
    ensures n.Valid()
    ensures ok == (refreshed && !cancelled && committed)
    ensures !ok ==> n.State() == old(n.State())
    ensures ok ==> forall r: Relation ::
              StampOf(n.State(), r) != StampOf(old(n.State()), r) <==> Invalidates(scope, before, after, r)
  {
    hide Reachable, LedTo, Seeds;
    if before.Some? && after.Some? {
      var b, a := before.value, after.value;
      forall k: Key
        ensures Reachable([b, a], Seeds(scope.objects, [b, a]), k) <==> LedTo(scope.objects, b, a, k)
      {
        ReachedByChain(scope.objects, b, a, k);
      }
    }
    var p := Begin(scope, before);
    assert before.Some? && after.Some? ==> Graphs(before, after.value) == [before.value, after.value];
    var final := Finish(p, after);
    if !refreshed || cancelled || !committed { return false; }
    n.Publish(final);
    forall r: Relation
      ensures StampOf(n.State(), r) != StampOf(old(n.State()), r) <==> Invalidates(scope, before, after, r)
    {
      PublishStamps(old(n.State()), final, r);
      TouchesKey(final, r);
    }
    return true;
  }

  /**
   * What depends on a changed relation, however indirectly, before or after the change, has a stale stamp
   * once the scope of that change is published, and keeps it stale whatever is published later.
   */
  lemma DependentsStale(earlier: seq<Scope>, later: seq<Scope>, gs: seq<Graph>, objects: seq<Relation>, scope: Scope,
                        changed: Relation, p: seq<Key>, r: Relation)
    requires scope.all || forall k :: k in Keys(scope.objects) <==> Reachable(gs, Seeds(objects, gs), k)
    requires changed in objects && Path(gs, p) && p[0] == KeyOf(changed) && p[|p| - 1] == KeyOf(r)
    ensures var s := AfterAll(FIRST, earlier);
            StampOf(AfterAll(s, [scope] + later), r) != StampOf(s, r)
  {
    hide AfterAll, AfterPublish, StampOf, Path;
    assert Reachable(gs, Seeds(objects, gs), KeyOf(r));
    TouchesKey(scope, r);
    assert scope in [scope] + later;
    StampUnchanged(earlier, [scope] + later, r);
  }
}
