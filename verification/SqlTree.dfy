/**
 * The part of DuckDB's serialized SELECT tree that name resolution depends on.
 *
 * One recursive type stands for the JSON objects: query nodes (Select, SetOp, Recursive), the
 * entries of a node's CTE map (Cte), FROM items (Base, Join, Sub, Op) and expressions (Ref, Star,
 * Op, Sub).  Sub is both a FROM subquery and a subquery expression, Op both a table function and
 * any other operator, exactly as the serialized tree reuses those shapes.
 */
module SqlTree {
  import opened Names

  datatype Tree =
    | Select(defs: seq<Tree>, from: Tree, clauses: seq<Tree>, tag: string)
    | SetOp(defs: seq<Tree>, op: string, left: Tree, right: Tree)
    | Recursive(defs: seq<Tree>, op: string, left: Tree, right: Tree)
    | Cte(key: string, query: Tree)
    | Base(catalog: string, schema: string, name: string, alias: string)
    | Join(kind: string, left: Tree, right: Tree, on: seq<Tree>)
    | Sub(query: Tree, alias: string)
    | Op(op: string, args: seq<Tree>, alias: string)
    | Ref(names: seq<string>, alias: string)
    | Star(qualifier: seq<string>)

  /** What a view's tree is read against; an absent catalogue is the empty one. */
  datatype Context = Context(database: string, schema: string, searchPath: seq<string>, catalogue: seq<Relation>)

  /** The trees directly inside a tree. */
  function Parts(t: Tree): (r: seq<Tree>)
    ensures forall c | c in r :: c < t
  {
    match t
    case Select(defs, from, clauses, _) => defs + [from] + clauses
    case SetOp(defs, _, left, right) => defs + [left, right]
    case Recursive(defs, _, left, right) => defs + [left, right]
    case Cte(_, query) => [query]
    case Base(_, _, _, _) => []
    case Join(_, left, right, on) => [left, right] + on
    case Sub(query, _) => [query]
    case Op(_, args, _) => args
    case Ref(_, _) => []
    case Star(_) => []
  }

  /** Does `p` hold at this tree and at every tree inside it? */
  ghost predicate Everywhere(t: Tree, p: Tree -> bool)
    decreases t
  {
    p(t) && forall c | c in Parts(t) :: Everywhere(c, p)
  }

  /** Schemas an identifier is looked up in: its own, or the view's, the default and the session path. */
  function Schemas(ctx: Context, schema: string): (r: seq<string>) {
    if schema == "" then [ctx.schema, "main"] + ctx.searchPath else [schema]
  }

  /** An unqualified name bound by an enclosing CTE. */
  predicate IsCte(b: Tree, ctes: set<string>)
    requires b.Base?
  {
    b.schema == "" && b.catalog == "" && Lower(b.name) in ctes
  }

  predicate IsLocal(b: Tree, ctx: Context)
    requires b.Base?
  {
    b.catalog == "" || Same(b.catalog, ctx.database)
  }

  /** The lower-cased CTE names that a node's definitions add. */
  function Keys(defs: seq<Tree>): (r: set<string>) {
    set d | d in defs && d.Cte? :: Lower(d.key)
  }

  lemma FirstKeys(defs: seq<Tree>)
    requires defs != []
    ensures Keys(defs) == Keys(defs[..1]) + Keys(defs[1..])
    ensures Keys(defs[..1]) == if defs[0].Cte? then {Lower(defs[0].key)} else {}
  {
    assert defs == defs[..1] + defs[1..] && defs[..1] == [defs[0]];
  }
}
