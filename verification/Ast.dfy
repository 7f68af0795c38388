/** The read-query model of src/ast/query.rs. */
module Ast {
  import opened Common

  datatype Literal =
    | Str(text: string)
    | Bool(b: bool)
    | Int(i: int)
    | Float(r: real)
    | ListOf(items: seq<Literal>)
    | Object(fields: map<string, Literal>)
    | Null

  /** A node's or an edge's property, or the bound entity itself. */
  datatype PropertyRef = PropertyRef(alias: string, property: Option<string>)

  datatype Action = Find | Aggregate

  /** An empty label matches a node of any label. */
  datatype Node = Node(nodeLabel: string, alias: string, prefixLabel: Option<string>)

  datatype Direction = Out | In | Both

  datatype Depth = Depth(min: nat, max: nat)

  datatype EdgeTraversal = EdgeTraversal(
    fromAlias: string,
    edgeLabel: string,
    edgeAlias: string,
    direction: Direction,
    target: Node,
    depth: Option<Depth>,
    optional: bool)

  datatype ComparisonOp =
    | Eq | Neq | Gt | Gte | Lt | Lte | In_ | Contains | StartsWith | EndsWith
    | EqCi | NeqCi | InCi | ContainsCi | StartsWithCi | EndsWithCi

  datatype Predicate = Predicate(field: PropertyRef, op: ComparisonOp, value: Literal)

  datatype FilterExpression =
    | Pred(p: Predicate)
    | And(parts: List<FilterExpression>)
    | Or(parts: List<FilterExpression>)
    | Not(inner: FilterExpression)

  datatype AggregateFn = Count | Sum | Avg | Min | Max | Collect

  datatype ReturnClause =
    | Field(field: PropertyRef, name: Option<string>)
    | GroupKey(field: PropertyRef, column: string)
    | Aggregated(field: PropertyRef, func: AggregateFn, name: Option<string>)

  datatype SortOrder = Asc | Desc

  datatype SortRef = Projected(name: string) | Property(field: PropertyRef)

  datatype SortKey = SortKey(key: SortRef, order: SortOrder)

  datatype ReadQuery = ReadQuery(
    action: Action,
    start: Node,
    traversals: seq<EdgeTraversal>,
    filter: Option<FilterExpression>,
    projection: seq<ReturnClause>,
    groupBy: seq<PropertyRef>,
    sort: seq<SortKey>,
    limit: Option<nat>,
    distinct: bool)
}
