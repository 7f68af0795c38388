/** The parts of a DSL query (src/dsl/schema.rs) its rewrites read and change. */
module Dsl {
  import opened Common
  import opened Ast

  datatype DslTraversal = DslTraversal(
    from: Option<string>,
    edgeLabel: string,
    edgeAlias: string,
    direction: Direction,
    targetLabel: string,
    targetAlias: string,
    depth: Option<Depth>,
    optional: bool)

  /** A filter on a field; a typed one names its type. */
  datatype DslFilter = DslFilter(field: string, fieldType: Option<string>)

  datatype ReturnItem =
    | FieldItem(field: string, name: Option<string>)
    | AggregateItem(field: string, name: Option<string>)
    | DatePartItem(field: string, name: Option<string>)

  datatype DslQuery = DslQuery(
    startLabel: string,
    start: string,
    traversals: seq<DslTraversal>,
    filters: seq<DslFilter>,
    items: seq<ReturnItem>,
    groupBy: seq<string>,
    distinct: bool)

  predicate IsAggregate(q: DslQuery) {
    q.groupBy != [] || exists i :: 0 <= i < |q.items| && q.items[i].AggregateItem?
  }

  /** A query rewritten in place. */
  class DslDocument {
    var query: DslQuery

    constructor (query: DslQuery)
      ensures this.query == query
    {
      this.query := query;
    }
  }
}
