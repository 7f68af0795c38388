/** Output buffer and parameter table threaded through the builder (src/builder/cursor.rs). */
module Cursors {
  import opened Common
  import opened Ast
  import opened Cypher

  function ParamName(n: nat): string {
    "p" + Decimal(n)
  }

  lemma ParamNameInjective(m: nat, n: nat)
    requires ParamName(m) == ParamName(n)
    ensures m == n
  {
    assert ParamName(m)[1..] == Decimal(m) && ParamName(n)[1..] == Decimal(n);
    DecimalRoundTrip(m);
    DecimalRoundTrip(n);
  }

  class Cursor {
    var buf: seq<Token>
    var params: map<string, Literal>
    var nextId: nat
    /** Sort keys contributed by type handlers, behind the user's own. */
    var extraOrderBy: seq<(string, SortOrder)>

    constructor (contributed: seq<(string, SortOrder)>)
      ensures buf == [] && params == map[] && nextId == 0 && extraOrderBy == contributed
    {
      buf, params, nextId, extraOrderBy := [], map[], 0, contributed;
    }

    method BindValue(value: Literal) returns (placeholder: string)
      modifies this`params, this`nextId
      ensures placeholder == ParamName(old(nextId)) == "p" + Decimal(old(nextId)) && nextId == old(nextId) + 1
      ensures params == old(params)[placeholder := value]
    {
      placeholder := ParamName(nextId);
      nextId := nextId + 1;
      params := params[placeholder := value];
    }
  }
}
