/** Showing the fields a query filters on (src/dsl/enrich.rs). */
module Enrich {
  import opened Common
  import opened Dsl

  const HIDDEN_PROPS: set<string> := {"_canonical", "entity_id", "primary_key"}

  /** The text before the first dot; the whole text without one. */
  function BeforeDot(field: string): string {
    if field == "" || field[0] == '.' then "" else [field[0]] + BeforeDot(field[1..])
  }

  function SplitDot(field: string): Option<(string, string)> {
    var alias := BeforeDot(field);
    if |alias| < |field| then Some((alias, field[|alias| + 1..])) else None
  }

  predicate ProjectsAlias(items: seq<ReturnItem>, alias: string) {
    exists i :: 0 <= i < |items| && !items[i].AggregateItem? && BeforeDot(items[i].field) == alias
  }

  predicate ProjectsField(items: seq<ReturnItem>, field: string) {
    exists i :: 0 <= i < |items| && items[i].FieldItem? && items[i].field == field
  }

  predicate NoOp(q: DslQuery) {
    IsAggregate(q) || q.distinct || q.items == [] || q.filters == []
  }

  /** A plain filter on a shown property of an entity the query returns. */
  predicate Explains(q: DslQuery, f: DslFilter) {
    && f.fieldType.None?
    && match SplitDot(f.field)
       case None => false
       case Some((alias, prop)) => prop !in HIDDEN_PROPS && ProjectsAlias(q.items, alias)
  }

  /** The fields of the first `k` filters worth adding, each once. */
  function Added(q: DslQuery, k: nat): (r: seq<ReturnItem>)
    requires k <= |q.filters|
    ensures forall i :: 0 <= i < |r| ==> r[i].FieldItem? && r[i].name == None
  {
    if k == 0 then []
    else
      var init, f := Added(q, k - 1), q.filters[k - 1];
      if Explains(q, f) && !ProjectsField(q.items + init, f.field) then init + [FieldItem(f.field, None)] else init
  }

  /** The query with the fields worth adding behind its own. */
  function Enriched(q: DslQuery): DslQuery {
    if NoOp(q) then q else q.(items := q.items + Added(q, |q.filters|))
  }

  method WithFilterContextReturns(q: DslQuery) returns (r: DslQuery)
    ensures r == Enriched(q)
  {
    hide Explains, ProjectsField;
    if NoOp(q) {
      return q;
    }
    var items := q.items;
    for i := 0 to |q.filters|
      invariant items == q.items + Added(q, i)
    {
      if Explains(q, q.filters[i]) && !ProjectsField(items, q.filters[i].field) {
        items := items + [FieldItem(q.filters[i].field, None)];
      }
    }
    r := q.(items := items);
  }

  // ---- what is added ----

  lemma {:induction false} AddedAre(q: DslQuery, k: nat, field: string)
    requires k <= |q.filters|
    ensures ProjectsField(q.items + Added(q, k), field) <==>
            ProjectsField(q.items, field) || exists i ::
              0 <= i < k && q.filters[i].field == field && Explains(q, q.filters[i])
  {
    hide Explains;
    if k == 0 {
      assert q.items + Added(q, 0) == q.items;
    } else {
      AddedAre(q, k - 1, field);
      var f, before := q.filters[k - 1], q.items + Added(q, k - 1);
      FieldSnoc(before, f.field, field);
      if Explains(q, f) && !ProjectsField(before, f.field) {
        assert q.items + Added(q, k) == before + [FieldItem(f.field, None)];
      }
    }
  }

  lemma FieldSnoc(items: seq<ReturnItem>, added: string, field: string)
    ensures ProjectsField(items + [FieldItem(added, None)], field) <==> ProjectsField(items, field) || field == added
  {
    var all := items + [FieldItem(added, None)];
    assert all[|items|].field == added;
    if i :| 0 <= i < |items| && items[i].FieldItem? && items[i].field == field {
      assert all[i] == items[i];
    }
  }

  /** A property of a bound entity: the alias, a dot, and the name, which may have dots of its own. */
  predicate IsProperty(field: string, alias: string, prop: string) {
    field == alias + "." + prop && forall i :: 0 <= i < |alias| ==> alias[i] != '.'
  }

  /** The filter has no type of its own and reads a property, not a hidden one, of an entity some item shows. */
  ghost predicate WorthShowing(q: DslQuery, f: DslFilter) {
    && f.fieldType == None
    && exists alias, prop ::
         && IsProperty(f.field, alias, prop) && prop != "_canonical" && prop != "entity_id" && prop != "primary_key"
         && exists i :: 0 <= i < |q.items| && (q.items[i].FieldItem? || q.items[i].DatePartItem?)
                        && (q.items[i].field == alias || alias + "." <= q.items[i].field)
  }

  /** Some item is the plain field. */
  predicate Shows(items: seq<ReturnItem>, field: string) {
    exists i :: 0 <= i < |items| && items[i].FieldItem? && items[i].field == field
  }

  lemma SameStart(a: string, b: string)
    ensures a != "" && a <= b ==> b != "" && a[0] == b[0]
  {
  }

  lemma {:induction false} FirstDot(field: string, alias: string)
    ensures BeforeDot(field) == alias <==>
            (field == alias || alias + "." <= field) && forall i :: 0 <= i < |alias| ==> alias[i] != '.'
  {
    if field != "" && field[0] != '.' && alias != "" && alias[0] == field[0] {
      FirstDot(field[1..], alias[1..]);
      assert field == [field[0]] + field[1..] && alias == [alias[0]] + alias[1..];
      assert (alias + ".")[1..] == alias[1..] + ".";
      assert alias + "." <= field <==> alias[1..] + "." <= field[1..];
      assert forall i :: 0 < i < |alias| ==> alias[i] == alias[1..][i - 1];
      assert forall i :: 0 <= i < |alias| - 1 ==> alias[1..][i] == alias[i + 1];
    } else if field != "" && field[0] == '.' && alias == "" {
      assert alias + "." == field[..1];
    } else {
      SameStart(alias + ".", field);
      SameStart(alias, field);
    }
  }

  lemma ExplainsIs(q: DslQuery, f: DslFilter)
    ensures Explains(q, f) <==> WorthShowing(q, f)
  {
    var alias := BeforeDot(f.field);
    FirstDot(f.field, alias);
    forall i | 0 <= i < |q.items| ensures BeforeDot(q.items[i].field) == alias <==>
             (q.items[i].field == alias || alias + "." <= q.items[i].field)
    {
      FirstDot(q.items[i].field, alias);
    }
    if |alias| < |f.field| {
      assert f.field == alias + "." + f.field[|alias| + 1..];
      assert IsProperty(f.field, alias, f.field[|alias| + 1..]);
    }
    forall a, prop | IsProperty(f.field, a, prop)
      ensures a == alias && |alias| < |f.field| && prop == f.field[|alias| + 1..]
    {
      assert a + "." <= f.field;
      FirstDot(f.field, a);
    }
  }

  /** Queries nothing is added to. */
  predicate LeftAlone(q: DslQuery) {
    || q.groupBy != [] || (exists i :: 0 <= i < |q.items| && q.items[i].AggregateItem?)
    || q.distinct || q.items == [] || q.filters == []
  }

  /**
   Aggregates, distinct queries and those without items or filters are left alone. Otherwise the items grow by plain
   fields, each once and not shown before, of filters worth showing; and then every such filter's field is shown.
   */
  lemma EnrichedIs(q: DslQuery, field: string)
    ensures LeftAlone(q) ==> Enriched(q) == q
    ensures !LeftAlone(q) ==>
              && Enriched(q) == q.(items := Enriched(q).items) && q.items <= Enriched(q).items
              && (forall i :: |q.items| <= i < |Enriched(q).items| ==>
                    Enriched(q).items[i] == FieldItem(Enriched(q).items[i].field, None)
                    && !Shows(Enriched(q).items[..i], Enriched(q).items[i].field))
              && (Shows(Enriched(q).items, field) <==>
                    Shows(q.items, field) || exists f :: f in q.filters && f.field == field && WorthShowing(q, f))
  {
    hide Explains, WorthShowing;
    if !LeftAlone(q) {
      AddedAre(q, |q.filters|, field);
      AddedOnce(q, |q.filters|);
      assert Shows(Enriched(q).items, field) <==> ProjectsField(Enriched(q).items, field);
      forall f | f in q.filters ensures Explains(q, f) <==> WorthShowing(q, f) {
        ExplainsIs(q, f);
      }
      if f :| f in q.filters && f.field == field && WorthShowing(q, f) {
        var i :| 0 <= i < |q.filters| && q.filters[i] == f;
      }
    }
  }

  lemma {:induction false} AddedOnce(q: DslQuery, k: nat)
    requires k <= |q.filters|
    ensures forall i :: 0 <= i < |Added(q, k)| ==>
              Added(q, k)[i] == FieldItem(Added(q, k)[i].field, None)
              && !Shows((q.items + Added(q, k))[..|q.items| + i], Added(q, k)[i].field)
  {
    hide Explains;
    if k > 0 {
      AddedOnce(q, k - 1);
      var init, all := Added(q, k - 1), Added(q, k);
      forall i | 0 <= i < |all| ensures (q.items + all)[..|q.items| + i] == q.items + all[..i] {
      }
      forall i | 0 <= i < |init| ensures (q.items + init)[..|q.items| + i] == q.items + init[..i] {
      }
      forall i | 0 <= i < |all| ensures all[..i] == (if i <= |init| then init[..i] else all[..i]) {
      }
      forall i | 0 <= i < |all|
        ensures all[i] == FieldItem(all[i].field, None) && !Shows((q.items + all)[..|q.items| + i], all[i].field)
      {
        if i == |init| {
          assert all[..i] == init;
        } else {
          assert all[i] == init[i] && all[..i] == init[..i];
        }
      }
    }
  }

  /** Adding fields of returned entities brings no new entity in. */
  lemma {:induction false} SameAliases(q: DslQuery, k: nat, alias: string)
    requires k <= |q.filters|
    ensures ProjectsAlias(q.items + Added(q, k), alias) <==> ProjectsAlias(q.items, alias)
  {
    if k == 0 {
      assert q.items + Added(q, 0) == q.items;
    } else {
      SameAliases(q, k - 1, alias);
      var f, before := q.filters[k - 1], q.items + Added(q, k - 1);
      var all := before + [FieldItem(f.field, None)];
      assert all[|before|].field == f.field && forall i :: 0 <= i < |before| ==> all[i] == before[i];
      if Explains(q, f) && !ProjectsField(before, f.field) {
        assert q.items + Added(q, k) == all;
        if BeforeDot(f.field) == alias {
          assert ProjectsAlias(q.items, alias);
        }
      }
    }
  }

  lemma {:induction false} NothingMore(q: DslQuery, e: DslQuery, k: nat)
    requires !NoOp(q) && e == Enriched(q) && k <= |e.filters|
    ensures Added(e, k) == []
  {
    if k > 0 {
      hide Added, ProjectsAlias, ProjectsField;
      NothingMore(q, e, k - 1);
      var f := e.filters[k - 1];
      match SplitDot(f.field) {
        case None =>
        case Some((alias, _)) => SameAliases(q, |q.filters|, alias);
      }
      AddedAre(q, |q.filters|, f.field);
      assert e.items + [] == e.items;
    }
  }

  /** Aggregates and distinct queries are left alone, and a second pass adds nothing. */
  lemma EnrichingIsIdempotent(q: DslQuery)
    ensures IsAggregate(q) || q.distinct ==> Enriched(q) == q
    ensures Enriched(Enriched(q)) == Enriched(q)
  {
    if !NoOp(q) {
      NothingMore(q, Enriched(q), |q.filters|);
    }
  }
}
