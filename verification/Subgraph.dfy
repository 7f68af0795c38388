/**
 Hidden id columns (src/explore/subgraph.rs): injected before a find query runs, stripped from the table shown, and
 folded into per-row entity links and the set of nodes to hydrate.
 */
module Subgraph {
  import opened Common
  import opened Dsl

  const ID_COLUMN_PREFIX := "__id_"

  /** A result cell; numbers and texts can be ids. */
  datatype Cell = Text(s: string) | Number(n: nat) | NullCell | OtherCell(what: int)

  type Row = map<string, Cell>

  predicate StartsWithId(name: string) {
    ID_COLUMN_PREFIX <= name
  }

  predicate Hidden(name: string) {
    name == "score" || name == "sources" || StartsWithId(name)
  }

  // ---- injection ----

  /** Start and target aliases, each once, in order. */
  function NodeAliases(start: string, targets: seq<string>): (r: seq<string>)
    ensures NoDup(r) && start in r && forall a :: a in r <==> a == start || a in targets
  {
    if targets == [] then [start]
    else
      var init, a := NodeAliases(start, targets[..|targets| - 1]), targets[|targets| - 1];
      if a in init then init else init + [a]
  }

  function Targets(q: DslQuery): seq<string> {
    seq(|q.traversals|, i requires 0 <= i < |q.traversals| => q.traversals[i].targetAlias)
  }

  function IdName(alias: string): string {
    ID_COLUMN_PREFIX + alias
  }

  predicate Names(items: seq<ReturnItem>, name: string) {
    exists i :: 0 <= i < |items| && items[i].name == Some(name)
  }

  function IdItem(alias: string): ReturnItem {
    FieldItem(alias + ".id", Some(IdName(alias)))
  }

  /** The id items of the aliases that have none yet. */
  function MissingIds(items: seq<ReturnItem>, aliases: seq<string>): seq<ReturnItem> {
    if aliases == [] then []
    else
      var init, a := MissingIds(items, aliases[..|aliases| - 1]), aliases[|aliases| - 1];
      if Names(items, IdName(a)) then init else init + [IdItem(a)]
  }

  method InjectNodeIdReturns(q: DslQuery) returns (r: Option<DslQuery>)
    ensures r.None? <==> q.groupBy != [] || q.items == []
                         || exists i :: 0 <= i < |q.items| && q.items[i].AggregateItem?
    ensures r.Some? ==> r.value == q.(items := q.items + MissingIds(q.items, NodeAliases(q.start, Targets(q))))
  {
    hide NodeAliases;
    if IsAggregate(q) || q.items == [] {
      return None;
    }
    var aliases := CollectAliases(q.start, Targets(q));
    var items := q.items;
    for i := 0 to |aliases|
      invariant items == q.items + MissingIds(q.items, aliases[..i])
    {
      assert aliases[..i + 1][..i] == aliases[..i];
      if !Names(q.items, IdName(aliases[i])) {
        items := items + [IdItem(aliases[i])];
      }
    }
    assert aliases[..|aliases|] == aliases;
    r := Some(q.(items := items));
  }

  method CollectAliases(start: string, targets: seq<string>) returns (aliases: seq<string>)
    ensures aliases == NodeAliases(start, targets)
  {
    aliases := [start];
    for i := 0 to |targets|
      invariant aliases == NodeAliases(start, targets[..i])
    {
      assert targets[..i + 1][..i] == targets[..i];
      if targets[i] !in aliases {
        aliases := aliases + [targets[i]];
      }
    }
    assert targets[..|targets|] == targets;
  }

  lemma {:induction false} InjectedNames(items: seq<ReturnItem>, aliases: seq<string>, a: string)
    requires a in aliases
    ensures Names(items + MissingIds(items, aliases), IdName(a))
  {
    var init, last := aliases[..|aliases| - 1], aliases[|aliases| - 1];
    var all := items + MissingIds(items, aliases);
    if a == last {
      if Names(items, IdName(a)) {
        var i :| 0 <= i < |items| && items[i].name == Some(IdName(a));
        assert all[i] == items[i];
      } else {
        assert all[|all| - 1] == IdItem(a);
      }
    } else {
      assert a in init;
      InjectedNames(items, init, a);
      var some := items + MissingIds(items, init);
      var i :| 0 <= i < |some| && some[i].name == Some(IdName(a));
      assert all[i] == some[i];
    }
  }

  lemma {:induction false} NothingMissing(items: seq<ReturnItem>, aliases: seq<string>)
    requires forall a :: a in aliases ==> Names(items, IdName(a))
    ensures MissingIds(items, aliases) == []
  {
    if aliases != [] {
      assert aliases[|aliases| - 1] in aliases;
      NothingMissing(items, aliases[..|aliases| - 1]);
    }
  }

  /** Injecting twice is injecting once, and every node alias has its id column then. */
  lemma InjectionIsIdempotent(q: DslQuery)
    ensures var aliases := NodeAliases(q.start, Targets(q));
            var items := q.items + MissingIds(q.items, aliases);
            && (forall a :: a in aliases ==> Names(items, IdName(a)))
            && items + MissingIds(items, aliases) == items
  {
    hide NodeAliases, Names, MissingIds;
    var aliases := NodeAliases(q.start, Targets(q));
    var items := q.items + MissingIds(q.items, aliases);
    forall a | a in aliases ensures Names(items, IdName(a)) {
      InjectedNames(q.items, aliases, a);
    }
    NothingMissing(items, aliases);
  }

  /** The alias of the start node or of a target. */
  predicate IsNodeAlias(q: DslQuery, a: string) {
    a == q.start || exists t :: 0 <= t < |q.traversals| && q.traversals[t].targetAlias == a
  }

  predicate NamesColumn(items: seq<ReturnItem>, column: string) {
    exists i :: 0 <= i < |items| && items[i].name == Some(column)
  }

  /**
   What injection appends: for every node alias without a column `__id_alias` its `id` property under that name, once,
   and nothing else.
   */
  lemma InjectedAre(q: DslQuery)
    ensures var ids := MissingIds(q.items, NodeAliases(q.start, Targets(q)));
            && NoDup(ids)
            && (forall item :: item in ids ==> exists a :: IsNodeAlias(q, a) && !NamesColumn(q.items, "__id_" + a)
                                                          && item == FieldItem(a + ".id", Some("__id_" + a)))
            && forall a :: IsNodeAlias(q, a) && !NamesColumn(q.items, "__id_" + a) ==>
                 FieldItem(a + ".id", Some("__id_" + a)) in ids
  {
    hide MissingIds, NamesColumn;
    var aliases := NodeAliases(q.start, Targets(q));
    forall a ensures a in aliases <==> IsNodeAlias(q, a) {
      if t :| 0 <= t < |q.traversals| && q.traversals[t].targetAlias == a {
        assert Targets(q)[t] == a;
      }
    }
    MissingAre(q.items, aliases);
    forall a ensures NamesColumn(q.items, "__id_" + a) <==> Names(q.items, IdName(a)) {
      ColumnIsNamed(q.items, a);
    }
  }

  lemma ColumnIsNamed(items: seq<ReturnItem>, a: string)
    ensures NamesColumn(items, "__id_" + a) <==> Names(items, IdName(a))
  {
  }

  lemma {:induction false} MissingAre(items: seq<ReturnItem>, aliases: seq<string>)
    requires NoDup(aliases)
    ensures NoDup(MissingIds(items, aliases))
    ensures forall item :: item in MissingIds(items, aliases) <==> exists a ::
              a in aliases && !Names(items, IdName(a)) && item == FieldItem(a + ".id", Some("__id_" + a))
  {
    hide Names;
    if aliases != [] {
      var init, last := aliases[..|aliases| - 1], aliases[|aliases| - 1];
      MissingAre(items, init);
      assert forall a :: a in aliases <==> a in init || a == last;
      forall a | a in init ensures FieldItem(a + ".id", Some("__id_" + a)) != IdItem(last) {
        assert ("__id_" + a)[5..] == a && ("__id_" + last)[5..] == last;
      }
      if !Names(items, IdName(last)) {
        assert IdItem(last) !in MissingIds(items, init);
        NoDupAppend(MissingIds(items, init), [IdItem(last)]);
      }
    }
  }

  // ---- the table shown ----

  function Visible(row: Row): Row {
    map name | name in row && !Hidden(name) :: row[name]
  }

  /** A usable id in a cell. */
  function IdOf(c: Cell): Option<string> {
    match c
    case Text(s) => if s != "" then Some(s) else None
    case Number(n) => Some(Decimal(n))
    case _ => None
  }

  predicate HasId(row: Row, name: string) {
    name in row && StartsWithId(name) && IdOf(row[name]).Some?
  }

  function AliasesWithId(row: Row): (r: set<string>)
    ensures forall a :: a in r <==> HasId(row, IdName(a))
  {
    var names := set name | name in row && HasId(row, name);
    assert forall name :: name in names ==> IdName(name[|ID_COLUMN_PREFIX|..]) == name;
    var r := set name | name in names :: name[|ID_COLUMN_PREFIX|..];
    assert forall a :: HasId(row, IdName(a)) ==> IdName(a) in names && IdName(a)[|ID_COLUMN_PREFIX|..] == a;
    r
  }

  /** Alias to handle, for the aliases whose id cell is usable. */
  function Entities(row: Row): map<string, string> {
    map a | a in AliasesWithId(row) :: IdOf(row[IdName(a)]).value
  }

  /** A shown row has the cells of the raw one, without `score`, `sources` and the id columns. */
  lemma VisibleIs(row: Row, name: string)
    ensures name in Visible(row) <==> name in row && name != "score" && name != "sources" && !("__id_" <= name)
    ensures name in Visible(row) ==> Visible(row)[name] == row[name]
  {
  }

  /** The links of a row: the aliases whose id column holds a number or a text that is not empty, to that. */
  lemma EntitiesAre(row: Row, a: string)
    ensures a in Entities(row) <==>
            "__id_" + a in row && (row["__id_" + a].Number? || (row["__id_" + a].Text? && row["__id_" + a].s != ""))
    ensures a in Entities(row) ==>
              Entities(row)[a] == match row["__id_" + a]
                                  case Text(s) => s
                                  case Number(n) => Decimal(n)
                                  case _ => ""
  {
    assert a in AliasesWithId(row) <==> HasId(row, IdName(a));
    assert ID_COLUMN_PREFIX <= IdName(a);
  }

  /** The raw rows kept: all of them, or the first of each visible part. */
  function KeptRows(rows: seq<Row>, distinct: bool): seq<Row> {
    if rows == [] then []
    else
      var init, last := KeptRows(rows[..|rows| - 1], distinct), rows[|rows| - 1];
      if distinct && Visible(last) in VisibleParts(init) then init else init + [last]
  }

  function VisibleParts(rows: seq<Row>): seq<Row> {
    seq(|rows|, i requires 0 <= i < |rows| => Visible(rows[i]))
  }

  function EntityParts(rows: seq<Row>): seq<map<string, string>> {
    seq(|rows|, i requires 0 <= i < |rows| => Entities(rows[i]))
  }

  /** A cap is looked at after a row went in, so a cap of zero shows one row. */
  function Capped(rows: seq<Row>, cap: Option<nat>): seq<Row> {
    if cap.None? || |rows| == 0 then rows
    else
      var n := if cap.value == 0 then 1 else cap.value;
      if n < |rows| then rows[..n] else rows
  }

  function VisibleNames(names: seq<string>): seq<string> {
    if names == [] then []
    else
      var init, name := VisibleNames(names[..|names| - 1]), names[|names| - 1];
      if Hidden(name) then init else init + [name]
  }

  /** The header: the announced columns without the hidden ones, or the first row's names when that leaves none. */
  ghost predicate IsHeader(header: seq<string>, columns: seq<string>, raw: seq<Row>) {
    if VisibleNames(columns) != [] || raw == [] then header == VisibleNames(columns)
    else NoDup(header) && forall name :: name in header <==> name in Visible(raw[0])
  }

  method Header(columns: seq<string>, raw: seq<Row>) returns (header: seq<string>)
    ensures IsHeader(header, columns, raw)
  {
    header := [];
    for i := 0 to |columns|
      invariant header == VisibleNames(columns[..i])
    {
      assert columns[..i + 1][..i] == columns[..i];
      if !Hidden(columns[i]) {
        header := header + [columns[i]];
      }
    }
    assert columns[..|columns|] == columns;
    if header == [] && raw != [] {
      var left := raw[0].Keys;
      while left != {}
        invariant left <= raw[0].Keys && NoDup(header)
        invariant forall name :: name in header <==> name in raw[0].Keys - left && !Hidden(name)
        decreases |left|
      {
        var name :| name in left;
        left := left - {name};
        if !Hidden(name) {
          header := header + [name];
        }
      }
    }
  }

  /** The announced columns lose exactly the hidden ones and keep their order. */
  lemma {:induction false} VisibleNamesAre(names: seq<string>, more: seq<string>)
    ensures forall name :: name in VisibleNames(names) <==>
              name in names && name != "score" && name != "sources" && !("__id_" <= name)
    ensures VisibleNames(names + more) == VisibleNames(names) + VisibleNames(more)
    decreases |names| + |more|
  {
    if more != [] {
      var init := more[..|more| - 1];
      assert (names + more)[..|names + more| - 1] == names + init;
      VisibleNamesAre(names, init);
    } else {
      assert names + more == names;
      if names != [] {
        VisibleNamesAre(names[..|names| - 1], []);
        assert names == names[..|names| - 1] + [names[|names| - 1]];
      }
    }
  }

  method VisibleTable(columns: seq<string>, raw: seq<Row>, distinct: bool, maxRows: Option<nat>)
    returns (header: seq<string>, rows: seq<Row>, rowEntities: seq<map<string, string>>)
    ensures IsHeader(header, columns, raw)
    ensures rows == VisibleParts(Capped(KeptRows(raw, distinct), maxRows))
    ensures rowEntities == if (exists i :: 0 <= i < |columns| && "__id_" <= columns[i])
                              || (raw != [] && exists name :: name in raw[0] && "__id_" <= name)
            then EntityParts(Capped(KeptRows(raw, distinct), maxRows)) else []
  {
    header := Header(columns, raw);
    rows, rowEntities := VisibleRows(raw, HasIdColumns(columns, raw), distinct, maxRows);
  }

  method VisibleRows(raw: seq<Row>, hasIdColumns: bool, distinct: bool, maxRows: Option<nat>)
    returns (rows: seq<Row>, rowEntities: seq<map<string, string>>)
    ensures rows == VisibleParts(Capped(KeptRows(raw, distinct), maxRows))
    ensures rowEntities == if hasIdColumns then EntityParts(Capped(KeptRows(raw, distinct), maxRows)) else []
  {
    hide Visible, Entities, KeptRows, VisibleParts, EntityParts;
    rows, rowEntities := [], [];
    ghost var kept: seq<Row> := [];
    NothingKept(distinct);
    for i := 0 to |raw|
      invariant kept == KeptRows(raw[..i], distinct) && rows == VisibleParts(kept) && |rows| == |kept|
      invariant rowEntities == if hasIdColumns then EntityParts(kept) else []
      invariant maxRows.Some? ==> |kept| < maxRows.value || kept == []
    {
      KeptNext(raw, i, distinct);
      PartsSnoc(kept, raw[i]);
      var visible := Visible(raw[i]);
      if distinct && visible in rows {
        continue;
      }
      if hasIdColumns {
        rowEntities := rowEntities + [Entities(raw[i])];
      }
      rows := rows + [visible];
      kept := kept + [raw[i]];
      if maxRows.Some? && |rows| >= maxRows.value {
        KeptPrefix(raw, i + 1, distinct);
        CapReached(kept, KeptRows(raw, distinct), maxRows.value);
        return;
      }
    }
    assert raw[..|raw|] == raw;
  }

  lemma NothingKept(distinct: bool)
    ensures KeptRows([], distinct) == [] && VisibleParts([]) == [] && EntityParts([]) == []
  {
  }

  lemma KeptNext(raw: seq<Row>, i: nat, distinct: bool)
    requires i < |raw|
    ensures raw[..0] == []
    ensures KeptRows(raw[..i + 1], distinct)
         == if distinct && Visible(raw[i]) in VisibleParts(KeptRows(raw[..i], distinct))
         then KeptRows(raw[..i], distinct)
            else KeptRows(raw[..i], distinct) + [raw[i]]
  {
    assert raw[..i + 1][..i] == raw[..i];
  }

  lemma PartsSnoc(kept: seq<Row>, last: Row)
    ensures VisibleParts(kept + [last]) == VisibleParts(kept) + [Visible(last)]
    ensures EntityParts(kept + [last]) == EntityParts(kept) + [Entities(last)]
  {
  }

  lemma CapReached(some: seq<Row>, all: seq<Row>, cap: nat)
    requires some != [] && some <= all && |some| == (if cap == 0 then 1 else cap)
    ensures Capped(all, Some(cap)) == some
  {
  }

  predicate HasIdColumns(columns: seq<string>, raw: seq<Row>) {
    || (exists i :: 0 <= i < |columns| && StartsWithId(columns[i]))
    || (raw != [] && exists name :: name in raw[0] && StartsWithId(name))
  }

  lemma {:induction false} KeptPrefix(raw: seq<Row>, k: nat, distinct: bool)
    requires k <= |raw|
    ensures KeptRows(raw[..k], distinct) <= KeptRows(raw, distinct)
    decreases |raw|
  {
    if k == |raw| {
      assert raw[..k] == raw;
    } else {
      var init := raw[..|raw| - 1];
      assert init[..k] == raw[..k];
      KeptPrefix(init, k, distinct);
    }
  }

  /** What is kept: rows of the raw result, and with `distinct` every visible part exactly once. */
  lemma {:induction false} KeptAre(raw: seq<Row>, distinct: bool)
    ensures forall r :: r in KeptRows(raw, distinct) ==> r in raw
    ensures forall r :: r in raw ==> Visible(r) in VisibleParts(KeptRows(raw, distinct))
    ensures distinct ==> NoDup(VisibleParts(KeptRows(raw, distinct)))
    ensures !distinct ==> KeptRows(raw, distinct) == raw
  {
    hide Visible;
    if raw != [] {
      var init, last := raw[..|raw| - 1], raw[|raw| - 1];
      KeptAre(init, distinct);
      KeptSnoc(KeptRows(init, distinct), last);
      assert raw == init + [last];
    }
  }

  lemma KeptSnoc(kept: seq<Row>, last: Row)
    ensures VisibleParts(kept + [last]) == VisibleParts(kept) + [Visible(last)]
    ensures NoDup(VisibleParts(kept)) && Visible(last) !in VisibleParts(kept) ==> NoDup(VisibleParts(kept + [last]))
  {
  }

  // ---- the query behind the table ----

  /** The name of the column an item makes. */
  function ColumnName(item: ReturnItem): string {
    match item.name
    case Some(n) => n
    case None => item.field
  }

  /** One binding projected; the cell of each item is whatever the database computes for it. */
  function Projected(items: seq<ReturnItem>, cell: ReturnItem -> Cell): Row {
    if items == [] then map[]
    else Projected(items[..|items| - 1], cell)[ColumnName(items[|items| - 1]) := cell(items[|items| - 1])]
  }

  /** A binding: the cell it gives every item. */
  type Binding = ReturnItem -> Cell

  /** `RETURN DISTINCT`, with the builder's own columns beside the items: each projected row once, in any order. */
  ghost predicate IsDistinctResult(result: seq<Row>, items: seq<ReturnItem>, bindings: seq<Binding>,
                                   extra: Binding -> Row) {
    && NoDup(result)
    && forall r :: r in result <==> exists i ::
         0 <= i < |bindings| && r == Projected(items, bindings[i]) + extra(bindings[i])
  }

  lemma {:induction false} IdsAreInvisible(items: seq<ReturnItem>, ids: seq<ReturnItem>, cell: Binding)
    requires forall i :: 0 <= i < |ids| ==> Hidden(ColumnName(ids[i]))
    ensures Visible(Projected(items + ids, cell)) == Visible(Projected(items, cell))
    decreases |ids|
  {
    if ids == [] {
      assert items + ids == items;
    } else {
      var init, last := ids[..|ids| - 1], ids[|ids| - 1];
      assert (items + ids)[..|items + ids| - 1] == items + init;
      IdsAreInvisible(items, init, cell);
    }
  }

  lemma VisibleOfBoth(a: Row, b: Row, extra: Row)
    requires Visible(a) == Visible(b)
    ensures Visible(a + extra) == Visible(b + extra)
  {
    forall name ensures name in Visible(a + extra) <==> name in Visible(b + extra) {
      assert name in Visible(a) <==> name in Visible(b);
    }
    forall name | name in Visible(a + extra) ensures Visible(a + extra)[name] == Visible(b + extra)[name] {
      if name !in extra {
        assert name in Visible(a) && Visible(a)[name] == a[name] && Visible(b)[name] == b[name];
      }
    }
  }

  lemma {:induction false} MissingAreHidden(items: seq<ReturnItem>, aliases: seq<string>)
    ensures forall i :: 0 <= i < |MissingIds(items, aliases)| ==> Hidden(ColumnName(MissingIds(items, aliases)[i]))
  {
    if aliases != [] {
      MissingAreHidden(items, aliases[..|aliases| - 1]);
      assert StartsWithId(IdName(aliases[|aliases| - 1]));
    }
  }

  /**
   An unlimited distinct query: injecting the ids, running, stripping and deduplicating shows exactly the visible rows
   of the query as written, each once; the entity links are as many and come from a raw row with that visible part.
   */
  lemma InjectionKeepsTheTable(q: DslQuery, bindings: seq<Binding>, extra: Binding -> Row, plain: seq<Row>,
                               injected: seq<Row>)
    requires IsDistinctResult(plain, q.items, bindings, extra)
    requires IsDistinctResult(injected, q.items + MissingIds(q.items, NodeAliases(q.start, Targets(q))), bindings,
                              extra)
    ensures NoDup(VisibleParts(KeptRows(injected, true)))
    ensures forall row :: row in VisibleParts(KeptRows(injected, true)) <==> exists r :: r in plain && Visible(r) == row
    ensures |EntityParts(KeptRows(injected, true))| == |VisibleParts(KeptRows(injected, true))|
    ensures forall i :: 0 <= i < |KeptRows(injected, true)| ==> KeptRows(injected, true)[i] in injected
  {
    hide Visible, Entities, Projected, NodeAliases, MissingIds, KeptRows;
    var ids := MissingIds(q.items, NodeAliases(q.start, Targets(q)));
    MissingAreHidden(q.items, NodeAliases(q.start, Targets(q)));
    forall i | 0 <= i < |bindings|
      ensures Visible(Projected(q.items + ids, bindings[i]) + extra(bindings[i])) ==
                Visible(Projected(q.items, bindings[i]) + extra(bindings[i]))
    {
      IdsAreInvisible(q.items, ids, bindings[i]);
      VisibleOfBoth(Projected(q.items + ids, bindings[i]), Projected(q.items, bindings[i]), extra(bindings[i]));
    }
    KeptAre(injected, true);
    SameVisible(q.items, q.items + ids, bindings, extra, plain, injected);
  }

  lemma SameVisible(items: seq<ReturnItem>, items': seq<ReturnItem>, bindings: seq<Binding>, extra: Binding -> Row,
                    plain: seq<Row>, injected: seq<Row>)
    requires IsDistinctResult(plain, items, bindings, extra) && IsDistinctResult(injected, items', bindings, extra)
    requires forall i :: 0 <= i < |bindings| ==>
               Visible(Projected(items', bindings[i]) + extra(bindings[i])) ==
                 Visible(Projected(items, bindings[i]) + extra(bindings[i]))
    requires forall r :: r in KeptRows(injected, true) ==> r in injected
    requires forall r :: r in injected ==> Visible(r) in VisibleParts(KeptRows(injected, true))
    ensures forall row :: row in VisibleParts(KeptRows(injected, true)) <==> exists r :: r in plain && Visible(r) == row
  {
    hide Visible, Projected, KeptRows, VisibleParts, IsDistinctResult;
    PartsOf(KeptRows(injected, true));
    forall row | row in VisibleParts(KeptRows(injected, true)) ensures exists r :: r in plain && Visible(r) == row {
      var r :| r in KeptRows(injected, true) && Visible(r) == row;
      var _ := Counterpart(items', items, bindings, extra, injected, plain, r);
    }
    forall r | r in plain ensures Visible(r) in VisibleParts(KeptRows(injected, true)) {
      var r' := Counterpart(items, items', bindings, extra, plain, injected, r);
      assert Visible(r') in VisibleParts(KeptRows(injected, true));
    }
  }

  lemma PartsOf(rows: seq<Row>)
    ensures forall row :: row in VisibleParts(rows) <==> exists r :: r in rows && Visible(r) == row
  {
    hide Visible;
    forall r | r in rows ensures Visible(r) in VisibleParts(rows) {
      var i :| 0 <= i < |rows| && rows[i] == r;
      assert VisibleParts(rows)[i] == Visible(r);
    }
  }

  /** The same binding projected the other way. */
  lemma Counterpart(a: seq<ReturnItem>, b: seq<ReturnItem>, bindings: seq<Binding>, extra: Binding -> Row,
                    as_: seq<Row>, bs: seq<Row>, r: Row) returns (r': Row)
    requires IsDistinctResult(as_, a, bindings, extra) && IsDistinctResult(bs, b, bindings, extra) && r in as_
    requires forall i :: 0 <= i < |bindings| ==>
               Visible(Projected(a, bindings[i]) + extra(bindings[i])) ==
                 Visible(Projected(b, bindings[i]) + extra(bindings[i]))
    ensures r' in bs && Visible(r') == Visible(r)
  {
    hide Visible, Projected;
    var i :| 0 <= i < |bindings| && r == Projected(a, bindings[i]) + extra(bindings[i]);
    r' := Projected(b, bindings[i]) + extra(bindings[i]);
  }

  // ---- the nodes to hydrate ----

  /** The hidden column `name` of the row holds this id. */
  predicate Holds(row: Row, name: string, id: string) {
    name in row && StartsWithId(name) && IdOf(row[name]) == Some(id)
  }

  ghost predicate Occurs(rows: seq<Row>, id: string) {
    exists i, name :: 0 <= i < |rows| && Holds(rows[i], name, id)
  }

  /** Every id of the hidden columns once, up to the limit; `truncated` says there were more. */
  method CollectIds(rows: seq<Row>, limit: nat) returns (ids: seq<string>, truncated: bool)
    ensures NoDup(ids) && |ids| <= limit && forall id :: id in ids ==> Occurs(rows, id)
    ensures !truncated ==> forall id :: Occurs(rows, id) ==> id in ids
    ensures truncated ==> |ids| == limit && exists id :: Occurs(rows, id) && id !in ids
  {
    ids, truncated := [], false;
    for i := 0 to |rows|
      invariant NoDup(ids) && |ids| <= limit && forall id :: id in ids ==> Occurs(rows, id)
      invariant forall id, k, name :: 0 <= k < i && Holds(rows[k], name, id) ==> id in ids
    {
      var left := rows[i].Keys;
      while left != {}
        invariant left <= rows[i].Keys
        invariant NoDup(ids) && |ids| <= limit && forall id :: id in ids ==> Occurs(rows, id)
        invariant forall id, k, name :: 0 <= k < i && Holds(rows[k], name, id) ==> id in ids
        invariant forall id, name :: name !in left && Holds(rows[i], name, id) ==> id in ids
        decreases |left|
      {
        var name :| name in left;
        left := left - {name};
        if StartsWithId(name) {
          var id := IdOf(rows[i][name]);
          if id.Some? && id.value !in ids {
            assert Holds(rows[i], name, id.value);
            if |ids| >= limit {
              return ids, true;
            }
            ids := ids + [id.value];
          }
        }
      }
    }
  }
}
