/**
 ORDER BY and LIMIT (src/builder/return_part.rs): the emitted key pairs, the order they mean when null is the
 largest value, and what a LIMIT keeps of it.
 */
module ReturnPart {
  import opened Common
  import opened Ast
  import opened Cypher
  import opened Cursors

  // ---- the writers ----

  function KeyText(s: SortKey): string {
    match s.key
    case Projected(name) => name
    case Property(p) => PropertyText(p)
  }

  function PropertyText(p: PropertyRef): string {
    match p.property
    case Some(prop) => p.alias + "." + prop
    case None => p.alias
  }

  /** `key IS NULL, key DIR`. */
  function KeyPair(s: SortKey): seq<Token> {
    [NullKeyTok(KeyText(s)), KeyTok(KeyText(s), s.order)]
  }

  function UserKeys(sort: seq<SortKey>): seq<Token> {
    if sort == [] then [] else UserKeys(sort[..|sort| - 1]) + KeyPair(sort[|sort| - 1])
  }

  function HandlerKeys(extras: seq<(string, SortOrder)>): seq<Token> {
    seq(|extras|, i requires 0 <= i < |extras| => KeyTok(extras[i].0, extras[i].1))
  }

  function OrderText(sort: seq<SortKey>, extras: seq<(string, SortOrder)>): seq<Token> {
    if sort == [] && extras == [] then [] else [KwOrderBy] + UserKeys(sort) + HandlerKeys(extras)
  }

  /** `write_order_by_with_extra`: the contributed keys are drained whether or not anything is written. */
  method WriteOrderBy(cur: Cursor, sort: seq<SortKey>)
    modifies cur`buf, cur`extraOrderBy
    ensures cur.extraOrderBy == []
    ensures cur.buf == old(cur.buf) + OrderText(sort, old(cur.extraOrderBy))
  {
    hide UserKeys, HandlerKeys;
    var extras := cur.extraOrderBy;
    cur.extraOrderBy := [];
    if sort == [] && extras == [] {
      return;
    }
    var parts := SortParts(sort, extras);
    cur.buf := cur.buf + [KwOrderBy];
    cur.buf := cur.buf + parts;
  }

  method SortParts(sort: seq<SortKey>, extras: seq<(string, SortOrder)>) returns (parts: seq<Token>)
    ensures parts == UserKeys(sort) + HandlerKeys(extras)
  {
    hide UserKeys, HandlerKeys, KeyPair;
    KeysOfNone();
    parts := [];
    for i := 0 to |sort|
      invariant parts == UserKeys(sort[..i])
    {
      UserKeysSnoc(sort, i);
      parts := parts + KeyPair(sort[i]);
    }
    assert sort[..|sort|] == sort;
    for i := 0 to |extras|
      invariant parts == UserKeys(sort) + HandlerKeys(extras[..i])
    {
      HandlerKeysSnoc(extras, i);
      parts := parts + [KeyTok(extras[i].0, extras[i].1)];
    }
    assert extras[..|extras|] == extras;
  }

  lemma KeysOfNone()
    ensures UserKeys([]) == [] && HandlerKeys([]) == []
  {
  }

  lemma UserKeysSnoc(sort: seq<SortKey>, i: nat)
    requires i < |sort|
    ensures UserKeys(sort[..i + 1]) == UserKeys(sort[..i]) + KeyPair(sort[i])
  {
    assert sort[..i + 1][..i] == sort[..i];
  }

  lemma HandlerKeysSnoc(extras: seq<(string, SortOrder)>, i: nat)
    requires i < |extras|
    ensures HandlerKeys(extras[..i + 1]) == HandlerKeys(extras[..i]) + [KeyTok(extras[i].0, extras[i].1)]
  {
  }

  method WriteLimit(cur: Cursor, limit: nat)
    modifies cur`buf
    ensures cur.buf == old(cur.buf) + [LimitTok(limit)]
  {
    cur.buf := cur.buf + [LimitTok(limit)];
  }

  // ---- the order the database sorts by ----

  /** A value a sort key takes: null, or its rank among the values that are not null. */
  type Cell = Option<real>

  /** A result row as ORDER BY sees it: every key expression with its value. */
  type Keyed = map<string, Cell>

  function Read(row: Keyed, key: string): Cell {
    if key in row then row[key] else None
  }

  datatype Comparison = Before | Tied | After

  function Flip(c: Comparison): Comparison {
    match c case Before => After case After => Before case Tied => Tied
  }

  /** Ascending order of values: null is the largest. */
  function Ascending(a: Cell, b: Cell): Comparison {
    if a == b then Tied
    else if a.None? then After
    else if b.None? then Before
    else if a.value < b.value then Before else After
  }

  function Directed(order: SortOrder, a: Cell, b: Cell): Comparison {
    if order == Asc then Ascending(a, b) else Flip(Ascending(a, b))
  }

  /** `false` sorts before `true`. */
  function NullTest(a: Cell, b: Cell): Comparison {
    if a.None? == b.None? then Tied else if b.None? then Before else After
  }

  function ByKey(key: Token, a: Keyed, b: Keyed): Comparison {
    match key
    case NullKeyTok(k) => NullTest(Read(a, k), Read(b, k))
    case KeyTok(k, order) => Directed(order, Read(a, k), Read(b, k))
    case _ => Tied
  }

  /** The first key that tells two rows apart decides. */
  function ByKeys(keys: seq<Token>, a: Keyed, b: Keyed): Comparison {
    if keys == [] then Tied
    else if ByKey(keys[0], a, b) != Tied then ByKey(keys[0], a, b)
    else ByKeys(keys[1..], a, b)
  }

  /** No row stands before one it should follow. */
  ghost predicate Ordered(keys: seq<Token>, rows: seq<Keyed>) {
    forall i, j :: 0 <= i < j < |rows| ==> ByKeys(keys, rows[i], rows[j]) != After
  }

  // ---- the order the query asks for ----

  /** The value a row has for a sort key: of the column it names, of the property, or of the entity. */
  function SortValue(s: SortKey, row: Keyed): Cell {
    match s.key
    case Projected(column) => Read(row, column)
    case Property(PropertyRef(alias, Some(prop))) => Read(row, alias + "." + prop)
    case Property(PropertyRef(alias, None)) => Read(row, alias)
  }

  lemma WrittenKeyIsRead(s: SortKey, row: Keyed)
    ensures Read(row, KeyText(s)) == SortValue(s, row)
  {
  }

  /** One user key: values first in its direction, nulls behind them. */
  function Asked(s: SortKey, a: Keyed, b: Keyed): Comparison {
    var x, y := SortValue(s, a), SortValue(s, b);
    if x.None? || y.None? then (if x.None? && y.None? then Tied else if y.None? then Before else After)
    else if x.value == y.value then Tied
    else if (x.value < y.value) == (s.order == Asc) then Before else After
  }

  function AskedBy(sort: seq<SortKey>, a: Keyed, b: Keyed): Comparison {
    if sort == [] then Tied
    else if Asked(sort[0], a, b) != Tied then Asked(sort[0], a, b)
    else AskedBy(sort[1..], a, b)
  }

  lemma {:induction false} KeysInTurn(x: seq<Token>, y: seq<Token>, a: Keyed, b: Keyed)
    ensures ByKeys(x + y, a, b) == if ByKeys(x, a, b) != Tied then ByKeys(x, a, b) else ByKeys(y, a, b)
  {
    if x == [] {
      assert x + y == y;
    } else {
      assert (x + y)[1..] == x[1..] + y;
      KeysInTurn(x[1..], y, a, b);
    }
  }

  lemma PairIsAsked(s: SortKey, a: Keyed, b: Keyed)
    ensures ByKeys(KeyPair(s), a, b) == Asked(s, a, b)
  {
    WrittenKeyIsRead(s, a);
    WrittenKeyIsRead(s, b);
    hide KeyText, SortValue;
    var pair, key := KeyPair(s), KeyTok(KeyText(s), s.order);
    assert pair[1..] == [key] && [key][1..] == [];
    assert ByKeys([key], a, b) == ByKey(key, a, b);
    assert ByKeys(pair, a, b) == if ByKey(pair[0], a, b) != Tied then ByKey(pair[0], a, b) else ByKey(key, a, b);
  }

  lemma {:induction false} AskedInTurn(sort: seq<SortKey>, s: SortKey, a: Keyed, b: Keyed)
    ensures AskedBy(sort + [s], a, b) == if AskedBy(sort, a, b) != Tied then AskedBy(sort, a, b) else Asked(s, a, b)
  {
    if sort == [] {
      assert (sort + [s])[1..] == [];
    } else {
      assert (sort + [s])[1..] == sort[1..] + [s];
      AskedInTurn(sort[1..], s, a, b);
    }
  }

  lemma {:induction false} UserKeysAreAsked(sort: seq<SortKey>, a: Keyed, b: Keyed)
    ensures ByKeys(UserKeys(sort), a, b) == AskedBy(sort, a, b)
  {
    if sort != [] {
      var init, s := sort[..|sort| - 1], sort[|sort| - 1];
      assert sort == init + [s];
      UserKeysAreAsked(init, a, b);
      PairIsAsked(s, a, b);
      KeysInTurn(UserKeys(init), KeyPair(s), a, b);
      AskedInTurn(init, s, a, b);
    }
  }

  /** The keys behind ORDER BY. */
  function EmittedKeys(sort: seq<SortKey>, extras: seq<(string, SortOrder)>): seq<Token> {
    UserKeys(sort) + HandlerKeys(extras)
  }

  /** The emitted keys are the user's order, nulls last in both directions; the contributed keys only break its ties. */
  lemma EmittedOrder(sort: seq<SortKey>, extras: seq<(string, SortOrder)>, a: Keyed, b: Keyed)
    ensures ByKeys(EmittedKeys(sort, extras), a, b)
         == if AskedBy(sort, a, b) != Tied then AskedBy(sort, a, b) else ByKeys(HandlerKeys(extras), a, b)
  {
    KeysInTurn(UserKeys(sort), HandlerKeys(extras), a, b);
    UserKeysAreAsked(sort, a, b);
  }

  /** Within ties of the keys before it, a row without a value never stands before one with a value. */
  lemma NullsLast(sort: seq<SortKey>, extras: seq<(string, SortOrder)>, rows: seq<Keyed>, k: nat, i: nat, j: nat)
    requires Ordered(EmittedKeys(sort, extras), rows)
    requires k < |sort| && i < j < |rows| && AskedBy(sort[..k], rows[i], rows[j]) == Tied
    requires SortValue(sort[k], rows[i]).None?
    ensures SortValue(sort[k], rows[j]).None?
  {
    var a, b := rows[i], rows[j];
    EmittedOrder(sort, extras, a, b);
    assert ByKeys(EmittedKeys(sort, extras), a, b) != After;
    if SortValue(sort[k], b).Some? {
      FirstDifference(sort, k, a, b);
    }
  }

  lemma {:induction false} FirstDifference(sort: seq<SortKey>, k: nat, a: Keyed, b: Keyed)
    requires k < |sort| && AskedBy(sort[..k], a, b) == Tied && Asked(sort[k], a, b) != Tied
    ensures AskedBy(sort, a, b) == Asked(sort[k], a, b)
    decreases k
  {
    if k > 0 {
      assert sort[..k][1..] == sort[1..][..k - 1];
      FirstDifference(sort[1..], k - 1, a, b);
    }
  }

  /** `first` is what ORDER BY and LIMIT return of `rows`. */
  ghost predicate Returned(sort: seq<SortKey>, extras: seq<(string, SortOrder)>, limit: nat, rows: seq<Keyed>,
                           sorted: seq<Keyed>, first: seq<Keyed>)
  {
    && multiset(sorted) == multiset(rows) && Ordered(EmittedKeys(sort, extras), sorted)
    && first == if limit < |sorted| then sorted[..limit] else sorted
  }

  /** A LIMIT returns a row without a first sort value only if it returns every row that has one. */
  lemma LimitPrefersValues(sort: seq<SortKey>, extras: seq<(string, SortOrder)>, limit: nat, rows: seq<Keyed>,
                           sorted: seq<Keyed>, first: seq<Keyed>, row: Keyed)
    requires sort != [] && Returned(sort, extras, limit, rows, sorted, first)
    requires exists i :: 0 <= i < |first| && SortValue(sort[0], first[i]).None?
    requires SortValue(sort[0], row).Some?
    ensures multiset(first)[row] == multiset(rows)[row]
  {
    var i :| 0 <= i < |first| && SortValue(sort[0], first[i]).None?;
    var rest := sorted[|first|..];
    assert sorted == first + rest;
    forall j | 0 <= j < |rest| ensures rest[j] != row {
      assert rest[j] == sorted[|first| + j];
      assert sort[..0] == [];
      NullsLast(sort, extras, sorted, 0, i, |first| + j);
    }
    assert row !in rest;
  }

  /** What the null test is for: a descending key alone puts the rows without a value first. */
  lemma PlainDescendingPutsNullFirst(key: string, a: Keyed, b: Keyed)
    requires Read(a, key).None? && Read(b, key).Some?
    ensures ByKeys([KeyTok(key, Desc)], a, b) == Before
    ensures forall s: SortKey :: KeyText(s) == key ==> ByKeys(KeyPair(s), a, b) == After
  {
    forall s: SortKey | KeyText(s) == key ensures ByKeys(KeyPair(s), a, b) == After {
      PairIsAsked(s, a, b);
    }
  }
}
