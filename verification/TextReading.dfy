/** Reading the whole emitted text back: clauses, sources stage, RETURN, ORDER BY and LIMIT, with nothing left over. */
module TextReading {
  import opened Common
  import opened Ast
  import opened Cypher
  import opened WhereReading
  import opened MatchPart
  import opened ReadCompiler
  import opened SourcesStage
  import opened ReturnPart
  import opened ReadBuilder

  /** A WITH, the clause behind it, and the WITH that collects what it found. */
  datatype Stage = Stage(carried: seq<string>, lookup: Clause, grouped: seq<string>, item: string, column: string)

  datatype QueryText = QueryText(
    clauses: seq<Clause>,
    stage: Option<Stage>,
    returned: Token,
    keys: seq<Token>,
    limit: Option<nat>)

  function ReadStage(ts: seq<Token>, i: nat): (r: Option<(Option<Stage>, nat)>)
    requires i <= |ts|
    ensures r.Some? ==> i <= r.value.1 <= |ts|
  {
    if i == |ts| || !ts[i].WithTok? then Some((None, i))
    else
      match ReadClause(ts, i + 1)
      case None => None
      case Some((c, j)) =>
        if j < |ts| && ts[j].CollectTok? then
          Some((Some(Stage(ts[i].names, c, ts[j].names, ts[j].item, ts[j].column)), j + 1))
        else None
  }

  predicate IsKey(t: Token) {
    t.NullKeyTok? || t.KeyTok?
  }

  /** The position behind the sort keys from `i` on. */
  function KeysEnd(ts: seq<Token>, i: nat): (j: nat)
    requires i <= |ts|
    ensures i <= j <= |ts|
    decreases |ts| - i
  {
    if i < |ts| && IsKey(ts[i]) then KeysEnd(ts, i + 1) else i
  }

  /** An ORDER BY has at least one key. */
  function ReadOrder(ts: seq<Token>, i: nat): (r: Option<(seq<Token>, nat)>)
    requires i <= |ts|
    ensures r.Some? ==> i <= r.value.1 <= |ts|
  {
    if i == |ts| || ts[i] != KwOrderBy then Some(([], i))
    else
      var j := KeysEnd(ts, i + 1);
      if j == i + 1 then None else Some((ts[i + 1..j], j))
  }

  function ReadTail(ts: seq<Token>, i: nat, clauses: seq<Clause>, stage: Option<Stage>): Option<QueryText>
    requires i <= |ts|
  {
    if i == |ts| || !ts[i].ReturnTok? then None
    else
      match ReadOrder(ts, i + 1)
      case None => None
      case Some((keys, j)) =>
        if j == |ts| then Some(QueryText(clauses, stage, ts[i], keys, None))
        else if j + 1 == |ts| && ts[j].LimitTok? then Some(QueryText(clauses, stage, ts[i], keys, Some(ts[j].count)))
        else None
  }

  /** The text as a database reads it. */
  function ReadText(ts: seq<Token>): Option<QueryText> {
    match ReadClauses(ts, 0)
    case None => None
    case Some((clauses, i)) =>
      match ReadStage(ts, i)
      case None => None
      case Some((stage, j)) => ReadTail(ts, j, clauses, stage)
  }

  lemma {:induction false} UserKeysAreKeys(sort: seq<SortKey>)
    ensures forall t :: t in UserKeys(sort) ==> IsKey(t)
    ensures UserKeys(sort) == [] <==> sort == []
    decreases |sort|
  {
    if sort != [] {
      UserKeysAreKeys(sort[..|sort| - 1]);
    }
  }

  lemma {:induction false} KeysRead(ts: seq<Token>, i: nat, keys: seq<Token>)
    requires Occurs(ts, i, keys) && forall t :: t in keys ==> IsKey(t)
    requires i + |keys| == |ts| || !IsKey(ts[i + |keys|])
    ensures KeysEnd(ts, i) == i + |keys|
    decreases |keys|
  {
    if keys != [] {
      OccursFirst(ts, i, keys);
      OccursSplit(ts, i, keys[..1], keys[1..]) by {
        assert keys == keys[..1] + keys[1..];
      }
      KeysRead(ts, i + 1, keys[1..]);
    }
  }

  function AllKeys(sort: seq<SortKey>, extras: seq<(string, SortOrder)>): seq<Token> {
    UserKeys(sort) + HandlerKeys(extras)
  }

  lemma AllAreKeys(sort: seq<SortKey>, extras: seq<(string, SortOrder)>)
    ensures forall t :: t in AllKeys(sort, extras) ==> IsKey(t)
    ensures AllKeys(sort, extras) == [] <==> sort == [] && extras == []
  {
    hide UserKeys;
    UserKeysAreKeys(sort);
  }

  lemma LimitIsNoKey(ts: seq<Token>)
    ensures forall i :: 0 <= i < |ts| && ts[i].LimitTok? ==> !IsKey(ts[i])
  {
  }

  lemma OrderReads(ts: seq<Token>, i: nat, sort: seq<SortKey>, extras: seq<(string, SortOrder)>)
    requires Occurs(ts, i, OrderText(sort, extras))
    requires var j := i + |OrderText(sort, extras)|; j == |ts| || ts[j].LimitTok?
    ensures ReadOrder(ts, i) == Some((AllKeys(sort, extras), i + |OrderText(sort, extras)|))
  {
    OrderTextIs(sort, extras);
    hide UserKeys, HandlerKeys, AllKeys, OrderText, Occurs, IsKey, KeysEnd;
    var keys := AllKeys(sort, extras);
    AllAreKeys(sort, extras);
    LimitIsNoKey(ts);
    if sort == [] && extras == [] {
      assert OrderText(sort, extras) == [];
    } else {
      OccursSplit(ts, i, [KwOrderBy], keys);
      OccursFirst(ts, i, OrderText(sort, extras));
      KeysRead(ts, i + 1, keys);
      OccursIs(ts, i + 1, keys);
    }
  }

  lemma OrderTextIs(sort: seq<SortKey>, extras: seq<(string, SortOrder)>)
    ensures sort == [] && extras == [] ==> OrderText(sort, extras) == [] && AllKeys(sort, extras) == []
    ensures sort != [] || extras != [] ==> OrderText(sort, extras) == [KwOrderBy] + AllKeys(sort, extras)
  {
    hide UserKeys;
    if sort == [] {
      KeysOfNone();
    }
    assert [KwOrderBy] + UserKeys(sort) + HandlerKeys(extras) == [KwOrderBy] + (UserKeys(sort) + HandlerKeys(extras));
  }

  lemma OccursIs(ts: seq<Token>, i: nat, text: seq<Token>)
    requires Occurs(ts, i, text)
    ensures i + |text| <= |ts| && ts[i..i + |text|] == text
  {
  }

  function LimitText(limit: Option<nat>): seq<Token> {
    match limit case Some(n) => [LimitTok(n)] case None => []
  }

  lemma TailReads(ts: seq<Token>, i: nat, q: ReadQuery, extras: seq<(string, SortOrder)>, clauses: seq<Clause>,
                  stage: Option<Stage>)
    requires Occurs(ts, i, TailText(q, extras)) && i + |TailText(q, extras)| == |ts|
    ensures ReadTail(ts, i, clauses, stage)
         == Some(QueryText(clauses, stage, ReturnToken(q, extras), AllKeys(q.sort, SortExtras(q, extras)), q.limit))
  {
    hide Occurs, OrderText, ReadOrder, ReturnToken, AllKeys;
    var returned, order, limit := ReturnToken(q, extras), OrderText(q.sort, SortExtras(q, extras)), LimitText(q.limit);
    assert TailText(q, extras) == [returned] + (order + limit);
    OccursSplit(ts, i, [returned], order + limit);
    OccursFirst(ts, i, TailText(q, extras));
    OccursSplit(ts, i + 1, order, limit);
    var j := i + 1 + |order|;
    if q.limit.Some? {
      OccursFirst(ts, j, limit);
    }
    OrderReads(ts, i + 1, q.sort, SortExtras(q, extras));
    ReturnIsReturn(q, extras);
  }

  lemma ReturnIsReturn(q: ReadQuery, extras: seq<(string, SortOrder)>)
    ensures ReturnToken(q, extras).ReturnTok?
  {
  }

  /** What the stage of a find query reads as. */
  ghost predicate IsStage(q: ReadQuery, extras: seq<(string, SortOrder)>, stage: Option<Stage>) {
    if InjectsSources(q) then
      && stage.Some? && IsCarry(q, extras, stage.value.carried)
      && stage.value == Stage(stage.value.carried, SourcesClause(NodeAliases(q, |q.traversals|)), stage.value.carried,
                              SRC, SOURCES)
    else stage.None?
  }

  lemma BareTextReads(q: ReadQuery, extras: seq<(string, SortOrder)>, text: seq<Token>)
    requires q.filter.Some? ==> Full(q.filter.value)
    requires !InjectsSources(q) && text == BindingText(q) + TailText(q, extras)
    ensures ReadText(text)
         == Some(QueryText(ClausesOf(Items(q)), None, ReturnToken(q, extras), AllKeys(q.sort, SortExtras(q, extras)),
                           q.limit))
  {
    hide BindingText, TailText, Full, Items, ReadTail, ReadClauses, AllKeys, ReturnToken;
    var i := |BindingText(q)|;
    assert Occurs(text, 0, BindingText(q)) && Occurs(text, i, TailText(q, extras));
    TailStarts(text, i, q, extras);
    BindingsReadBack(q, text);
    TailReads(text, i, q, extras, ClausesOf(Items(q)), None);
  }

  lemma TailStarts(ts: seq<Token>, i: nat, q: ReadQuery, extras: seq<(string, SortOrder)>)
    requires Occurs(ts, i, TailText(q, extras))
    ensures i < |ts| && ts[i].ReturnTok?
  {
    OccursFirst(ts, i, TailText(q, extras));
  }

  lemma StagedTextReads(q: ReadQuery, extras: seq<(string, SortOrder)>, text: seq<Token>, carry: seq<string>)
    requires q.filter.Some? ==> Full(q.filter.value)
    requires var nodes := NodeAliases(q, |q.traversals|);
             text == BindingText(q) + StageText(nodes, carry) + TailText(q, extras)
    ensures var stage := Stage(carry, SourcesClause(NodeAliases(q, |q.traversals|)), carry, SRC, SOURCES);
            ReadText(text)
            == Some(QueryText(ClausesOf(Items(q)), Some(stage), ReturnToken(q, extras),
                              AllKeys(q.sort, SortExtras(q, extras)), q.limit))
  {
    hide BindingText, TailText, Full, Items, ReadTail, ReadClauses, ReadClause, AllKeys, ReturnToken, SourcesClause,
    NodeAliases;
    var nodes, i := NodeAliases(q, |q.traversals|), |BindingText(q)|;
    assert Occurs(text, 0, BindingText(q)) && Occurs(text, i, StageText(nodes, carry))
           && Occurs(text, i + 8, TailText(q, extras));
    StageReadsBack(text, i, nodes, carry);
    BindingsReadBack(q, text);
    var stage := Stage(carry, SourcesClause(nodes), carry, SRC, SOURCES);
    TailReads(text, i + 8, q, extras, ClausesOf(Items(q)), Some(stage));
  }

  /**
   The whole text of a query reads back: the intended clauses, for find queries the lookup between its two WITHs, the
   RETURN, the key pairs with the contributed keys behind them, and the limit, with nothing left over.
   */
  lemma TextReadsBack(q: ReadQuery, extras: seq<(string, SortOrder)>, text: seq<Token>)
    requires IsReadText(q, extras, text) && (q.filter.Some? ==> Full(q.filter.value))
    ensures exists stage :: IsStage(q, extras, stage)
              && ReadText(text) == Some(QueryText(ClausesOf(Items(q)), stage, ReturnToken(q, extras),
                                                  AllKeys(q.sort, SortExtras(q, extras)), q.limit))
  {
    hide BindingText, StageText, TailText, Full, Items, ReadText, AllKeys, ReturnToken, IsCarry, InjectsSources,
    SourcesClause;
    var nodes := NodeAliases(q, |q.traversals|);
    if InjectsSources(q) {
      var carry :| IsCarry(q, extras, carry) && text == BindingText(q) + StageText(nodes, carry) + TailText(q, extras);
      StagedTextReads(q, extras, text, carry);
      assert IsStage(q, extras, Some(Stage(carry, SourcesClause(nodes), carry, SRC, SOURCES)));
    } else {
      BareTextReads(q, extras, text);
      assert IsStage(q, extras, None);
    }
  }
}
