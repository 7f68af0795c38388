/**
 Case-insensitive filters end to end: the normalised shadow properties the ingest layer stores
 (src/ingest/graph.rs) and the predicates the builder writes against them (src/builder/where_part.rs).
 */
module Shadows {
  import opened Common
  import opened Ast
  import opened Normalize
  import opened Comparisons
  import opened Semantics

  predicate WantsShadow(name: string, value: Literal) {
    value.Str? && !(name != "" && name[0] == '_')
  }

  lemma ShadowNameInjective(a: string, b: string)
    ensures ShadowName(a) == ShadowName(b) ==> a == b
    ensures ShadowName(a) != a
  {
    assert ShadowName(a)[|SHADOW_PREFIX|..] == a && ShadowName(b)[|SHADOW_PREFIX|..] == b;
  }

  /** The name a stored key shadows, if it has the shadow prefix. */
  function Unshadowed(key: string): Option<string> {
    if SHADOW_PREFIX <= key then Some(key[|SHADOW_PREFIX|..]) else None
  }

  predicate IsShadowOf(props: map<string, Literal>, key: string, name: string) {
    key == ShadowName(name) && name in props && WantsShadow(name, props[name])
  }

  /** What is stored under `key`: the property of that name, else the normalised text of the one it shadows. */
  function StoredUnder(props: map<string, Literal>, key: string): Option<Literal> {
    if key in props then Some(props[key])
    else
      match Unshadowed(key)
      case None => None
      case Some(name) =>
        if IsShadowOf(props, key, name) then Some(Str(NormalizeForMatch(props[name].text))) else None
  }

  ghost predicate StoresExactly(out: map<string, Literal>, props: map<string, Literal>) {
    forall key :: (if key in out then Some(out[key]) else None) == StoredUnder(props, key)
  }

  /** The property map as stored. The source walks a hash map, so the order of the names is arbitrary. */
  method StoreProperties(props: map<string, Literal>) returns (out: map<string, Literal>)
    ensures StoresExactly(out, props)
  {
    out := map[];
    var left := props.Keys;
    ghost var done: map<string, Literal> := map[];
    while left != {}
      invariant left <= props.Keys && done.Keys == props.Keys - left
      invariant forall n :: n in done ==> done[n] == props[n]
      invariant StoresExactly(out, done)
      decreases |left|
    {
      var name :| name in left;
      left := left - {name};
      out := InsertWithShadow(out, done, name, props[name]);
      done := done[name := props[name]];
    }
    assert done == props;
  }

  method InsertWithShadow(before: map<string, Literal>, ghost props: map<string, Literal>, name: string, value: Literal)
    returns (out: map<string, Literal>)
    requires name !in props && StoresExactly(before, props)
    ensures StoresExactly(out, props[name := value])
  {
    out := before[name := value];
    if WantsShadow(name, value) && ShadowName(name) !in out {
      out := out[ShadowName(name) := Str(NormalizeForMatch(value.text))];
    }
    forall key ensures (if key in out then Some(out[key]) else None) == StoredUnder(props[name := value], key) {
      ShadowNameInjective(name, key);
      assert (if key in before then Some(before[key]) else None) == StoredUnder(props, key);
      assert (if ShadowName(name) in before then Some(before[ShadowName(name)]) else None) ==
               StoredUnder(props, ShadowName(name));
    }
  }

  /** The row binds the predicate's alias to a node stored from these properties. */
  ghost predicate OnStoredNode(g: Graph, row: Row, alias: string, n: nat, props: map<string, Literal>) {
    && alias in row && row[alias] == NodeV(n) && n < |g.nodes|
    && StoresExactly(g.nodes[n].props, props)
  }

  /**
   A case-insensitive predicate on a stored node is the case-sensitive one on normalised texts. A property the node
   itself has under the shadow name is read instead, as it stands; and on a value that is not text, or a name with a
   leading underscore, the predicate is unknown, except that nothing is among no values.
   */
  lemma CaseInsensitiveMeans(g: Graph, row: Row, n: nat, props: map<string, Literal>, p: Predicate, prop: string)
    requires OnStoredNode(g, row, p.field.alias, n, props) && p.field.property == Some(prop)
    requires p.op in {EqCi, NeqCi, InCi, ContainsCi, StartsWithCi, EndsWithCi}
    ensures Asks(g, row, p)
         == if SHADOW_PREFIX + prop in props then
              OfValue(p.op, props[SHADOW_PREFIX + prop], NormalizeLiteral(p.value))
            else if prop in props && props[prop].Str? && !("_" <= prop) then
              OfValue(p.op, Str(NormalizeForMatch(props[prop].text)), NormalizeLiteral(p.value))
            else if p.op == InCi && p.value == ListOf([]) then False
            else Unknown
  {
    hide NormalizeForMatch, OfTexts, OfMembers;
    var key, out := ShadowName(prop), g.nodes[n].props;
    assert key[|SHADOW_PREFIX|..] == prop;
    assert (if key in out then Some(out[key]) else None) == StoredUnder(props, key);
    NothingAsked(g, row, p);
  }

  /** Equality ignoring case and outer blanks, against a text: true exactly for texts with the same normal form. */
  lemma EqualsIgnoringCase(g: Graph, row: Row, n: nat, props: map<string, Literal>, p: Predicate, prop: string,
                           text: string)
    requires OnStoredNode(g, row, p.field.alias, n, props) && p.field.property == Some(prop)
    requires p.op == EqCi && p.value == Str(text)
    ensures Asks(g, row, p) == True
       <==> if SHADOW_PREFIX + prop in props then props[SHADOW_PREFIX + prop] == Str(NormalizeForMatch(text))
            else prop in props && props[prop].Str? && !("_" <= prop)
                 && NormalizeForMatch(props[prop].text) == NormalizeForMatch(text)
  {
    CaseInsensitiveMeans(g, row, n, props, p, prop);
  }

  /** The other case-insensitive comparisons of a stored text, against texts. */
  lemma TextsIgnoringCase(g: Graph, row: Row, n: nat, props: map<string, Literal>, p: Predicate, prop: string)
    requires OnStoredNode(g, row, p.field.alias, n, props) && p.field.property == Some(prop)
    requires prop in props && props[prop].Str? && !("_" <= prop) && SHADOW_PREFIX + prop !in props
    ensures p.op == NeqCi && p.value.Str? ==>
              (Asks(g, row, p) == True <==> NormalizeForMatch(props[prop].text) != NormalizeForMatch(p.value.text))
    ensures p.op == StartsWithCi && p.value.Str? ==>
              (Asks(g, row, p) == True <==> NormalizeForMatch(p.value.text) <= NormalizeForMatch(props[prop].text))
    ensures p.op == ContainsCi && p.value.Str? ==>
              (Asks(g, row, p) == True
               <==> exists k: nat :: StandsAt(NormalizeForMatch(props[prop].text), NormalizeForMatch(p.value.text), k))
    ensures p.op == EndsWithCi && p.value.Str? ==>
              (Asks(g, row, p) == True
               <==> exists k: nat :: StandsAt(NormalizeForMatch(props[prop].text), NormalizeForMatch(p.value.text), k)
                                && k + |NormalizeForMatch(p.value.text)| == |NormalizeForMatch(props[prop].text)|)
    ensures p.op == InCi && p.value.ListOf? ==>
              (Asks(g, row, p) == True
               <==> exists i :: 0 <= i < |p.value.items| && p.value.items[i].Str?
                                && NormalizeForMatch(p.value.items[i].text) == NormalizeForMatch(props[prop].text))
  {
    hide NormalizeForMatch, StoresExactly;
    if p.op in {NeqCi, InCi, ContainsCi, StartsWithCi, EndsWithCi} {
      CaseInsensitiveMeans(g, row, n, props, p, prop);
      hide Asks;
      if p.op == InCi && p.value.ListOf? {
        assert forall i :: 0 <= i < |p.value.items| ==>
          NormalizeLiteral(p.value).items[i] == NormalizeLiteral(p.value.items[i]);
      }
    }
  }
}
