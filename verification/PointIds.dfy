/**
 What a point id tells apart (src/embeddings/store.rs). Its key joins model, dimension, kind, names and text with bars
 that models, names and texts may contain themselves.
 */
module PointIds {
  import opened Common
  import opened EmbeddingStores

  /** A passage as the payload constructors make it: a kind has the names it needs and no others. */
  predicate Shaped(p: Passage) {
    var y := p.payload;
    match y.kind
    case DomainKind => y.entity.None? && y.property.None?
    case EntityKind => y.entity.Some? && y.property.None?
    case PropertyKind => y.entity.Some? && y.property.Some?
  }

  /** The part of the key behind the kind. */
  function Body(p: Passage): string {
    Join(p.payload.domain, TextOr(p.payload.entity), TextOr(p.payload.property), p.text)
  }

  function Join(d: string, e: string, r: string, t: string): string {
    d + "|" + (e + "|" + (r + "|" + t))
  }

  lemma Spelled(model: string, dim: nat, p: Passage)
    ensures PointId(model, dim, p) == model + "|" + (Decimal(dim) + "|" + (KindName(p.payload.kind) + "|" + Body(p)))
  {
    var parts := Parts(model, dim, p);
    assert Joined(parts[6..], p.text) == p.text;
    assert parts[5..][1..] == parts[6..] && parts[4..][1..] == parts[5..] && parts[3..][1..] == parts[4..];
    assert parts[2..][1..] == parts[3..] && parts[1..][1..] == parts[2..];
    assert Joined(parts[5..], p.text) == parts[5] + "|" + Joined(parts[6..], p.text);
    assert Joined(parts[4..], p.text) == parts[4] + "|" + Joined(parts[5..], p.text);
    assert Joined(parts[3..], p.text) == parts[3] + "|" + Joined(parts[4..], p.text);
    assert Joined(parts[2..], p.text) == parts[2] + "|" + Joined(parts[3..], p.text);
    assert Joined(parts[1..], p.text) == parts[1] + "|" + Joined(parts[2..], p.text);
  }

  /** The key of each kind of passage, letter by letter. */
  lemma KeyIs(model: string, dim: nat, p: Passage)
    requires Shaped(p)
    ensures PointId(model, dim, p) == model + "|" + (Decimal(dim) + "|" +
              var y := p.payload;
              match y.kind
              case DomainKind => "domain" + "|" + (y.domain + "|" + ("" + "|" + ("" + "|" + p.text)))
              case EntityKind => "entity" + "|" + (y.domain + "|" + (y.entity.value + "|" + ("" + "|" + p.text)))
              case PropertyKind =>
                "property" + "|" + (y.domain + "|" + (y.entity.value + "|" + (y.property.value + "|" + p.text))))
  {
    Spelled(model, dim, p);
  }

  lemma JoinInjective(a: string, s: string, b: string, t: string)
    requires NoBar(a) && NoBar(b) && a + "|" + s == b + "|" + t
    ensures a == b && s == t
  {
    var x, y := a + "|" + s, b + "|" + t;
    assert x[|a|] == '|' && y[|b|] == '|';
    assert (forall i :: 0 <= i < |a| ==> x[i] == a[i]) && (forall i :: 0 <= i < |b| ==> y[i] == b[i]);
    assert x[..|a|] == a && y[..|b|] == b;
    assert x[|a| + 1..] == s && y[|b| + 1..] == t;
  }

  lemma SamePrefix(a: string, s: string, t: string)
    requires a + "|" + s == a + "|" + t
    ensures s == t
  {
    assert (a + "|" + s)[|a| + 1..] == s && (a + "|" + t)[|a| + 1..] == t;
  }

  lemma FixedPartsArePlain(dim: nat, k: Kind)
    ensures NoBar(Decimal(dim)) && NoBar(KindName(k)) && Decimal(dim) != KindName(k)
    ensures forall k' :: KindName(k') == KindName(k) ==> k' == k
  {
    assert '0' <= Decimal(dim)[0] <= '9' && KindName(k)[0] in {'d', 'e', 'p'};
  }

  /** Under one model and dimension ids agree exactly if kinds and bodies do. */
  lemma SameIds(model: string, dim: nat, p: Passage, p': Passage)
    ensures PointId(model, dim, p) == PointId(model, dim, p') <==>
              p.payload.kind == p'.payload.kind && Body(p) == Body(p')
  {
    hide PointId, Body, KindName, Decimal;
    Spelled(model, dim, p);
    Spelled(model, dim, p');
    var kind, kind' := KindName(p.payload.kind), KindName(p'.payload.kind);
    if PointId(model, dim, p) == PointId(model, dim, p') {
      SamePrefix(model, Decimal(dim) + "|" + (kind + "|" + Body(p)), Decimal(dim) + "|" + (kind' + "|" + Body(p')));
      SamePrefix(Decimal(dim), kind + "|" + Body(p), kind' + "|" + Body(p'));
      FixedPartsArePlain(dim, p.payload.kind);
      FixedPartsArePlain(dim, p'.payload.kind);
      JoinInjective(kind, Body(p), kind', Body(p'));
    }
  }

  // ---- which passages share their id ----

  predicate Stands(s: string, i: nat, run: string) {
    i + |run| <= |s| && s[i..i + |run|] == run
  }

  /** `run` stands somewhere in `s`. */
  predicate Occurs(s: string, run: string) {
    exists i: nat :: i < |s| && Stands(s, i, run)
  }

  /** Where a run stands in the second part of a text. */
  lemma StandsBehind(a: string, b: string, i: nat, run: string)
    requires |a| <= i
    ensures Stands(a + b, i, run) <==> Stands(b, i - |a|, run)
  {
    if i + |run| <= |a + b| {
      assert (a + b)[i..i + |run|] == b[i - |a|..i - |a| + |run|];
    }
  }

  lemma StandsBefore(a: string, b: string, i: nat, run: string)
    requires i + |run| <= |a|
    ensures Stands(a + b, i, run) <==> Stands(a, i, run)
  {
    assert (a + b)[i..i + |run|] == a[i..i + |run|];
  }

  /** Another passage has the same id. */
  ghost predicate Shared(model: string, dim: nat, p: Passage) {
    exists p' :: Shaped(p') && p' != p && PointId(model, dim, p') == PointId(model, dim, p)
  }

  /** The body can be read another way: which bars do it depends on which of its parts are fixed as empty. */
  predicate Ambiguous(p: Passage) {
    var d, e, r, t := p.payload.domain, TextOr(p.payload.entity), TextOr(p.payload.property), p.text;
    match p.payload.kind
    case DomainKind => Occurs(d + "||", "|||") || Occurs("||" + t, "|||")
    case EntityKind => !NoBar(d) || !NoBar(e) || Occurs("|" + t, "||")
    case PropertyKind => !NoBar(d) || !NoBar(e) || !NoBar(r) || !NoBar(t)
  }

  function Of(kind: Kind, d: string, e: string, r: string, t: string): Passage {
    match kind
    case DomainKind => Passage(Payload(DomainKind, d, None, None), t)
    case EntityKind => Passage(Payload(EntityKind, d, Some(e), None), t)
    case PropertyKind => Passage(Payload(PropertyKind, d, Some(e), Some(r)), t)
  }

  lemma SharesWith(model: string, dim: nat, p: Passage, p': Passage)
    requires Shaped(p') && p' != p && p'.payload.kind == p.payload.kind && Body(p') == Body(p)
    ensures Shared(model, dim, p)
  {
    hide PointId, Body;
    SameIds(model, dim, p', p);
  }

  // ---- property passages ----

  function Bars(s: string): nat {
    if s == "" then 0 else (if s[0] == '|' then 1 else 0) + Bars(s[1..])
  }

  lemma {:induction false} BarsAppend(a: string, b: string)
    ensures Bars(a + b) == Bars(a) + Bars(b)
  {
    if a == "" {
      assert a + b == b;
    } else {
      assert (a + b)[1..] == a[1..] + b;
      BarsAppend(a[1..], b);
    }
  }

  lemma {:induction false} NoBars(s: string)
    ensures Bars(s) == 0 <==> NoBar(s)
  {
    if s != "" {
      NoBars(s[1..]);
      assert NoBar(s) <==> s[0] != '|' && NoBar(s[1..]) by {
        assert forall i :: 0 <= i < |s[1..]| ==> s[1..][i] == s[i + 1];
        assert forall i :: 1 <= i < |s| ==> s[i] == s[1..][i - 1];
      }
    }
  }

  lemma BarsOfJoin(d: string, e: string, r: string, t: string)
    ensures Bars(Join(d, e, r, t)) == Bars(d) + Bars(e) + Bars(r) + Bars(t) + 3
  {
    assert Bars("|") == 1 by {
      assert "|"[1..] == "";
    }
    BarsAppend(r + "|", t);
    BarsAppend(r, "|");
    BarsAppend(e + "|", r + "|" + t);
    BarsAppend(e, "|");
    BarsAppend(d + "|", e + "|" + (r + "|" + t));
    BarsAppend(d, "|");
  }

  /** Without bars the four parts are read back. */
  lemma PlainJoin(d: string, e: string, r: string, t: string, d': string, e': string, r': string, t': string)
    requires Join(d, e, r, t) == Join(d', e', r', t') && NoBar(d) && NoBar(e) && NoBar(r) && NoBar(t)
    ensures d == d' && e == e' && r == r' && t == t'
  {
    BarsOfJoin(d, e, r, t);
    BarsOfJoin(d', e', r', t');
    NoBars(d);
    NoBars(e);
    NoBars(r);
    NoBars(t);
    NoBars(d');
    NoBars(e');
    NoBars(r');
    JoinInjective(d, e + "|" + (r + "|" + t), d', e' + "|" + (r' + "|" + t'));
    JoinInjective(e, r + "|" + t, e', r' + "|" + t');
    JoinInjective(r, t, r', t');
  }

  lemma SplitAtBar(s: string) returns (x: string, y: string)
    requires !NoBar(s)
    ensures s == x + "|" + y && NoBar(x)
    decreases |s|
  {
    if s[0] == '|' {
      x, y := "", s[1..];
    } else {
      assert !NoBar(s[1..]) by {
        var i :| 0 <= i < |s| && s[i] == '|';
        assert s[1..][i - 1] == '|';
      }
      x, y := SplitAtBar(s[1..]);
      x := [s[0]] + x;
      assert s == [s[0]] + s[1..];
    }
  }

  /** A bar in a name moves the border between two names. */
  lemma MovedBorders(d: string, e: string, r: string, t: string, x: string, y: string)
    ensures d == x + "|" + y ==> Join(d, e, r, t) == Join(x, y + "|" + e, r, t)
    ensures e == x + "|" + y ==> Join(d, e, r, t) == Join(d + "|" + x, y, r, t)
    ensures r == x + "|" + y ==> Join(d, e, r, t) == Join(d, e + "|" + x, y, t)
    ensures t == x + "|" + y ==> Join(d, e, r, t) == Join(d, e, r + "|" + x, y)
  {
  }

  lemma PropertyShared(model: string, dim: nat, p: Passage)
    requires Shaped(p) && p.payload.kind == PropertyKind && Ambiguous(p)
    ensures Shared(model, dim, p)
  {
    hide Join, PointId;
    var d, e, r, t := p.payload.domain, p.payload.entity.value, p.payload.property.value, p.text;
    var p' := p;
    if !NoBar(d) {
      var x, y := SplitAtBar(d);
      MovedBorders(d, e, r, t, x, y);
      p' := Of(PropertyKind, x, y + "|" + e, r, t);
    } else if !NoBar(e) {
      var x, y := SplitAtBar(e);
      MovedBorders(d, e, r, t, x, y);
      p' := Of(PropertyKind, d + "|" + x, y, r, t);
    } else if !NoBar(r) {
      var x, y := SplitAtBar(r);
      MovedBorders(d, e, r, t, x, y);
      p' := Of(PropertyKind, d, e + "|" + x, y, t);
    } else {
      var x, y := SplitAtBar(t);
      MovedBorders(d, e, r, t, x, y);
      p' := Of(PropertyKind, d, e, r + "|" + x, y);
    }
    SharesWith(model, dim, p, p');
  }

  // ---- entity passages: the third part is empty ----

  function EntityBody(d: string, e: string, t: string): string {
    d + "|" + e + "||" + t
  }

  lemma EntityJoin(d: string, e: string, t: string)
    ensures Join(d, e, "", t) == EntityBody(d, e, t)
  {
    assert "" + "|" + t == "|" + t;
  }

  lemma EntityShared(model: string, dim: nat, p: Passage)
    requires Shaped(p) && p.payload.kind == EntityKind && Ambiguous(p)
    ensures Shared(model, dim, p)
  {
    hide Join, PointId;
    var d, e, t := p.payload.domain, p.payload.entity.value, p.text;
    var p' := p;
    if !NoBar(d) {
      var x, y := SplitAtBar(d);
      MovedBorders(d, e, "", t, x, y);
      p' := Of(EntityKind, x, y + "|" + e, "", t);
    } else if !NoBar(e) {
      var x, y := SplitAtBar(e);
      MovedBorders(d, e, "", t, x, y);
      p' := Of(EntityKind, d + "|" + x, y, "", t);
    } else {
      var i: nat :| i < |"|" + t| && Stands("|" + t, i, "||");
      LaterPair(d, e, t, i);
      EntityJoin(d, e, t);
      EntityJoin(d, e + "|" + ("|" + t)[..i], ("|" + t)[i + 2..]);
      p' := Of(EntityKind, d, e + "|" + ("|" + t)[..i], "", ("|" + t)[i + 2..]);
    }
    SharesWith(model, dim, p, p');
  }

  lemma LaterPair(d: string, e: string, t: string, i: nat)
    requires Stands("|" + t, i, "||")
    ensures EntityBody(d, e, t) == EntityBody(d, e + "|" + ("|" + t)[..i], ("|" + t)[i + 2..])
  {
    var s := "|" + t;
    assert s == s[..i] + "||" + s[i + 2..];
    assert EntityBody(d, e, t) == d + "|" + e + "|" + s;
  }

  /** No other reading of an entity body without these bars. */
  lemma EntityReadsOnce(d: string, e: string, t: string, d': string, e': string, t': string)
    requires NoBar(d) && NoBar(e) && !Occurs("|" + t, "||") && EntityBody(d, e, t) == EntityBody(d', e', t')
    ensures d == d' && e == e' && t == t'
  {
    var s, b, m, b', m' := EntityBody(d, e, t), |d|, |d| + 1 + |e|, |d'|, |d'| + 1 + |e'|;
    var head := d + "|" + e + "|";
    assert s == head + ("|" + t);
    assert s[b'] == '|' && s[m'] == '|' && Stands(s, m', "||");
    if m' > m {
      StandsBehind(head, "|" + t, m', "||");
    }
    EntityBars(d, e, t);
    assert s[..b] == d && s[..b'] == d';
    assert s[b + 1..m] == e && s[b' + 1..m'] == e';
    assert s[m + 2..] == t && s[m' + 2..] == t';
  }

  lemma EntityBars(d: string, e: string, t: string)
    requires NoBar(d) && NoBar(e)
    ensures forall i :: 0 <= i < |d| + 1 + |e| && EntityBody(d, e, t)[i] == '|' ==> i == |d|
  {
  }

  // ---- domain passages: only domain and text ----

  function DomainBody(d: string, t: string): string {
    d + "|||" + t
  }

  lemma DomainJoin(d: string, t: string)
    ensures Join(d, "", "", t) == DomainBody(d, t)
  {
    assert "" + "|" + t == "|" + t && "" + "|" + ("|" + t) == "||" + t;
  }

  lemma DomainShared(model: string, dim: nat, p: Passage)
    requires Shaped(p) && p.payload.kind == DomainKind && Ambiguous(p)
    ensures Shared(model, dim, p)
  {
    hide Join, PointId;
    var d, t := p.payload.domain, p.text;
    var s := DomainBody(d, t);
    var m := DomainRun(d, t);
    assert s == DomainBody(s[..m], s[m + 3..]);
    DomainJoin(d, t);
    DomainJoin(s[..m], s[m + 3..]);
    SharesWith(model, dim, p, Of(DomainKind, s[..m], "", "", s[m + 3..]));
  }

  lemma DomainRun(d: string, t: string) returns (m: nat)
    requires Occurs(d + "||", "|||") || Occurs("||" + t, "|||")
    ensures m != |d| && Stands(DomainBody(d, t), m, "|||")
  {
    if Occurs(d + "||", "|||") {
      m :| m < |d + "||"| && Stands(d + "||", m, "|||");
      assert DomainBody(d, t) == (d + "||") + ("|" + t);
      StandsBefore(d + "||", "|" + t, m, "|||");
    } else {
      var i: nat :| i < |"||" + t| && Stands("||" + t, i, "|||");
      m := |d| + 1 + i;
      assert DomainBody(d, t) == (d + "|") + ("||" + t);
      StandsBehind(d + "|", "||" + t, m, "|||");
    }
  }

  lemma DomainReadsOnce(d: string, t: string, d': string, t': string)
    requires !Occurs(d + "||", "|||") && !Occurs("||" + t, "|||") && DomainBody(d, t) == DomainBody(d', t')
    ensures d == d' && t == t'
  {
    var s, m := DomainBody(d, t), |d'|;
    assert Stands(s, m, "|||");
    if m < |d| {
      assert s == (d + "||") + ("|" + t);
      StandsBefore(d + "||", "|" + t, m, "|||");
    } else if m > |d| {
      assert s == (d + "|") + ("||" + t);
      StandsBehind(d + "|", "||" + t, m, "|||");
    }
    assert s[..|d|] == d && s[..m] == d' && s[|d| + 3..] == t && s[m + 3..] == t';
  }

  lemma ReadsOnce(p: Passage, p': Passage)
    requires Shaped(p) && Shaped(p') && !Ambiguous(p) && p.payload.kind == p'.payload.kind && Body(p) == Body(p')
    ensures p == p'
  {
    hide Join, NoBar, Occurs;
    var y, y' := p.payload, p'.payload;
    match y.kind {
      case DomainKind =>
        DomainJoin(y.domain, p.text);
        DomainJoin(y'.domain, p'.text);
        DomainReadsOnce(y.domain, p.text, y'.domain, p'.text);
      case EntityKind =>
        EntityJoin(y.domain, y.entity.value, p.text);
        EntityJoin(y'.domain, y'.entity.value, p'.text);
        EntityReadsOnce(y.domain, y.entity.value, p.text, y'.domain, y'.entity.value, p'.text);
      case PropertyKind =>
        PlainJoin(y.domain, y.entity.value, y.property.value, p.text, y'.domain, y'.entity.value, y'.property.value,
                  p'.text);
    }
  }

  /**
   A passage shares its id with a different one of the same model and dimension if and only if its bars make it
   ambiguous.
   */
  lemma SharedExactlyWhen(model: string, dim: nat, p: Passage)
    requires Shaped(p)
    ensures Shared(model, dim, p) <==> Ambiguous(p)
  {
    hide PointId, Ambiguous, Body;
    if Ambiguous(p) {
      match p.payload.kind {
        case DomainKind => DomainShared(model, dim, p);
        case EntityKind => EntityShared(model, dim, p);
        case PropertyKind => PropertyShared(model, dim, p);
      }
    } else if Shared(model, dim, p) {
      var p' :| Shaped(p') && p' != p && PointId(model, dim, p') == PointId(model, dim, p);
      SameIds(model, dim, p', p);
      ReadsOnce(p, p');
    }
  }

  // ---- models and dimensions ----

  /** A model name that spells out another model with its dimension and a kind. */
  ghost predicate Spells(model': string, model: string, dim: nat) {
    exists k: Kind, x: string :: (x == "" || x[0] == '|') && model' == SpelledOut(model, dim, k, x)
  }

  function SpelledOut(model: string, dim: nat, k: Kind, x: string): string {
    model + "|" + (Decimal(dim) + "|" + (KindName(k) + x))
  }

  ghost predicate Meet(model: string, dim: nat, model': string, dim': nat) {
    exists p, p' :: Shaped(p) && Shaped(p') && PointId(model, dim, p) == PointId(model', dim', p')
  }

  /** Under plain model names, ids of different models or dimensions never meet. */
  lemma SwitchNeverReuses(model: string, dim: nat, p: Passage, model': string, dim': nat, p': Passage)
    requires NoBar(model) && NoBar(model') && PointId(model, dim, p) == PointId(model', dim', p')
    ensures model == model' && dim == dim'
  {
    hide PointId, Body, KindName, Decimal;
    Spelled(model, dim, p);
    Spelled(model', dim', p');
    var rest, rest' := KindName(p.payload.kind) + "|" + Body(p), KindName(p'.payload.kind) + "|" + Body(p');
    JoinInjective(model, Decimal(dim) + "|" + rest, model', Decimal(dim') + "|" + rest');
    FixedPartsArePlain(dim, p.payload.kind);
    FixedPartsArePlain(dim', p'.payload.kind);
    JoinInjective(Decimal(dim), rest, Decimal(dim'), rest');
    DecimalRoundTrip(dim);
    DecimalRoundTrip(dim');
  }

  lemma SameModelSameDim(model: string, dim: nat, p: Passage, dim': nat, p': Passage)
    requires PointId(model, dim, p) == PointId(model, dim', p')
    ensures dim == dim'
  {
    hide PointId, Body, KindName, Decimal;
    Spelled(model, dim, p);
    Spelled(model, dim', p');
    var rest, rest' := KindName(p.payload.kind) + "|" + Body(p), KindName(p'.payload.kind) + "|" + Body(p');
    SamePrefix(model, Decimal(dim) + "|" + rest, Decimal(dim') + "|" + rest');
    FixedPartsArePlain(dim, p.payload.kind);
    FixedPartsArePlain(dim', p'.payload.kind);
    JoinInjective(Decimal(dim), rest, Decimal(dim'), rest');
    DecimalRoundTrip(dim);
    DecimalRoundTrip(dim');
  }

  /** What stands between a shorter model name and the end of a longer one. */
  lemma LongerModel(a: string, s: string, b: string, t: string) returns (w: string)
    requires a + "|" + s == b + "|" + t && |a| < |b|
    ensures b == a + "|" + w && s == w + "|" + t
  {
    var x := a + "|" + s;
    w := b[|a| + 1..];
    assert x[..|b|] == b && x[|b| + 1..] == t;
    assert b[..|a|] == a && b[|a|] == '|';
    assert x[|a| + 1..] == s;
    assert (b + "|" + t)[|a| + 1..] == w + "|" + t;
  }

  lemma MeetingSpells(model: string, dim: nat, p: Passage, model': string, dim': nat, p': Passage)
    requires |model| < |model'| && PointId(model, dim, p) == PointId(model', dim', p')
    ensures Spells(model', model, dim)
  {
    hide PointId, Body, KindName, Decimal;
    Spelled(model, dim, p);
    Spelled(model', dim', p');
    FixedPartsArePlain(dim, p.payload.kind);
    FixedPartsArePlain(dim', p.payload.kind);
    var number, kind, body := Decimal(dim), KindName(p.payload.kind), Body(p);
    var number', tail' := Decimal(dim'), KindName(p'.payload.kind) + "|" + Body(p');
    var w := LongerModel(model, number + "|" + (kind + "|" + body), model', number' + "|" + tail');
    if NoBar(w) {
      JoinInjective(number, kind + "|" + body, w, number' + "|" + tail');
      JoinInjective(kind, body, number', tail');
    } else {
      var w1, w2 := SplitAtBar(w);
      assert w + "|" + (number' + "|" + tail') == w1 + "|" + (w2 + "|" + (number' + "|" + tail'));
      JoinInjective(number, kind + "|" + body, w1, w2 + "|" + (number' + "|" + tail'));
      var x := KindFirst(kind, body, w2, number' + "|" + tail');
      assert model' == SpelledOut(model, dim, p.payload.kind, x);
    }
  }

  lemma KindFirst(kind: string, body: string, w: string, t: string) returns (x: string)
    requires NoBar(kind) && kind + "|" + body == w + "|" + t
    ensures w == kind + x && (x == "" || x[0] == '|')
  {
    if NoBar(w) {
      JoinInjective(kind, body, w, t);
      x := "";
    } else {
      var w1, w2 := SplitAtBar(w);
      assert w + "|" + t == w1 + "|" + (w2 + "|" + t);
      JoinInjective(kind, body, w1, w2 + "|" + t);
      x := "|" + w2;
    }
  }

  lemma Regroup(a: string, b: string, c: string, rest: string)
    ensures (a + "|" + (b + "|" + c)) + "|" + rest == a + "|" + (b + "|" + (c + "|" + rest))
  {
  }

  lemma Rest(kind: string, x: string, tail: string) returns (d: string)
    requires x == "" || x[0] == '|'
    ensures (kind + x) + "|" + tail == kind + "|" + d
    ensures d == if x == "" then tail else x[1..] + "|" + tail
  {
    if x == "" {
      d := tail;
      assert kind + x == kind;
    } else {
      d := x[1..] + "|" + tail;
      assert x == "|" + x[1..];
    }
  }

  /** The longer model name in front of an empty property passage is the shorter one in front of a domain. */
  lemma Respelled(model: string, number: string, kind: string, x: string, number': string, property: string)
    returns (d: string)
    requires x == "" || x[0] == '|'
    ensures (model + "|" + (number + "|" + (kind + x))) + "|" + (number' + "|" + (property + "|" + "|||"))
         == model + "|" + (number + "|" + (kind + "|" + (d + "||||")))
  {
    var tail := number' + "|" + property;
    assert number' + "|" + (property + "|" + "|||") == tail + "||||";
    Regroup(model, number, kind + x, tail + "||||");
    d := Rest(kind, x, tail);
    assert (kind + x) + "|" + (tail + "||||") == ((kind + x) + "|" + tail) + "||||";
    assert (kind + "|" + d) + "||||" == kind + "|" + (d + "||||");
  }

  /** Such a name does meet: the rest of it is read as a domain. */
  lemma SpellingMeets(model: string, dim: nat, model': string, dim': nat, k: Kind, x: string)
    requires (x == "" || x[0] == '|') && model' == SpelledOut(model, dim, k, x)
    ensures Meet(model, dim, model', dim')
  {
    hide PointId, KindName, Decimal, Join, Body;
    var d := Respelled(model, Decimal(dim), KindName(k), x, Decimal(dim'), KindName(PropertyKind));
    var p, p' := Of(k, d, "", "", "|"), Of(PropertyKind, "", "", "", "");
    Spelled(model, dim, p);
    Spelled(model', dim', p');
    ShapedOf(k, d, "|");
    ShapedOf(PropertyKind, "", "");
    assert d + "|||" + "|" == d + "||||" && "" + "|||" + "" == "|||";
  }

  lemma ShapedOf(k: Kind, d: string, t: string)
    ensures var p := Of(k, d, "", "", t);
            Shaped(p) && p.payload.kind == k && Body(p) == d + "|||" + t
  {
    DomainJoin(d, t);
  }

  /**
   Ids of two settings meet if and only if the settings are one or one model's name spells out the other's setting.
   */
  lemma MeetExactlyWhen(model: string, dim: nat, model': string, dim': nat)
    ensures Meet(model, dim, model', dim') <==>
            (model == model' && dim == dim') || Spells(model', model, dim) || Spells(model, model', dim')
  {
    hide PointId;
    if Meet(model, dim, model', dim') {
      var p, p' :| Shaped(p) && Shaped(p') && PointId(model, dim, p) == PointId(model', dim', p');
      if |model| < |model'| {
        MeetingSpells(model, dim, p, model', dim', p');
      } else if |model'| < |model| {
        MeetingSpells(model', dim', p', model, dim, p);
      } else {
        SameLengthModels(model, dim, p, model', dim', p');
      }
    }
    if model == model' && dim == dim' {
      var p := Of(DomainKind, "", "", "", "");
      assert Shaped(p) && PointId(model, dim, p) == PointId(model', dim', p);
    }
    if k: Kind, x: string :| (x == "" || x[0] == '|') && model' == SpelledOut(model, dim, k, x) {
      SpellingMeets(model, dim, model', dim', k, x);
    }
    if k: Kind, x: string :| (x == "" || x[0] == '|') && model == SpelledOut(model', dim', k, x) {
      SpellingMeets(model', dim', model, dim, k, x);
      MeetIsSymmetric(model', dim', model, dim);
    }
  }

  lemma MeetIsSymmetric(model: string, dim: nat, model': string, dim': nat)
    requires Meet(model, dim, model', dim')
    ensures Meet(model', dim', model, dim)
  {
    hide PointId;
  }

  lemma SameLengthModels(model: string, dim: nat, p: Passage, model': string, dim': nat, p': Passage)
    requires |model| == |model'| && PointId(model, dim, p) == PointId(model', dim', p')
    ensures model == model' && dim == dim'
  {
    hide PointId, Body, KindName, Decimal;
    Spelled(model, dim, p);
    Spelled(model', dim', p');
    assert PointId(model, dim, p)[..|model|] == model && PointId(model', dim', p')[..|model|] == model';
    SameModelSameDim(model, dim, p, dim', p');
  }
}
