/** The enumerated matches of a step are exactly its links, each once. */
module Matching {
  import opened Common
  import opened Ast
  import opened Cypher
  import opened Semantics

  predicate Avoids(rels: seq<nat>, used: set<nat>) {
    forall i :: 0 <= i < |rels| ==> rels[i] !in used
  }

  ghost predicate IsTrail(g: Graph, from: nat, s: Step, length: nat, used: set<nat>, t: Trail) {
    && |t.rels| == length && NoDup(t.rels) && Avoids(t.rels, used)
    && Walk(g, from, t.rels, s.edgeType, s.direction) == Some(t.to)
  }

  lemma {:induction false} TrailsMember(g: Graph, from: nat, s: Step, length: nat, used: set<nat>, t: Trail)
    ensures t in Trails(g, from, s, length, used) <==> IsTrail(g, from, s, length, used, t)
    decreases length
  {
    if length > 0 {
      var along := TrailsAlong(g, from, s, length, used);
      FlatMapMember(Upto(|g.rels|), along, t);
      if IsTrail(g, from, s, length, used, t) {
        var rel := t.rels[0];
        TrailsAlongMember(g, from, s, length, used, rel, t);
        assert Upto(|g.rels|)[rel] == rel;
      }
      forall rel: nat | t in along(rel) ensures IsTrail(g, from, s, length, used, t) {
        TrailsAlongMember(g, from, s, length, used, rel, t);
      }
    }
  }

  lemma {:induction false} TrailsAlongMember(g: Graph, from: nat, s: Step, length: nat, used: set<nat>, rel: nat,
                                             t: Trail)
    requires length > 0
    ensures t in TrailsAlong(g, from, s, length, used)(rel)
       <==> IsTrail(g, from, s, length, used, t) && t.rels[0] == rel
    decreases length, 0
  {
    hide IsTrail, Trails, Far, FlatMap;
    TrailStarts(g, from, s, length, used, t);
    match Far(g, from, rel, s.edgeType, s.direction)
    case None =>
    case Some(next) =>
      if rel !in used {
        var shorter := Trails(g, next, s, length - 1, used + {rel});
        FlatMapMember(shorter, Prefixed(rel), t);
        forall r: Trail ensures r in shorter <==> IsTrail(g, from, s, length, used, Trail([rel] + r.rels, r.to)) {
          TrailsMember(g, next, s, length - 1, used + {rel}, r);
          PrefixedTrail(g, from, s, length, used, rel, next, r);
        }
        if t.rels != [] && t.rels[0] == rel {
          var rest := Trail(t.rels[1..], t.to);
          assert t == Trail([rel] + rest.rels, rest.to);
          assert t in Prefixed(rel)(rest);
        }
      }
  }

  lemma TrailStarts(g: Graph, from: nat, s: Step, length: nat, used: set<nat>, t: Trail)
    ensures IsTrail(g, from, s, length, used, t) ==> |t.rels| == length
    ensures IsTrail(g, from, s, length, used, t) && length > 0 ==>
              t.rels[0] !in used && Far(g, from, t.rels[0], s.edgeType, s.direction).Some?
  {
  }

  lemma PrefixedTrail(g: Graph, from: nat, s: Step, length: nat, used: set<nat>, rel: nat, next: nat, rest: Trail)
    requires length > 0 && rel !in used && Far(g, from, rel, s.edgeType, s.direction) == Some(next)
    ensures IsTrail(g, next, s, length - 1, used + {rel}, rest)
       <==> IsTrail(g, from, s, length, used, Trail([rel] + rest.rels, rest.to))
  {
    var rels := [rel] + rest.rels;
    assert rels[1..] == rest.rels;
    assert forall i :: 0 <= i < |rest.rels| ==> rels[i + 1] == rest.rels[i];
    if IsTrail(g, from, s, length, used, Trail(rels, rest.to)) {
      forall i | 0 <= i < |rest.rels| ensures rest.rels[i] !in used + {rel} {
        assert rels[i + 1] != rels[0];
      }
      forall i, j | 0 <= i < j < |rest.rels| ensures rest.rels[i] != rest.rels[j] {
        assert rels[i + 1] != rels[j + 1];
      }
    }
  }

  lemma {:induction false} TrailsNoDup(g: Graph, from: nat, s: Step, length: nat, used: set<nat>)
    ensures NoDup(Trails(g, from, s, length, used))
    decreases length
  {
    hide IsTrail, NoDup;
    if length > 0 {
      var along := TrailsAlong(g, from, s, length, used);
      forall rel: nat ensures NoDup(along(rel)) {
        match Far(g, from, rel, s.edgeType, s.direction)
        case None => Trivial<Trail>();
        case Some(next) =>
          TrailsNoDup(g, next, s, length - 1, used + {rel});
          PrefixedNoDup(Trails(g, next, s, length - 1, used + {rel}), rel);
          Trivial<Trail>();
      }
      forall a: nat, a': nat, b | b in along(a) && b in along(a') ensures a == a' {
        TrailsAlongMember(g, from, s, length, used, a, b);
        TrailsAlongMember(g, from, s, length, used, a', b);
      }
      FlatMapNoDup(Upto(|g.rels|), along);
    } else {
      Singleton(Trail([], from));
    }
  }

  lemma Trivial<T>()
    ensures NoDup<T>([])
  {
  }

  lemma Singleton<T>(x: T)
    ensures NoDup([x])
  {
  }

  lemma PrefixedNoDup(trails: seq<Trail>, rel: nat)
    requires NoDup(trails)
    ensures NoDup(FlatMap(trails, Prefixed(rel)))
  {
    forall a, a', b | a in trails && a' in trails && b in Prefixed(rel)(a) && b in Prefixed(rel)(a')
      ensures a == a'
    {
      assert ([rel] + a.rels)[1..] == a.rels && ([rel] + a'.rels)[1..] == a'.rels;
    }
    FlatMapNoDup(trails, Prefixed(rel));
  }

  lemma {:induction false} TrailsBetweenMember(g: Graph, from: nat, s: Step, min: nat, max: nat, used: set<nat>,
                                               t: Trail)
    ensures t in TrailsBetween(g, from, s, min, max, used)
       <==> min <= |t.rels| <= max && IsTrail(g, from, s, |t.rels|, used, t)
    decreases max
  {
    hide IsTrail, Trails;
    TrailStarts(g, from, s, max, used, t);
    TrailStarts(g, from, s, |t.rels|, used, t);
    if min <= max {
      TrailsMember(g, from, s, max, used, t);
      if max > 0 {
        TrailsBetweenMember(g, from, s, min, max - 1, used, t);
      }
    }
  }

  lemma {:induction false} TrailsBetweenNoDup(g: Graph, from: nat, s: Step, min: nat, max: nat, used: set<nat>)
    ensures NoDup(TrailsBetween(g, from, s, min, max, used))
    decreases max
  {
    hide IsTrail, Trails, NoDup;
    Trivial<Trail>();
    if min <= max {
      TrailsNoDup(g, from, s, max, used);
      if max > 0 {
        TrailsBetweenNoDup(g, from, s, min, max - 1, used);
        forall t | t in TrailsBetween(g, from, s, min, max - 1, used) ensures t !in Trails(g, from, s, max, used) {
          TrailsBetweenMember(g, from, s, min, max - 1, used, t);
          TrailsMember(g, from, s, max, used, t);
          TrailStarts(g, from, s, max, used, t);
        }
        NoDupAppend(TrailsBetween(g, from, s, min, max - 1, used), Trails(g, from, s, max, used));
      }
    }
  }

  ghost predicate IsHop(g: Graph, from: nat, s: Step, used: set<nat>, h: Hop) {
    Link(g, s.(target := NodePattern(s.target.alias, [])), from, h.edge, h.to) && RelsOf(h.edge) !! used
  }

  /**
   The hops of a step are its links over unused relationships, each once; the target's labels are checked afterwards.
   */
  lemma HopsExact(g: Graph, from: nat, s: Step, used: set<nat>)
    requires ValidGraph(g) && from < |g.nodes|
    ensures NoDup(Hops(g, from, s, used))
    ensures forall h :: h in Hops(g, from, s, used) <==> IsHop(g, from, s, used, h)
  {
    match s.depth
    case None =>
      var along := HopAlong(g, from, s, used);
      FlatMapNoDup(Upto(|g.rels|), along);
      forall h ensures h in Hops(g, from, s, used) <==> IsHop(g, from, s, used, h) {
        FlatMapMember(Upto(|g.rels|), along, h);
        if IsHop(g, from, s, used, h) {
          assert Upto(|g.rels|)[h.edge.id] == h.edge.id;
          assert h.edge.id in RelsOf(h.edge);
          assert h in along(h.edge.id);
        }
      }
    case Some(d) =>
      var trails := TrailsBetween(g, from, s, d.min, d.max, used);
      TrailsBetweenNoDup(g, from, s, d.min, d.max, used);
      FlatMapNoDup(trails, TrailHop());
      forall h ensures h in Hops(g, from, s, used) <==> IsHop(g, from, s, used, h) {
        FlatMapMember(trails, TrailHop(), h);
        if h.edge.TrailV? {
          var t := Trail(h.edge.ids, h.to);
          TrailsBetweenMember(g, from, s, d.min, d.max, used, t);
          if Walk(g, from, t.rels, s.edgeType, s.direction) == Some(h.to) {
            WalkStays(g, from, t.rels, s.edgeType, s.direction);
          }
          assert h in TrailHop()(t);
        }
      }
  }

  ghost predicate ValidGraph(g: Graph) {
    forall r :: 0 <= r < |g.rels| ==> g.rels[r].source < |g.nodes| && g.rels[r].target < |g.nodes|
  }

  lemma {:induction false} WalkStays(g: Graph, from: nat, rels: seq<nat>, edgeType: string, dir: Direction)
    requires ValidGraph(g) && from < |g.nodes|
    ensures Walk(g, from, rels, edgeType, dir).Some? ==> Walk(g, from, rels, edgeType, dir).value < |g.nodes|
    decreases rels
  {
    if rels != [] {
      match Far(g, from, rels[0], edgeType, dir)
      case None =>
      case Some(next) => WalkStays(g, next, rels[1..], edgeType, dir);
    }
  }

  /** What one step adds to a row that binds neither of its aliases. */
  ghost predicate Extends(g: Graph, p: Partial, s: Step, p': Partial) {
    && s.edge in p'.row
    && Link(g, s, p.at, p'.row[s.edge], p'.at)
    && RelsOf(p'.row[s.edge]) !! p.used
    && p'.row == p.row[s.edge := p'.row[s.edge]][s.target.alias := NodeV(p'.at)]
    && p'.used == p.used + RelsOf(p'.row[s.edge])
  }

  lemma ExpandExact(g: Graph, p: Partial, s: Step)
    requires ValidGraph(g) && p.at < |g.nodes|
    requires s.edge !in p.row && s.target.alias !in p.row && s.edge != s.target.alias
    ensures NoDup(Expand(g, s)(p))
    ensures forall p' :: p' in Expand(g, s)(p) <==> Extends(g, p, s, p')
  {
    hide Hops, TakeHop, Link, FlatMap;
    var hops, take := Hops(g, p.at, s, p.used), TakeHop(g, p, s);
    assert Expand(g, s)(p) == FlatMap(hops, take);
    HopsExact(g, p.at, s, p.used);
    forall h: Hop ensures take(h) == if NodeFits(g, h.to, s.target.labels) then [Taken(p, s, h)] else [] {
      TakeHopIs(g, p, s, h);
    }
    forall a, a', b | a in hops && a' in hops && b in take(a) && b in take(a') ensures a == a' {
      assert b.row[s.edge] == a.edge && b.row[s.edge] == a'.edge;
    }
    FlatMapNoDup(hops, take);
    forall p' ensures p' in Expand(g, s)(p) <==> Extends(g, p, s, p') {
      FlatMapMember(hops, take, p');
      ExtendsIsTaken(g, p, s, p');
      if Extends(g, p, s, p') {
        assert p' in take(Hop(p'.row[s.edge], p'.at));
      }
    }
  }

  /** A hop taken from `p`. */
  function Taken(p: Partial, s: Step, h: Hop): Partial {
    Partial(p.row[s.edge := h.edge][s.target.alias := NodeV(h.to)], h.to, p.used + RelsOf(h.edge))
  }

  lemma TakeHopIs(g: Graph, p: Partial, s: Step, h: Hop)
    requires s.edge !in p.row && s.target.alias !in p.row && s.edge != s.target.alias
    ensures TakeHop(g, p, s)(h) == if NodeFits(g, h.to, s.target.labels) then [Taken(p, s, h)] else []
  {
  }

  lemma ExtendsIsTaken(g: Graph, p: Partial, s: Step, p': Partial)
    requires s.edge !in p.row && s.target.alias !in p.row && s.edge != s.target.alias
    ensures Extends(g, p, s, p') ==>
              var h := Hop(p'.row[s.edge], p'.at);
              IsHop(g, p.at, s, p.used, h) && NodeFits(g, h.to, s.target.labels) && p' == Taken(p, s, h)
    ensures forall h :: IsHop(g, p.at, s, p.used, h) && NodeFits(g, h.to, s.target.labels) && p' == Taken(p, s, h) ==>
              Extends(g, p, s, p')
  {
    hide Far, Walk;
  }
}
