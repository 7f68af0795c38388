/** Reading the emitted patterns back as traversals, whatever was chained and whatever opened a new clause. */
module PatternReading {
  import opened Common
  import opened Ast
  import opened Cypher
  import opened WhereReading
  import opened MatchPart
  import opened RequiredPart
  import opened OptionalPart
  import opened ReadCompiler

  /** One edge pattern as a reader sees it: the node it leaves and the step. */
  datatype Visit = Visit(optional: bool, from: string, step: Step)

  function PathEnd(p: Path): string {
    if p.steps == [] then p.start.alias else p.steps[|p.steps| - 1].target.alias
  }

  function PathVisits(optional: bool, p: Path): seq<Visit>
    decreases |p.steps|
  {
    if p.steps == [] then []
    else
      var init := Path(p.start, p.steps[..|p.steps| - 1]);
      PathVisits(optional, init) + [Visit(optional, PathEnd(init), p.steps[|p.steps| - 1])]
  }

  function Visits(cs: seq<Clause>): seq<Visit> {
    if cs == [] then []
    else Visits(cs[..|cs| - 1]) + PathVisits(cs[|cs| - 1].optional, cs[|cs| - 1].path)
  }

  /** The required, or the optional, ones among the first `k` traversals, in order. */
  function Asked(q: ReadQuery, optional: bool, k: nat): seq<Visit>
    requires k <= |q.traversals|
  {
    if k == 0 then []
    else
      var t := q.traversals[k - 1];
      if t.optional == optional then Asked(q, optional, k - 1) + [Visit(optional, t.fromAlias, StepOf(t))]
      else Asked(q, optional, k - 1)
  }

  lemma VisitsSnoc(cs: seq<Clause>, c: Clause)
    ensures Visits(cs + [c]) == Visits(cs) + PathVisits(c.optional, c.path)
  {
    assert (cs + [c])[..|cs|] == cs;
  }

  lemma {:induction false} VisitsAppend(a: seq<Clause>, b: seq<Clause>)
    ensures Visits(a + b) == Visits(a) + Visits(b)
    decreases |b|
  {
    if b == [] {
      assert a + b == a;
    } else {
      var init, c := b[..|b| - 1], b[|b| - 1];
      assert b == init + [c] && a + b == a + init + [c];
      VisitsAppend(a, init);
      VisitsSnoc(a + init, c);
      VisitsSnoc(init, c);
    }
  }

  lemma LongerVisits(optional: bool, p: Path, s: Step)
    ensures PathVisits(optional, Longer(p, s)) == PathVisits(optional, p) + [Visit(optional, PathEnd(p), s)]
    ensures PathEnd(Longer(p, s)) == s.target.alias
  {
    assert (p.steps + [s])[..|p.steps|] == p.steps;
    assert Path(p.start, p.steps) == p;
  }

  lemma SingleVisit(optional: bool, from: string, s: Step)
    ensures PathVisits(optional, Path(NodePattern(from, []), [s])) == [Visit(optional, from, s)]
    ensures PathEnd(Path(NodePattern(from, []), [s])) == s.target.alias
  {
    var p := Path(NodePattern(from, []), []);
    LongerVisits(optional, p, s);
    assert Longer(p, s) == Path(NodePattern(from, []), [s]);
  }

  lemma {:induction false} RequiredVisits(q: ReadQuery, k: nat)
    requires k <= |q.traversals|
    ensures Visits(Bare(RequiredPaths(q, k))) == Asked(q, false, k)
    ensures PathEnd(RequiredPaths(q, k)[|RequiredPaths(q, k)| - 1]) == Endpoint(q, k)
  {
    hide StepOf, Visits, PathVisits, Bare;
    if k == 0 {
      StartVisits(q);
    } else {
      RequiredVisits(q, k - 1);
      var t, paths := q.traversals[k - 1], RequiredPaths(q, k - 1);
      var init, last := paths[..|paths| - 1], paths[|paths| - 1];
      if !t.optional {
        StepTarget(t);
        if t.fromAlias == Endpoint(q, k - 1) {
          assert paths == init + [last];
          BareSnoc(init, last);
          BareSnoc(init, Longer(last, StepOf(t)));
          VisitsSnoc(Bare(init), Clause(false, last, None));
          VisitsSnoc(Bare(init), Clause(false, Longer(last, StepOf(t)), None));
          LongerVisits(false, last, StepOf(t));
        } else {
          BareSnoc(paths, OptionalPath(t));
          VisitsSnoc(Bare(paths), Clause(false, OptionalPath(t), None));
          SingleVisit(false, t.fromAlias, StepOf(t));
        }
      }
    }
  }

  lemma StartVisits(q: ReadQuery)
    ensures Visits(Bare(RequiredPaths(q, 0))) == []
  {
    var path := RequiredPaths(q, 0)[0];
    assert Bare(RequiredPaths(q, 0)) == [] + [Clause(false, path, None)];
    VisitsSnoc([], Clause(false, path, None));
  }

  lemma StepTarget(t: EdgeTraversal)
    ensures StepOf(t).target.alias == t.target.alias
  {
  }

  lemma {:induction false} OptionalVisits(q: ReadQuery, k: nat)
    requires k <= |q.traversals|
    ensures Visits(OptionalClauses(q, k)) == Asked(q, true, k)
  {
    if k > 0 {
      OptionalVisits(q, k - 1);
      var t := q.traversals[k - 1];
      if t.optional {
        VisitsSnoc(OptionalClauses(q, k - 1), Clause(true, OptionalPath(t), None));
        SingleVisit(true, t.fromAlias, StepOf(t));
      }
    }
  }

  /** A condition does not change the patterns. */
  lemma {:induction false} VisitsIgnoreFilters(a: seq<Item>, b: seq<Item>)
    requires |a| == |b| && forall i :: 0 <= i < |a| ==> a[i].optional == b[i].optional && a[i].path == b[i].path
    ensures Visits(ClausesOf(a)) == Visits(ClausesOf(b))
    decreases |a|
  {
    if a != [] {
      var n := |a| - 1;
      VisitsIgnoreFilters(a[..n], b[..n]);
      assert ClausesOf(a)[..n] == ClausesOf(a[..n]) && ClausesOf(b)[..n] == ClausesOf(b[..n]);
    }
  }

  /** The patterns read back from the text: every required traversal in order, then every optional one in order. */
  lemma PatternsReadBack(q: ReadQuery, ts: seq<Token>)
    requires q.filter.Some? ==> Full(q.filter.value)
    requires Occurs(ts, 0, BindingText(q)) && MatchEnds(ts, |BindingText(q)|)
    ensures ReadClauses(ts, 0).Some?
    ensures Visits(ReadClauses(ts, 0).value.0) == Asked(q, false, |q.traversals|) + Asked(q, true, |q.traversals|)
  {
    hide Visits, Asked, BindingText, Items, ReadClauses, OptionalClauses, OptionalPaths, RequiredPaths;
    BindingsReadBack(q, ts);
    VisitsOfPlain(q);
    RequiredVisits(q, |q.traversals|);
    OptionalVisits(q, |q.traversals|);
  }

  lemma VisitsOfPlain(q: ReadQuery)
    ensures Visits(ClausesOf(Items(q)))
         == Visits(Bare(RequiredPaths(q, |q.traversals|))) + Visits(OptionalClauses(q, |q.traversals|))
  {
    hide Visits, OptionalClauses, OptionalPaths, RequiredPaths;
    var n := |q.traversals|;
    var required, optional := PlainItems(false, RequiredPaths(q, n)), PlainItems(true, OptionalPaths(q, n));
    VisitsIgnoreFilters(Items(q), required + optional);
    assert ClausesOf(required + optional) == ClausesOf(required) + ClausesOf(optional);
    VisitsAppend(ClausesOf(required), ClausesOf(optional));
    BareItems(RequiredPaths(q, n));
    OptionalItems(q, n);
  }
}
