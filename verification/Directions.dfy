/**
 Correcting relationship directions against the live schema (src/core/pipeline.rs) and what that does to the matches.
 */
module Directions {
  import opened Common
  import opened Ast
  import opened Dsl

  /** One relationship kind of the schema, with the labels at its ends where they are known. */
  datatype SchemaRel = SchemaRel(relType: string, from: Option<string>, to: Option<string>)

  type AliasLabels = map<string, string>

  predicate Exists(schema: seq<SchemaRel>, relType: string, from: string, to: string) {
    exists i :: 0 <= i < |schema| && schema[i] == SchemaRel(relType, Some(from), Some(to))
  }

  /** What the correction decides when it knows both ends. */
  function Decided(d: Direction, outExists: bool, inExists: bool): Direction {
    if d != In && !outExists && inExists then In
    else if d != Out && outExists && !inExists then Out
    else d
  }

  /** The labels of the aliases bound before step `i`; a later binding of an alias wins. */
  function LabelsBefore(start: string, startLabel: string, steps: seq<DslTraversal>, i: nat): AliasLabels
    requires i <= |steps|
  {
    if i == 0 then map[start := startLabel]
    else LabelsBefore(start, startLabel, steps, i - 1)[steps[i - 1].targetAlias := steps[i - 1].targetLabel]
  }

  function FromAlias(start: string, s: DslTraversal): string {
    match s.from case Some(a) => a case None => start
  }

  function Corrected(schema: seq<SchemaRel>, labels: AliasLabels, start: string, s: DslTraversal): Direction {
    var from := FromAlias(start, s);
    if from !in labels || labels[from] == "" || s.targetLabel == "" then s.direction
    else Decided(s.direction, Exists(schema, s.edgeLabel, labels[from], s.targetLabel),
                 Exists(schema, s.edgeLabel, s.targetLabel, labels[from]))
  }

  /** Every step corrected, nothing else changed; an empty schema changes nothing. */
  ghost predicate IsCorrection(schema: seq<SchemaRel>, start: string, startLabel: string, before: seq<DslTraversal>,
                               after: seq<DslTraversal>, n: nat)
    requires n <= |before| == |after|
  {
    forall i :: 0 <= i < n ==>
      after[i] == before[i].(direction :=
                             Corrected(schema, LabelsBefore(start, startLabel, before, i), start, before[i]))
  }

  method ValidateDirections(doc: DslDocument, schema: seq<SchemaRel>)
    modifies doc
    ensures doc.query == old(doc.query).(traversals := doc.query.traversals)
    ensures var q, before := doc.query, old(doc.query).traversals;
            |q.traversals| == |before| && IsCorrection(schema, q.start, q.startLabel, before, q.traversals, |before|)
  {
    hide Exists, Decided, IsCorrection, LabelsBefore;
    var start, startLabel, steps := doc.query.start, doc.query.startLabel, doc.query.traversals;
    ghost var before := steps;
    NoSchema(start, startLabel, steps);
    if schema == [] || steps == [] {
      return;
    }
    var aliasLabels := map[start := startLabel];
    for i := 0 to |steps|
      invariant doc.query == old(doc.query).(traversals := steps)
      invariant |steps| == |before| && IsCorrection(schema, start, startLabel, before, steps, i)
      invariant forall k :: i <= k < |before| ==> steps[k] == before[k]
      invariant aliasLabels == LabelsBefore(start, startLabel, before, i)
    {
      var s := steps[i];
      var from := FromAlias(start, s);
      var direction := s.direction;
      if from in aliasLabels && aliasLabels[from] != "" && s.targetLabel != "" {
        var outExists := Exists(schema, s.edgeLabel, aliasLabels[from], s.targetLabel);
        var inExists := Exists(schema, s.edgeLabel, s.targetLabel, aliasLabels[from]);
        direction := Decided(direction, outExists, inExists);
      }
      CorrectionNext(schema, start, startLabel, before, steps, i, s.(direction := direction));
      steps := steps[i := s.(direction := direction)];
      doc.query := doc.query.(traversals := steps);
      aliasLabels := aliasLabels[s.targetAlias := s.targetLabel];
    }
  }

  lemma CorrectionNext(schema: seq<SchemaRel>, start: string, startLabel: string, before: seq<DslTraversal>,
                       steps: seq<DslTraversal>, i: nat, s: DslTraversal)
    requires i < |before| == |steps| && IsCorrection(schema, start, startLabel, before, steps, i)
    requires s == before[i].(direction :=
                             Corrected(schema, LabelsBefore(start, startLabel, before, i), start, before[i]))
    ensures IsCorrection(schema, start, startLabel, before, steps[i := s], i + 1)
    ensures LabelsBefore(start, startLabel, before, i + 1)
         == LabelsBefore(start, startLabel, before, i)[before[i].targetAlias := before[i].targetLabel]
  {
    hide Corrected;
  }

  lemma NoSchema(start: string, startLabel: string, steps: seq<DslTraversal>)
    ensures IsCorrection([], start, startLabel, steps, steps, |steps|)
    ensures forall schema :: IsCorrection(schema, start, startLabel, steps, steps, 0)
    ensures LabelsBefore(start, startLabel, steps, 0) == map[start := startLabel]
  {
  }

  // ---- what a correction is, step by step ----

  /** `nodeLabel` is what `alias` was bound to last before step `i`. */
  ghost predicate BoundTo(start: string, startLabel: string, steps: seq<DslTraversal>, i: nat, alias: string,
                          nodeLabel: string)
    requires i <= |steps|
  {
    || (alias == start && nodeLabel == startLabel && forall k :: 0 <= k < i ==> steps[k].targetAlias != alias)
    || exists k :: 0 <= k < i && steps[k].targetAlias == alias && steps[k].targetLabel == nodeLabel
              && forall l :: k < l < i ==> steps[l].targetAlias != alias
  }

  ghost predicate Lists(schema: seq<SchemaRel>, relType: string, from: string, to: string) {
    exists r :: r in schema && r.relType == relType && r.from == Some(from) && r.to == Some(to)
  }

  lemma {:induction false} LabelsAreBound(start: string, startLabel: string, steps: seq<DslTraversal>, i: nat,
                                          alias: string, nodeLabel: string)
    requires i <= |steps|
    ensures alias in LabelsBefore(start, startLabel, steps, i)
            && LabelsBefore(start, startLabel, steps, i)[alias] == nodeLabel
       <==> BoundTo(start, startLabel, steps, i, alias, nodeLabel)
  {
    if i > 0 {
      LabelsAreBound(start, startLabel, steps, i - 1, alias, nodeLabel);
      if steps[i - 1].targetAlias == alias {
        assert BoundTo(start, startLabel, steps, i, alias, steps[i - 1].targetLabel);
      } else if k :| 0 <= k < i && steps[k].targetAlias == alias && steps[k].targetLabel == nodeLabel
                     && forall l :: k < l < i ==> steps[l].targetAlias != alias {
        assert k < i - 1;
      }
    }
  }

  /**
   A step between two known labels points the one way the schema lists its relationship and stays as it is if the schema
   lists both ways or none; a step with an unknown or empty label at an end is left alone.
   */
  lemma CorrectionIs(schema: seq<SchemaRel>, start: string, startLabel: string, before: seq<DslTraversal>,
                     after: seq<DslTraversal>, i: nat, a: string)
    requires |before| == |after| && IsCorrection(schema, start, startLabel, before, after, |before|) && i < |before|
    ensures after[i] == before[i].(direction := after[i].direction)
    ensures var s, from := before[i], if before[i].from.Some? then before[i].from.value else start;
            BoundTo(start, startLabel, before, i, from, a) && a != "" && s.targetLabel != "" ==>
              var out := Lists(schema, s.edgeLabel, a, s.targetLabel);
              var in_ := Lists(schema, s.edgeLabel, s.targetLabel, a);
              after[i].direction == if out && !in_ then Out else if in_ && !out then In else s.direction
    ensures var s, from := before[i], if before[i].from.Some? then before[i].from.value else start;
            s.targetLabel == "" || (forall l :: l != "" ==> !BoundTo(start, startLabel, before, i, from, l)) ==>
              after[i].direction == s.direction
  {
    var s := before[i];
    var from := FromAlias(start, s);
    LabelsAreBound(start, startLabel, before, i, from, a);
    if from in LabelsBefore(start, startLabel, before, i) {
      var l := LabelsBefore(start, startLabel, before, i)[from];
      LabelsAreBound(start, startLabel, before, i, from, l);
      ListsAre(schema, s.edgeLabel, l, s.targetLabel);
      ListsAre(schema, s.edgeLabel, s.targetLabel, l);
    }
  }

  lemma ListsAre(schema: seq<SchemaRel>, relType: string, from: string, to: string)
    ensures Exists(schema, relType, from, to) <==> Lists(schema, relType, from, to)
  {
    if r :| r in schema && r.relType == relType && r.from == Some(from) && r.to == Some(to) {
      assert r == SchemaRel(relType, Some(from), Some(to));
    }
  }

  // ---- the whole list ----

  lemma {:induction false} LabelsIgnoreDirections(schema: seq<SchemaRel>, start: string, startLabel: string,
                                                  before: seq<DslTraversal>,
                                                  after: seq<DslTraversal>, i: nat)
    requires i <= |before| == |after| && IsCorrection(schema, start, startLabel, before, after, |before|)
    ensures LabelsBefore(start, startLabel, after, i) == LabelsBefore(start, startLabel, before, i)
  {
    hide Corrected;
    if i > 0 {
      LabelsIgnoreDirections(schema, start, startLabel, before, after, i - 1);
    }
  }

  lemma DecidedTwice(d: Direction, outExists: bool, inExists: bool)
    ensures Decided(Decided(d, outExists, inExists), outExists, inExists) == Decided(d, outExists, inExists)
  {
  }

  /** A second correction changes nothing. */
  lemma CorrectionTwice(schema: seq<SchemaRel>, start: string, startLabel: string, before: seq<DslTraversal>,
                        once: seq<DslTraversal>, twice: seq<DslTraversal>)
    requires |before| == |once| == |twice|
    requires IsCorrection(schema, start, startLabel, before, once, |before|)
             && IsCorrection(schema, start, startLabel, once, twice, |before|)
    ensures twice == once
  {
    hide Exists, Decided;
    forall i | 0 <= i < |before| ensures twice[i] == once[i] {
      LabelsIgnoreDirections(schema, start, startLabel, before, once, i);
      var labels, s := LabelsBefore(start, startLabel, before, i), before[i];
      var from := FromAlias(start, s);
      if from in labels {
        DecidedTwice(s.direction, Exists(schema, s.edgeLabel, labels[from], s.targetLabel),
                     Exists(schema, s.edgeLabel, s.targetLabel, labels[from]));
      }
    }
  }
}
