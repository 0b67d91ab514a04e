/** Fitness bands and the lookups on an evaluation report. */
module Fitness {
  import opened Options
  import opened Skills

  datatype Band = TopPerformer | Healthy | Underperforming | Failing
  {
    /** Position in the order failing < underperforming < healthy < top performer. */
    function Rank(): nat
    {
      match this
      case Failing => 0
      case Underperforming => 1
      case Healthy => 2
      case TopPerformer => 3
    }

    /** Only these bands are ever mutated. */
    predicate NeedsEvolution()
    {
      this == Underperforming || this == Failing
    }
  }

  const TopPerformerThreshold: real := 0.70
  const HealthyThreshold: real := 0.50
  const UnderperformingThreshold: real := 0.35

  /** `classify_skill`: highest threshold first, each band closed below. */
  function Classify(fitness: real): (b: Band)
    ensures b == TopPerformer <==> 0.70 <= fitness
    ensures b == Healthy <==> 0.50 <= fitness < 0.70
    ensures b == Underperforming <==> 0.35 <= fitness < 0.50
    ensures b == Failing <==> fitness < 0.35
  {
    if fitness >= TopPerformerThreshold then TopPerformer
    else if fitness >= HealthyThreshold then Healthy
    else if fitness >= UnderperformingThreshold then Underperforming
    else Failing
  }

  /** A higher fitness never lands in a lower band. */
  lemma ClassifyMonotone(f: real, g: real)
    requires f <= g
    ensures Classify(f).Rank() <= Classify(g).Rank()
  {
  }

  /** `get_skill_fitness`: the fitness of the first report line for the skill. */
  function SkillFitness(evaluation: Evaluation, skill: string): (r: Option<real>)
    ensures var ss := evaluation.Scores();
      r.None? <==> forall i :: 0 <= i < |ss| ==> ss[i].skill != skill
    ensures var ss := evaluation.Scores();
      r.Some? ==> exists i :: 0 <= i < |ss| && ss[i].skill == skill && ss[i].fitness == r.value
                    && forall j :: 0 <= j < i ==> ss[j].skill != skill
  {
    FirstFitness(evaluation.Scores(), skill)
  }

  function FirstFitness(ss: seq<SkillScore>, skill: string): (r: Option<real>)
    ensures r.None? <==> forall i :: 0 <= i < |ss| ==> ss[i].skill != skill
    ensures r.Some? ==> exists i :: 0 <= i < |ss| && ss[i].skill == skill && ss[i].fitness == r.value
                          && forall j :: 0 <= j < i ==> ss[j].skill != skill
  {
    if ss == [] then None
    else if ss[0].skill == skill then Some(ss[0].fitness)
    else
      var r := FirstFitness(ss[1..], skill);
      assert forall i :: 1 <= i < |ss| ==> ss[i] == ss[1..][i - 1];
      assert r.Some? ==> exists i :: 1 <= i < |ss| && ss[i].skill == skill && ss[i].fitness == r.value
                          && forall j :: 0 <= j < i ==> ss[j].skill != skill;
      r
  }

  /** The top performers of a report, in report order. */
  function TopPerformers(ss: seq<SkillScore>): (r: seq<SkillScore>)
    ensures forall s :: s in r <==> s in ss && Classify(s.fitness) == TopPerformer
  {
    if ss == [] then []
    else
      var rest := TopPerformers(ss[1..]);
      assert forall s :: s in ss <==> s == ss[0] || s in ss[1..];
      if Classify(ss[0].fitness) == TopPerformer then [ss[0]] + rest else rest
  }

  /**
   * The selection keeps report order and repeats: the top performers of two runs of
   * lines are those of the first run followed by those of the second.
   */
  lemma {:induction false} TopPerformersAppend(a: seq<SkillScore>, b: seq<SkillScore>)
    ensures TopPerformers(a + b) == TopPerformers(a) + TopPerformers(b)
  {
    if a == [] {
      assert a + b == b;
    } else {
      assert (a + b)[0] == a[0];
      assert (a + b)[1..] == a[1..] + b;
      TopPerformersAppend(a[1..], b);
    }
  }

  /** A single line is selected exactly when it is classified top performer. */
  lemma TopPerformersSingle(s: SkillScore)
    ensures TopPerformers([s]) == if Classify(s.fitness) == TopPerformer then [s] else []
  {
    assert [s][1..] == [];
  }
}
