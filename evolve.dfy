/**
 * The apply pass (`cmd_apply`): for every underperforming or failing skill in the
 * report, apply the preferred suggestion, recompile, re-evaluate, and record a
 * changelog entry when the recompile succeeded.
 */
module Evolve {
  import opened Options
  import opened Dicts
  import opened Skills
  import opened Fitness
  import opened Suggest
  import opened Mutation
  import opened Changelog
  import opened Compile

  /**
   * The answers of the collaborators and of the clock while the skill at position `i`
   * of the report is processed: whether the recompile succeeds, the evaluation run
   * after it, the timestamps, and the two-decimal rendering of a fitness.
   */
  datatype World = World(
    recompiles: nat -> bool,
    reevaluate: nat -> Evaluation,
    historyStamp: nat -> string,
    compileStamp: nat -> string,
    logStamp: nat -> string,
    fmt: real -> string)

  /** One entry of `mutations_applied`. */
  datatype Applied = Applied(skill: string, oldFitness: real, newFitness: real, suggestion: Suggestion)

  /** What happened to one line of the report. */
  datatype Outcome =
    | Skipped
    | NoDefinition
    | NoSuggestion
    | RecompileFailed(suggestion: Suggestion)
    | Evolved(applied: Applied)

  /** The files the pass reads and writes. */
  datatype Files = Files(skills: map<string, SkillDef>, changelogs: map<string, string>, commands: map<string, string>)

  /** The absorb suggestions, in order; the first one is the earliest absorb. */
  function Absorbs(ss: seq<Suggestion>): (r: seq<Suggestion>)
    ensures forall s :: s in r <==> s in ss && s.kind == Absorb
    ensures r != [] ==> exists i :: 0 <= i < |ss| && ss[i] == r[0] && ss[i].kind == Absorb
                                    && forall j :: 0 <= j < i ==> ss[j].kind != Absorb
  {
    if ss == [] then []
    else
      var rest := Absorbs(ss[1..]);
      assert forall s :: s in ss <==> s == ss[0] || s in ss[1..];
      if ss[0].kind == Absorb then [ss[0]] + rest
      else
        assert rest != [] ==> exists i :: 1 <= i < |ss| && ss[i] == rest[0] && ss[i].kind == Absorb
                                          && forall j :: 0 <= j < i ==> ss[j].kind != Absorb by {
          if rest != [] {
            var i :| 0 <= i < |ss[1..]| && ss[1..][i] == rest[0] && ss[1..][i].kind == Absorb
                     && forall j :: 0 <= j < i ==> ss[1..][j].kind != Absorb;
            assert ss[i + 1] == rest[0];
            forall j | 0 <= j < i + 1 ensures ss[j].kind != Absorb {
              if j > 0 {
                assert ss[j] == ss[1..][j - 1];
              }
            }
          }
        }
        rest
  }

  /**
   * The suggestion applied: the earliest absorb suggestion when there is one, the
   * first suggestion otherwise; nothing when there are none.
   */
  function Choose(ss: seq<Suggestion>): (c: Option<Suggestion>)
    ensures c.None? <==> ss == []
    ensures c.Some? ==> exists i :: 0 <= i < |ss| && ss[i] == c.value && (c.value.kind == Absorb || i == 0)
                                    && forall j :: 0 <= j < i ==> ss[j].kind != Absorb
    ensures c.Some? && (exists s :: s in ss && s.kind == Absorb) ==> c.value.kind == Absorb
  {
    if ss == [] then None
    else
      var absorbs := Absorbs(ss);
      if absorbs != [] then
        assert absorbs[0] in absorbs;
        Some(absorbs[0])
      else
        Some(ss[0])
  }

  /**
   * Since absorb suggestions come first, preferring an absorb always picks the head
   * of the list.
   */
  lemma ChosenIsFirst(skill: string, def: SkillDef, fitness: real, registry: Registry,
                      tops: seq<SkillScore>, store: map<string, SkillDef>)
    requires Suggestions(skill, def, fitness, registry, tops, store) != []
    ensures var ss := Suggestions(skill, def, fitness, registry, tops, store);
      Choose(ss) == Some(ss[0])
  {
    var ss := Suggestions(skill, def, fitness, registry, tops, store);
    AbsorbBeforeMutate(skill, def, fitness, registry, tops, store);
  }

  /** Replacing one well-formed definition by another keeps the store well formed and its names. */
  lemma ReplaceWellFormed(skills: map<string, SkillDef>, name: string, def: SkillDef)
    requires AllWellFormed(skills) && name in skills && def.WellFormed()
    ensures AllWellFormed(skills[name := def]) && skills[name := def].Keys == skills.Keys
  {
  }

  /** The suggestion a step applied, if it got as far as applying one. */
  function AppliedSuggestion(outcome: Outcome): Option<Suggestion>
  {
    match outcome
    case RecompileFailed(s) => Some(s)
    case Evolved(applied) => Some(applied.suggestion)
    case _ => None
  }

  /** The definition after a successful recompile: only `last_compiled` changes. */
  function Recompiled(def: SkillDef, stamp: string): (r: SkillDef)
    ensures r.WellFormed() == def.WellFormed()
    ensures r.modules == def.modules && r.version == def.version && r.history == def.history
    ensures r.description == def.description && r.corePrompt == def.corePrompt
    ensures r.lastCompiled == Some(stamp)
  {
    def.(lastCompiled := Some(stamp))
  }

  /**
   * The decision `cmd_apply` takes for one report line: skip a skill that does not
   * need evolution, one without a definition and one without suggestions; otherwise
   * apply the first absorb suggestion, or the first suggestion when there is no
   * absorb, and evolve exactly when the recompile succeeds.
   */
  function Decide(files: Files, registry: Registry, tops: seq<SkillScore>, score: SkillScore,
                  i: nat, world: World): (o: Outcome)
    ensures !Classify(score.fitness).NeedsEvolution() ==> o == Skipped
    ensures AppliedSuggestion(o).Some? <==>
      Classify(score.fitness).NeedsEvolution() && score.skill in files.skills
      && Suggestions(score.skill, files.skills[score.skill], score.fitness, registry, tops, files.skills) != []
    ensures AppliedSuggestion(o).Some? ==>
      var ss := Suggestions(score.skill, files.skills[score.skill], score.fitness, registry, tops, files.skills);
      && AppliedSuggestion(o) == Choose(ss)
      && AppliedSuggestion(o).value == ss[0]
      && ((exists t :: t in ss && t.kind == Absorb) ==> ss[0].kind == Absorb)
    ensures o.Evolved? <==> AppliedSuggestion(o).Some? && world.recompiles(i)
    ensures o.Evolved? ==> o.applied.skill == score.skill && o.applied.oldFitness == score.fitness
  {
    var name := score.skill;
    if !Classify(score.fitness).NeedsEvolution() then Skipped
    else if name !in files.skills then NoDefinition
    else
      var ss := Suggestions(name, files.skills[name], score.fitness, registry, tops, files.skills);
      match Choose(ss)
      case None => NoSuggestion
      case Some(s) =>
        ChosenIsFirst(name, files.skills[name], score.fitness, registry, tops, files.skills);
        if !world.recompiles(i) then RecompileFailed(s)
        else Evolved(Applied(name, score.fitness, SkillFitness(world.reevaluate(i), name).GetOr(score.fitness), s))
  }

  /** The files after `apply_mutation`: only the skill's definition changes. */
  function MutateFiles(files: Files, name: string, s: Suggestion, stamp: string): (r: Files)
    requires AllWellFormed(files.skills) && name in files.skills
    ensures AllWellFormed(r.skills) && r.skills.Keys == files.skills.Keys
    ensures AgreeOutside(r.skills, files.skills, {name})
    ensures r.changelogs == files.changelogs && r.commands == files.commands
  {
    var mutated := Mutated(files.skills[name], s.moduleType, s.toVersion, stamp);
    ReplaceWellFormed(files.skills, name, mutated);
    files.(skills := files.skills[name := mutated])
  }

  /**
   * The files after the successful recompile of a skill and the changelog entry for
   * the mutation `a` records: only that skill's definition, command and changelog change.
   */
  function RecordEvolution(files: Files, registry: Registry, name: string, a: Applied, i: nat, world: World)
    : (r: Files)
    requires AllWellFormed(files.skills) && name in files.skills
    ensures AllWellFormed(r.skills) && r.skills.Keys == files.skills.Keys
    ensures AgreeOutside(r.skills, files.skills, {name})
    ensures AgreeOutside(r.changelogs, files.changelogs, {name}) && AgreeOutside(r.commands, files.commands, {name})
  {
    var def := files.skills[name];
    var compiled := Recompiled(def, world.compileStamp(i));
    ReplaceWellFormed(files.skills, name, compiled);
    var skills := files.skills[name := compiled];
    var log := Logged(files.changelogs, skills, name, [a.suggestion], a.oldFitness, Some(a.newFitness),
                      world.logStamp(i), world.fmt);
    Files(skills, files.changelogs[name := log], files.commands[name := CompiledText(def, registry)])
  }

  /**
   * What applying a suggestion does to the files: the mutation stays even when the
   * recompile fails; only a successful recompile writes the command text, the new
   * `last_compiled` and the changelog entry. Nothing of another skill changes.
   */
  function Effect(files: Files, registry: Registry, name: string, o: Outcome, i: nat, world: World): (r: Files)
    requires AllWellFormed(files.skills) && name in files.skills && AppliedSuggestion(o).Some?
    ensures AllWellFormed(r.skills) && r.skills.Keys == files.skills.Keys
    ensures AgreeOutside(r.skills, files.skills, {name})
    ensures AgreeOutside(r.changelogs, files.changelogs, {name}) && AgreeOutside(r.commands, files.commands, {name})
    ensures !o.Evolved? ==> r.changelogs == files.changelogs && r.commands == files.commands
  {
    if o.Evolved? then
      RecordEvolution(MutateFiles(files, name, o.applied.suggestion, world.historyStamp(i)), registry, name, o.applied, i, world)
    else
      MutateFiles(files, name, o.suggestion, world.historyStamp(i))
  }

  /** `a` and `b` have the same keys and the same values outside `s`. */
  ghost predicate AgreeOutside<V>(a: map<string, V>, b: map<string, V>, s: set<string>)
  {
    forall k :: k !in s ==> (k in a <==> k in b) && (k in a ==> a[k] == b[k])
  }

  /**
   * The applied suggestion's module type now has the suggested version, the version
   * is bumped and the earlier history is kept, whether or not the recompile succeeded.
   */
  lemma EffectOnSkill(files: Files, registry: Registry, name: string, o: Outcome, i: nat, world: World)
    requires AllWellFormed(files.skills) && name in files.skills && AppliedSuggestion(o).Some?
    ensures var r := Effect(files, registry, name, o, i, world);
      var s := AppliedSuggestion(o).value;
      && name in r.skills
      && Get(r.skills[name].modules, s.moduleType) == Some(s.toVersion)
      && Bumped(files.skills[name].Version(), r.skills[name].Version())
      && r.skills[name].history[..|files.skills[name].history|] == files.skills[name].history
  {
  }

  /**
   * After a successful recompile the command text is the one the stored definition
   * compiles to, and the changelog gains an entry headed with the bumped version,
   * spliced in ahead of the older entries.
   */
  lemma EffectOnEvolved(files: Files, registry: Registry, name: string, o: Outcome, i: nat, world: World)
    requires AllWellFormed(files.skills) && name in files.skills && o.Evolved?
    ensures var r := Effect(files, registry, name, o, i, world);
      && name in r.skills
      && r.skills[name].lastCompiled == Some(world.compileStamp(i))
      && r.commands[name] == CompiledText(r.skills[name], registry)
      && r.changelogs[name]
         == Splice(PriorLog(files.changelogs, name),
                   Entry(r.skills[name].Version(), world.logStamp(i), world.fmt, o.applied.oldFitness,
                         Some(o.applied.newFitness), [o.applied.suggestion]))
  {
    var mutatedFiles := MutateFiles(files, name, o.applied.suggestion, world.historyStamp(i));
    EvolvedEffect(files, registry, name, o, i, world);
    RecordEvolutionOnSkill(mutatedFiles, registry, name, o.applied, i, world);
  }

  /** What the recompile and the changelog entry leave for the skill they are about. */
  lemma RecordEvolutionOnSkill(files: Files, registry: Registry, name: string, a: Applied, i: nat, world: World)
    requires AllWellFormed(files.skills) && name in files.skills && files.skills[name].version.Some?
    ensures var r := RecordEvolution(files, registry, name, a, i, world);
      && name in r.skills
      && r.skills[name].lastCompiled == Some(world.compileStamp(i))
      && r.skills[name].Version() == files.skills[name].Version()
      && r.commands[name] == CompiledText(r.skills[name], registry)
      && r.changelogs[name]
         == Splice(PriorLog(files.changelogs, name),
                   Entry(r.skills[name].Version(), world.logStamp(i), world.fmt, a.oldFitness,
                         Some(a.newFitness), [a.suggestion]))
  {
    CompiledTextIgnoresStamp(files.skills[name], registry, Some(world.compileStamp(i)));
  }

  /** One line of the report processed against the files as they stand. */
  function Step(files: Files, registry: Registry, tops: seq<SkillScore>, score: SkillScore,
                i: nat, world: World): (r: (Files, Outcome))
    requires AllWellFormed(files.skills)
    ensures AllWellFormed(r.0.skills) && r.0.skills.Keys == files.skills.Keys
  {
    var o := Decide(files, registry, tops, score, i, world);
    (if AppliedSuggestion(o).Some? then Effect(files, registry, score.skill, o, i, world) else files, o)
  }

  /** The report's lines processed in order; the mutations applied, in order. */
  function Pass(files: Files, registry: Registry, tops: seq<SkillScore>, scores: seq<SkillScore>,
                world: World): (r: (Files, seq<Applied>))
    requires AllWellFormed(files.skills)
    ensures AllWellFormed(r.0.skills) && r.0.skills.Keys == files.skills.Keys
    decreases |scores|, 1
  {
    if scores == [] then (files, []) else Advance(files, registry, tops, scores, world)
  }

  /** A non-empty report: the lines before the last one processed, then the last one. */
  function Advance(files: Files, registry: Registry, tops: seq<SkillScore>, scores: seq<SkillScore>,
                   world: World): (r: (Files, seq<Applied>))
    requires AllWellFormed(files.skills) && scores != []
    ensures AllWellFormed(r.0.skills) && r.0.skills.Keys == files.skills.Keys
    decreases |scores|, 0
  {
    var n := |scores| - 1;
    var (mid, applied) := Pass(files, registry, tops, scores[..n], world);
    var (after, outcome) := Step(mid, registry, tops, scores[n], n, world);
    (after, if outcome.Evolved? then applied + [outcome.applied] else applied)
  }

  /** The skills named by the report lines that need evolution. */
  function Needy(scores: seq<SkillScore>): set<string>
  {
    set k | 0 <= k < |scores| && Classify(scores[k].fitness).NeedsEvolution() :: scores[k].skill
  }

  /** The skills that evolved. */
  function SkillsOf(applied: seq<Applied>): set<string>
  {
    set a | a in applied :: a.skill
  }

  /** Agreeing outside a set carries over to any larger set and chains. */
  lemma AgreeGrowTrans<V>(a: map<string, V>, b: map<string, V>, c: map<string, V>, s: set<string>, t: set<string>)
    requires AgreeOutside(a, b, s) && AgreeOutside(b, c, t) && s <= t
    ensures AgreeOutside(a, c, t)
  {
  }

  /** The last line of the report, taken off: `Pass` on the rest, then `Step`. */
  lemma PassLast(files: Files, registry: Registry, tops: seq<SkillScore>, scores: seq<SkillScore>, world: World)
    requires AllWellFormed(files.skills) && scores != []
    ensures var n := |scores| - 1;
      var (mid, applied) := Pass(files, registry, tops, scores[..n], world);
      var (after, o) := Step(mid, registry, tops, scores[n], n, world);
      Pass(files, registry, tops, scores, world) == (after, if o.Evolved? then applied + [o.applied] else applied)
  {
    assert Pass(files, registry, tops, scores, world) == Advance(files, registry, tops, scores, world);
  }

  /**
   * One processed line, from the files `before` and the mutations `applied` to
   * `after` and `all`: only the line's own skill can change, and nothing changes
   * when its fitness does not need evolution.
   */
  ghost predicate KeepsOthers(before: Files, after: Files, applied: seq<Applied>, all: seq<Applied>,
                              score: SkillScore)
  {
    && AgreeOutside(after.skills, before.skills, {score.skill})
    && AgreeOutside(after.changelogs, before.changelogs, {score.skill})
    && AgreeOutside(after.commands, before.commands, {score.skill})
    && (!Classify(score.fitness).NeedsEvolution() ==> after == before)
    && (all == applied ==> after.changelogs == before.changelogs && after.commands == before.commands)
  }

  /**
   * One processed line adds nothing to the mutations applied, or one mutation of its
   * own skill recorded with its fitness, when that fitness needs evolution.
   */
  ghost predicate AddsOwn(applied: seq<Applied>, all: seq<Applied>, score: SkillScore)
  {
    || all == applied
    || (&& |all| == |applied| + 1 && all[..|applied|] == applied
        && all[|applied|].skill == score.skill && all[|applied|].oldFitness == score.fitness
        && Classify(score.fitness).NeedsEvolution())
  }

  /** The last line of the report keeps the other skills' files. */
  lemma PassLastKeeps(files: Files, registry: Registry, tops: seq<SkillScore>, scores: seq<SkillScore>,
                      world: World)
    requires AllWellFormed(files.skills) && scores != []
    ensures var n := |scores| - 1;
      var before := Pass(files, registry, tops, scores[..n], world);
      var after := Pass(files, registry, tops, scores, world);
      KeepsOthers(before.0, after.0, before.1, after.1, scores[n])
  {
    assert Pass(files, registry, tops, scores, world) == Advance(files, registry, tops, scores, world);
  }

  /** The last line of the report adds at most one mutation, its own. */
  lemma PassLastAdds(files: Files, registry: Registry, tops: seq<SkillScore>, scores: seq<SkillScore>,
                     world: World)
    requires AllWellFormed(files.skills) && scores != []
    ensures var n := |scores| - 1;
      AddsOwn(Pass(files, registry, tops, scores[..n], world).1, Pass(files, registry, tops, scores, world).1,
              scores[n])
  {
    assert Pass(files, registry, tops, scores, world) == Advance(files, registry, tops, scores, world);
  }

  /** The files after each prefix of the report. */
  ghost function States(files: Files, registry: Registry, tops: seq<SkillScore>, scores: seq<SkillScore>,
                        world: World): (r: seq<Files>)
    requires AllWellFormed(files.skills)
    ensures |r| == |scores| + 1
    ensures forall k :: 0 <= k <= |scores| ==> r[k] == Pass(files, registry, tops, scores[..k], world).0
  {
    seq(|scores| + 1, k requires 0 <= k <= |scores| => Pass(files, registry, tops, scores[..k], world).0)
  }

  /** The mutations applied after each prefix of the report. */
  ghost function Applieds(files: Files, registry: Registry, tops: seq<SkillScore>, scores: seq<SkillScore>,
                          world: World): (r: seq<seq<Applied>>)
    requires AllWellFormed(files.skills)
    ensures |r| == |scores| + 1
    ensures forall k :: 0 <= k <= |scores| ==> r[k] == Pass(files, registry, tops, scores[..k], world).1
  {
    seq(|scores| + 1, k requires 0 <= k <= |scores| => Pass(files, registry, tops, scores[..k], world).1)
  }

  /** Every line of the report, processed in turn, keeps the others' files and adds at most its own mutation. */
  lemma PassTrace(files: Files, registry: Registry, tops: seq<SkillScore>, scores: seq<SkillScore>, world: World)
    requires AllWellFormed(files.skills)
    ensures var states := States(files, registry, tops, scores, world);
      var applieds := Applieds(files, registry, tops, scores, world);
      && states[0] == files && applieds[0] == []
      && states[|scores|] == Pass(files, registry, tops, scores, world).0
      && applieds[|scores|] == Pass(files, registry, tops, scores, world).1
      && forall k :: 0 <= k < |scores| ==>
           KeepsOthers(states[k], states[k + 1], applieds[k], applieds[k + 1], scores[k])
           && AddsOwn(applieds[k], applieds[k + 1], scores[k])
  {
    var states := States(files, registry, tops, scores, world);
    var applieds := Applieds(files, registry, tops, scores, world);
    assert scores[..0] == [] && scores[..|scores|] == scores;
    forall k | 0 <= k < |scores|
      ensures KeepsOthers(states[k], states[k + 1], applieds[k], applieds[k + 1], scores[k])
      ensures AddsOwn(applieds[k], applieds[k + 1], scores[k])
    {
      assert scores[..k + 1][..k] == scores[..k];
      PassLastKeeps(files, registry, tops, scores[..k + 1], world);
      PassLastAdds(files, registry, tops, scores[..k + 1], world);
    }
  }

  /** Along a trace of processed lines, only the lines that need evolution change skills and changelogs. */
  lemma {:induction false} TraceLeavesOthers(states: seq<Files>, applieds: seq<seq<Applied>>, scores: seq<SkillScore>)
    requires |states| == |applieds| == |scores| + 1
    requires forall k :: 0 <= k < |scores| ==>
      KeepsOthers(states[k], states[k + 1], applieds[k], applieds[k + 1], scores[k])
    ensures AgreeOutside(states[|scores|].skills, states[0].skills, Needy(scores))
    ensures AgreeOutside(states[|scores|].changelogs, states[0].changelogs, Needy(scores))
  {
    if scores != [] {
      var n := |scores| - 1;
      var prefix := scores[..n];
      TraceLeavesOthers(states[..n + 1], applieds[..n + 1], prefix);
      assert forall k :: 0 <= k < n ==> prefix[k] == scores[k];
      assert Needy(prefix) <= Needy(scores);
      var name := scores[n].skill;
      if Classify(scores[n].fitness).NeedsEvolution() {
        assert name in Needy(scores);
        AgreeGrowTrans(states[n + 1].skills, states[n].skills, states[0].skills, {name}, Needy(scores));
        AgreeGrowTrans(states[n + 1].changelogs, states[n].changelogs, states[0].changelogs, {name}, Needy(scores));
      } else {
        assert states[n + 1] == states[n];
      }
    }
  }

  /** Along a trace of processed lines, changelogs and commands change only for the skills that evolved. */
  lemma {:induction false} TraceWritesOnlyEvolved(states: seq<Files>, applieds: seq<seq<Applied>>,
                                                  scores: seq<SkillScore>)
    requires |states| == |applieds| == |scores| + 1 && applieds[0] == []
    requires forall k :: 0 <= k < |scores| ==>
      KeepsOthers(states[k], states[k + 1], applieds[k], applieds[k + 1], scores[k])
      && AddsOwn(applieds[k], applieds[k + 1], scores[k])
    ensures AgreeOutside(states[|scores|].changelogs, states[0].changelogs, SkillsOf(applieds[|scores|]))
    ensures AgreeOutside(states[|scores|].commands, states[0].commands, SkillsOf(applieds[|scores|]))
  {
    if scores != [] {
      var n := |scores| - 1;
      TraceWritesOnlyEvolved(states[..n + 1], applieds[..n + 1], scores[..n]);
      var name := scores[n].skill;
      var applied := applieds[n];
      var all := applieds[n + 1];
      if all != applied {
        assert all == applied + [all[|applied|]];
        assert SkillsOf(all) == SkillsOf(applied) + {name};
        AgreeGrowTrans(states[n + 1].changelogs, states[n].changelogs, states[0].changelogs, {name}, SkillsOf(all));
        AgreeGrowTrans(states[n + 1].commands, states[n].commands, states[0].commands, {name}, SkillsOf(all));
      }
    }
  }

  /** Along a trace of processed lines, every mutation applied comes from a line that needed evolution. */
  lemma {:induction false} TraceAppliedFromNeedy(applieds: seq<seq<Applied>>, scores: seq<SkillScore>)
    requires |applieds| == |scores| + 1 && applieds[0] == []
    requires forall k :: 0 <= k < |scores| ==> AddsOwn(applieds[k], applieds[k + 1], scores[k])
    ensures |applieds[|scores|]| <= |scores|
    ensures forall a :: a in applieds[|scores|] ==>
      exists k :: 0 <= k < |scores| && scores[k].skill == a.skill && scores[k].fitness == a.oldFitness
                  && Classify(a.oldFitness).NeedsEvolution()
  {
    if scores != [] {
      var n := |scores| - 1;
      var prefix := scores[..n];
      TraceAppliedFromNeedy(applieds[..n + 1], prefix);
      var applied := applieds[n];
      var all := applieds[n + 1];
      forall a | a in all
        ensures exists k :: 0 <= k < |scores| && scores[k].skill == a.skill && scores[k].fitness == a.oldFitness
                            && Classify(a.oldFitness).NeedsEvolution()
      {
        if a in applied {
          var k :| 0 <= k < |prefix| && prefix[k].skill == a.skill && prefix[k].fitness == a.oldFitness
                   && Classify(a.oldFitness).NeedsEvolution();
          assert scores[k] == prefix[k];
        } else {
          assert all == applied + [all[|applied|]];
          assert a == all[|applied|];
        }
      }
    }
  }

  /**
   * Over the whole pass, a skill no report line marks as needing evolution keeps its
   * definition and its changelog.
   */
  lemma PassLeavesOthers(files: Files, registry: Registry, tops: seq<SkillScore>, scores: seq<SkillScore>,
                         world: World)
    requires AllWellFormed(files.skills)
    ensures var after := Pass(files, registry, tops, scores, world).0;
      && AgreeOutside(after.skills, files.skills, Needy(scores))
      && AgreeOutside(after.changelogs, files.changelogs, Needy(scores))
  {
    PassTrace(files, registry, tops, scores, world);
    TraceLeavesOthers(States(files, registry, tops, scores, world), Applieds(files, registry, tops, scores, world),
                      scores);
  }

  /** Over the whole pass, changelogs and commands change only for the skills that evolved. */
  lemma PassWritesOnlyEvolved(files: Files, registry: Registry, tops: seq<SkillScore>, scores: seq<SkillScore>,
                              world: World)
    requires AllWellFormed(files.skills)
    ensures var (after, applied) := Pass(files, registry, tops, scores, world);
      && AgreeOutside(after.changelogs, files.changelogs, SkillsOf(applied))
      && AgreeOutside(after.commands, files.commands, SkillsOf(applied))
  {
    PassTrace(files, registry, tops, scores, world);
    TraceWritesOnlyEvolved(States(files, registry, tops, scores, world),
                           Applieds(files, registry, tops, scores, world), scores);
  }

  /**
   * Each mutation the pass reports applied comes from a report line that needed
   * evolution, with that line's skill and fitness; there are no more than lines.
   */
  lemma PassAppliedFromNeedy(files: Files, registry: Registry, tops: seq<SkillScore>, scores: seq<SkillScore>,
                             world: World)
    requires AllWellFormed(files.skills)
    ensures var applied := Pass(files, registry, tops, scores, world).1;
      && |applied| <= |scores|
      && forall a :: a in applied ==>
           exists k :: 0 <= k < |scores| && scores[k].skill == a.skill && scores[k].fitness == a.oldFitness
                       && Classify(a.oldFitness).NeedsEvolution()
  {
    PassTrace(files, registry, tops, scores, world);
    TraceAppliedFromNeedy(Applieds(files, registry, tops, scores, world), scores);
  }

  /** The body of the loop in `cmd_apply`, for the line at position `i` of the report. */
  method ProcessSkill(store: Store, registry: Registry, tops: seq<SkillScore>, score: SkillScore,
                      i: nat, world: World) returns (outcome: Outcome)
    requires store.Valid()
    modifies store
    ensures store.Valid()
    ensures (Files(store.skills, store.changelogs, store.commands), outcome)
         == Step(Files(old(store.skills), old(store.changelogs), old(store.commands)), registry, tops, score, i, world)
  {
    var name := score.skill;
    var fitness := score.fitness;
    var classification := Classify(fitness);
    if classification != Underperforming && classification != Failing {
      return Skipped;
    }
    if name !in store.skills {
      return NoDefinition;
    }
    var def := store.skills[name];
    var suggestions := SuggestMutations(name, def, fitness, registry, tops, store.skills);
    if suggestions == [] {
      return NoSuggestion;
    }
    var absorbs := Absorbs(suggestions);
    var suggestion := if absorbs != [] then absorbs[0] else suggestions[0];
    assert Choose(suggestions) == Some(suggestion);
    outcome := ApplySuggestion(store, registry, name, fitness, suggestion, i, world);
  }

  /** Apply, then recompile, re-evaluate and log; the outcome and the files as `Decide` and `Effect` say. */
  method ApplySuggestion(store: Store, registry: Registry, name: string, fitness: real, suggestion: Suggestion,
                         i: nat, world: World) returns (outcome: Outcome)
    requires store.Valid() && name in store.skills
    modifies store
    ensures store.Valid()
    ensures outcome == if world.recompiles(i)
                       then Evolved(Applied(name, fitness, SkillFitness(world.reevaluate(i), name).GetOr(fitness), suggestion))
                       else RecompileFailed(suggestion)
    ensures Files(store.skills, store.changelogs, store.commands)
         == Effect(Files(old(store.skills), old(store.changelogs), old(store.commands)), registry, name, outcome, i, world)
  {
    ghost var files := Files(store.skills, store.changelogs, store.commands);
    var _ := ApplyMutation(store, name, suggestion.moduleType, suggestion.toVersion, world.historyStamp(i));
    assert Files(store.skills, store.changelogs, store.commands) == MutateFiles(files, name, suggestion, world.historyStamp(i));
    if !world.recompiles(i) {
      return RecompileFailed(suggestion);
    }
    outcome := FinishEvolution(store, files, registry, name, fitness, suggestion, i, world);
  }

  /** The successful-recompile path of `ApplySuggestion`, from the files before the mutation. */
  method FinishEvolution(store: Store, ghost files: Files, registry: Registry, name: string, fitness: real,
                         suggestion: Suggestion, i: nat, world: World) returns (outcome: Outcome)
    requires AllWellFormed(files.skills) && name in files.skills
    requires Files(store.skills, store.changelogs, store.commands) == MutateFiles(files, name, suggestion, world.historyStamp(i))
    modifies store
    ensures outcome == Evolved(Applied(name, fitness, SkillFitness(world.reevaluate(i), name).GetOr(fitness), suggestion))
    ensures Files(store.skills, store.changelogs, store.commands) == Effect(files, registry, name, outcome, i, world)
  {
    outcome := RecompileAndLog(store, registry, name, fitness, suggestion, i, world);
    EvolvedEffect(files, registry, name, outcome, i, world);
  }

  /** On the evolved path the effect is the mutation followed by the recompile and the log entry. */
  lemma EvolvedEffect(files: Files, registry: Registry, name: string, o: Outcome, i: nat, world: World)
    requires AllWellFormed(files.skills) && name in files.skills && o.Evolved?
    ensures Effect(files, registry, name, o, i, world)
         == RecordEvolution(MutateFiles(files, name, o.applied.suggestion, world.historyStamp(i)), registry, name,
                            o.applied, i, world)
  {
  }

  /** Recompile, re-evaluate and log a skill that was just mutated. */
  method RecompileAndLog(store: Store, registry: Registry, name: string, fitness: real, suggestion: Suggestion,
                         i: nat, world: World) returns (outcome: Outcome)
    requires AllWellFormed(store.skills) && name in store.skills
    modifies store
    ensures outcome == Evolved(Applied(name, fitness, SkillFitness(world.reevaluate(i), name).GetOr(fitness), suggestion))
    ensures Files(store.skills, store.changelogs, store.commands)
         == RecordEvolution(Files(old(store.skills), old(store.changelogs), old(store.commands)),
                            registry, name, outcome.applied, i, world)
  {
    ghost var files := Files(store.skills, store.changelogs, store.commands);
    var _ := CompileSkill(store, name, registry, world.compileStamp(i));
    assert store.skills == files.skills[name := Recompiled(files.skills[name], world.compileStamp(i))];
    var newFitness := SkillFitness(world.reevaluate(i), name).GetOr(fitness);
    WriteChangelog(store, name, [suggestion], fitness, Some(newFitness), world.logStamp(i), world.fmt);
    outcome := Evolved(Applied(name, fitness, newFitness, suggestion));
  }

  /** `cmd_apply`, with the report and the registry given and the collaborators in `world`. */
  method CmdApply(store: Store, evaluation: Evaluation, registry: Registry, world: World)
    returns (applied: seq<Applied>)
    requires store.Valid()
    modifies store
    ensures store.Valid()
    ensures evaluation.Failed? ==>
      applied == [] && store.skills == old(store.skills)
      && store.changelogs == old(store.changelogs) && store.commands == old(store.commands)
    ensures evaluation.Report? ==>
      (Files(store.skills, store.changelogs, store.commands), applied)
      == Pass(Files(old(store.skills), old(store.changelogs), old(store.commands)),
              registry, TopPerformers(evaluation.skills), evaluation.skills, world)
  {
    if evaluation.Failed? {
      return [];
    }
    var skills := evaluation.skills;
    var tops := TopPerformers(skills);
    applied := [];
    ghost var start := Files(store.skills, store.changelogs, store.commands);
    for i := 0 to |skills|
      invariant store.Valid()
      invariant (Files(store.skills, store.changelogs, store.commands), applied)
                == Pass(start, registry, tops, skills[..i], world)
    {
      applied := ProcessNext(store, start, registry, tops, skills, i, applied, world);
    }
    assert skills[..|skills|] == skills;
  }

  /** One turn of the loop in `cmd_apply`: the line at position `i`, and the list of mutations applied. */
  method ProcessNext(store: Store, ghost start: Files, registry: Registry, tops: seq<SkillScore>,
                     skills: seq<SkillScore>, i: nat, applied: seq<Applied>, world: World)
    returns (next: seq<Applied>)
    requires i < |skills| && AllWellFormed(start.skills) && store.Valid()
    requires (Files(store.skills, store.changelogs, store.commands), applied)
          == Pass(start, registry, tops, skills[..i], world)
    modifies store
    ensures store.Valid()
    ensures (Files(store.skills, store.changelogs, store.commands), next)
         == Pass(start, registry, tops, skills[..i + 1], world)
  {
    assert skills[..i + 1][..i] == skills[..i];
    PassLast(start, registry, tops, skills[..i + 1], world);
    var outcome := ProcessSkill(store, registry, tops, skills[i], i, world);
    next := if outcome.Evolved? then applied + [outcome.applied] else applied;
  }
}
