/**
 * The data the evolution engine and the compiler work on: skill definitions, the
 * module registry, evaluation reports, and the on-disk store that holds the skill
 * definitions, the changelogs and the compiled command files.
 */
module Skills {
  import opened Options
  import opened Dicts
  import opened Text

  /** The last piece of a dot-split version. */
  function LastPiece(version: string): string
  {
    var parts := Split(version, '.');
    parts[|parts| - 1]
  }

  /** One entry of `fitness_history`; `mutation` is absent in records of other shapes. */
  datatype HistoryRecord = HistoryRecord(timestamp: string, mutation: Option<string>)

  /** A skill definition document. Absent keys are `None`; absent lists and dicts are empty. */
  datatype SkillDef = SkillDef(
    description: Option<string>,
    version: Option<string>,
    modules: Dict<string, string>,
    history: seq<HistoryRecord>,
    corePrompt: Option<string>,
    lastCompiled: Option<string>)
  {
    /** `skill_def.get('version', '1.0.0')`. */
    function Version(): string
    {
      version.GetOr("1.0.0")
    }

    /** The last dot-separated component of the version, the one a mutation bumps. */
    function Patch(): string
    {
      LastPiece(Version())
    }

    /**
     * A definition the engine can work on: its modules form a dict, and its patch
     * component is a plain decimal number, so that `int(parts[-1])` succeeds.
     */
    predicate WellFormed()
    {
      Distinct(modules) && IsNumeral(Patch())
    }
  }

  /** One version of a module in the registry: a mapping that may hold a `prompt`. */
  datatype Variant = Variant(prompt: Option<string>)

  /** The registry's `modules` mapping: module type to version label to variant. */
  type Registry = Dict<string, Dict<string, Variant>>

  /** One skill's line in an evaluation report. */
  datatype SkillScore = SkillScore(skill: string, fitness: real, invocations: nat)

  /** What the evaluator returns: an error (non-zero exit) or a report. */
  datatype Evaluation = Failed(error: string) | Report(totalInvocations: nat, skills: seq<SkillScore>)
  {
    /** `evaluation.get('skills', [])`; a failed evaluation carries an empty list. */
    function Scores(): seq<SkillScore>
    {
      if Failed? then [] else skills
    }
  }

  /** Every stored definition is well formed. */
  predicate AllWellFormed(skills: map<string, SkillDef>)
  {
    forall name :: name in skills ==> skills[name].WellFormed()
  }

  /**
   * The files the engine reads and rewrites: one definition per skill, one changelog
   * per skill and one compiled command file per skill. A name that is not a key has
   * no file.
   */
  class Store {
    var skills: map<string, SkillDef>
    var changelogs: map<string, string>
    var commands: map<string, string>

    predicate Valid()
      reads this
    {
      AllWellFormed(skills)
    }
  }
}
