/**
 * The skill compiler: resolve the version of each module type (the skill's own, or
 * a default), look the prompts up in the registry, and lay out the command text:
 * a front matter listing the versions, then the core prompt and the module prompts.
 */
module Compile {
  import opened Options
  import opened Dicts
  import opened Text
  import opened Skills

  /** The version a module type gets when the skill does not name one. */
  function DefaultVersion(moduleType: string): string
  {
    if moduleType == "validation" then "v3" else "v1"
  }

  /** The version compiled for a module type. */
  function SelectedVersion(def: SkillDef, moduleType: string): (v: string)
    ensures Get(def.modules, moduleType).Some? ==> v == Get(def.modules, moduleType).value
    ensures Get(def.modules, moduleType).None? ==> v == DefaultVersion(moduleType)
  {
    GetOr(def.modules, moduleType, DefaultVersion(moduleType))
  }

  /**
   * `get_module_prompt`: the variant's prompt; empty when the module type, the
   * version or the prompt is missing.
   */
  function ModulePrompt(registry: Registry, moduleType: string, version: string): (p: string)
    ensures Get(registry, moduleType).None? ==> p == ""
    ensures Get(registry, moduleType).Some? && Get(Get(registry, moduleType).value, version).None? ==> p == ""
    ensures Get(registry, moduleType).Some? && Get(Get(registry, moduleType).value, version).Some? ==>
      p == Get(Get(registry, moduleType).value, version).value.prompt.GetOr("")
  {
    var variants := GetOr(registry, moduleType, []);
    var variant := GetOr(variants, version, Variant(None));
    variant.prompt.GetOr("")
  }

  /** The front matter lines: description, version, and the six module versions in order. */
  function FrontMatter(def: SkillDef): seq<string>
  {
    ["---",
     "description: " + def.description.GetOr(""),
     "darwin_version: " + def.Version(),
     "darwin_modules:",
     "  input: " + SelectedVersion(def, "input"),
     "  research: " + SelectedVersion(def, "research"),
     "  structure: " + SelectedVersion(def, "structure"),
     "  output: " + SelectedVersion(def, "output"),
     "  workflow: " + SelectedVersion(def, "workflow"),
     "  validation: " + SelectedVersion(def, "validation"),
     "---"]
  }

  function Prompt(def: SkillDef, registry: Registry, moduleType: string): string
  {
    ModulePrompt(registry, moduleType, SelectedVersion(def, moduleType))
  }

  /** The body lines: the core prompt, then five module prompts, blank lines between. */
  function Body(def: SkillDef, registry: Registry): seq<string>
  {
    ["", def.corePrompt.GetOr(""),
     "", Prompt(def, registry, "input"),
     "", Prompt(def, registry, "research"),
     "", Prompt(def, registry, "output"),
     "", Prompt(def, registry, "workflow"),
     "", Prompt(def, registry, "validation"),
     ""]
  }

  /** The text written to the command file: front matter and body, one line each. */
  function CompiledText(def: SkillDef, registry: Registry): string
  {
    Join(FrontMatter(def) + Body(def, registry), '\n')
  }

  /** Joining two non-empty runs of pieces puts one separator between them. */
  lemma {:induction false} JoinAppend(ps: seq<string>, qs: seq<string>, c: char)
    requires |ps| >= 1 && |qs| >= 1
    ensures Join(ps + qs, c) == Join(ps, c) + [c] + Join(qs, c)
  {
    if |ps| == 1 {
      assert (ps + qs)[1..] == qs;
    } else {
      assert (ps + qs)[1..] == ps[1..] + qs;
      JoinAppend(ps[1..], qs, c);
    }
  }

  /**
   * When none of its fields holds a newline, the first eleven lines of the compiled
   * text are exactly the front matter: the version and the six module versions read
   * back as the ones compiled.
   */
  lemma FrontMatterReadsBack(def: SkillDef, registry: Registry)
    requires forall line :: line in FrontMatter(def) ==> '\n' !in line
    ensures |Split(CompiledText(def, registry), '\n')| >= 11
    ensures Split(CompiledText(def, registry), '\n')[..11] == FrontMatter(def)
  {
    var front := FrontMatter(def);
    var body := Body(def, registry);
    JoinAppend(front, body, '\n');
    SplitAround(Join(front, '\n'), Join(body, '\n'), '\n');
    SplitJoin(front, '\n');
    var pieces := Split(CompiledText(def, registry), '\n');
    assert pieces == front + Split(Join(body, '\n'), '\n');
    assert pieces[..11] == front;
  }

  /** The text depends on the definition but not on when it was last compiled. */
  lemma CompiledTextIgnoresStamp(def: SkillDef, registry: Registry, stamp: Option<string>)
    ensures CompiledText(def.(lastCompiled := stamp), registry) == CompiledText(def, registry)
  {
    assert FrontMatter(def.(lastCompiled := stamp)) == FrontMatter(def);
    assert Body(def.(lastCompiled := stamp), registry) == Body(def, registry);
  }

  /** The structure prompt never reaches the text: registries that differ only there compile alike. */
  lemma StructurePromptIgnored(def: SkillDef, registry: Registry, other: Registry)
    requires forall t, v :: t != "structure" ==> ModulePrompt(registry, t, v) == ModulePrompt(other, t, v)
    ensures CompiledText(def, registry) == CompiledText(def, other)
  {
    assert Body(def, registry) == Body(def, other);
  }

  /** A skill that names no modules is compiled with v1 everywhere and v3 for validation. */
  lemma DefaultsExample(def: SkillDef)
    requires def.modules == []
    ensures FrontMatter(def)[4..10]
         == ["  input: v1", "  research: v1", "  structure: v1", "  output: v1", "  workflow: v1", "  validation: v3"]
  {
    assert SelectedVersion(def, "input") == "v1" && SelectedVersion(def, "validation") == "v3";
    assert "  input: " + "v1" == "  input: v1";
    assert "  research: " + "v1" == "  research: v1";
    assert "  structure: " + "v1" == "  structure: v1";
    assert "  output: " + "v1" == "  output: v1";
    assert "  workflow: " + "v1" == "  workflow: v1";
    assert "  validation: " + "v3" == "  validation: v3";
  }

  /**
   * `compile_skill`: a skill with no definition gives `false` and nothing changes;
   * otherwise its command text is written and only its `last_compiled` is updated.
   */
  method CompileSkill(store: Store, name: string, registry: Registry, stamp: string) returns (ok: bool)
    modifies store
    ensures ok <==> name in old(store.skills)
    ensures ok ==> store.commands == old(store.commands)[name := CompiledText(old(store.skills)[name], registry)]
    ensures ok ==> store.skills == old(store.skills)[name := old(store.skills)[name].(lastCompiled := Some(stamp))]
    ensures !ok ==> store.commands == old(store.commands) && store.skills == old(store.skills)
    ensures store.changelogs == old(store.changelogs)
    ensures old(store.Valid()) ==> store.Valid()
  {
    if name !in store.skills {
      return false;
    }
    var skill := store.skills[name];
    var assembled := AssembleCommand(skill, registry);
    store.commands := store.commands[name := assembled];
    store.skills := store.skills[name := skill.(lastCompiled := Some(stamp))];
    ok := true;
  }

  /** The command text `compile_skill` lays out, line by line. */
  method AssembleCommand(skill: SkillDef, registry: Registry) returns (text: string)
    ensures text == CompiledText(skill, registry)
  {
    var description := skill.description.GetOr("");
    var version := skill.version.GetOr("1.0.0");

    var modules := skill.modules;
    var inputVersion := GetOr(modules, "input", "v1");
    var researchVersion := GetOr(modules, "research", "v1");
    var structureVersion := GetOr(modules, "structure", "v1");
    var outputVersion := GetOr(modules, "output", "v1");
    var workflowVersion := GetOr(modules, "workflow", "v1");
    var validationVersion := GetOr(modules, "validation", "v3");

    var inputPrompt := ModulePrompt(registry, "input", inputVersion);
    var researchPrompt := ModulePrompt(registry, "research", researchVersion);
    var outputPrompt := ModulePrompt(registry, "output", outputVersion);
    var workflowPrompt := ModulePrompt(registry, "workflow", workflowVersion);
    var validationPrompt := ModulePrompt(registry, "validation", validationVersion);

    var corePrompt := skill.corePrompt.GetOr("");

    var lines :=
      ["---",
       "description: " + description,
       "darwin_version: " + version,
       "darwin_modules:",
       "  input: " + inputVersion,
       "  research: " + researchVersion,
       "  structure: " + structureVersion,
       "  output: " + outputVersion,
       "  workflow: " + workflowVersion,
       "  validation: " + validationVersion,
       "---",
       "", corePrompt,
       "", inputPrompt,
       "", researchPrompt,
       "", outputPrompt,
       "", workflowPrompt,
       "", validationPrompt,
       ""];
    assert inputVersion == SelectedVersion(skill, "input") && validationVersion == SelectedVersion(skill, "validation");
    assert lines[..11] == FrontMatter(skill) && lines[11..] == Body(skill, registry);
    assert lines == FrontMatter(skill) + Body(skill, registry);
    text := Join(lines, '\n');
  }
}
