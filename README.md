# Darwin skills: the evolution engine and the skill compiler, in Dafny

This project models the parts of Darwin that decide how a skill evolves:

- **Classification.** `classify_skill` places a fitness score in one of four bands.
- **Anti-oscillation guard.** `get_recently_tried_variants` reads the last ten history records back into a set of `module:version` keys.
- **Suggestions.** `suggest_mutations` first runs an absorb pass, which copies module versions from top performers. A mutate pass then tries the other registered variants.
- **Applying a mutation.** `apply_mutation` sets one module version, bumps the patch component of the version and appends a history record.
- **Changelog.** `write_changelog` splices an entry into the changelog, newest first.
- **The apply pass.** `cmd_apply` prefers the first absorb suggestion and gates the changelog on the recompile.
- **The compiler.** `compile_skill` resolves each module's version, looks up the prompts and lays out the command text.

Python dicts keep insertion order, and that order decides the order of suggestions. The model therefore represents them as association lists (`Dicts.Dict`):

- `Get` finds the first entry with the key.
- `Put` overwrites an entry in place, or appends a new one.

The files on disk form a class, `Skills.Store`. It holds three maps: skill definitions, changelog texts and compiled command texts. `ApplyMutation`, `WriteChangelog`, `CompileSkill` and `CmdApply` change the store. Each one is proved equal to a pure function of the old state:

- `Mutated`;
- `Logged`;
- `CompiledText` together with `Recompiled`;
- `Pass`.

The properties are proved about those functions. The loops that build values are methods whose loop invariants tie them to prefix-recursive functions:

- the guard's loop;
- the two passes of `suggest_mutations`;
- the bullet loop of the changelog;
- the loop over the report.

The evaluator, the recompiler, the clock and the two-decimal rendering of a fitness are collaborators outside the model. The report the pass starts from is a parameter of `Evolve.CmdApply`. The other collaborators are fields of `Evolve.World`:

- the re-evaluation, the recompile result and the three timestamps are indexed by the position of the report line being processed;
- `fmt`, the rendering of a fitness, is a function of the fitness alone.

The mutate pass skips a variant that any earlier suggestion already targets, absorb or mutate. The source code does this, although its comment speaks only of absorptions. The model follows the code.

## Model

| member | source | states |
|---|---|---|
| Fitness.Classify | bin/evolve.py:78-87 | Top performer exactly from 0.70, healthy exactly in [0.50, 0.70), underperforming exactly in [0.35, 0.50), failing exactly below 0.35. |
| Fitness.ClassifyMonotone | bin/evolve.py:80-87 | A higher fitness never falls in a lower band. |
| Fitness.SkillFitness | bin/evolve.py:90-95 | `None` exactly when no report line names the skill. Otherwise, the fitness of the first line that names it. A failed evaluation has no lines. |
| Fitness.FirstFitness | bin/evolve.py:92-94 | The first-match search over the report lines: `None` iff no line matches, else the fitness of the earliest match. |
| Fitness.TopPerformers | bin/evolve.py:392 | Exactly the report lines classified top performer. |
| Fitness.TopPerformersAppend | bin/evolve.py:392 | The selection keeps report order and repeats: the top performers of two runs of lines are those of the first run followed by those of the second. |
| Fitness.TopPerformersSingle | bin/evolve.py:392 | A single line is kept exactly when it is classified top performer. |
| History.RecentlyTriedVariants | bin/evolve.py:98-115 | The guard's loop computes `RecentlyTried(history)`: the keys parsed from the last ten records only. |
| History.DescriptorRoundTrip | bin/evolve.py:103-114 | The descriptor written at bin/evolve.py:211 parses back to the key `type:new`. This needs names without arrow or colon and without surrounding whitespace. |
| History.OlderRecordsIgnored | bin/evolve.py:100 | Records before the last ten never change the recently-tried set. |
| Suggest.ModuleVariants | bin/evolve.py:71-75 | A label is listed iff the registry has that module type and that version under it. A missing module type gives none. The labels are the registry's keys for that type, in registry order. |
| Suggest.SuggestMutations | bin/evolve.py:118-182 | The nested loops return `Suggestions(...)`: the absorb pass over donors and their modules, then the mutate pass over the skill's modules and their registered variants. |
| Suggest.SuccessfulSkillsUntouched | bin/evolve.py:128-129 | A healthy or top-performing skill gets no suggestion. |
| Suggest.NeverRecentOrCurrent | bin/evolve.py:132-161 | No suggestion targets a recently tried pair or the version the skill already uses. |
| Suggest.AbsorbBeforeMutate | bin/evolve.py:131-175 | Every absorb suggestion precedes every mutate suggestion. The list starts with the absorb pass's output. |
| Suggest.AbsorbFromDonorMembers | bin/evolve.py:138-151 | A donor contributes exactly its module entries that are neither recently tried nor in use, each as an absorb from that donor. |
| Suggest.AbsorbFromDonorAppend | bin/evolve.py:138-151 | Within a donor, suggestions follow the donor's module order. |
| Suggest.AbsorbPassAppend | bin/evolve.py:132-136 | Across donors, suggestions follow the order of the top performers. |
| Suggest.MutateNeverRepeats | bin/evolve.py:162-167 | No mutate suggestion repeats the module type and version of an earlier suggestion. |
| Suggest.MutateRange | bin/evolve.py:154-175 | Every mutate suggestion moves a module type the skill has, from its current version to a different registered variant. |
| Suggest.EveryUntriedVariantOffered | bin/evolve.py:154-175 | The converse: for a skill that needs evolution, every registered variant of a module in use is offered when it is neither current nor recently tried. |
| Suggest.WriterScenario | bin/evolve.py:118-182 | A concrete case: a failing writer with a top-performing reviewer gets first the absorb of v3, then the mutate to v1, and v3 only once. |
| Mutation.BumpVersion | bin/evolve.py:201-204 | Same number of components and the same leading ones. The last component reads one more than before, and it is written without leading zeros, as `str` writes it. |
| Mutation.BumpedDetermined | bin/evolve.py:201-204 | These conditions fix the bumped text completely: two versions bumped from the same one are equal. |
| Mutation.Mutated | bin/evolve.py:192-212 | The module type maps to the new version and every other module type is unchanged. A new key is appended. The version is bumped. Exactly one record is appended, with the descriptor `type: old → new` (old is `unknown` when unset), and earlier records are kept. Description, core prompt and `last_compiled` are kept. Well-formedness is preserved. |
| Mutation.ApplyMutation | bin/evolve.py:185-215 | `false` with no change iff the skill has no definition. Otherwise only that definition changes, and it becomes `Mutated(...)`. |
| Mutation.BumpExample | bin/evolve.py:201-204 | `1.2.3` becomes `1.2.4`. |
| Mutation.MissingVersionExample | bin/evolve.py:201 | A missing version is read as `1.0.0` and becomes `1.0.1`. |
| Mutation.DescriptorExample | bin/evolve.py:211 | The descriptor for validation v3 to v4 is `validation: v3 → v4`. |
| Mutation.MutationIsRecorded | bin/evolve.py:207-212 | Right after a mutation, its (module type, new version) key is in the recently-tried set. This holds when the version has a numeric patch; the module type and the new version hold no arrow and no surrounding whitespace; and the module type and the old version (`unknown` when unset) hold neither arrow nor colon. Outside these conditions the guard can fail to read the record back. |
| Mutation.NoOscillation | bin/evolve.py:125-161 | After moving a module to `b` and then to `a`, the next suggestions for that module offer neither `a` nor `b`. This holds for a well-formed definition when the module type holds no arrow, colon or surrounding whitespace; `b` holds no arrow and no surrounding whitespace; and the first old version holds neither arrow nor colon. |
| Changelog.Entry | bin/evolve.py:244-258 | Every entry starts with the marker `\n## ` and ends with `\n---\n`. |
| Changelog.BulletsAppend | bin/evolve.py:253-256 | Mutations are listed in the order given. |
| Changelog.MutationBullets | bin/evolve.py:253-256 | The loop adds two lines per mutation and yields `Bullets(fmt, ms)`. |
| Changelog.BuildEntry | bin/evolve.py:244-258 | The piecewise construction yields `Entry(...)`. |
| Changelog.SplicePoint | bin/evolve.py:261 | The position of the first marker, or the end of the content when there is none. |
| Changelog.Splice | bin/evolve.py:260-265 | The entry sits at the splice point. Removing it gives back the original content. |
| Changelog.SpliceEntry | bin/evolve.py:260-265 | The source's branch on `find` yields `Splice(content, entry)`. |
| Changelog.SpliceFirst | bin/evolve.py:260-265 | After a splice, the first marker is the new entry's own. |
| Changelog.NewestFirst | bin/evolve.py:260-265 | A second entry lands right before the first. |
| Changelog.HeaderHasNoMarker | bin/evolve.py:237 | For a skill name without a newline, the synthesized header holds no marker, so a first entry is appended after it. A name holding `\n## ` would put a marker inside the header. |
| Changelog.HeaderThenNewestFirst | bin/evolve.py:236-265 | For a skill name without a newline, and entries that start with the marker, two writes from the header give header, second entry, first entry. |
| Changelog.ComposeLog | bin/evolve.py:232-265 | The existing changelog, or the header, with the new entry spliced in. The entry is headed by the definition's version, or `?.?.?`. |
| Changelog.WriteChangelog | bin/evolve.py:227-268 | Only the skill's changelog changes, and it becomes `Logged(...)`. |
| Compile.SelectedVersion | bin/compile.py:58-65 | The skill's own version of a module type, else `v3` for validation and `v1` otherwise. |
| Compile.ModulePrompt | bin/compile.py:32-37 | The variant's prompt. Empty when the module type, the version or the prompt is missing. |
| Compile.DefaultsExample | bin/compile.py:59-65 | A skill without modules compiles with v1 everywhere and v3 for validation. |
| Compile.FrontMatterReadsBack | bin/compile.py:78-88 | When the description, the version and the module versions hold no newline, the first eleven lines of the text are the front matter: the version (default `1.0.0`), then the six resolved module versions in order. A multi-line description pushes the module lines further down. |
| Compile.StructurePromptIgnored | bin/compile.py:67-101 | The structure prompt never reaches the text: registries that differ only there compile alike. |
| Compile.CompiledTextIgnoresStamp | bin/compile.py:107-109 | The text does not depend on `last_compiled`. |
| Compile.AssembleCommand | bin/compile.py:54-101 | The line-by-line assembly yields `CompiledText`: front matter, then the core prompt and five module prompts, separated by blank lines. |
| Compile.CompileSkill | bin/compile.py:40-114 | `false` with nothing written iff there is no definition. Otherwise the command text is `CompiledText` of the definition, and only `last_compiled` changes in the definition. |
| Evolve.Absorbs | bin/evolve.py:422 | Keeps exactly the absorb suggestions of the list. When there is one, its head is an absorb suggestion of the list. |
| Evolve.Choose | bin/evolve.py:421-423 | `None` iff there are no suggestions. Otherwise the earliest absorb when there is one, else the first suggestion. |
| Evolve.ChosenIsFirst | bin/evolve.py:421-423 | For the list `suggest_mutations` returns, the choice is its head. |
| Evolve.Recompiled | bin/compile.py:107-109 | A recompile keeps modules, version, history, description and core prompt, and sets `last_compiled` to the stamp. |
| Evolve.Decide | bin/evolve.py:401-432 | A skill that does not need evolution is skipped. A suggestion is applied iff the skill needs evolution, has a definition and gets suggestions. The applied suggestion is the chosen one. The skill evolves iff the recompile also succeeds, recorded with the line's skill and fitness. |
| Evolve.MutateFiles | bin/evolve.py:430 | Only the skill's definition changes, and the store stays well formed. |
| Evolve.RecordEvolution | bin/evolve.py:432-461 | Only the skill's definition, changelog and command change. |
| Evolve.Effect | bin/evolve.py:429-465 | Nothing of another skill changes. Without a successful recompile, changelogs and commands stay as they were. |
| Evolve.EffectOnSkill | bin/evolve.py:429-430 | The module gets the suggested version, the version is bumped and the earlier history is kept, whether or not the recompile succeeds. |
| Evolve.EffectOnEvolved | bin/evolve.py:432-461 | On success, `last_compiled` is set and the command is the stored definition's text. The changelog is the prior one with an entry spliced in, headed by the bumped version, with the old and new fitness. |
| Evolve.RecordEvolutionOnSkill | bin/evolve.py:432-461 | The same facts for the recompile-and-log step alone. |
| Evolve.Step | bin/evolve.py:401-465 | One report line keeps the store well formed and its names unchanged. |
| Evolve.Pass | bin/evolve.py:399-465 | The whole loop keeps the store well formed and its names unchanged. |
| Evolve.Advance | bin/evolve.py:401-465 | The loop with its last line processed keeps the store well formed. |
| Evolve.PassLastKeeps | bin/evolve.py:401-465 | The last line changes only its own skill. It changes nothing when that skill does not need evolution. Changelogs and commands change only when it evolved. |
| Evolve.PassLastAdds | bin/evolve.py:453-458 | The last line adds no applied mutation, or one of its own skill with its fitness, when that fitness needs evolution. |
| Evolve.PassTrace | bin/evolve.py:399-465 | Every line of the report, in turn, keeps the others' files and adds at most its own mutation. |
| Evolve.TraceLeavesOthers | bin/evolve.py:404-411 | Along such a trace, only lines that need evolution change definitions and changelogs. |
| Evolve.TraceWritesOnlyEvolved | bin/evolve.py:453-461 | Along such a trace, changelogs and commands change only for skills that evolved. |
| Evolve.TraceAppliedFromNeedy | bin/evolve.py:453-458 | Along such a trace, every applied mutation comes from a line that needed evolution. |
| Evolve.PassLeavesOthers | bin/evolve.py:401-411 | Over the whole pass, a skill that no report line marks underperforming or failing keeps its definition and its changelog. |
| Evolve.PassWritesOnlyEvolved | bin/evolve.py:429-465 | Over the whole pass, a changelog or a command changes only for a skill in `mutations_applied`. |
| Evolve.PassAppliedFromNeedy | bin/evolve.py:401-458 | There are no more applied mutations than report lines. Each comes from a line that needed evolution, with that line's skill and fitness. |
| Evolve.ProcessSkill | bin/evolve.py:401-465 | The loop body's outcome and new files are `Step(...)` of the old files. |
| Evolve.ApplySuggestion | bin/evolve.py:429-465 | Apply, recompile, re-evaluate and log. The outcome is evolved iff the recompile succeeds, with the re-evaluated fitness or else the old one. The files are `Effect(...)`. |
| Evolve.FinishEvolution | bin/evolve.py:432-461 | The successful-recompile path, from the files before the mutation. |
| Evolve.RecompileAndLog | bin/evolve.py:432-461 | Recompile, re-evaluate and write the changelog: the files are `RecordEvolution(...)`. |
| Evolve.ProcessNext | bin/evolve.py:401-458 | One turn of the loop extends the pass by one line, together with its applied list. |
| Evolve.CmdApply | bin/evolve.py:383-476 | A failed evaluation returns nothing and changes nothing. Otherwise the files and `mutations_applied` are `Pass(...)` over the report, in order. |
| Dicts.PutGet | bin/evolve.py:196-198 | After `d[k] = v`, `k` maps to `v` and every other key keeps its value. |
| Dicts.PutKeys | bin/evolve.py:196-198 | Existing keys keep their order, and a new key is appended. |
| Dicts.PutDistinct | bin/evolve.py:196-198 | Setting a key never repeats a key. |
| Text.Split | bin/evolve.py:202 | `str.split` gives at least one piece, and no piece holds the separator. |
| Text.SplitThenJoin | bin/evolve.py:202-204 | Joining the pieces of a split with the separator gives back the text. |
| Text.SplitJoin | bin/evolve.py:202-204 | Joining separator-free pieces and splitting again gives the pieces back. |
| Text.Find | bin/evolve.py:261 | `str.find`: the first occurrence, or -1 when there is none. |
| Text.NatToString | bin/evolve.py:203 | `str(n)` is a decimal numeral without leading zeros (only `0` itself starts with `0`) that reads back as `n`. |
| Text.CanonicalUnique | bin/evolve.py:203 | Two numerals without leading zeros that read as the same number are the same text, so `NatToString(n)` is exactly `str(n)`. |

## Left out

- File and YAML/JSON input and output are left out: `load_yaml`, `save_yaml`, the `exists()` checks, `mkdir` and the file writes. The files are the three maps of `Skills.Store`, and a name without a file is a name that is not a key.
- `run_evaluate` and `recompile_skill` run subprocesses. They are answers in `Evolve.World`: the report before the pass is a parameter, and the re-evaluation and the recompile result are indexed by the line's position. A successful recompile is modelled as `compile_skill`'s effect with the same registry. A failed recompile is taken to leave the command and `last_compiled` as they were.
- Timestamps from `datetime.utcnow()` are opaque strings from `World`. The `:.2f` rendering of a fitness is an opaque function `fmt`. The text around it, including the sign of the delta, is modelled.
- The following are not part of this model:
  - all printing, including `print_status`, `cmd_status`, `cmd_suggest` and the fitness bar;
  - `cmd_cycle` and its snapshot;
  - `main` in both files;
  - the `--all` loop of the compiler and its exit code.
- Mutation.ApplyMutation: requires a well-formed store. Every module dict has distinct keys, and every patch component is a decimal numeral. The source would raise on `int(parts[-1])` for a non-numeric component. That exception is not modelled.
- Mutation.Mutated: requires a numeric patch component, for the same reason. `int()` also accepts signs, surrounding whitespace and underscores; the model accepts only plain digit strings.
- Evolve.CmdApply: requires a well-formed store, as `ApplyMutation` does.
- Fitness is a `real`, so floating-point rounding near the thresholds is not modelled.
- YAML keys that are present but null are treated like absent keys.
- The unused `failing` threshold and the empty cooldown branch of `suggest_mutations` have no counterpart.
- The "Mutation failed" branch of `cmd_apply` is unreachable. Existence is checked first, and `apply_mutation` then succeeds, so the model has no outcome for it.
- Donor definitions come from the store as it stands when each line is processed, as the source reads them from disk at that moment.
- Mutation.MutationIsRecorded and Mutation.NoOscillation: proved only for names the guard can read back. Suppose a module type or an old version label holds a colon or an arrow, or a module type or new version is padded with whitespace. Then the descriptor written at bin/evolve.py:211 either yields a different key or is dropped by the parse at bin/evolve.py:104-114. The anti-oscillation guard then does not cover that mutation, and no lemma claims it does.
- Changelog.HeaderHasNoMarker and Changelog.HeaderThenNewestFirst: stated for skill names without a newline. A name holding `\n## ` puts a marker inside the synthesized header, and the first entry is then spliced into the header.
- Compile.FrontMatterReadsBack: stated for fields without a newline. A multi-line description moves the module lines below the eleventh line.
