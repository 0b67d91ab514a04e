/**
 * The suggestion engine: an absorb pass that copies module versions from top
 * performers, then a mutate pass that tries the other registered variants, both
 * skipping recently tried pairs and the version already in use.
 */
module Suggest {
  import opened Options
  import opened Dicts
  import opened Skills
  import opened Fitness
  import opened History

  datatype Kind = Absorb | Mutate

  /** Why a suggestion was made; rendered as text only in the changelog. */
  datatype Reason = FromTopPerformer(donor: string, donorFitness: real) | TryAlternative

  datatype Suggestion = Suggestion(
    kind: Kind,
    skill: string,
    moduleType: string,
    fromVersion: string,
    toVersion: string,
    reason: Reason)

  /** `get_module_variants`: the version labels registered for a module type, in order. */
  function ModuleVariants(registry: Registry, moduleType: string): (vs: seq<string>)
    ensures forall v :: v in vs <==>
      Get(registry, moduleType).Some? && Get(Get(registry, moduleType).value, v).Some?
    ensures |vs| == |GetOr(registry, moduleType, [])|
    ensures forall i :: 0 <= i < |vs| ==> vs[i] == GetOr(registry, moduleType, [])[i].0
  {
    var variants := GetOr(registry, moduleType, []);
    forall v ensures v in Keys(variants) <==> Get(variants, v).Some? {
      GetFound(variants, v);
    }
    Keys(variants)
  }

  /** Neither recently tried nor the version the skill uses now. */
  predicate Fresh(tried: set<string>, current: Dict<string, string>, moduleType: string, version: string)
  {
    VariantKey(moduleType, version) !in tried && Get(current, moduleType) != Some(version)
  }

  /** The absorb suggestion for one module entry of a donor. */
  function AbsorbOf(skill: string, current: Dict<string, string>, donor: SkillScore, entry: (string, string)): Suggestion
  {
    Suggestion(Absorb, skill, entry.0, GetOr(current, entry.0, "unknown"), entry.1,
               FromTopPerformer(donor.skill, donor.fitness))
  }

  /** The absorb suggestions from one donor's modules, in the donor's module order. */
  function AbsorbFromDonor(skill: string, current: Dict<string, string>, tried: set<string>,
                           donor: SkillScore, donorModules: Dict<string, string>): seq<Suggestion>
  {
    if donorModules == [] then []
    else
      var n := |donorModules| - 1;
      var prev := AbsorbFromDonor(skill, current, tried, donor, donorModules[..n]);
      var (moduleType, version) := donorModules[n];
      if VariantKey(moduleType, version) in tried then prev
      else if Get(current, moduleType) != Some(version) then prev + [AbsorbOf(skill, current, donor, donorModules[n])]
      else prev
  }

  /** The absorb pass: donors in the given order; a donor with no definition adds nothing. */
  function AbsorbPass(skill: string, current: Dict<string, string>, tried: set<string>,
                      tops: seq<SkillScore>, store: map<string, SkillDef>): seq<Suggestion>
  {
    if tops == [] then []
    else
      var n := |tops| - 1;
      AbsorbPass(skill, current, tried, tops[..n], store)
      + if tops[n].skill in store then AbsorbFromDonor(skill, current, tried, tops[n], store[tops[n].skill].modules) else []
  }

  /** Some suggestion so far targets this (module type, version) pair. */
  predicate Suggested(ss: seq<Suggestion>, moduleType: string, version: string)
  {
    exists s :: s in ss && s.moduleType == moduleType && s.toVersion == version
  }

  /** The mutate step for one module type in use: its variants, in registry order. */
  function MutateVariants(acc: seq<Suggestion>, skill: string, tried: set<string>,
                          moduleType: string, currentVersion: string, variants: seq<string>): seq<Suggestion>
  {
    if variants == [] then acc
    else
      var n := |variants| - 1;
      var prev := MutateVariants(acc, skill, tried, moduleType, currentVersion, variants[..n]);
      var variant := variants[n];
      if VariantKey(moduleType, variant) in tried then prev
      else if variant != currentVersion && !Suggested(prev, moduleType, variant) then
        prev + [Suggestion(Mutate, skill, moduleType, currentVersion, variant, TryAlternative)]
      else prev
  }

  /** The mutate pass over the module types in use, in the skill's module order. */
  function MutatePass(acc: seq<Suggestion>, skill: string, tried: set<string>,
                      registry: Registry, entries: Dict<string, string>): seq<Suggestion>
  {
    if entries == [] then acc
    else
      var n := |entries| - 1;
      MutateVariants(MutatePass(acc, skill, tried, registry, entries[..n]), skill, tried,
                     entries[n].0, entries[n].1, ModuleVariants(registry, entries[n].0))
  }

  /** What `suggest_mutations` returns. */
  function Suggestions(skill: string, def: SkillDef, fitness: real, registry: Registry,
                       tops: seq<SkillScore>, store: map<string, SkillDef>): seq<Suggestion>
  {
    var tried := RecentlyTried(def.history);
    if !Classify(fitness).NeedsEvolution() then []
    else MutatePass(AbsorbPass(skill, def.modules, tried, tops, store), skill, tried, registry, def.modules)
  }

  /** `suggest_mutations`, with donor definitions read from `store`. */
  method SuggestMutations(skill: string, def: SkillDef, fitness: real, registry: Registry,
                          tops: seq<SkillScore>, store: map<string, SkillDef>) returns (suggestions: seq<Suggestion>)
    ensures suggestions == Suggestions(skill, def, fitness, registry, tops, store)
  {
    var current := def.modules;
    var classification := Classify(fitness);
    var tried := RecentlyTriedVariants(def.history);
    if classification == Healthy || classification == TopPerformer {
      return [];
    }
    suggestions := [];

    // Strategy 1: copy module versions from top performers.
    for i := 0 to |tops|
      invariant suggestions == AbsorbPass(skill, current, tried, tops[..i], store)
    {
      assert tops[..i + 1][..i] == tops[..i];
      var top := tops[i];
      if top.skill in store {
        var topModules := store[top.skill].modules;
        ghost var before := suggestions;
        for j := 0 to |topModules|
          invariant suggestions == before + AbsorbFromDonor(skill, current, tried, top, topModules[..j])
        {
          assert topModules[..j + 1][..j] == topModules[..j];
          var (moduleType, topVersion) := topModules[j];
          if VariantKey(moduleType, topVersion) in tried {
            continue;
          }
          if Get(current, moduleType) != Some(topVersion) {
            suggestions := suggestions + [Suggestion(Absorb, skill, moduleType, GetOr(current, moduleType, "unknown"),
                                                     topVersion, FromTopPerformer(top.skill, top.fitness))];
          }
        }
        assert topModules[..|topModules|] == topModules;
      }
    }
    assert tops[..|tops|] == tops;

    // Strategy 2: try the other registered variants of each module type in use.
    ghost var absorbed := suggestions;
    for i := 0 to |current|
      invariant suggestions == MutatePass(absorbed, skill, tried, registry, current[..i])
    {
      assert current[..i + 1][..i] == current[..i];
      var (moduleType, currentVersion) := current[i];
      var variants := ModuleVariants(registry, moduleType);
      ghost var before := suggestions;
      for j := 0 to |variants|
        invariant suggestions == MutateVariants(before, skill, tried, moduleType, currentVersion, variants[..j])
      {
        assert variants[..j + 1][..j] == variants[..j];
        var variant := variants[j];
        if VariantKey(moduleType, variant) in tried {
          continue;
        }
        if variant != currentVersion {
          var alreadySuggested := exists s :: s in suggestions && s.moduleType == moduleType && s.toVersion == variant;
          if !alreadySuggested {
            suggestions := suggestions + [Suggestion(Mutate, skill, moduleType, currentVersion, variant, TryAlternative)];
          }
        }
      }
      assert variants[..|variants|] == variants;
    }
    assert current[..|current|] == current;
  }

  // ---------------------------------------------------------------------------
  // Properties of the suggestion list

  /** A skill that is healthy or a top performer gets no suggestion, whatever the registry. */
  lemma SuccessfulSkillsUntouched(skill: string, def: SkillDef, fitness: real, registry: Registry,
                                  tops: seq<SkillScore>, store: map<string, SkillDef>)
    requires fitness >= HealthyThreshold
    ensures Suggestions(skill, def, fitness, registry, tops, store) == []
  {
  }

  predicate AllFresh(ss: seq<Suggestion>, tried: set<string>, current: Dict<string, string>)
  {
    forall s :: s in ss ==> Fresh(tried, current, s.moduleType, s.toVersion)
  }

  /** Each entry's version is what `current` holds for its module type. */
  predicate EntriesOf(entries: Dict<string, string>, current: Dict<string, string>)
  {
    forall k :: 0 <= k < |entries| ==> Get(current, entries[k].0) == Some(entries[k].1)
  }

  lemma {:induction false} AbsorbFromDonorFresh(skill: string, current: Dict<string, string>, tried: set<string>,
                                                donor: SkillScore, donorModules: Dict<string, string>)
    ensures AllFresh(AbsorbFromDonor(skill, current, tried, donor, donorModules), tried, current)
  {
    if donorModules != [] {
      AbsorbFromDonorFresh(skill, current, tried, donor, donorModules[..|donorModules| - 1]);
    }
  }

  lemma {:induction false} AbsorbPassFresh(skill: string, current: Dict<string, string>, tried: set<string>,
                                           tops: seq<SkillScore>, store: map<string, SkillDef>)
    ensures AllFresh(AbsorbPass(skill, current, tried, tops, store), tried, current)
  {
    if tops != [] {
      var n := |tops| - 1;
      AbsorbPassFresh(skill, current, tried, tops[..n], store);
      if tops[n].skill in store {
        AbsorbFromDonorFresh(skill, current, tried, tops[n], store[tops[n].skill].modules);
      }
    }
  }

  lemma {:induction false} MutateVariantsFresh(acc: seq<Suggestion>, skill: string, tried: set<string>,
                                               current: Dict<string, string>, moduleType: string,
                                               currentVersion: string, variants: seq<string>)
    requires AllFresh(acc, tried, current) && Get(current, moduleType) == Some(currentVersion)
    ensures AllFresh(MutateVariants(acc, skill, tried, moduleType, currentVersion, variants), tried, current)
  {
    if variants != [] {
      MutateVariantsFresh(acc, skill, tried, current, moduleType, currentVersion, variants[..|variants| - 1]);
    }
  }

  lemma {:induction false} MutatePassFresh(acc: seq<Suggestion>, skill: string, tried: set<string>,
                                           registry: Registry, current: Dict<string, string>,
                                           entries: Dict<string, string>)
    requires AllFresh(acc, tried, current) && EntriesOf(entries, current)
    ensures AllFresh(MutatePass(acc, skill, tried, registry, entries), tried, current)
  {
    if entries != [] {
      var n := |entries| - 1;
      MutatePassFresh(acc, skill, tried, registry, current, entries[..n]);
      MutateVariantsFresh(MutatePass(acc, skill, tried, registry, entries[..n]), skill, tried, current,
                          entries[n].0, entries[n].1, ModuleVariants(registry, entries[n].0));
    }
  }

  /** No suggestion targets a recently tried pair or the version already in use. */
  lemma NeverRecentOrCurrent(skill: string, def: SkillDef, fitness: real, registry: Registry,
                             tops: seq<SkillScore>, store: map<string, SkillDef>)
    requires Distinct(def.modules)
    ensures forall s :: s in Suggestions(skill, def, fitness, registry, tops, store) ==>
      VariantKey(s.moduleType, s.toVersion) !in RecentlyTried(def.history)
      && Get(def.modules, s.moduleType) != Some(s.toVersion)
  {
    var tried := RecentlyTried(def.history);
    forall k | 0 <= k < |def.modules| ensures Get(def.modules, def.modules[k].0) == Some(def.modules[k].1) {
      GetEntry(def.modules, k);
    }
    AbsorbPassFresh(skill, def.modules, tried, tops, store);
    MutatePassFresh(AbsorbPass(skill, def.modules, tried, tops, store), skill, tried, registry, def.modules, def.modules);
  }

  lemma {:induction false} AbsorbPassKinds(skill: string, current: Dict<string, string>, tried: set<string>,
                                           tops: seq<SkillScore>, store: map<string, SkillDef>)
    ensures forall s :: s in AbsorbPass(skill, current, tried, tops, store) ==> s.kind == Absorb
  {
    if tops != [] {
      var n := |tops| - 1;
      AbsorbPassKinds(skill, current, tried, tops[..n], store);
      if tops[n].skill in store {
        AbsorbFromDonorKinds(skill, current, tried, tops[n], store[tops[n].skill].modules);
      }
    }
  }

  lemma {:induction false} AbsorbFromDonorKinds(skill: string, current: Dict<string, string>, tried: set<string>,
                                                donor: SkillScore, donorModules: Dict<string, string>)
    ensures forall s :: s in AbsorbFromDonor(skill, current, tried, donor, donorModules) ==> s.kind == Absorb
  {
    if donorModules != [] {
      AbsorbFromDonorKinds(skill, current, tried, donor, donorModules[..|donorModules| - 1]);
    }
  }

  /** `r` is `acc` followed by mutate suggestions only. */
  predicate ExtendsWithMutates(r: seq<Suggestion>, acc: seq<Suggestion>)
  {
    |acc| <= |r| && r[..|acc|] == acc && forall i :: |acc| <= i < |r| ==> r[i].kind == Mutate
  }

  lemma {:induction false} MutateVariantsExtends(acc: seq<Suggestion>, skill: string, tried: set<string>,
                                                 moduleType: string, currentVersion: string, variants: seq<string>)
    ensures ExtendsWithMutates(MutateVariants(acc, skill, tried, moduleType, currentVersion, variants), acc)
  {
    if variants != [] {
      MutateVariantsExtends(acc, skill, tried, moduleType, currentVersion, variants[..|variants| - 1]);
    }
  }

  lemma {:induction false} MutatePassExtends(acc: seq<Suggestion>, skill: string, tried: set<string>,
                                             registry: Registry, entries: Dict<string, string>)
    ensures ExtendsWithMutates(MutatePass(acc, skill, tried, registry, entries), acc)
  {
    if entries != [] {
      var n := |entries| - 1;
      var mid := MutatePass(acc, skill, tried, registry, entries[..n]);
      MutatePassExtends(acc, skill, tried, registry, entries[..n]);
      MutateVariantsExtends(mid, skill, tried, entries[n].0, entries[n].1, ModuleVariants(registry, entries[n].0));
      var r := MutatePass(acc, skill, tried, registry, entries);
      assert r[..|mid|][..|acc|] == r[..|acc|];
    }
  }

  /**
   * The list is the absorb pass followed by mutate suggestions only: every absorb
   * suggestion precedes every mutate suggestion.
   */
  lemma AbsorbBeforeMutate(skill: string, def: SkillDef, fitness: real, registry: Registry,
                           tops: seq<SkillScore>, store: map<string, SkillDef>)
    ensures var r := Suggestions(skill, def, fitness, registry, tops, store);
      forall i, j :: 0 <= i < j < |r| && r[i].kind == Mutate ==> r[j].kind == Mutate
    ensures var r := Suggestions(skill, def, fitness, registry, tops, store);
      var absorbs := AbsorbPass(skill, def.modules, RecentlyTried(def.history), tops, store);
      Classify(fitness).NeedsEvolution() ==>
        |absorbs| <= |r| && r[..|absorbs|] == absorbs && forall i :: |absorbs| <= i < |r| ==> r[i].kind == Mutate
  {
    var tried := RecentlyTried(def.history);
    var absorbs := AbsorbPass(skill, def.modules, tried, tops, store);
    AbsorbPassKinds(skill, def.modules, tried, tops, store);
    MutatePassExtends(absorbs, skill, tried, registry, def.modules);
    var r := Suggestions(skill, def, fitness, registry, tops, store);
    forall i | 0 <= i < |absorbs| && i < |r| && Classify(fitness).NeedsEvolution() ensures r[i].kind == Absorb {
      assert r[i] == r[..|absorbs|][i] == absorbs[i];
    }
  }

  /** No mutate suggestion repeats the pair of an earlier suggestion. */
  predicate NoRepeatedMutate(ss: seq<Suggestion>)
  {
    forall i, j :: 0 <= i < j < |ss| && ss[j].kind == Mutate ==>
      !(ss[i].moduleType == ss[j].moduleType && ss[i].toVersion == ss[j].toVersion)
  }

  lemma {:induction false} MutateVariantsNoRepeat(acc: seq<Suggestion>, skill: string, tried: set<string>,
                                                  moduleType: string, currentVersion: string, variants: seq<string>)
    requires NoRepeatedMutate(acc)
    ensures NoRepeatedMutate(MutateVariants(acc, skill, tried, moduleType, currentVersion, variants))
  {
    if variants != [] {
      var n := |variants| - 1;
      var prev := MutateVariants(acc, skill, tried, moduleType, currentVersion, variants[..n]);
      MutateVariantsNoRepeat(acc, skill, tried, moduleType, currentVersion, variants[..n]);
      var r := MutateVariants(acc, skill, tried, moduleType, currentVersion, variants);
      if r != prev {
        forall i | 0 <= i < |prev| ensures !(prev[i].moduleType == moduleType && prev[i].toVersion == variants[n]) {
          assert prev[i] in prev;
        }
      }
    }
  }

  lemma {:induction false} MutatePassNoRepeat(acc: seq<Suggestion>, skill: string, tried: set<string>,
                                              registry: Registry, entries: Dict<string, string>)
    requires NoRepeatedMutate(acc)
    ensures NoRepeatedMutate(MutatePass(acc, skill, tried, registry, entries))
  {
    if entries != [] {
      var n := |entries| - 1;
      MutatePassNoRepeat(acc, skill, tried, registry, entries[..n]);
      MutateVariantsNoRepeat(MutatePass(acc, skill, tried, registry, entries[..n]), skill, tried,
                             entries[n].0, entries[n].1, ModuleVariants(registry, entries[n].0));
    }
  }

  /** A mutate suggestion never repeats the (module type, version) pair of an earlier suggestion. */
  lemma MutateNeverRepeats(skill: string, def: SkillDef, fitness: real, registry: Registry,
                           tops: seq<SkillScore>, store: map<string, SkillDef>)
    ensures NoRepeatedMutate(Suggestions(skill, def, fitness, registry, tops, store))
  {
    var tried := RecentlyTried(def.history);
    var absorbs := AbsorbPass(skill, def.modules, tried, tops, store);
    AbsorbPassKinds(skill, def.modules, tried, tops, store);
    assert forall j :: 0 <= j < |absorbs| ==> absorbs[j] in absorbs;
    MutatePassNoRepeat(absorbs, skill, tried, registry, def.modules);
  }

  /** Every mutate suggestion moves a module type in use to another registered variant. */
  predicate MutatesWithin(ss: seq<Suggestion>, current: Dict<string, string>, registry: Registry)
  {
    forall s :: s in ss && s.kind == Mutate ==>
      Get(current, s.moduleType) == Some(s.fromVersion) && s.toVersion in ModuleVariants(registry, s.moduleType)
      && s.toVersion != s.fromVersion && s.reason == TryAlternative
  }

  lemma {:induction false} MutateVariantsWithin(acc: seq<Suggestion>, skill: string, tried: set<string>,
                                                current: Dict<string, string>, registry: Registry,
                                                moduleType: string, currentVersion: string, variants: seq<string>)
    requires MutatesWithin(acc, current, registry) && Get(current, moduleType) == Some(currentVersion)
    requires forall v :: v in variants ==> v in ModuleVariants(registry, moduleType)
    ensures MutatesWithin(MutateVariants(acc, skill, tried, moduleType, currentVersion, variants), current, registry)
  {
    if variants != [] {
      var n := |variants| - 1;
      assert forall v :: v in variants[..n] ==> v in variants;
      assert variants[n] in variants;
      MutateVariantsWithin(acc, skill, tried, current, registry, moduleType, currentVersion, variants[..n]);
    }
  }

  lemma {:induction false} MutatePassWithin(acc: seq<Suggestion>, skill: string, tried: set<string>,
                                            registry: Registry, current: Dict<string, string>,
                                            entries: Dict<string, string>)
    requires MutatesWithin(acc, current, registry) && EntriesOf(entries, current)
    ensures MutatesWithin(MutatePass(acc, skill, tried, registry, entries), current, registry)
  {
    if entries != [] {
      var n := |entries| - 1;
      MutatePassWithin(acc, skill, tried, registry, current, entries[..n]);
      MutateVariantsWithin(MutatePass(acc, skill, tried, registry, entries[..n]), skill, tried, current, registry,
                           entries[n].0, entries[n].1, ModuleVariants(registry, entries[n].0));
    }
  }

  /**
   * Mutate suggestions range only over module types the skill has, move from the
   * version in use, and go to another variant registered for that type.
   */
  lemma MutateRange(skill: string, def: SkillDef, fitness: real, registry: Registry,
                    tops: seq<SkillScore>, store: map<string, SkillDef>)
    requires Distinct(def.modules)
    ensures MutatesWithin(Suggestions(skill, def, fitness, registry, tops, store), def.modules, registry)
  {
    var tried := RecentlyTried(def.history);
    var absorbs := AbsorbPass(skill, def.modules, tried, tops, store);
    AbsorbPassKinds(skill, def.modules, tried, tops, store);
    forall k | 0 <= k < |def.modules| ensures Get(def.modules, def.modules[k].0) == Some(def.modules[k].1) {
      GetEntry(def.modules, k);
    }
    MutatePassWithin(absorbs, skill, tried, registry, def.modules, def.modules);
  }

  lemma {:induction false} MutateVariantsCovers(acc: seq<Suggestion>, skill: string, tried: set<string>,
                                                moduleType: string, currentVersion: string,
                                                variants: seq<string>, k: nat)
    requires k < |variants| && variants[k] != currentVersion && VariantKey(moduleType, variants[k]) !in tried
    ensures Suggested(MutateVariants(acc, skill, tried, moduleType, currentVersion, variants), moduleType, variants[k])
  {
    var n := |variants| - 1;
    var prev := MutateVariants(acc, skill, tried, moduleType, currentVersion, variants[..n]);
    var r := MutateVariants(acc, skill, tried, moduleType, currentVersion, variants);
    if k < n {
      MutateVariantsCovers(acc, skill, tried, moduleType, currentVersion, variants[..n], k);
      var s :| s in prev && s.moduleType == moduleType && s.toVersion == variants[k];
      assert r == prev || r == prev + [r[|r| - 1]];
      assert s in r;
    } else if !Suggested(prev, moduleType, variants[k]) {
      assert r[|r| - 1] in r;
    }
  }

  lemma {:induction false} SuggestedKept(acc: seq<Suggestion>, r: seq<Suggestion>, moduleType: string, version: string)
    requires ExtendsWithMutates(r, acc) && Suggested(acc, moduleType, version)
    ensures Suggested(r, moduleType, version)
  {
    var s :| s in acc && s.moduleType == moduleType && s.toVersion == version;
    var i :| 0 <= i < |acc| && acc[i] == s;
    assert r[i] == r[..|acc|][i];
  }

  lemma {:induction false} MutatePassCovers(acc: seq<Suggestion>, skill: string, tried: set<string>,
                                            registry: Registry, entries: Dict<string, string>, k: nat, v: string)
    requires k < |entries| && v in ModuleVariants(registry, entries[k].0)
    requires v != entries[k].1 && VariantKey(entries[k].0, v) !in tried
    ensures Suggested(MutatePass(acc, skill, tried, registry, entries), entries[k].0, v)
  {
    var n := |entries| - 1;
    var mid := MutatePass(acc, skill, tried, registry, entries[..n]);
    var variants := ModuleVariants(registry, entries[n].0);
    if k < n {
      assert entries[..n][k] == entries[k];
      MutatePassCovers(acc, skill, tried, registry, entries[..n], k, v);
      MutateVariantsExtends(mid, skill, tried, entries[n].0, entries[n].1, variants);
      SuggestedKept(mid, MutatePass(acc, skill, tried, registry, entries), entries[k].0, v);
    } else {
      var j :| 0 <= j < |variants| && variants[j] == v;
      MutateVariantsCovers(mid, skill, tried, entries[n].0, entries[n].1, variants, j);
    }
  }

  /**
   * The converse: for a skill that needs evolution, every registered variant of a
   * module type in use that is neither in use nor recently tried is offered, by an
   * absorb or a mutate suggestion.
   */
  lemma EveryUntriedVariantOffered(skill: string, def: SkillDef, fitness: real, registry: Registry,
                                   tops: seq<SkillScore>, store: map<string, SkillDef>, k: nat, v: string)
    requires Classify(fitness).NeedsEvolution()
    requires k < |def.modules| && v in ModuleVariants(registry, def.modules[k].0) && v != def.modules[k].1
    requires VariantKey(def.modules[k].0, v) !in RecentlyTried(def.history)
    ensures Suggested(Suggestions(skill, def, fitness, registry, tops, store), def.modules[k].0, v)
  {
    var tried := RecentlyTried(def.history);
    MutatePassCovers(AbsorbPass(skill, def.modules, tried, tops, store), skill, tried, registry, def.modules, k, v);
  }

  /** A donor's absorb suggestions are exactly its fresh module entries. */
  lemma {:induction false} AbsorbFromDonorMembers(skill: string, current: Dict<string, string>, tried: set<string>,
                                                  donor: SkillScore, donorModules: Dict<string, string>, s: Suggestion)
    ensures s in AbsorbFromDonor(skill, current, tried, donor, donorModules) <==>
      exists k :: 0 <= k < |donorModules| && Fresh(tried, current, donorModules[k].0, donorModules[k].1)
                  && s == AbsorbOf(skill, current, donor, donorModules[k])
  {
    if donorModules != [] {
      var n := |donorModules| - 1;
      AbsorbFromDonorMembers(skill, current, tried, donor, donorModules[..n], s);
      assert forall k :: 0 <= k < n ==> donorModules[..n][k] == donorModules[k];
    }
  }

  /** Within a donor, suggestions follow the donor's module order. */
  lemma {:induction false} AbsorbFromDonorAppend(skill: string, current: Dict<string, string>, tried: set<string>,
                                                 donor: SkillScore, first: Dict<string, string>, second: Dict<string, string>)
    ensures AbsorbFromDonor(skill, current, tried, donor, first + second)
         == AbsorbFromDonor(skill, current, tried, donor, first) + AbsorbFromDonor(skill, current, tried, donor, second)
  {
    if second == [] {
      assert first + second == first;
    } else {
      var n := |second| - 1;
      assert (first + second)[..|first + second| - 1] == first + second[..n];
      assert (first + second)[|first + second| - 1] == second[n];
      AbsorbFromDonorAppend(skill, current, tried, donor, first, second[..n]);
    }
  }

  /** Across donors, suggestions follow the order in which top performers are given. */
  lemma {:induction false} AbsorbPassAppend(skill: string, current: Dict<string, string>, tried: set<string>,
                                            first: seq<SkillScore>, second: seq<SkillScore>, store: map<string, SkillDef>)
    ensures AbsorbPass(skill, current, tried, first + second, store)
         == AbsorbPass(skill, current, tried, first, store) + AbsorbPass(skill, current, tried, second, store)
  {
    if second == [] {
      assert first + second == first;
    } else {
      var n := |second| - 1;
      assert (first + second)[..|first + second| - 1] == first + second[..n];
      assert (first + second)[|first + second| - 1] == second[n];
      AbsorbPassAppend(skill, current, tried, first, second[..n], store);
    }
  }

  /**
   * The worked scenario: `writer` (fitness 0.30, validation v2) with top performer
   * `reviewer` (validation v3) and registered validation variants v1, v2, v3 is first
   * offered to absorb v3, then to mutate to v1; v3 is not offered twice.
   */
  lemma WriterScenario()
    ensures var writer := SkillDef(None, None, [("validation", "v2")], [], None, None);
      var reviewer := SkillDef(None, None, [("validation", "v3")], [], None, None);
      var registry: Registry := [("validation", [("v1", Variant(None)), ("v2", Variant(None)), ("v3", Variant(None))])];
      Suggestions("writer", writer, 0.30, registry, [SkillScore("reviewer", 0.80, 12)], map["reviewer" := reviewer])
      == [Suggestion(Absorb, "writer", "validation", "v2", "v3", FromTopPerformer("reviewer", 0.80)),
          Suggestion(Mutate, "writer", "validation", "v2", "v1", TryAlternative)]
  {
    var writer := SkillDef(None, None, [("validation", "v2")], [], None, None);
    var reviewer := SkillDef(None, None, [("validation", "v3")], [], None, None);
    var registry: Registry := [("validation", [("v1", Variant(None)), ("v2", Variant(None)), ("v3", Variant(None))])];
    var top := SkillScore("reviewer", 0.80, 12);
    var store := map["reviewer" := reviewer];
    assert RecentlyTried(writer.history) == {};
    var absorb := Suggestion(Absorb, "writer", "validation", "v2", "v3", FromTopPerformer("reviewer", 0.80));
    var mutate := Suggestion(Mutate, "writer", "validation", "v2", "v1", TryAlternative);
    assert [top][..0] == [];
    assert reviewer.modules[..0] == [];
    assert AbsorbPass("writer", writer.modules, {}, [top], store) == [absorb];
    var variants := ModuleVariants(registry, "validation");
    assert variants == ["v1", "v2", "v3"];
    assert variants[..0] == [] && variants[..1] == ["v1"] && variants[..2] == ["v1", "v2"];
    assert !Suggested([absorb], "validation", "v1");
    assert MutateVariants([absorb], "writer", {}, "validation", "v2", ["v1"]) == [absorb, mutate];
    assert MutateVariants([absorb], "writer", {}, "validation", "v2", ["v1", "v2"]) == [absorb, mutate];
    assert absorb in [absorb, mutate];
    assert writer.modules[..0] == [];
  }
}
