/**
 * The mutation applier: set one module type to a new version, bump the last version
 * component, and append a history record describing the change.
 */
module Mutation {
  import opened Options
  import opened Dicts
  import opened Text
  import opened Skills
  import opened History
  import opened Suggest

  /**
   * `after` has as many components as `before`, the same components except the last,
   * and a last component that reads as one more than the last component of `before`.
   */
  predicate Bumped(before: string, after: string)
  {
    var b := Split(before, '.');
    var a := Split(after, '.');
    |a| == |b| && a[..|a| - 1] == b[..|b| - 1]
    && Canonical(a[|a| - 1]) && IsNumeral(b[|b| - 1])
    && ParseNat(a[|a| - 1]) == ParseNat(b[|b| - 1]) + 1
  }

  /** `parts[-1] = str(int(parts[-1]) + 1)` followed by `'.'.join(parts)`. */
  function BumpVersion(version: string): (r: string)
    requires IsNumeral(LastPiece(version))
    ensures Bumped(version, r)
  {
    var parts := Split(version, '.');
    var n := |parts| - 1;
    var bumped := parts[..n] + [NatToString(ParseNat(parts[n]) + 1)];
    assert forall p :: p in bumped ==> '.' !in p by {
      forall p | p in bumped ensures '.' !in p {
        if p !in parts[..n] {
          assert !IsDigit('.');
        }
      }
    }
    SplitJoin(bumped, '.');
    assert bumped[..n] == parts[..n];
    Join(bumped, '.')
  }

  /** A bumped version is determined by the version it was bumped from. */
  lemma BumpedDetermined(before: string, x: string, y: string)
    requires Bumped(before, x) && Bumped(before, y)
    ensures x == y
  {
    var px, py := Split(x, '.'), Split(y, '.');
    var n := |px| - 1;
    CanonicalUnique(px[n], py[n]);
    assert px == px[..n] + [px[n]] && py == py[..n] + [py[n]];
    SplitThenJoin(x, '.');
    SplitThenJoin(y, '.');
  }

  /** The definition after `apply_mutation(name, moduleType, newVersion)` with history timestamp `stamp`. */
  function Mutated(def: SkillDef, moduleType: string, newVersion: string, stamp: string): (r: SkillDef)
    requires IsNumeral(def.Patch())
    ensures Get(r.modules, moduleType) == Some(newVersion)
    ensures forall t :: t != moduleType ==> Get(r.modules, t) == Get(def.modules, t)
    ensures Keys(r.modules) == if moduleType in Keys(def.modules) then Keys(def.modules) else Keys(def.modules) + [moduleType]
    ensures r.version.Some? && Bumped(def.Version(), r.Version())
    ensures |r.history| == |def.history| + 1 && r.history[..|def.history|] == def.history
    ensures r.history[|def.history|]
         == HistoryRecord(stamp, Some(Descriptor(moduleType, GetOr(def.modules, moduleType, "unknown"), newVersion)))
    ensures r.description == def.description && r.corePrompt == def.corePrompt && r.lastCompiled == def.lastCompiled
    ensures def.WellFormed() ==> r.WellFormed()
  {
    var record := HistoryRecord(stamp, Some(Descriptor(moduleType, GetOr(def.modules, moduleType, "unknown"), newVersion)));
    PutGet(def.modules, moduleType, newVersion);
    PutKeys(def.modules, moduleType, newVersion);
    assert Distinct(def.modules) ==> Distinct(Put(def.modules, moduleType, newVersion)) by {
      if Distinct(def.modules) {
        PutDistinct(def.modules, moduleType, newVersion);
      }
    }
    var r := def.(modules := Put(def.modules, moduleType, newVersion),
                  version := Some(BumpVersion(def.Version())),
                  history := def.history + [record]);
    assert (def.history + [record])[..|def.history|] == def.history;
    r
  }

  /**
   * `apply_mutation`: a skill with no definition gives `false` and nothing changes;
   * otherwise its definition becomes `Mutated(...)` and nothing else changes.
   */
  method ApplyMutation(store: Store, name: string, moduleType: string, newVersion: string, stamp: string)
    returns (ok: bool)
    requires store.Valid()
    modifies store
    ensures ok <==> name in old(store.skills)
    ensures ok ==> store.skills == old(store.skills)[name := Mutated(old(store.skills)[name], moduleType, newVersion, stamp)]
    ensures !ok ==> store.skills == old(store.skills)
    ensures store.changelogs == old(store.changelogs) && store.commands == old(store.commands)
    ensures store.Valid()
  {
    if name !in store.skills {
      return false;
    }
    var def := store.skills[name];
    var oldVersion := GetOr(def.modules, moduleType, "unknown");
    var modules := Put(def.modules, moduleType, newVersion);

    var parts := Split(def.Version(), '.');
    var n := |parts| - 1;
    var bumped := parts[..n] + [NatToString(ParseNat(parts[n]) + 1)];
    var version := Join(bumped, '.');
    assert version == BumpVersion(def.Version());

    var history := def.history + [HistoryRecord(stamp, Some(Descriptor(moduleType, oldVersion, newVersion)))];
    store.skills := store.skills[name := def.(modules := modules, version := Some(version), history := history)];
    ok := true;
  }

  /** `1.2.3` becomes `1.2.4`. */
  lemma BumpExample()
    ensures BumpVersion("1.2.3") == "1.2.4"
  {
    ThreePieces("1", "2", "3");
    assert "1" + "." + "2" + "." + "3" == "1.2.3";
    assert Split("1.2.3", '.') == ["1", "2", "3"];
    assert LastPiece("1.2.3") == "3";
    assert ParseNat("3") == 3;
    assert NatToString(4) == "4";
    assert ["1", "2", "3"][..2] + ["4"] == ["1", "2", "4"];
    assert Join(["1", "2", "4"], '.') == "1.2.4";
  }

  /** A definition without a version is taken as `1.0.0` and becomes `1.0.1`. */
  lemma MissingVersionExample(def: SkillDef, moduleType: string, newVersion: string, stamp: string)
    requires def.version.None?
    ensures IsNumeral(def.Patch())
    ensures Mutated(def, moduleType, newVersion, stamp).version == Some("1.0.1")
  {
    ThreePieces("1", "0", "0");
    assert "1" + "." + "0" + "." + "0" == "1.0.0";
    assert ParseNat("0") == 0;
    assert NatToString(1) == "1";
    assert ["1", "0", "0"][..2] + ["1"] == ["1", "0", "1"];
    assert Join(["1", "0", "1"], '.') == "1.0.1";
    assert BumpVersion("1.0.0") == "1.0.1";
  }

  /** A dotted triple of dot-free pieces splits into those pieces. */
  lemma ThreePieces(x: string, y: string, z: string)
    requires '.' !in x && '.' !in y && '.' !in z
    ensures Split(x + "." + y + "." + z, '.') == [x, y, z]
  {
    assert x + "." + y + "." + z == x + ['.'] + (y + ['.'] + z);
    SplitAround(x, y + ['.'] + z, '.');
    SplitAround(y, z, '.');
    SplitNone(x, '.');
    SplitNone(y, '.');
    SplitNone(z, '.');
  }

  /** The descriptor for setting `validation` from v3 to v4. */
  lemma DescriptorExample()
    ensures Descriptor("validation", "v3", "v4") == "validation: v3 " + [Arrow] + " v4"
  {
  }

  /**
   * A mutation's own record reads back as its (module type, new version) key, so the
   * pair is in the recently-tried set right after the mutation.
   */
  lemma MutationIsRecorded(def: SkillDef, moduleType: string, newVersion: string, stamp: string)
    requires IsNumeral(def.Patch())
    requires Arrow !in moduleType && Arrow !in newVersion && ':' !in moduleType
    requires Arrow !in GetOr(def.modules, moduleType, "unknown") && ':' !in GetOr(def.modules, moduleType, "unknown")
    requires Trimmed(moduleType) && Trimmed(newVersion)
    ensures VariantKey(moduleType, newVersion) in RecentlyTried(Mutated(def, moduleType, newVersion, stamp).history)
  {
    var r := Mutated(def, moduleType, newVersion, stamp);
    DescriptorRoundTrip(moduleType, GetOr(def.modules, moduleType, "unknown"), newVersion);
    assert RecordKey(r.history[|def.history|]) == Some(VariantKey(moduleType, newVersion));
    RecentlyTriedMembers(r.history, VariantKey(moduleType, newVersion));
  }

  /**
   * No oscillation: after moving a module type to `b` and then on to `a`, the next
   * suggestions offer neither `a` (in use) nor `b` (recently tried) for that type.
   */
  lemma NoOscillation(skill: string, def: SkillDef, moduleType: string, a: string, b: string,
                      stamp1: string, stamp2: string, fitness: real, registry: Registry,
                      tops: seq<SkillScore>, store: map<string, SkillDef>)
    requires def.WellFormed()
    requires Arrow !in moduleType && Arrow !in b && ':' !in moduleType
    requires Arrow !in GetOr(def.modules, moduleType, "unknown") && ':' !in GetOr(def.modules, moduleType, "unknown")
    requires Trimmed(moduleType) && Trimmed(b)
    ensures var once := Mutated(def, moduleType, b, stamp1);
      var twice := Mutated(once, moduleType, a, stamp2);
      forall s :: s in Suggestions(skill, twice, fitness, registry, tops, store) && s.moduleType == moduleType ==>
        s.toVersion != a && s.toVersion != b
  {
    var once := Mutated(def, moduleType, b, stamp1);
    var twice := Mutated(once, moduleType, a, stamp2);
    var key := VariantKey(moduleType, b);
    DescriptorRoundTrip(moduleType, GetOr(def.modules, moduleType, "unknown"), b);
    var k := |def.history|;
    assert twice.history[k] == twice.history[..|once.history|][k] == once.history[k];
    assert RecordKey(twice.history[k]) == Some(key);
    RecentlyTriedMembers(twice.history, key);
    NeverRecentOrCurrent(skill, twice, fitness, registry, tops, store);
  }
}
