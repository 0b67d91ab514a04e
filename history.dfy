/**
 * The mutation descriptors written into `fitness_history` and the anti-oscillation
 * guard that reads the most recent of them back.
 */
module History {
  import opened Options
  import opened Text
  import opened Skills

  /** Only the last ten history records are consulted. */
  const WindowSize: nat := 10

  /** The key a (module type, version) pair is tracked under: `f"{module_type}:{version}"`. */
  function VariantKey(moduleType: string, version: string): string
  {
    moduleType + ":" + version
  }

  /** The descriptor a mutation is recorded with: `f"{module_type}: {old} → {new}"`. */
  function Descriptor(moduleType: string, oldVersion: string, newVersion: string): string
  {
    moduleType + ": " + oldVersion + " " + [Arrow] + " " + newVersion
  }

  /** `history[-10:]`. */
  function Recent(history: seq<HistoryRecord>): seq<HistoryRecord>
  {
    if |history| <= WindowSize then history else history[|history| - WindowSize..]
  }

  /**
   * The key a descriptor yields: exactly one arrow, exactly one colon before it;
   * module name and target version stripped. Anything else yields nothing.
   */
  function DescriptorKey(text: string): Option<string>
  {
    if Arrow !in text then None
    else
      var parts := Split(text, Arrow);
      if |parts| != 2 then None
      else
        var moduleParts := Split(parts[0], ':');
        if |moduleParts| != 2 then None
        else Some(VariantKey(Strip(moduleParts[0]), Strip(parts[1])))
  }

  /** `h.get('mutation', '')`, parsed. */
  function RecordKey(r: HistoryRecord): Option<string>
  {
    DescriptorKey(r.mutation.GetOr(""))
  }

  /** The keys a run of records yields, skipping the records that yield none. */
  function KeysOf(records: seq<HistoryRecord>): set<string>
  {
    if records == [] then {}
    else
      var n := |records| - 1;
      KeysOf(records[..n]) + match RecordKey(records[n]) case Some(k) => {k} case None => {}
  }

  /** The recently-tried set of a history. */
  function RecentlyTried(history: seq<HistoryRecord>): set<string>
  {
    KeysOf(Recent(history))
  }

  /** A key is collected exactly when some record yields it. */
  lemma {:induction false} KeysOfMembers(records: seq<HistoryRecord>, k: string)
    ensures k in KeysOf(records) <==> exists i :: 0 <= i < |records| && RecordKey(records[i]) == Some(k)
  {
    if records != [] {
      var n := |records| - 1;
      KeysOfMembers(records[..n], k);
      assert forall i :: 0 <= i < n ==> records[..n][i] == records[i];
    }
  }

  /** `get_recently_tried_variants`. */
  method RecentlyTriedVariants(history: seq<HistoryRecord>) returns (tried: set<string>)
    ensures tried == RecentlyTried(history)
  {
    var recent := Recent(history);
    tried := {};
    for i := 0 to |recent|
      invariant tried == KeysOf(recent[..i])
    {
      assert recent[..i + 1][..i] == recent[..i];
      var mutationText := recent[i].mutation.GetOr("");
      if Arrow in mutationText {
        var parts := Split(mutationText, Arrow);
        if |parts| == 2 {
          var toVersion := Strip(parts[1]);
          var moduleParts := Split(parts[0], ':');
          if |moduleParts| == 2 {
            var moduleName := Strip(moduleParts[0]);
            tried := tried + {VariantKey(moduleName, toVersion)};
          }
        }
      }
    }
    assert recent[..|recent|] == recent;
  }

  /**
   * Reading a descriptor back gives the key of the module type and the new version,
   * provided the names hold no arrow, the module type and old version no colon, and
   * the module type and new version no surrounding whitespace.
   */
  lemma DescriptorRoundTrip(moduleType: string, oldVersion: string, newVersion: string)
    requires Arrow !in moduleType && Arrow !in oldVersion && Arrow !in newVersion
    requires ':' !in moduleType && ':' !in oldVersion
    requires Trimmed(moduleType) && Trimmed(newVersion)
    ensures DescriptorKey(Descriptor(moduleType, oldVersion, newVersion)) == Some(VariantKey(moduleType, newVersion))
  {
    var left := moduleType + ": " + oldVersion + " ";
    var right := " " + newVersion;
    assert Descriptor(moduleType, oldVersion, newVersion) == left + [Arrow] + right;
    SplitTwo(left, right, Arrow);
    ModuleSideSplits(moduleType, oldVersion);
    StripPadded("", moduleType, "");
    assert "" + moduleType + "" == moduleType;
    StripPadded(" ", newVersion, "");
    assert " " + newVersion + "" == right;
  }

  /** The module side of a descriptor splits at its one colon. */
  lemma ModuleSideSplits(moduleType: string, oldVersion: string)
    requires ':' !in moduleType && ':' !in oldVersion
    ensures Split(moduleType + ": " + oldVersion + " ", ':') == [moduleType, " " + oldVersion + " "]
  {
    assert moduleType + ": " + oldVersion + " " == moduleType + [':'] + (" " + oldVersion + " ");
    SplitTwo(moduleType, " " + oldVersion + " ", ':');
  }

  /** Records older than the last ten never matter. */
  lemma OlderRecordsIgnored(older: seq<HistoryRecord>, history: seq<HistoryRecord>)
    requires |history| >= WindowSize
    ensures RecentlyTried(older + history) == RecentlyTried(history)
  {
    assert Recent(older + history) == Recent(history);
  }

  /**
   * A record among the last ten whose descriptor parses puts its key in the set;
   * a key is in the set only because such a record yields it.
   */
  lemma {:induction false} RecentlyTriedMembers(history: seq<HistoryRecord>, k: string)
    ensures k in RecentlyTried(history) <==>
      exists i :: 0 <= i < |history| && |history| - i <= WindowSize && RecordKey(history[i]) == Some(k)
  {
    var recent := Recent(history);
    var base := if |history| <= WindowSize then 0 else |history| - WindowSize;
    assert recent == history[base..];
    KeysOfMembers(recent, k);
    if k in RecentlyTried(history) {
      var j :| 0 <= j < |recent| && RecordKey(recent[j]) == Some(k);
      assert recent[j] == history[base + j];
    }
    if exists i :: 0 <= i < |history| && |history| - i <= WindowSize && RecordKey(history[i]) == Some(k) {
      var i :| 0 <= i < |history| && |history| - i <= WindowSize && RecordKey(history[i]) == Some(k);
      assert recent[i - base] == history[i];
    }
  }
}
