/**
 * The per-skill evolution changelog. Each write builds one entry and splices it in
 * at the first entry marker, so entries read newest first, right after the header.
 */
module Changelog {
  import opened Options
  import opened Text
  import opened Skills
  import opened Suggest

  /** Every entry starts with this; its first occurrence is where the next entry goes. */
  const Marker: string := "\n## "

  /** Every entry ends with this. */
  const Rule: string := "\n---\n"

  /** The header of a changelog that did not exist yet. */
  function Header(skill: string): string
  {
    "# /" + skill + " Evolution Changelog\n\n"
  }

  function KindText(kind: Kind): string
  {
    match kind
    case Absorb => "absorb"
    case Mutate => "mutate"
  }

  /** The suggestion's reason as `suggest_mutations` words it; `fmt` renders a fitness. */
  function ReasonText(fmt: real -> string, reason: Reason): string
  {
    match reason
    case FromTopPerformer(donor, donorFitness) => "Absorb from top performer /" + donor + " (fitness: " + fmt(donorFitness) + ")"
    case TryAlternative => "Try alternative variant (not recently tried)"
  }

  /** The line naming one mutation. */
  function MutationLine(m: Suggestion): string
  {
    "- `" + m.moduleType + "`: " + m.fromVersion + " " + [Arrow] + " " + m.toVersion + " (" + KindText(m.kind) + ")\n"
  }

  /** The line giving its reason. */
  function ReasonLine(fmt: real -> string, m: Suggestion): string
  {
    "  - Reason: " + ReasonText(fmt, m.reason) + "\n"
  }

  /** The two lines one mutation contributes to an entry. */
  function Bullet(fmt: real -> string, m: Suggestion): string
  {
    MutationLine(m) + ReasonLine(fmt, m)
  }

  /** The lines of each mutation, one element per mutation. */
  function BulletLines(fmt: real -> string, ms: seq<Suggestion>): (lines: seq<string>)
    ensures |lines| == |ms| && forall i :: 0 <= i < |ms| ==> lines[i] == Bullet(fmt, ms[i])
  {
    seq(|ms|, i requires 0 <= i < |ms| => Bullet(fmt, ms[i]))
  }

  /** The lines of all mutations, in the order given. */
  function Bullets(fmt: real -> string, ms: seq<Suggestion>): string
  {
    Concat(BulletLines(fmt, ms))
  }

  /** The fitness line: the old fitness, then the new one and the signed delta when known. */
  function FitnessLine(fmt: real -> string, oldFitness: real, newFitness: Option<real>): string
  {
    "**Fitness:** " + fmt(oldFitness)
    + (match newFitness
       case None => ""
       case Some(f) =>
         var delta := f - oldFitness;
         " " + [Arrow] + " " + fmt(f) + " (" + (if delta >= 0.0 then "+" else "") + fmt(delta) + ")")
    + "\n\n"
  }

  /** A changelog entry: it opens with the marker and closes with the rule. */
  function Entry(version: string, stamp: string, fmt: real -> string, oldFitness: real,
                 newFitness: Option<real>, ms: seq<Suggestion>): (e: string)
    ensures |e| >= |Marker| + |Rule|
    ensures e[..|Marker|] == Marker && e[|e| - |Rule|..] == Rule
  {
    Marker + "v" + version + " (" + stamp + ")\n\n" + FitnessLine(fmt, oldFitness, newFitness)
    + "**Mutations:**\n" + Bullets(fmt, ms) + Rule
  }

  predicate StartsWithMarker(e: string)
  {
    |e| >= |Marker| && e[..|Marker|] == Marker
  }

  /** `content.find("\n## ")`, or the end of the content when there is none. */
  function SplicePoint(content: string): (p: nat)
    ensures p <= |content|
    ensures p < |content| ==> OccursAt(content, Marker, p)
    ensures forall i :: 0 <= i < p ==> !OccursAt(content, Marker, i)
  {
    var i := Find(content, Marker);
    if i == -1 then |content| else i
  }

  /** The entry inserted at the splice point; taking it out again gives back the content. */
  function Splice(content: string, entry: string): (r: string)
    ensures var p := SplicePoint(content);
      |r| == |content| + |entry| && r[p..p + |entry|] == entry && r[..p] + r[p + |entry|..] == content
  {
    var p := SplicePoint(content);
    var r := content[..p] + entry + content[p..];
    assert r[..p] == content[..p] && r[p + |entry|..] == content[p..];
    r
  }

  /** After a splice the first marker is the new entry's own. */
  lemma SpliceFirst(content: string, entry: string)
    requires StartsWithMarker(entry)
    ensures SplicePoint(Splice(content, entry)) == SplicePoint(content)
  {
    var p := SplicePoint(content);
    var r := Splice(content, entry);
    assert r == content[..p] + entry + content[p..];
    assert r[p..p + |Marker|] == entry[..|Marker|] == Marker;
    assert OccursAt(r, Marker, p);
    assert forall k :: 1 <= k < |Marker| ==> Marker[k] != '\n';
    forall i | 0 <= i < p ensures !OccursAt(r, Marker, i) {
      if i + |Marker| <= p {
        assert forall j :: i <= j < i + |Marker| ==> r[j] == content[j];
        assert r[i..i + |Marker|] == content[i..i + |Marker|];
        assert !OccursAt(content, Marker, i);
      } else if i + |Marker| <= |r| {
        assert r[p] == entry[0] == '\n';
        assert r[i..i + |Marker|][p - i] == r[p];
        assert Marker[p - i] != '\n';
      }
    }
    var q := SplicePoint(r);
    assert !(q < p);
    assert !(p < q);
  }

  /** A second write lands before the first: newest first. */
  lemma NewestFirst(content: string, first: string, second: string)
    requires StartsWithMarker(first) && StartsWithMarker(second)
    ensures var p := SplicePoint(content);
      Splice(Splice(content, first), second) == content[..p] + second + first + content[p..]
  {
    var p := SplicePoint(content);
    var once := Splice(content, first);
    SpliceFirst(content, first);
    assert once == content[..p] + first + content[p..];
    assert once[..p] == content[..p];
    assert once[p..] == first + content[p..];
  }

  /** The header holds no marker when the skill name holds no newline. */
  lemma HeaderHasNoMarker(skill: string)
    requires '\n' !in skill
    ensures SplicePoint(Header(skill)) == |Header(skill)|
  {
    var h := Header(skill);
    var tail := " Evolution Changelog\n\n";
    assert h == "# /" + skill + tail;
    forall i | 0 <= i < |h| - 2 ensures h[i] != '\n' {
      if i < 3 {
        assert h[i] == "# /"[i];
      } else if i < 3 + |skill| {
        assert h[i] == skill[i - 3];
        assert skill[i - 3] in skill;
      } else {
        assert h[i] == tail[i - 3 - |skill|];
      }
    }
    forall i | 0 <= i ensures !OccursAt(h, Marker, i) {
      if i + |Marker| <= |h| {
        assert h[i..i + |Marker|][0] == h[i];
      }
    }
  }

  /**
   * Starting from the header, the entries follow it newest first: the second entry
   * written comes right after the header, then the first.
   */
  lemma HeaderThenNewestFirst(skill: string, first: string, second: string)
    requires '\n' !in skill
    requires StartsWithMarker(first) && StartsWithMarker(second)
    ensures Splice(Header(skill), first) == Header(skill) + first
    ensures Splice(Splice(Header(skill), first), second) == Header(skill) + second + first
  {
    var h := Header(skill);
    HeaderHasNoMarker(skill);
    NewestFirst(h, first, second);
    assert h[..|h|] == h && h[|h|..] == "";
    assert Splice(h, first) == h[..|h|] + first + h[|h|..];
  }

  /** Entries list the mutations in the order given. */
  lemma BulletsAppend(fmt: real -> string, ms: seq<Suggestion>, more: seq<Suggestion>)
    ensures Bullets(fmt, ms + more) == Bullets(fmt, ms) + Bullets(fmt, more)
  {
    assert BulletLines(fmt, ms + more) == BulletLines(fmt, ms) + BulletLines(fmt, more);
    ConcatAppend(BulletLines(fmt, ms), BulletLines(fmt, more));
  }

  /** The version the entry is headed with: the definition's, or `?.?.?`. */
  function EntryVersion(skills: map<string, SkillDef>, name: string): string
  {
    if name in skills then skills[name].version.GetOr("?.?.?") else "?.?.?"
  }

  /** The changelog a skill starts from: its own, or a fresh header. */
  function PriorLog(changelogs: map<string, string>, name: string): string
  {
    if name in changelogs then changelogs[name] else Header(name)
  }

  /** The changelog text `write_changelog` leaves for `name`. */
  function Logged(changelogs: map<string, string>, skills: map<string, SkillDef>, name: string,
                  ms: seq<Suggestion>, oldFitness: real, newFitness: Option<real>,
                  stamp: string, fmt: real -> string): string
  {
    Splice(PriorLog(changelogs, name), Entry(EntryVersion(skills, name), stamp, fmt, oldFitness, newFitness, ms))
  }

  /** One more mutation adds its two lines at the end. */
  lemma BulletsStep(fmt: real -> string, ms: seq<Suggestion>, i: nat)
    requires i < |ms|
    ensures Bullets(fmt, ms[..i + 1]) == Bullets(fmt, ms[..i]) + MutationLine(ms[i]) + ReasonLine(fmt, ms[i])
  {
    var lines := BulletLines(fmt, ms);
    assert BulletLines(fmt, ms[..i + 1]) == lines[..i + 1];
    assert BulletLines(fmt, ms[..i]) == lines[..i];
    ConcatStep(lines, i);
    Associative(Concat(lines[..i]), MutationLine(ms[i]), ReasonLine(fmt, ms[i]));
  }

  /** The loop of `write_changelog` that adds two lines per mutation. */
  method MutationBullets(fmt: real -> string, ms: seq<Suggestion>) returns (text: string)
    ensures text == Bullets(fmt, ms)
  {
    text := "";
    for i := 0 to |ms|
      invariant text == Bullets(fmt, ms[..i])
    {
      BulletsStep(fmt, ms, i);
      text := text + MutationLine(ms[i]);
      text := text + ReasonLine(fmt, ms[i]);
    }
    assert ms[..|ms|] == ms;
  }

  /** The entry text `write_changelog` assembles piece by piece. */
  method BuildEntry(version: string, stamp: string, fmt: real -> string, oldFitness: real,
                    newFitness: Option<real>, ms: seq<Suggestion>) returns (entry: string)
    ensures entry == Entry(version, stamp, fmt, oldFitness, newFitness, ms)
  {
    entry := Marker + "v" + version + " (" + stamp + ")\n\n";
    var fitnessText := "**Fitness:** " + fmt(oldFitness);
    if newFitness.Some? {
      var delta := newFitness.value - oldFitness;
      fitnessText := fitnessText + (" " + [Arrow] + " " + fmt(newFitness.value) + " (" + (if delta >= 0.0 then "+" else "") + fmt(delta) + ")");
    }
    assert fitnessText + "\n\n" == FitnessLine(fmt, oldFitness, newFitness);
    entry := entry + (fitnessText + "\n\n");
    entry := entry + "**Mutations:**\n";
    var bullets := MutationBullets(fmt, ms);
    entry := entry + bullets;
    entry := entry + Rule;
  }

  /** The insertion at the first marker, or at the end when there is none. */
  method SpliceEntry(content: string, entry: string) returns (r: string)
    ensures r == Splice(content, entry)
  {
    var headerEnd := Find(content, Marker);
    if headerEnd == -1 {
      assert content[..|content|] == content && content[|content|..] == [];
      r := content + entry;
    } else {
      r := content[..headerEnd] + entry + content[headerEnd..];
    }
  }

  /** The changelog text `write_changelog` composes from the files as they stand. */
  method ComposeLog(changelogs: map<string, string>, skills: map<string, SkillDef>, name: string,
                    ms: seq<Suggestion>, oldFitness: real, newFitness: Option<real>,
                    stamp: string, fmt: real -> string) returns (content: string)
    ensures content == Logged(changelogs, skills, name, ms, oldFitness, newFitness, stamp, fmt)
  {
    content := if name in changelogs then changelogs[name] else Header(name);
    var version := if name in skills then skills[name].version.GetOr("?.?.?") else "?.?.?";
    var entry := BuildEntry(version, stamp, fmt, oldFitness, newFitness, ms);
    content := SpliceEntry(content, entry);
  }

  /** `write_changelog`: only the skill's changelog changes. */
  method WriteChangelog(store: Store, name: string, ms: seq<Suggestion>, oldFitness: real,
                        newFitness: Option<real>, stamp: string, fmt: real -> string)
    modifies store
    ensures store.changelogs == old(store.changelogs)[name := Logged(old(store.changelogs), old(store.skills), name,
                                                                      ms, oldFitness, newFitness, stamp, fmt)]
    ensures store.skills == old(store.skills) && store.commands == old(store.commands)
  {
    var content := ComposeLog(store.changelogs, store.skills, name, ms, oldFitness, newFitness, stamp, fmt);
    store.changelogs := store.changelogs[name := content];
  }
}
