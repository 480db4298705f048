/**
 * The insight text of `_perform_ai_analysis`: theme counts over the modified
 * files, the large-scale note, component interactions, per-theme notes,
 * behavioural notes and its own update priority.
 *
 * Unlike the category classifier, the theme loop leaves a theme's pattern
 * list at the first pattern that matches, so a file adds at most one to a
 * theme.  The counts live in an insertion-ordered dictionary (a
 * `defaultdict`), so the per-theme notes come out in the order in which the
 * themes were first counted.
 */
module Insights {
  import opened Text

  type Path = string

  datatype Theme = SecurityTheme | PerformanceTheme | FeaturesTheme

  /** The themes in the order of `system_patterns`. */
  const ThemeOrder: seq<Theme> := [SecurityTheme, PerformanceTheme, FeaturesTheme]

  function ThemeName(th: Theme): string
  {
    match th
    case SecurityTheme => "security"
    case PerformanceTheme => "performance"
    case FeaturesTheme => "features"
  }

  /** The keywords `kw` of the theme's patterns `.*kw.*`, in table order. */
  function ThemeKeywords(th: Theme): seq<string>
  {
    match th
    case SecurityTheme => ["trustcache", "security", "crypto", "certificate", "auth", "protect", "seal"]
    case PerformanceTheme => ["kernel", "cache", "dyld", "perf", "daemon", "service"]
    case FeaturesTheme => ["framework", "api", "service", "capability", "function"]
  }

  function ThemeExplanation(th: Theme): string
  {
    match th
    case SecurityTheme =>
      "Security-related changes typically indicate improvements in system protection, "
        + "vulnerability patches, or updates to security mechanisms."
    case PerformanceTheme =>
      "Performance-related changes often involve optimizations to system components, "
        + "improved resource management, or enhanced processing efficiency."
    case FeaturesTheme =>
      "Feature-related changes typically introduce new capabilities, enhance existing "
        + "functionality, or modify system behaviors."
  }

  const LargeScaleThreshold: nat := 20

  const LargeScaleExplanation: string :=
    "The large number of changes suggests a significant system update that may "
    + "include multiple improvements across security, performance, and features."

  /** An entry of `component_interactions`; `components` is its name split at ` + `. */
  datatype Interaction = Interaction(name: string, components: seq<string>, impact: string, recommendation: string)

  const Interactions: seq<Interaction> := [
    Interaction("kernelcache + trustcache", ["kernelcache", "trustcache"],
      "Combined changes to kernel and trust components suggest significant system-level "
        + "security updates.",
      "This update is highly recommended for security reasons."),
    Interaction("iBoot + kernelcache", ["iBoot", "kernelcache"],
      "Changes to both boot process and kernel indicate fundamental system modifications.",
      "Consider this a major system update with significant improvements.")]

  /** `â€¢` as the source file spells the bullet. */
  const Bullet := "\U{E2}\U{20AC}\U{A2}"

  /** Some keyword occurs in `text`: the pattern loop reaches its `break`. */
  predicate AnyHit(text: string, kws: seq<string>)
    decreases |kws|
  {
    kws != [] && (AnyHit(text, kws[..|kws| - 1]) || Contains(text, kws[|kws| - 1]))
  }

  lemma {:induction false} AnyHitIff(text: string, kws: seq<string>)
    ensures AnyHit(text, kws) <==> exists i :: 0 <= i < |kws| && Contains(text, kws[i])
    decreases |kws|
  {
    if kws != [] {
      var init := kws[..|kws| - 1];
      AnyHitIff(text, init);
      if exists i :: 0 <= i < |kws| && Contains(text, kws[i]) {
        var i :| 0 <= i < |kws| && Contains(text, kws[i]);
        if i < |init| {
          assert init[i] == kws[i];
        }
      }
      if exists i :: 0 <= i < |init| && Contains(text, init[i]) {
        var i :| 0 <= i < |init| && Contains(text, init[i]);
        assert kws[i] == init[i];
      }
    }
  }

  /** The file matches some pattern of the theme. */
  predicate Touches(file: Path, th: Theme)
  {
    AnyHit(Lower(file), ThemeKeywords(th))
  }

  /** An insertion-ordered dictionary from theme to count. */
  type Counts = seq<(Theme, nat)>

  /** `counts[th]` on a `defaultdict(int)`: zero when absent. */
  function CountOf(c: Counts, th: Theme): nat
  {
    if c == [] then 0 else if c[0].0 == th then c[0].1 else CountOf(c[1..], th)
  }

  /** `counts[th] += 1`: an existing theme keeps its place, a new one goes last. */
  function Bump(c: Counts, th: Theme): (r: Counts)
    ensures CountOf(r, th) == CountOf(c, th) + 1
    ensures forall th' :: th' != th ==> CountOf(r, th') == CountOf(c, th')
    ensures KeysOf(r) == if th in KeysOf(c) then KeysOf(c) else KeysOf(c) + [th]
  {
    if c == [] then [(th, 1)]
    else if c[0].0 == th then [(th, c[0].1 + 1)] + c[1..]
    else [c[0]] + Bump(c[1..], th)
  }

  /** The theme loop for one file over `themes`: one per theme the file touches. */
  function FileCounts(c: Counts, file: Path, themes: seq<Theme>): Counts
    decreases |themes|
  {
    if themes == [] then c
    else
      var prev := FileCounts(c, file, themes[..|themes| - 1]);
      if Touches(file, themes[|themes| - 1]) then Bump(prev, themes[|themes| - 1]) else prev
  }

  /** `change_types` after the loop over `files`. */
  function ChangeTypes(files: seq<Path>): Counts
    decreases |files|
  {
    if files == [] then []
    else FileCounts(ChangeTypes(files[..|files| - 1]), files[|files| - 1], ThemeOrder)
  }

  /** The number of files that touch the theme. */
  function TouchCount(files: seq<Path>, th: Theme): (n: nat)
    ensures n <= |files|
    decreases |files|
  {
    if files == [] then 0
    else TouchCount(files[..|files| - 1], th) + if Touches(files[|files| - 1], th) then 1 else 0
  }

  /** Every theme is listed once, with a positive count. */
  ghost predicate WellCounted(c: Counts)
  {
    && (forall i, j :: 0 <= i < j < |c| ==> c[i].0 != c[j].0)
    && (forall i :: 0 <= i < |c| ==> c[i].1 > 0)
  }

  lemma {:induction false} BumpWellCounted(c: Counts, th: Theme)
    requires WellCounted(c)
    ensures WellCounted(Bump(c, th))
    decreases |c|
  {
    if c != [] && c[0].0 != th {
      var rest := c[1..];
      HeadNotInTail(c);
      BumpWellCounted(rest, th);
      ConsWellCounted(c[0], Bump(rest, th));
    }
  }

  /** A well-counted dictionary without its first entry is well counted and does not list that entry's theme. */
  lemma HeadNotInTail(c: Counts)
    requires WellCounted(c) && c != []
    ensures WellCounted(c[1..]) && c[0].0 !in KeysOf(c[1..])
  {
    forall j | 0 <= j < |c| - 1
      ensures KeysOf(c[1..])[j] != c[0].0
    {
      assert c[1..][j] == c[j + 1];
    }
  }

  /** An entry with a positive count and a theme not yet listed keeps the dictionary well counted. */
  lemma ConsWellCounted(entry: (Theme, nat), c: Counts)
    requires WellCounted(c) && entry.1 > 0 && entry.0 !in KeysOf(c)
    ensures WellCounted([entry] + c)
  {
    var r := [entry] + c;
    forall i, j | 0 <= i < j < |r|
      ensures r[i].0 != r[j].0
    {
      assert r[j] == c[j - 1] && KeysOf(c)[j - 1] == c[j - 1].0;
      if i > 0 {
        assert r[i] == c[i - 1];
      }
    }
  }

  /** In a well-counted dictionary, each entry holds the count of its theme, and a theme is listed iff its count is positive. */
  lemma {:induction false} WellCountedEntries(c: Counts)
    requires WellCounted(c)
    ensures forall i :: 0 <= i < |c| ==> CountOf(c, c[i].0) == c[i].1
    ensures forall th :: CountOf(c, th) > 0 <==> th in KeysOf(c)
    decreases |c|
  {
    if c != [] {
      assert WellCounted(c[1..]);
      WellCountedEntries(c[1..]);
      forall i | 1 <= i < |c|
        ensures CountOf(c, c[i].0) == c[i].1
      {
        assert c[1..][i - 1] == c[i];
      }
      forall th
        ensures CountOf(c, th) > 0 <==> th in KeysOf(c)
      {
        assert KeysOf(c) == [c[0].0] + KeysOf(c[1..]);
      }
    }
  }

  lemma {:induction false} FileCountsEffect(c: Counts, file: Path, themes: seq<Theme>)
    requires WellCounted(c)
    requires forall i, j :: 0 <= i < j < |themes| ==> themes[i] != themes[j]
    ensures WellCounted(FileCounts(c, file, themes))
    ensures forall th :: CountOf(FileCounts(c, file, themes), th)
                        == CountOf(c, th) + if th in themes && Touches(file, th) then 1 else 0
    ensures forall th :: th in KeysOf(c) ==> th in KeysOf(FileCounts(c, file, themes))
    decreases |themes|
  {
    if themes != [] {
      var init := themes[..|themes| - 1];
      FileCountsEffect(c, file, init);
      var prev := FileCounts(c, file, init);
      var th := themes[|themes| - 1];
      if Touches(file, th) {
        BumpWellCounted(prev, th);
      }
      assert forall t :: t in themes <==> t in init || t == th;
      assert th !in init;
    }
  }

  lemma ThemeOrderHasAll(th: Theme)
    ensures th in ThemeOrder
  {
    match th
    case SecurityTheme => assert ThemeOrder[0] == th;
    case PerformanceTheme => assert ThemeOrder[1] == th;
    case FeaturesTheme => assert ThemeOrder[2] == th;
  }

  /**
   * Each theme's count is the number of modified files that touch it: the
   * `break` makes a file count at most once per theme, so no count exceeds
   * the number of modified files.
   */
  lemma {:induction false} ChangeTypesCount(files: seq<Path>)
    ensures WellCounted(ChangeTypes(files))
    ensures forall th :: CountOf(ChangeTypes(files), th) == TouchCount(files, th) <= |files|
    decreases |files|
  {
    if files != [] {
      ChangeTypesCount(files[..|files| - 1]);
      FileCountsEffect(ChangeTypes(files[..|files| - 1]), files[|files| - 1], ThemeOrder);
      forall th
        ensures th in ThemeOrder
      {
        ThemeOrderHasAll(th);
      }
    }
  }

  /** `set` of the component keys that occur case-insensitively in `file`, over `keys`. */
  function FileComponents(file: Path, keys: seq<string>): set<string>
    decreases |keys|
  {
    if keys == [] then {}
    else
      FileComponents(file, keys[..|keys| - 1])
      + if Contains(Lower(file), Lower(keys[|keys| - 1])) then {keys[|keys| - 1]} else {}
  }

  /** `component_changes` after the loop over `files`. */
  function ComponentSet(files: seq<Path>, keys: seq<string>): set<string>
    decreases |files|
  {
    if files == [] then {} else ComponentSet(files[..|files| - 1], keys) + FileComponents(files[|files| - 1], keys)
  }

  lemma {:induction false} FileComponentsMembers(file: Path, keys: seq<string>)
    ensures forall k :: k in FileComponents(file, keys) <==> k in keys && Contains(Lower(file), Lower(k))
    decreases |keys|
  {
    if keys != [] {
      FileComponentsMembers(file, keys[..|keys| - 1]);
      assert forall k :: k in keys <==> k in keys[..|keys| - 1] || k == keys[|keys| - 1];
    }
  }

  /** A key is in the component set exactly when it occurs, ignoring case, in some modified file. */
  lemma {:induction false} ComponentSetMembers(files: seq<Path>, keys: seq<string>)
    ensures forall k :: k in ComponentSet(files, keys) <==>
      k in keys && exists f :: f in files && Contains(Lower(f), Lower(k))
    decreases |files|
  {
    if files != [] {
      var init := files[..|files| - 1];
      ComponentSetMembers(init, keys);
      FileComponentsMembers(files[|files| - 1], keys);
      assert forall f :: f in files <==> f in init || f == files[|files| - 1];
    }
  }

  /** All components of the interaction are in the set. */
  predicate Fires(x: Interaction, components: set<string>)
  {
    forall c :: c in x.components ==> c in components
  }

  /** The insight priority levels. */
  datatype Level = High | Medium | Low

  function LevelName(l: Level): string
  {
    match l
    case High => "High"
    case Medium => "Medium"
    case Low => "Low"
  }

  /** The insight priority: its own rule, on the security count and the number of modified files. */
  function InsightPriority(security: nat, total: nat): Level
  {
    if security > 2 then High else if total > 10 then Medium else Low
  }

  /** The kinds of line the insights are made of; `Render` gives their wording. */
  datatype Note =
    | Banner
    | LargeScaleNote
    | InteractionHeading
    | InteractionImpact(x: Interaction)
    | InteractionAdvice(x: Interaction)
    | ThemeHeading(th: Theme)
    | ThemeNote(th: Theme)
    | AffectedCount(th: Theme, n: nat)
    | BehaviorHeading
    | ReauthenticationNote
    | ResponsivenessNote
    | CapabilitiesNote
    | AdviceHeading
    | PriorityNote(level: Level)
    | BackupNote
    | MonitorNote

  function Render(n: Note): string
  {
    match n
    case Banner => "\n=== AI-Enhanced Analysis ===\n"
    case LargeScaleNote => LargeScaleExplanation
    case InteractionHeading => "\nSignificant Interaction Detected:"
    case InteractionImpact(x) => "- Impact: " + x.impact
    case InteractionAdvice(x) => "- Recommendation: " + x.recommendation
    case ThemeHeading(th) => "\n" + Title(ThemeName(th)) + " Analysis:"
    case ThemeNote(th) => ThemeExplanation(th)
    case AffectedCount(_, k) => "Number of affected components: " + NatToString(k)
    case BehaviorHeading => "\nBehavioral Impact Analysis:"
    case ReauthenticationNote => Bullet + " This update includes security improvements that may require re-authentication."
    case ResponsivenessNote => Bullet + " Users may notice changes in system responsiveness and app launch times."
    case CapabilitiesNote => Bullet + " New system capabilities may become available after this update."
    case AdviceHeading => "\nIntelligent Recommendations:"
    case PriorityNote(l) => Bullet + " Update Priority: " + LevelName(l)
    case BackupNote => Bullet + " Backup your device before updating due to security changes"
    case MonitorNote => Bullet + " Monitor device performance after update for any significant changes"
  }

  /** The lines of the notes, in order. */
  function RenderAll(notes: seq<Note>): (lines: seq<string>)
    ensures |lines| == |notes|
    ensures forall i :: 0 <= i < |notes| ==> lines[i] == Render(notes[i])
  {
    seq(|notes|, i requires 0 <= i < |notes| => Render(notes[i]))
  }

  /** The three notes an interaction adds. */
  function InteractionBlock(x: Interaction): seq<Note>
  {
    [InteractionHeading, InteractionImpact(x), InteractionAdvice(x)]
  }

  /** The interaction notes, over `xs` in table order. */
  function InteractionNotes(components: set<string>, xs: seq<Interaction>): seq<Note>
    decreases |xs|
  {
    if xs == [] then []
    else
      var x := xs[|xs| - 1];
      InteractionNotes(components, xs[..|xs| - 1]) + if Fires(x, components) then InteractionBlock(x) else []
  }

  function ThemeBlock(th: Theme, n: nat): seq<Note>
  {
    [ThemeHeading(th), ThemeNote(th), AffectedCount(th, n)]
  }

  /** The per-theme notes, in the dictionary's order. */
  function ThemeNotes(c: Counts): seq<Note>
    decreases |c|
  {
    if c == [] then []
    else
      var (th, n) := c[|c| - 1];
      ThemeNotes(c[..|c| - 1]) + if n > 0 then ThemeBlock(th, n) else []
  }

  /** The behavioural notes, from the security, performance and features counts. */
  function BehaviorNotes(security: nat, performance: nat, features: nat): seq<Note>
  {
    [BehaviorHeading]
      + (if security > 0 then [ReauthenticationNote] else [])
      + (if performance > 0 then [ResponsivenessNote] else [])
      + (if features > 0 then [CapabilitiesNote] else [])
  }

  /** The recommendations, from the security and performance counts and the number of modified files. */
  function AdviceNotes(security: nat, performance: nat, total: nat): seq<Note>
  {
    [AdviceHeading, PriorityNote(InsightPriority(security, total))]
      + (if security > 0 then [BackupNote] else [])
      + (if performance > 0 then [MonitorNote] else [])
  }

  /** The insight notes for the modified files, given the component keys of the knowledge base. */
  function InsightNotes(files: seq<Path>, keys: seq<string>): seq<Note>
  {
    var c := ChangeTypes(files);
    [Banner]
      + (if |files| > LargeScaleThreshold then [LargeScaleNote] else [])
      + InteractionNotes(ComponentSet(files, keys), Interactions)
      + ThemeNotes(c)
      + BehaviorNotes(CountOf(c, SecurityTheme), CountOf(c, PerformanceTheme), CountOf(c, FeaturesTheme))
      + AdviceNotes(CountOf(c, SecurityTheme), CountOf(c, PerformanceTheme), |files|)
  }

  /** The insight text `_perform_ai_analysis` returns. */
  function InsightText(files: seq<Path>, keys: seq<string>): string
  {
    Join(RenderAll(InsightNotes(files, keys)), "\n")
  }

  /** How the insight notes are put together. */
  lemma InsightNotesParts(files: seq<Path>, keys: seq<string>)
    ensures
      var c := ChangeTypes(files);
      InsightNotes(files, keys)
      == [Banner] + (if |files| > LargeScaleThreshold then [LargeScaleNote] else [])
         + InteractionNotes(ComponentSet(files, keys), Interactions)
         + ThemeNotes(c)
         + BehaviorNotes(CountOf(c, SecurityTheme), CountOf(c, PerformanceTheme), CountOf(c, FeaturesTheme))
         + AdviceNotes(CountOf(c, SecurityTheme), CountOf(c, PerformanceTheme), |files|)
  {
  }

  lemma {:induction false} InteractionNotesKinds(components: set<string>, xs: seq<Interaction>)
    ensures forall n :: n in InteractionNotes(components, xs) ==>
      n.InteractionHeading? || n.InteractionImpact? || n.InteractionAdvice?
    decreases |xs|
  {
    if xs != [] {
      InteractionNotesKinds(components, xs[..|xs| - 1]);
    }
  }

  lemma {:induction false} ThemeNotesKinds(c: Counts)
    ensures forall n :: n in ThemeNotes(c) ==> n.ThemeHeading? || n.ThemeNote? || n.AffectedCount?
    decreases |c|
  {
    if c != [] {
      ThemeNotesKinds(c[..|c| - 1]);
    }
  }

  /** A note is among the insights exactly when it is in one of their parts. */
  lemma InsightNotesMember(files: seq<Path>, keys: seq<string>, n: Note)
    ensures
      var c := ChangeTypes(files);
      n in InsightNotes(files, keys) <==>
        || n == Banner || (n == LargeScaleNote && |files| > LargeScaleThreshold)
        || n in InteractionNotes(ComponentSet(files, keys), Interactions)
        || n in ThemeNotes(c)
        || n in BehaviorNotes(CountOf(c, SecurityTheme), CountOf(c, PerformanceTheme), CountOf(c, FeaturesTheme))
        || n in AdviceNotes(CountOf(c, SecurityTheme), CountOf(c, PerformanceTheme), |files|)
  {
    InsightNotesParts(files, keys);
  }

  /** The behavioural and recommendation notes are of their own kinds. */
  lemma SectionKinds(security: nat, performance: nat, features: nat, total: nat, n: Note)
    ensures n in BehaviorNotes(security, performance, features) ==>
      n.BehaviorHeading? || n.ReauthenticationNote? || n.ResponsivenessNote? || n.CapabilitiesNote?
    ensures n in AdviceNotes(security, performance, total) ==>
      n.AdviceHeading? || n.PriorityNote? || n.BackupNote? || n.MonitorNote?
  {
  }

  /** The large-scale note is among the insights exactly when more than twenty files changed. */
  lemma LargeScaleIff(files: seq<Path>, keys: seq<string>)
    ensures LargeScaleNote in InsightNotes(files, keys) <==> |files| > LargeScaleThreshold
  {
    var c := ChangeTypes(files);
    InsightNotesMember(files, keys, LargeScaleNote);
    InteractionNotesKinds(ComponentSet(files, keys), Interactions);
    ThemeNotesKinds(c);
    SectionKinds(CountOf(c, SecurityTheme), CountOf(c, PerformanceTheme), CountOf(c, FeaturesTheme), |files|, LargeScaleNote);
  }

  lemma InteractionNotesTwo(components: set<string>, xs: seq<Interaction>)
    requires |xs| == 2
    ensures InteractionNotes(components, xs)
         == (if Fires(xs[0], components) then InteractionBlock(xs[0]) else [])
          + (if Fires(xs[1], components) then InteractionBlock(xs[1]) else [])
  {
    assert xs[..1] == [xs[0]];
    assert xs[..1][..0] == [];
    assert InteractionNotes(components, [xs[0]])
        == InteractionNotes(components, []) + if Fires(xs[0], components) then InteractionBlock(xs[0]) else [];
  }

  /**
   * An interaction is reported exactly when each of its components occurs,
   * ignoring case, in some modified file (its components being keys of the
   * knowledge base).
   */
  lemma InteractionIff(files: seq<Path>, keys: seq<string>, i: nat)
    requires i < |Interactions|
    requires forall c :: c in Interactions[i].components ==> c in keys
    ensures InteractionImpact(Interactions[i]) in InsightNotes(files, keys) <==>
      forall c :: c in Interactions[i].components ==> exists f :: f in files && Contains(Lower(f), Lower(c))
  {
    var x := Interactions[i];
    var c := ChangeTypes(files);
    InsightNotesMember(files, keys, InteractionImpact(x));
    ThemeNotesKinds(c);
    SectionKinds(CountOf(c, SecurityTheme), CountOf(c, PerformanceTheme), CountOf(c, FeaturesTheme), |files|, InteractionImpact(x));
    ImpactNoteIff(ComponentSet(files, keys), i);
    FiresIff(files, keys, x);
  }

  /** An interaction whose components are keys fires exactly when each of them occurs in some modified file. */
  lemma FiresIff(files: seq<Path>, keys: seq<string>, x: Interaction)
    requires forall c :: c in x.components ==> c in keys
    ensures Fires(x, ComponentSet(files, keys)) <==>
      forall c :: c in x.components ==> exists f :: f in files && Contains(Lower(f), Lower(c))
  {
    ComponentSetMembers(files, keys);
  }

  /** Among the interaction notes, an interaction's impact appears exactly when the interaction fires. */
  lemma ImpactNoteIff(comps: set<string>, i: nat)
    requires i < |Interactions|
    ensures InteractionImpact(Interactions[i]) in InteractionNotes(comps, Interactions) <==> Fires(Interactions[i], comps)
  {
    InteractionNotesTwo(comps, Interactions);
    assert Interactions[0].name[0] != Interactions[1].name[0];
  }

  lemma {:induction false} ThemeNotesMember(c: Counts, i: nat)
    requires i < |c| && c[i].1 > 0
    ensures forall n :: n in ThemeBlock(c[i].0, c[i].1) ==> n in ThemeNotes(c)
    decreases |c|
  {
    if i < |c| - 1 {
      ThemeNotesMember(c[..|c| - 1], i);
    }
  }

  /** The entry of a touched theme holds the number of files that touch it. */
  lemma ThemeEntry(files: seq<Path>, th: Theme) returns (i: nat)
    requires TouchCount(files, th) > 0
    ensures i < |ChangeTypes(files)| && ChangeTypes(files)[i] == (th, TouchCount(files, th))
  {
    var c := ChangeTypes(files);
    ChangeTypesCount(files);
    WellCountedEntries(c);
    assert th in KeysOf(c);
    i :| 0 <= i < |c| && KeysOf(c)[i] == th;
    assert c[i].1 == TouchCount(files, th);
  }

  /** Every theme some modified file touches gets its heading, its explanation and the number of files that touch it. */
  lemma ThemeNotesStated(files: seq<Path>, keys: seq<string>, th: Theme)
    requires TouchCount(files, th) > 0
    ensures ThemeHeading(th) in InsightNotes(files, keys)
    ensures ThemeNote(th) in InsightNotes(files, keys)
    ensures AffectedCount(th, TouchCount(files, th)) in InsightNotes(files, keys)
  {
    var i := ThemeEntry(files, th);
    ThemeNotesMember(ChangeTypes(files), i);
    ThemeNoteInInsights(files, keys, ThemeHeading(th));
    ThemeNoteInInsights(files, keys, ThemeNote(th));
    ThemeNoteInInsights(files, keys, AffectedCount(th, TouchCount(files, th)));
  }

  lemma ThemeNoteInInsights(files: seq<Path>, keys: seq<string>, n: Note)
    requires n in ThemeNotes(ChangeTypes(files))
    ensures n in InsightNotes(files, keys)
  {
    InsightNotesMember(files, keys, n);
  }

  /**
   * The insight priority: High exactly when more than two modified files touch
   * the security theme, Medium when otherwise more than ten files changed,
   * Low otherwise; the insights state it.
   */
  lemma InsightPriorityStated(files: seq<Path>, keys: seq<string>)
    ensures var p := InsightPriority(CountOf(ChangeTypes(files), SecurityTheme), |files|);
      && (p == High <==> TouchCount(files, SecurityTheme) > 2)
      && (p == Medium <==> TouchCount(files, SecurityTheme) <= 2 && |files| > 10)
      && (p == Low <==> TouchCount(files, SecurityTheme) <= 2 && |files| <= 10)
      && PriorityNote(p) in InsightNotes(files, keys)
  {
    SecurityCount(files);
    PriorityLevels(CountOf(ChangeTypes(files), SecurityTheme), |files|);
    PriorityNoteListed(files, keys);
  }

  lemma PriorityLevels(security: nat, total: nat)
    ensures InsightPriority(security, total) == High <==> security > 2
    ensures InsightPriority(security, total) == Medium <==> security <= 2 && total > 10
    ensures InsightPriority(security, total) == Low <==> security <= 2 && total <= 10
  {
  }

  /** The security count is the number of modified files that touch the security theme. */
  lemma SecurityCount(files: seq<Path>)
    ensures CountOf(ChangeTypes(files), SecurityTheme) == TouchCount(files, SecurityTheme)
  {
    ChangeTypesCount(files);
  }

  lemma PriorityNoteListed(files: seq<Path>, keys: seq<string>)
    ensures PriorityNote(InsightPriority(CountOf(ChangeTypes(files), SecurityTheme), |files|)) in InsightNotes(files, keys)
  {
    var c := ChangeTypes(files);
    var p := InsightPriority(CountOf(c, SecurityTheme), |files|);
    InsightNotesMember(files, keys, PriorityNote(p));
    assert PriorityNote(p) in AdviceNotes(CountOf(c, SecurityTheme), CountOf(c, PerformanceTheme), |files|);
  }

  lemma SecurityNotesOfCounts(sec: nat, perf: nat, feat: nat, total: nat)
    ensures ReauthenticationNote in BehaviorNotes(sec, perf, feat) <==> sec > 0
    ensures ReauthenticationNote !in AdviceNotes(sec, perf, total)
    ensures BackupNote !in BehaviorNotes(sec, perf, feat)
    ensures BackupNote in AdviceNotes(sec, perf, total) <==> sec > 0
  {
  }

  lemma SecurityNotesCount(files: seq<Path>, keys: seq<string>)
    ensures ReauthenticationNote in InsightNotes(files, keys) <==> CountOf(ChangeTypes(files), SecurityTheme) > 0
    ensures BackupNote in InsightNotes(files, keys) <==> CountOf(ChangeTypes(files), SecurityTheme) > 0
  {
    var c := ChangeTypes(files);
    InsightNotesMember(files, keys, ReauthenticationNote);
    InsightNotesMember(files, keys, BackupNote);
    InteractionNotesKinds(ComponentSet(files, keys), Interactions);
    ThemeNotesKinds(c);
    SecurityNotesOfCounts(CountOf(c, SecurityTheme), CountOf(c, PerformanceTheme), CountOf(c, FeaturesTheme), |files|);
  }

  /** The re-authentication and backup notes appear exactly when some modified file touches the security theme. */
  lemma SecurityNotesIff(files: seq<Path>, keys: seq<string>)
    ensures ReauthenticationNote in InsightNotes(files, keys) <==> exists f :: f in files && Touches(f, SecurityTheme)
    ensures BackupNote in InsightNotes(files, keys) <==> exists f :: f in files && Touches(f, SecurityTheme)
  {
    SecurityNotesCount(files, keys);
    ChangeTypesCount(files);
    TouchCountPositive(files, SecurityTheme);
  }

  lemma {:induction false} TouchCountPositive(files: seq<Path>, th: Theme)
    ensures TouchCount(files, th) > 0 <==> exists f :: f in files && Touches(f, th)
    decreases |files|
  {
    if files != [] {
      var init := files[..|files| - 1];
      TouchCountPositive(init, th);
      assert forall f :: f in files <==> f in init || f == files[|files| - 1];
    }
  }

  lemma {:induction false} TouchCountAppend(files: seq<Path>, more: seq<Path>, th: Theme)
    ensures TouchCount(files + more, th) == TouchCount(files, th) + TouchCount(more, th)
    decreases |more|
  {
    if more == [] {
      assert files + more == files;
    } else {
      TouchCountAppend(files, more[..|more| - 1], th);
      assert (files + more)[..|files + more| - 1] == files + more[..|more| - 1];
    }
  }

  function LevelRank(l: Level): nat
  {
    match l
    case High => 2
    case Medium => 1
    case Low => 0
  }

  /** Modifying more files never lowers the insight priority. */
  lemma InsightPriorityMonotone(files: seq<Path>, more: seq<Path>)
    ensures LevelRank(InsightPriority(CountOf(ChangeTypes(files), SecurityTheme), |files|))
         <= LevelRank(InsightPriority(CountOf(ChangeTypes(files + more), SecurityTheme), |files + more|))
  {
    ChangeTypesCount(files);
    ChangeTypesCount(files + more);
    TouchCountAppend(files, more, SecurityTheme);
  }
}
