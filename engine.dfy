/**
 * The comparer object of `IPSWComparerGUI`, reduced to the state its
 * analysis touches: the component knowledge base, which `_analyze_component`
 * updates in place through the impact dictionary it hands out.
 *
 * Each method follows the loops of its source method and is proved equal to
 * the specification function of the module that states its properties:
 * `Resolve` (ComponentKnowledge), `DetailedAnalysis` (Classifier) and
 * `InsightText` (Insights).
 */
module Engine {
  import opened Text
  import opened ComponentKnowledge
  import TreeDiff
  import C = Classifier
  import I = Insights

  type Path = string

  /**
   * What `_run_comparison` makes of a change set: the detailed analysis with
   * the insight text appended to its impact section, and the knowledge base
   * afterwards.
   */
  function Analysis(now: string, firstArchive: Path, secondArchive: Path, cs: TreeDiff.ChangeSet, t: Table): (C.Report, Table)
  {
    var d := C.DetailedAnalysis(now, firstArchive, secondArchive, cs, t);
    (d.0.(impact := d.0.impact + "\n\n" + I.InsightText(cs.modified, KeysOf(d.1))), d.1)
  }

  /**
   * A full comparison of two extracted trees, as written: the trees are
   * compared by `_compare_directories` as written (`TreeDiff.DiffAsWritten`),
   * and when that raises the handler reports the error and nothing is
   * analysed.
   */
  function Comparison(now: string, firstArchive: Path, secondArchive: Path, t1: TreeDiff.Tree, t2: TreeDiff.Tree,
                      hash: TreeDiff.Bytes -> TreeDiff.Digest, t: Table): TreeDiff.Result<(C.Report, Table)>
    requires TreeDiff.WellFormed(t1)
  {
    match TreeDiff.DiffAsWritten(t1, t2, hash)
    case Err(e) => TreeDiff.Err(e)
    case Ok(cs) => TreeDiff.Ok(Analysis(now, firstArchive, secondArchive, cs, t))
  }

  /** A full comparison with the corrected existence test (`TreeDiff.Diff`), which cannot fail. */
  function CorrectedComparison(now: string, firstArchive: Path, secondArchive: Path, t1: TreeDiff.Tree, t2: TreeDiff.Tree,
                               hash: TreeDiff.Bytes -> TreeDiff.Digest, t: Table): (C.Report, Table)
    requires TreeDiff.WellFormed(t1)
  {
    Analysis(now, firstArchive, secondArchive, TreeDiff.Diff(t1, t2, hash), t)
  }

  /** The run as written fails exactly when the comparison as written raises, with its error. */
  lemma ComparisonFails(now: string, firstArchive: Path, secondArchive: Path, t1: TreeDiff.Tree, t2: TreeDiff.Tree,
                        hash: TreeDiff.Bytes -> TreeDiff.Digest, t: Table)
    requires TreeDiff.WellFormed(t1)
    ensures var run := Comparison(now, firstArchive, secondArchive, t1, t2, hash, t);
      var cs := TreeDiff.DiffAsWritten(t1, t2, hash);
      && (run.Err? <==> cs.Err?)
      && (run.Err? ==> run.error == cs.error)
  {
  }

  /** A file of the first tree that is a directory of the second makes the run as written fail. */
  lemma ComparisonAborts(now: string, firstArchive: Path, secondArchive: Path, t1: TreeDiff.Tree, t2: TreeDiff.Tree,
                         hash: TreeDiff.Bytes -> TreeDiff.Digest, t: Table, p: Path)
    requires TreeDiff.WellFormed(t1) && TreeDiff.WellFormed(t2)
    requires p in t1.files && p in t2.dirs
    ensures Comparison(now, firstArchive, secondArchive, t1, t2, hash, t).Err?
  {
    TreeDiff.DiffAsWrittenAborts(t1, t2, hash, p);
  }

  /** When no file meets a directory, the run as written yields the corrected run. */
  lemma ComparisonAgrees(now: string, firstArchive: Path, secondArchive: Path, t1: TreeDiff.Tree, t2: TreeDiff.Tree,
                         hash: TreeDiff.Bytes -> TreeDiff.Digest, t: Table)
    requires TreeDiff.WellFormed(t1) && TreeDiff.WellFormed(t2) && TreeDiff.NoClash(t1, t2)
    ensures Comparison(now, firstArchive, secondArchive, t1, t2, hash, t)
      == TreeDiff.Ok(CorrectedComparison(now, firstArchive, secondArchive, t1, t2, hash, t))
  {
    TreeDiff.NoClashAgree(t1, t2, hash);
  }

  /** A knowledge base built from the initial one lists the component keywords, in order. */
  lemma ShapeKeys(t: Table)
    requires SameShape(InitialTable, t)
    ensures KeysOf(t) == ComponentKeys
  {
    assert KeysOf(InitialTable) == ComponentKeys;
  }

  /**
   * The run's report: the summary and technical sections are those of the
   * detailed analysis of the change set, the impact section is its impact
   * text, a blank line and the insights; the insights see the component
   * keywords whatever the analysis wrote into the knowledge base, which keeps
   * its shape.
   */
  lemma AnalysisStates(now: string, firstArchive: Path, secondArchive: Path, cs: TreeDiff.ChangeSet, t: Table)
    requires SameShape(InitialTable, t)
    ensures var d := C.DetailedAnalysis(now, firstArchive, secondArchive, cs, t).0;
      var run := Analysis(now, firstArchive, secondArchive, cs, t);
      && run.0.summary == d.summary && run.0.technical == d.technical
      && run.0.impact == d.impact + "\n\n" + I.InsightText(cs.modified, ComponentKeys)
      && SameShape(InitialTable, run.1)
  {
    var t' := C.DetailedAnalysis(now, firstArchive, secondArchive, cs, t).1;
    C.DetailedAnalysisKeepsShape(now, firstArchive, secondArchive, cs, t);
    ShapeTrans(InitialTable, t, t');
    ShapeKeys(t');
  }

  /**
   * The two priorities of one run can disagree: a small update that touches
   * a critical component is `HIGH` in the summary but `Low` in the insights,
   * whose rule looks only at security-theme files and the number of files.
   */
  lemma PrioritiesDisagree(now: string, firstArchive: Path, secondArchive: Path, cs: TreeDiff.ChangeSet, t: Table, keys: seq<string>)
    requires |cs.modified| <= 2
    requires exists f :: f in cs.modified && C.Hits(f, C.Critical) > 0
    ensures Contains(C.DetailedAnalysis(now, firstArchive, secondArchive, cs, t).0.summary, "Update Priority: HIGH")
    ensures I.PriorityNote(I.Low) in I.InsightNotes(cs.modified, keys)
  {
    HighLine();
    var p := C.SummaryPriority(C.TallyOf(cs.modified).stats);
    assert p == "HIGH" by {
      C.PriorityOfFiles(cs.modified);
    }
    var summary := C.DetailedAnalysis(now, firstArchive, secondArchive, cs, t).0.summary;
    assert Contains(summary, "Update Priority: " + p) by {
      C.DetailedAnalysisPriority(now, firstArchive, secondArchive, cs, t);
    }
    FewFilesLow(cs.modified, keys);
  }

  lemma HighLine()
    ensures "Update Priority: " + "HIGH" == "Update Priority: HIGH"
  {
  }

  /** With at most two modified files the insight priority is `Low`. */
  lemma FewFilesLow(files: seq<Path>, keys: seq<string>)
    requires |files| <= 2
    ensures I.PriorityNote(I.Low) in I.InsightNotes(files, keys)
  {
    I.InsightPriorityStated(files, keys);
  }

  /** The firmware `kernelcache` alone meets the conditions of `PrioritiesDisagree`. */
  lemma KernelcacheAloneDisagrees(now: string, firstArchive: Path, secondArchive: Path, cs: TreeDiff.ChangeSet, t: Table, keys: seq<string>)
    requires cs.modified == ["kernelcache"]
    ensures Contains(C.DetailedAnalysis(now, firstArchive, secondArchive, cs, t).0.summary, "Update Priority: HIGH")
    ensures I.PriorityNote(I.Low) in I.InsightNotes(cs.modified, keys)
  {
    C.KernelcacheHits();
    assert "kernelcache" in cs.modified;
    PrioritiesDisagree(now, firstArchive, secondArchive, cs, t, keys);
  }

  class FirmwareComparer {
    /** `component_knowledge`; its impact dictionaries are shared with the analyses handed out. */
    var knowledge: Table

    /** The knowledge base keeps the keywords and descriptions it was built with. */
    ghost predicate Valid()
      reads this
    {
      SameShape(InitialTable, knowledge)
    }

    /** `_initialize_knowledge_bases`, as far as the component table goes. */
    constructor ()
      ensures knowledge == InitialTable
      ensures Valid()
    {
      knowledge := InitialTable;
    }

    /**
     * `analysis['impact'][key] = value`.  When a keyword matched,
     * `analysis['impact']` is the dictionary of the table entry at
     * `matched`, so the entry sees the write as well.
     */
    method WriteImpact(matched: Option<nat>, a: ComponentAnalysis, key: string, value: string)
      returns (a': ComponentAnalysis)
      requires matched.Some? ==> matched.value < |knowledge| && knowledge[matched.value].1.impact == a.impact
      modifies this
      ensures a' == a.(impact := Put(a.impact, key, value))
      ensures matched.None? ==> knowledge == old(knowledge)
      ensures matched.Some? ==>
        knowledge == old(knowledge)[matched.value := (old(knowledge)[matched.value].0,
                                                      old(knowledge)[matched.value].1.(impact := a'.impact))]
    {
      a' := a.(impact := Put(a.impact, key, value));
      if matched.Some? {
        var k := matched.value;
        knowledge := knowledge[k := (knowledge[k].0, knowledge[k].1.(impact := a'.impact))];
      }
    }

    /** `_analyze_component`: the keyword scan with its `break`, then the artifact rules. */
    method AnalyzeComponent(name: string) returns (a: ComponentAnalysis)
      modifies this
      ensures (a, knowledge) == Resolve(old(knowledge), name)
      ensures old(Valid()) ==> Valid()
    {
      ghost var before := knowledge;
      var matched;
      matched, a := KeywordScan(name);
      a := ApplyArtifacts(matched, a, ArtifactRule(ArtifactOf(name)));
      assert SameShape(before, knowledge) by {
        ResolveTableEffect(before, name);
      }
      ShapeTrans(InitialTable, before, knowledge);
    }

    /** The artifact rule `rule` of `_analyze_component`, after the keyword scan found `a` at `matched`. */
    method ApplyArtifacts(matched: Option<nat>, a: ComponentAnalysis, rule: Option<Rule>) returns (a': ComponentAnalysis)
      requires matched.Some? ==> matched.value < |knowledge| && knowledge[matched.value].1.impact == a.impact
      modifies this
      ensures (a', knowledge) == ArtifactStep(old(knowledge), rule, matched, a)
    {
      a' := a;
      if rule.Some? {
        a' := a'.(description := rule.value.description);
        a' := WriteImpact(matched, a', rule.value.key, rule.value.value);
      }
    }

    /** The keyword loop of `_analyze_component`: the first entry whose keyword occurs in the name. */
    method KeywordScan(name: string) returns (matched: Option<nat>, a: ComponentAnalysis)
      ensures matched == FirstKeyMatch(knowledge, name, 0)
      ensures a == KeywordAnalysis(knowledge, name)
    {
      a := UnknownComponent;
      matched := None;
      var k := 0;
      while k < |knowledge|
        invariant 0 <= k <= |knowledge|
        invariant FirstKeyMatch(knowledge, name, k) == FirstKeyMatch(knowledge, name, 0)
      {
        if Contains(Lower(name), Lower(knowledge[k].0)) {
          matched := Some(k);
          a := ComponentAnalysis(knowledge[k].0, knowledge[k].1.description, knowledge[k].1.impact);
          return;
        }
        k := k + 1;
      }
    }

    /** The technical lines of one match, whose analysis has the given description. */
    method TechnicalBlockOf(file: Path, c: C.Category, description: string) returns (technical: seq<string>)
      ensures technical == C.TechnicalBlock(file, c, description)
    {
      technical := ["\nComponent: " + file, "Category: " + Upper(C.CategoryName(c))];
      if description != "" {
        technical := technical + ["Description: " + description];
      }
    }

    method ImpactBlockOf(file: Path, a: ComponentAnalysis) returns (impact: seq<string>)
      ensures impact == C.ImpactBlock(file, a)
    {
      impact := [];
      if a.impact != [] {
        impact := ["\n" + file + ":"];
        for m := 0 to |a.impact|
          invariant impact == ["\n" + file + ":"] + C.ImpactLines(a.impact[..m])
        {
          var (kind, text) := a.impact[m];
          impact := impact + ["- " + Title(kind) + ": " + text];
          assert a.impact[..m + 1][..m] == a.impact[..m];
        }
        assert a.impact[..|a.impact|] == a.impact;
      }
    }

    /** `change_stats[category] += 1` and the append to the category's component list. */
    method CountMatch(tally: C.Tally, file: Path, c: C.Category) returns (tally': C.Tally)
      ensures tally' == tally.Record(file, c, 1)
    {
      var stats := tally.stats.Add(c, 1);
      var critical := tally.critical;
      var security := tally.security;
      var system := tally.system;
      if c == C.Critical {
        critical := critical + [file];
      } else if c == C.Security {
        security := security + [file];
      } else if c == C.System {
        system := system + [file];
      }
      assert C.Repeat(file, 1) == [file];
      tally' := C.Tally(stats, critical, security, system);
    }

    /**
     * The body of the pattern loop once `re.match` succeeds: count the
     * match, list the file, analyse the component and emit its technical
     * and impact lines.
     */
    method RecordMatch(acc: C.Accumulator, file: Path, c: C.Category) returns (acc': C.Accumulator)
      modifies this
      ensures (acc', knowledge) == C.MatchStep((acc, old(knowledge)), file, c)
    {
      var tally := CountMatch(acc.tally, file, c);
      var a := AnalyzeComponent(file);
      var technical := TechnicalBlockOf(file, c, a.description);
      var impact := ImpactBlockOf(file, a);
      acc' := C.Accumulator(tally, acc.technical + technical, acc.impact + impact);
      C.MatchStepOf((acc, old(knowledge)), file, c, a, knowledge);
    }

    /** The pattern loop of one category for one modified file; `fileLower` is the lower-cased path. */
    method ClassifyCategory(acc: C.Accumulator, file: Path, fileLower: string, c: C.Category) returns (acc': C.Accumulator)
      requires fileLower == Lower(file)
      modifies this
      ensures (acc', knowledge) == C.PatternsFold((acc, old(knowledge)), file, c, C.Keywords(c))
    {
      var patterns := C.Keywords(c);
      ghost var start := (acc, knowledge);
      acc' := acc;
      for k := 0 to |patterns|
        invariant (acc', knowledge) == C.PatternsFold(start, file, c, patterns[..k])
      {
        C.PatternsFoldStep(start, file, c, patterns, k);
        if Contains(fileLower, patterns[k]) {
          acc' := RecordMatch(acc', file, c);
        }
      }
      assert patterns[..|patterns|] == patterns;
    }

    /** The category loop of the detailed analysis for one modified file. */
    method ClassifyFile(acc: C.Accumulator, file: Path) returns (acc': C.Accumulator)
      modifies this
      ensures (acc', knowledge) == C.CategoriesFold((acc, old(knowledge)), file, C.CategoryOrder)
    {
      var fileLower := Lower(file);
      ghost var start := (acc, knowledge);
      acc' := acc;
      for j := 0 to |C.CategoryOrder|
        invariant (acc', knowledge) == C.CategoriesFold(start, file, C.CategoryOrder[..j])
      {
        C.CategoriesFoldStep(start, file, C.CategoryOrder, j);
        acc' := ClassifyCategory(acc', file, fileLower, C.CategoryOrder[j]);
      }
      assert C.CategoryOrder[..|C.CategoryOrder|] == C.CategoryOrder;
    }

    /** The critical-components block of the summary, with its loop over the list. */
    method CriticalBlock(critical: seq<Path>) returns (lines: seq<string>)
      ensures lines == C.CriticalLines(critical)
    {
      lines := [];
      if critical != [] {
        lines := ["\nCritical System Changes Detected:"];
        for m := 0 to |critical|
          invariant lines == ["\nCritical System Changes Detected:"] + C.ListLines(critical[..m])
        {
          lines := lines + ["- " + critical[m]];
          assert C.ListLines(critical[..m + 1]) == C.ListLines(critical[..m]) + ["- " + critical[m]];
        }
        assert critical[..|critical|] == critical;
        lines := lines + ["  These changes affect core system functionality and security"];
      }
    }

    /** The summary lines from the archive names, the change set and the loop's tally. */
    method SummaryOf(now: string, firstArchive: Path, secondArchive: Path, cs: TreeDiff.ChangeSet, tally: C.Tally)
      returns (summary: seq<string>)
      ensures summary == C.SummaryLines(C.HeaderLines(now, firstArchive, secondArchive), cs, tally)
    {
      var stats := tally.stats;
      var critical := CriticalBlock(tally.critical);
      summary := C.HeaderLines(now, firstArchive, secondArchive) + critical;
      summary := summary + C.SecurityLines(tally.security) + C.BootLines(stats) + C.StatisticsLines(stats)
        + C.TotalsLines(cs) + C.PriorityLines(stats) + C.RecommendationLines(stats)
        + C.CompatibilityLines(tally.system, stats);
    }

    /** `_generate_detailed_analysis` on the change set `cs`, with `now` the formatted analysis date. */
    method GenerateDetailedAnalysis(now: string, firstArchive: Path, secondArchive: Path, cs: TreeDiff.ChangeSet)
      returns (r: C.Report)
      modifies this
      ensures (r, knowledge) == C.DetailedAnalysis(now, firstArchive, secondArchive, cs, old(knowledge))
      ensures old(Valid()) ==> Valid()
    {
      ghost var before := knowledge;
      var acc := ClassifyFiles(cs.modified);
      C.FilesFoldGrows((C.EmptyAccumulator, before), cs.modified);
      ShapeTrans(InitialTable, before, knowledge);
      var summary := SummaryOf(now, firstArchive, secondArchive, cs, acc.tally);
      r := C.Report(Join(summary, "\n"), Join(acc.technical, "\n"), Join(acc.impact, "\n"));
    }

    /** The file loop of the detailed analysis. */
    method ClassifyFiles(files: seq<Path>) returns (acc: C.Accumulator)
      modifies this
      ensures (acc, knowledge) == C.FilesFold((C.EmptyAccumulator, old(knowledge)), files)
    {
      ghost var init := (C.EmptyAccumulator, knowledge);
      acc := C.EmptyAccumulator;
      for i := 0 to |files|
        invariant (acc, knowledge) == C.FilesFold(init, files[..i])
      {
        C.FilesFoldStep(init, files, i);
        acc := ClassifyFile(acc, files[i]);
      }
      assert files[..|files|] == files;
    }

    /** `change_types`: per theme, the number of files that match one of its patterns. */
    method CountChangeTypes(modified: seq<Path>) returns (counts: I.Counts)
      ensures counts == I.ChangeTypes(modified)
    {
      counts := [];
      for i := 0 to |modified|
        invariant counts == I.ChangeTypes(modified[..i])
      {
        counts := CountFileThemes(counts, modified[i]);
        assert modified[..i + 1][..i] == modified[..i];
      }
      assert modified[..|modified|] == modified;
    }

    /** The theme loop for one modified file. */
    method CountFileThemes(counts: I.Counts, file: Path) returns (counts': I.Counts)
      ensures counts' == I.FileCounts(counts, file, I.ThemeOrder)
    {
      var fileLower := Lower(file);
      counts' := counts;
      for j := 0 to |I.ThemeOrder|
        invariant counts' == I.FileCounts(counts, file, I.ThemeOrder[..j])
      {
        var th := I.ThemeOrder[j];
        var hit := ThemeHit(fileLower, th);
        if hit {
          counts' := I.Bump(counts', th);
        }
        assert I.ThemeOrder[..j + 1][..j] == I.ThemeOrder[..j];
      }
      assert I.ThemeOrder[..|I.ThemeOrder|] == I.ThemeOrder;
    }

    /** The pattern loop of one theme: it stops at the first pattern that matches. */
    method ThemeHit(fileLower: string, th: I.Theme) returns (hit: bool)
      ensures hit == I.AnyHit(fileLower, I.ThemeKeywords(th))
    {
      var patterns := I.ThemeKeywords(th);
      hit := false;
      var k := 0;
      while k < |patterns|
        invariant 0 <= k <= |patterns|
        invariant !I.AnyHit(fileLower, patterns[..k])
      {
        if Contains(fileLower, patterns[k]) {
          hit := true;
          I.AnyHitIff(fileLower, patterns);
          return;
        }
        assert patterns[..k + 1][..k] == patterns[..k];
        k := k + 1;
      }
      assert patterns[..k] == patterns;
    }

    /** `component_changes`: the keywords of the knowledge base that some file contains. */
    method ComponentChanges(modified: seq<Path>) returns (components: set<string>)
      ensures components == I.ComponentSet(modified, KeysOf(knowledge))
    {
      var keys := KeysOf(knowledge);
      components := {};
      for i := 0 to |modified|
        invariant components == I.ComponentSet(modified[..i], keys)
      {
        ghost var atFile := components;
        for j := 0 to |knowledge|
          invariant components == atFile + I.FileComponents(modified[i], keys[..j])
        {
          if Contains(Lower(modified[i]), Lower(knowledge[j].0)) {
            components := components + {knowledge[j].0};
          }
          assert keys[..j + 1][..j] == keys[..j];
        }
        assert keys[..|knowledge|] == keys;
        assert modified[..i + 1][..i] == modified[..i];
      }
      assert modified[..|modified|] == modified;
    }

    /** The loop over `component_interactions`: the notes of every interaction all of whose components changed. */
    method InteractionNotesOf(components: set<string>) returns (notes: seq<I.Note>)
      ensures notes == I.InteractionNotes(components, I.Interactions)
    {
      notes := [];
      for x := 0 to |I.Interactions|
        invariant notes == I.InteractionNotes(components, I.Interactions[..x])
      {
        var interaction := I.Interactions[x];
        if I.Fires(interaction, components) {
          notes := notes + [I.InteractionHeading, I.InteractionImpact(interaction), I.InteractionAdvice(interaction)];
        }
        assert I.Interactions[..x + 1][..x] == I.Interactions[..x];
      }
      assert I.Interactions[..|I.Interactions|] == I.Interactions;
    }

    /** The loop over `change_types`: three notes per theme with a positive count, in the counter's order. */
    method ThemeNotesOf(counts: I.Counts) returns (notes: seq<I.Note>)
      ensures notes == I.ThemeNotes(counts)
    {
      notes := [];
      for x := 0 to |counts|
        invariant notes == I.ThemeNotes(counts[..x])
      {
        var (th, n) := counts[x];
        if n > 0 {
          notes := notes + [I.ThemeHeading(th), I.ThemeNote(th), I.AffectedCount(th, n)];
        }
        assert counts[..x + 1][..x] == counts[..x];
      }
      assert counts[..|counts|] == counts;
    }

    /** The behavioural section of the insights, from the theme counts. */
    method BehaviorSection(security: nat, performance: nat, features: nat) returns (notes: seq<I.Note>)
      ensures notes == I.BehaviorNotes(security, performance, features)
    {
      notes := [I.BehaviorHeading];
      if security > 0 {
        notes := notes + [I.ReauthenticationNote];
      }
      if performance > 0 {
        notes := notes + [I.ResponsivenessNote];
      }
      if features > 0 {
        notes := notes + [I.CapabilitiesNote];
      }
    }

    /** The recommendations section of the insights, with its own priority rule. */
    method RecommendationSection(security: nat, performance: nat, total: nat) returns (notes: seq<I.Note>)
      ensures notes == I.AdviceNotes(security, performance, total)
    {
      var level := if security > 2 then I.High else if total > 10 then I.Medium else I.Low;
      notes := [I.AdviceHeading, I.PriorityNote(level)];
      if security > 0 {
        notes := notes + [I.BackupNote];
      }
      if performance > 0 {
        notes := notes + [I.MonitorNote];
      }
    }

    /** `_perform_ai_analysis` on the modified files; it reads the knowledge base's keywords only. */
    method PerformAiAnalysis(modified: seq<Path>) returns (text: string)
      ensures text == I.InsightText(modified, KeysOf(knowledge))
    {
      var counts := CountChangeTypes(modified);
      var notes: seq<I.Note> := [I.Banner];
      if |modified| > I.LargeScaleThreshold {
        notes := notes + [I.LargeScaleNote];
      }
      assert notes == [I.Banner] + if |modified| > I.LargeScaleThreshold then [I.LargeScaleNote] else [];
      var components := ComponentChanges(modified);

      var interactions := InteractionNotesOf(components);
      notes := notes + interactions;
      var themes := ThemeNotesOf(counts);
      notes := notes + themes;

      var securityCount := I.CountOf(counts, I.SecurityTheme);
      var performanceCount := I.CountOf(counts, I.PerformanceTheme);
      var behavior := BehaviorSection(securityCount, performanceCount, I.CountOf(counts, I.FeaturesTheme));
      notes := notes + behavior;
      var advice := RecommendationSection(securityCount, performanceCount, |modified|);
      notes := notes + advice;
      I.InsightNotesParts(modified, KeysOf(knowledge));
      assert notes == I.InsightNotes(modified, KeysOf(knowledge));
      text := Join(I.RenderAll(notes), "\n");
    }

    /** The analysis part of `_run_comparison`: analyse the changes, append the insights to the impact section. */
    method AnalyseChanges(now: string, firstArchive: Path, secondArchive: Path, cs: TreeDiff.ChangeSet)
      returns (r: C.Report)
      modifies this
      ensures (r, knowledge) == Analysis(now, firstArchive, secondArchive, cs, old(knowledge))
      ensures old(Valid()) ==> Valid()
    {
      var analysis := GenerateDetailedAnalysis(now, firstArchive, secondArchive, cs);
      var insights := PerformAiAnalysis(cs.modified);
      r := analysis.(impact := analysis.impact + "\n\n" + insights);
    }

    /**
     * `_run_comparison` after extraction: compare the trees, and when the
     * comparison raises, hand its error to the handler and stop; otherwise
     * analyse the changes.
     */
    method RunComparison(now: string, firstArchive: Path, secondArchive: Path, t1: TreeDiff.Tree, t2: TreeDiff.Tree,
                         hash: TreeDiff.Bytes -> TreeDiff.Digest) returns (r: TreeDiff.Result<C.Report>)
      requires TreeDiff.WellFormed(t1)
      modifies this
      ensures match Comparison(now, firstArchive, secondArchive, t1, t2, hash, old(knowledge))
        case Err(e) => r == TreeDiff.Err(e) && knowledge == old(knowledge)
        case Ok(run) => r == TreeDiff.Ok(run.0) && knowledge == run.1
      ensures old(Valid()) ==> Valid()
    {
      ghost var run := Comparison(now, firstArchive, secondArchive, t1, t2, hash, knowledge);
      var differences := TreeDiff.CompareDirectories(t1, t2, hash);
      if differences.Err? {
        assert run == TreeDiff.Err(differences.error);
        return TreeDiff.Err(differences.error);
      }
      assert run == TreeDiff.Ok(Analysis(now, firstArchive, secondArchive, differences.value, knowledge));
      var report := AnalyseChanges(now, firstArchive, secondArchive, differences.value);
      r := TreeDiff.Ok(report);
    }

    /** The same run with the corrected comparison, which always reaches the analysis. */
    method RunCorrected(now: string, firstArchive: Path, secondArchive: Path, t1: TreeDiff.Tree, t2: TreeDiff.Tree,
                        hash: TreeDiff.Bytes -> TreeDiff.Digest) returns (r: C.Report)
      requires TreeDiff.WellFormed(t1)
      modifies this
      ensures (r, knowledge) == CorrectedComparison(now, firstArchive, secondArchive, t1, t2, hash, old(knowledge))
      ensures old(Valid()) ==> Valid()
    {
      var differences := TreeDiff.CompareTrees(t1, t2, hash);
      r := AnalyseChanges(now, firstArchive, secondArchive, differences);
    }
  }
}
