/**
 * The category classifier of `_generate_detailed_analysis`: the pattern
 * table, the statistics it accumulates over the modified files, the summary
 * priority and the three report blocks.
 *
 * Every pattern of the table is `.*kw.*` applied with `re.match` to the
 * lower-cased path, which holds exactly when `kw` occurs in it.  The loop
 * does not stop at the first hit: every matching pattern of every category
 * counts, appends the file to the category's list (for critical, security
 * and system) and emits a block of technical and impact lines.
 */
module Classifier {
  import opened Text
  import opened ComponentKnowledge
  import TreeDiff
  import Version

  type Path = string

  datatype Category = Security | Performance | Boot | System | Critical

  /** The categories in the order of the pattern table. */
  const CategoryOrder: seq<Category> := [Security, Performance, Boot, System, Critical]

  /** The category's key in the pattern table. */
  function CategoryName(c: Category): string
  {
    match c
    case Security => "security"
    case Performance => "performance"
    case Boot => "boot"
    case System => "system"
    case Critical => "critical"
  }

  /** The keywords `kw` of the category's patterns `.*kw.*`, in table order. */
  function Keywords(c: Category): seq<string>
  {
    match c
    case Security => ["trustcache", "seal", "crypto", "security", "certificate", "keychain", "auth"]
    case Performance => ["kernel", "cache", "dyld", "perf", "memory"]
    case Boot => ["iboot", "boot", "ibss", "ibec"]
    case System => ["system", "framework", "daemon", "service"]
    case Critical => ["kernelcache", "sep", "baseband"]
  }

  /** `change_stats`; the `feature` counter is declared but no category feeds it. */
  datatype ChangeStats = ChangeStats(security: nat, performance: nat, feature: nat, boot: nat, system: nat, critical: nat)
  {
    function Get(c: Category): nat
    {
      match c
      case Security => security
      case Performance => performance
      case Boot => boot
      case System => system
      case Critical => critical
    }

    function Add(c: Category, n: nat): (r: ChangeStats)
      ensures r.Get(c) == Get(c) + n
      ensures forall c' :: c' != c ==> r.Get(c') == Get(c')
      ensures r.feature == feature
    {
      match c
      case Security => this.(security := security + n)
      case Performance => this.(performance := performance + n)
      case Boot => this.(boot := boot + n)
      case System => this.(system := system + n)
      case Critical => this.(critical := critical + n)
    }
  }

  const ZeroStats := ChangeStats(0, 0, 0, 0, 0, 0)

  /** How many of the keywords occur in `text`: the number of patterns that match. */
  function MatchCount(text: string, kws: seq<string>): (n: nat)
    ensures n <= |kws|
    decreases |kws|
  {
    if kws == [] then 0
    else MatchCount(text, kws[..|kws| - 1]) + if Contains(text, kws[|kws| - 1]) then 1 else 0
  }

  /** `n` copies of `p`. */
  function Repeat(p: Path, n: nat): (r: seq<Path>)
    ensures |r| == n
    ensures forall i :: 0 <= i < n ==> r[i] == p
  {
    if n == 0 then [] else Repeat(p, n - 1) + [p]
  }

  /** The number of patterns of `c` that match `file`. */
  function Hits(file: Path, c: Category): nat
  {
    MatchCount(Lower(file), Keywords(c))
  }

  /** The category's counter after the modified files `files`: one per (file, matching pattern) pair. */
  function CategoryCount(files: seq<Path>, c: Category): nat
    decreases |files|
  {
    if files == [] then 0
    else CategoryCount(files[..|files| - 1], c) + Hits(files[|files| - 1], c)
  }

  /** The category's component list: each file once per matching pattern, in file order. */
  function CategoryList(files: seq<Path>, c: Category): seq<Path>
    decreases |files|
  {
    if files == [] then []
    else CategoryList(files[..|files| - 1], c) + Repeat(files[|files| - 1], Hits(files[|files| - 1], c))
  }

  /** The counters and lists of the loop, without the text it emits. */
  datatype Tally = Tally(stats: ChangeStats, critical: seq<Path>, security: seq<Path>, system: seq<Path>)
  {
    /** The effect of `n` matching patterns of category `c` on `file`. */
    function Record(file: Path, c: Category, n: nat): Tally
    {
      Tally(stats.Add(c, n),
            critical + (if c == Critical then Repeat(file, n) else []),
            security + (if c == Security then Repeat(file, n) else []),
            system + (if c == System then Repeat(file, n) else []))
    }
  }

  /** The locals of the loop: tally, technical lines, impact lines. */
  datatype Accumulator = Accumulator(tally: Tally, technical: seq<string>, impact: seq<string>)

  const EmptyAccumulator := Accumulator(Tally(ZeroStats, [], [], []), [], [])

  /** `- Key: value` for each impact entry, keys title-cased. */
  function ImpactLines(d: Dict): (lines: seq<string>)
    ensures |lines| == |d|
    ensures forall i :: 0 <= i < |d| ==> lines[i] == "- " + Title(d[i].0) + ": " + d[i].1
    decreases |d|
  {
    if d == [] then [] else ImpactLines(d[..|d| - 1]) + ["- " + Title(d[|d| - 1].0) + ": " + d[|d| - 1].1]
  }

  /** The line that opens a match's technical block. */
  function ComponentLine(file: Path): string { "\nComponent: " + file }

  /** The line naming the matched category, upper-cased. */
  function CategoryLine(c: Category): string { "Category: " + Upper(CategoryName(c)) }

  function DescriptionLine(description: string): string { "Description: " + description }

  /** The technical lines of one match of `c` on `file`, whose analysis has the given description. */
  function TechnicalBlock(file: Path, c: Category, description: string): seq<string>
  {
    [ComponentLine(file), CategoryLine(c)] + (if description != "" then [DescriptionLine(description)] else [])
  }

  /** The line that opens a match's impact block. */
  function ImpactHeading(file: Path): string { "\n" + file + ":" }

  function ImpactBlock(file: Path, a: ComponentAnalysis): seq<string>
  {
    if a.impact == [] then [] else [ImpactHeading(file)] + ImpactLines(a.impact)
  }

  /** One matching pattern: count it, list the file, analyse the component, emit its lines. */
  function MatchStep(st: (Accumulator, Table), file: Path, c: Category): (Accumulator, Table)
  {
    var (acc, t) := st;
    var (a, t') := Resolve(t, file);
    (Accumulator(acc.tally.Record(file, c, 1),
                 acc.technical + TechnicalBlock(file, c, a.description),
                 acc.impact + ImpactBlock(file, a)),
     t')
  }

  /** A matching pattern's step, given what the analysis of the component resolved to. */
  lemma MatchStepOf(st: (Accumulator, Table), file: Path, c: Category, a: ComponentAnalysis, t': Table)
    requires (a, t') == Resolve(st.1, file)
    ensures MatchStep(st, file, c)
         == (Accumulator(st.0.tally.Record(file, c, 1), st.0.technical + TechnicalBlock(file, c, a.description),
                         st.0.impact + ImpactBlock(file, a)), t')
  {
  }

  /** The pattern loop of one category over `kws`. */
  function PatternsFold(st: (Accumulator, Table), file: Path, c: Category, kws: seq<string>): (Accumulator, Table)
    decreases |kws|
  {
    if kws == [] then st
    else
      var prev := PatternsFold(st, file, c, kws[..|kws| - 1]);
      if Contains(Lower(file), kws[|kws| - 1]) then MatchStep(prev, file, c) else prev
  }

  /** The category loop for one file over `cats`. */
  function CategoriesFold(st: (Accumulator, Table), file: Path, cats: seq<Category>): (Accumulator, Table)
    decreases |cats|
  {
    if cats == [] then st
    else
      var c := cats[|cats| - 1];
      PatternsFold(CategoriesFold(st, file, cats[..|cats| - 1]), file, c, Keywords(c))
  }

  /** The file loop over `files`. */
  function FilesFold(st: (Accumulator, Table), files: seq<Path>): (Accumulator, Table)
    decreases |files|
  {
    if files == [] then st
    else CategoriesFold(FilesFold(st, files[..|files| - 1]), files[|files| - 1], CategoryOrder)
  }

  /** The pattern loop one keyword further. */
  lemma PatternsFoldStep(st: (Accumulator, Table), file: Path, c: Category, kws: seq<string>, i: nat)
    requires i < |kws|
    ensures PatternsFold(st, file, c, kws[..i + 1])
      == var prev := PatternsFold(st, file, c, kws[..i]);
         if Contains(Lower(file), kws[i]) then MatchStep(prev, file, c) else prev
  {
    assert kws[..i + 1][..i] == kws[..i];
  }

  /** The category loop one category further. */
  lemma CategoriesFoldStep(st: (Accumulator, Table), file: Path, cats: seq<Category>, i: nat)
    requires i < |cats|
    ensures CategoriesFold(st, file, cats[..i + 1])
         == PatternsFold(CategoriesFold(st, file, cats[..i]), file, cats[i], Keywords(cats[i]))
  {
    assert cats[..i + 1][..i] == cats[..i];
  }

  /** The file loop one file further. */
  lemma FilesFoldStep(st: (Accumulator, Table), files: seq<Path>, i: nat)
    requires i < |files|
    ensures FilesFold(st, files[..i + 1]) == CategoriesFold(FilesFold(st, files[..i]), files[i], CategoryOrder)
  {
    assert files[..i + 1][..i] == files[..i];
  }

  /** The tally the code is meant to produce, in closed form. */
  function TallyOf(files: seq<Path>): Tally
  {
    Tally(ChangeStats(CategoryCount(files, Security), CategoryCount(files, Performance), 0,
                      CategoryCount(files, Boot), CategoryCount(files, System), CategoryCount(files, Critical)),
          CategoryList(files, Critical), CategoryList(files, Security), CategoryList(files, System))
  }

  lemma RecordTwice(t: Tally, file: Path, c: Category, n: nat)
    ensures t.Record(file, c, n).Record(file, c, 1) == t.Record(file, c, n + 1)
  {
    assert Repeat(file, n + 1) == Repeat(file, n) + [file];
  }

  lemma RecordZero(t: Tally, file: Path, c: Category)
    ensures t.Record(file, c, 0) == t
  {
  }

  /** A matching pattern records one match event and nothing else in the tally. */
  lemma MatchStepTally(st: (Accumulator, Table), file: Path, c: Category)
    ensures MatchStep(st, file, c).0.tally == st.0.tally.Record(file, c, 1)
  {
  }

  /** One more pattern: its tally is the previous one, with one more event when the pattern matches. */
  lemma PatternsFoldSnoc(st: (Accumulator, Table), file: Path, c: Category, kws: seq<string>)
    requires kws != []
    ensures
      var prev := PatternsFold(st, file, c, kws[..|kws| - 1]).0.tally;
      PatternsFold(st, file, c, kws).0.tally
      == if Contains(Lower(file), kws[|kws| - 1]) then prev.Record(file, c, 1) else prev
  {
    if Contains(Lower(file), kws[|kws| - 1]) {
      MatchStepTally(PatternsFold(st, file, c, kws[..|kws| - 1]), file, c);
    }
  }

  /** The pattern loop adds one match event per matching keyword and nothing else to the tally. */
  lemma {:induction false} PatternsFoldTally(st: (Accumulator, Table), file: Path, c: Category, kws: seq<string>)
    ensures PatternsFold(st, file, c, kws).0.tally == st.0.tally.Record(file, c, MatchCount(Lower(file), kws))
    decreases |kws|
  {
    if kws == [] {
      RecordZero(st.0.tally, file, c);
    } else {
      var init := kws[..|kws| - 1];
      var m := MatchCount(Lower(file), init);
      PatternsFoldTally(st, file, c, init);
      PatternsFoldSnoc(st, file, c, kws);
      if Contains(Lower(file), kws[|kws| - 1]) {
        RecordTwice(st.0.tally, file, c, m);
        assert MatchCount(Lower(file), kws) == m + 1;
      } else {
        assert MatchCount(Lower(file), kws) == m;
      }
    }
  }

  /** The tally of one file: every category of the table, in order. */
  function RecordFile(t: Tally, file: Path, cats: seq<Category>): Tally
    decreases |cats|
  {
    if cats == [] then t
    else
      var c := cats[|cats| - 1];
      RecordFile(t, file, cats[..|cats| - 1]).Record(file, c, Hits(file, c))
  }

  lemma {:induction false} CategoriesFoldTally(st: (Accumulator, Table), file: Path, cats: seq<Category>)
    ensures CategoriesFold(st, file, cats).0.tally == RecordFile(st.0.tally, file, cats)
    decreases |cats|
  {
    if cats != [] {
      var c := cats[|cats| - 1];
      CategoriesFoldTally(st, file, cats[..|cats| - 1]);
      PatternsFoldTally(CategoriesFold(st, file, cats[..|cats| - 1]), file, c, Keywords(c));
    }
  }

  /** The five categories of the table, applied one after the other. */
  lemma RecordFileOrder(t: Tally, file: Path)
    ensures RecordFile(t, file, CategoryOrder)
         == t.Record(file, Security, Hits(file, Security))
             .Record(file, Performance, Hits(file, Performance))
             .Record(file, Boot, Hits(file, Boot))
             .Record(file, System, Hits(file, System))
             .Record(file, Critical, Hits(file, Critical))
  {
    var o := CategoryOrder;
    assert o[..4] == [Security, Performance, Boot, System];
    assert o[..4][..3] == [Security, Performance, Boot];
    assert o[..4][..3][..2] == [Security, Performance];
    assert o[..4][..3][..2][..1] == [Security];
    assert o[..4][..3][..2][..1][..0] == [];
    var t1 := RecordFile(t, file, [Security]);
    assert t1 == t.Record(file, Security, Hits(file, Security));
    var t2 := RecordFile(t, file, [Security, Performance]);
    assert t2 == t1.Record(file, Performance, Hits(file, Performance));
    var t3 := RecordFile(t, file, [Security, Performance, Boot]);
    assert t3 == t2.Record(file, Boot, Hits(file, Boot));
    var t4 := RecordFile(t, file, [Security, Performance, Boot, System]);
    assert t4 == t3.Record(file, System, Hits(file, System));
    assert RecordFile(t, file, o) == t4.Record(file, Critical, Hits(file, Critical));
  }

  /** A tally after a file with the given numbers of matches per category. */
  function Grow(t: Tally, file: Path, security: nat, performance: nat, boot: nat, system: nat, critical: nat): Tally
  {
    Tally(ChangeStats(t.stats.security + security, t.stats.performance + performance, t.stats.feature,
                      t.stats.boot + boot, t.stats.system + system, t.stats.critical + critical),
          t.critical + Repeat(file, critical),
          t.security + Repeat(file, security),
          t.system + Repeat(file, system))
  }

  /** Each category step touches only its own counter and list. */
  lemma RecordChain(t: Tally, file: Path, security: nat, performance: nat, boot: nat, system: nat, critical: nat)
    ensures t.Record(file, Security, security).Record(file, Performance, performance)
             .Record(file, Boot, boot).Record(file, System, system).Record(file, Critical, critical)
         == Grow(t, file, security, performance, boot, system, critical)
  {
  }

  /** The closed form after one more file. */
  lemma TallyOfSnoc(files: seq<Path>)
    requires files != []
    ensures
      var last := files[|files| - 1];
      TallyOf(files)
      == Grow(TallyOf(files[..|files| - 1]), last, Hits(last, Security), Hits(last, Performance), Hits(last, Boot),
              Hits(last, System), Hits(last, Critical))
  {
  }

  /** Over the five categories, the last file's matches extend each counter and list of the closed form. */
  lemma RecordFileAll(files: seq<Path>)
    requires files != []
    ensures RecordFile(TallyOf(files[..|files| - 1]), files[|files| - 1], CategoryOrder) == TallyOf(files)
  {
    var t, file := TallyOf(files[..|files| - 1]), files[|files| - 1];
    RecordFileOrder(t, file);
    RecordChain(t, file, Hits(file, Security), Hits(file, Performance), Hits(file, Boot), Hits(file, System), Hits(file, Critical));
    TallyOfSnoc(files);
  }

  /** The tally of a list of files, file after file, from `t`. */
  function RecordFiles(t: Tally, files: seq<Path>): Tally
    decreases |files|
  {
    if files == [] then t
    else RecordFile(RecordFiles(t, files[..|files| - 1]), files[|files| - 1], CategoryOrder)
  }

  /** The file loop adds to the tally exactly what `RecordFiles` says, whatever the table does. */
  lemma {:induction false} FilesFoldRecords(st: (Accumulator, Table), files: seq<Path>)
    ensures FilesFold(st, files).0.tally == RecordFiles(st.0.tally, files)
    decreases |files|
  {
    if files != [] {
      var init, last := files[..|files| - 1], files[|files| - 1];
      FilesFoldRecords(st, init);
      CategoriesFoldTally(FilesFold(st, init), last, CategoryOrder);
    }
  }

  lemma TallyOfEmpty()
    ensures TallyOf([]) == EmptyAccumulator.tally
  {
    var none: seq<Path> := [];
    assert CategoryCount(none, Security) == CategoryCount(none, Performance) == CategoryCount(none, Boot) == 0;
    assert CategoryCount(none, System) == CategoryCount(none, Critical) == 0;
    assert CategoryList(none, Critical) == CategoryList(none, Security) == CategoryList(none, System) == [];
  }

  /** From the empty tally, the file-by-file tally is the closed form. */
  lemma {:induction false} RecordFilesClosed(files: seq<Path>)
    ensures RecordFiles(EmptyAccumulator.tally, files) == TallyOf(files)
    decreases |files|
  {
    if files == [] {
      TallyOfEmpty();
    } else {
      var init, last := files[..|files| - 1], files[|files| - 1];
      RecordFilesClosed(init);
      RecordFileAll(files);
    }
  }

  /** The file loop's tally is the closed form: counters are match events, lists repeat a file per match. */
  lemma FilesFoldTally(t: Table, files: seq<Path>)
    ensures FilesFold((EmptyAccumulator, t), files).0.tally == TallyOf(files)
  {
    FilesFoldRecords((EmptyAccumulator, t), files);
    RecordFilesClosed(files);
  }

  /** `|critical_components|` and the others equal their counters. */
  lemma {:induction false} CategoryListLength(files: seq<Path>, c: Category)
    ensures |CategoryList(files, c)| == CategoryCount(files, c)
    decreases |files|
  {
    if files != [] {
      CategoryListLength(files[..|files| - 1], c);
    }
  }

  /** Some pattern of the list matches exactly when some keyword of it occurs. */
  lemma {:induction false} MatchCountPositive(text: string, kws: seq<string>)
    ensures MatchCount(text, kws) > 0 <==> exists i :: 0 <= i < |kws| && Contains(text, kws[i])
    decreases |kws|
  {
    if kws != [] {
      var init := kws[..|kws| - 1];
      MatchCountPositive(text, init);
      if exists i :: 0 <= i < |kws| && Contains(text, kws[i]) {
        var i :| 0 <= i < |kws| && Contains(text, kws[i]);
        if i < |init| {
          assert init[i] == kws[i];
        }
      }
      if exists i :: 0 <= i < |init| && Contains(text, init[i]) {
        var i :| 0 <= i < |init| && Contains(text, init[i]);
        assert kws[i] == init[i];
      }
    }
  }

  /** A file is in a category's list exactly when it is modified and some pattern of the category matches it. */
  lemma {:induction false} CategoryListMembers(files: seq<Path>, c: Category, p: Path)
    ensures p in CategoryList(files, c) <==> p in files && Hits(p, c) > 0
    decreases |files|
  {
    if files != [] {
      var init := files[..|files| - 1];
      var last := files[|files| - 1];
      CategoryListMembers(init, c, p);
      assert files == init + [last];
      var rep := Repeat(last, Hits(last, c));
      assert p in rep <==> p == last && Hits(last, c) > 0 by {
        if Hits(last, c) > 0 { assert rep[0] == last; }
      }
    }
  }

  /** A category's counter is positive exactly when some modified file matches one of its patterns. */
  lemma CategoryCountPositive(files: seq<Path>, c: Category)
    ensures CategoryCount(files, c) > 0 <==> exists f :: f in files && Hits(f, c) > 0
  {
    CategoryListLength(files, c);
    if CategoryCount(files, c) > 0 {
      var f := CategoryList(files, c)[0];
      CategoryListMembers(files, c, f);
    }
    if exists f :: f in files && Hits(f, c) > 0 {
      var f :| f in files && Hits(f, c) > 0;
      CategoryListMembers(files, c, f);
    }
  }

  /** Counting is additive over the modified files, hence more files never lower a counter. */
  lemma {:induction false} CategoryCountAppend(files: seq<Path>, more: seq<Path>, c: Category)
    ensures CategoryCount(files + more, c) == CategoryCount(files, c) + CategoryCount(more, c)
    decreases |more|
  {
    if more == [] {
      assert files + more == files;
    } else {
      var init := more[..|more| - 1];
      CategoryCountAppend(files, init, c);
      assert (files + more)[..|files + more| - 1] == files + init;
    }
  }

  /** No file adds more to a counter than its category has patterns. */
  lemma {:induction false} CategoryCountBound(files: seq<Path>, c: Category)
    ensures CategoryCount(files, c) <= |files| * |Keywords(c)|
    decreases |files|
  {
    if files != [] {
      CategoryCountBound(files[..|files| - 1], c);
    }
  }

  /** A text whose first character does not occur in `s` does not occur in `s`. */
  lemma AbsentFirstChar(s: string, sub: string)
    requires |sub| > 0 && forall i :: 0 <= i < |s| ==> s[i] != sub[0]
    ensures !Contains(s, sub)
  {
    forall i | 0 <= i <= |s| - |sub|
      ensures !OccursAt(s, sub, i)
    {
      assert s[i..i + |sub|][0] == s[i];
    }
  }

  /** A text that occurs in `s` at `i` is contained in `s`. */
  lemma Occurs(s: string, sub: string, i: nat)
    requires OccursAt(s, sub, i)
    ensures Contains(s, sub)
  {
  }

  lemma KernelcacheLower()
    ensures Lower("kernelcache") == "kernelcache"
  {
    var s := "kernelcache";
    assert forall i :: 0 <= i < |s| ==> LowerChar(s[i]) == s[i];
  }

  lemma MatchCountSnoc(text: string, kws: seq<string>, kw: string)
    ensures MatchCount(text, kws + [kw]) == MatchCount(text, kws) + if Contains(text, kw) then 1 else 0
  {
    assert (kws + [kw])[..|kws|] == kws;
  }

  function Bit(b: bool): nat { if b then 1 else 0 }

  lemma MatchCountFive(text: string, a: string, b: string, c: string, d: string, e: string)
    ensures MatchCount(text, [a, b, c, d, e])
         == Bit(Contains(text, a)) + Bit(Contains(text, b)) + Bit(Contains(text, c)) + Bit(Contains(text, d)) + Bit(Contains(text, e))
  {
    MatchCountSnoc(text, [], a);
    assert [] + [a] == [a];
    MatchCountSnoc(text, [a], b);
    assert [a] + [b] == [a, b];
    MatchCountSnoc(text, [a, b], c);
    assert [a, b] + [c] == [a, b, c];
    MatchCountSnoc(text, [a, b, c], d);
    assert [a, b, c] + [d] == [a, b, c, d];
    MatchCountSnoc(text, [a, b, c, d], e);
    assert [a, b, c, d] + [e] == [a, b, c, d, e];
  }

  lemma KernelcacheSubstrings(s: string)
    requires s == "kernelcache"
    ensures Contains(s, "kernel") && Contains(s, "cache")
    ensures !Contains(s, "dyld") && !Contains(s, "perf") && !Contains(s, "memory")
  {
    Occurs(s, "kernel", 0);
    assert s[6..11] == "cache";
    Occurs(s, "cache", 6);
    AbsentFirstChar(s, "dyld");
    AbsentFirstChar(s, "perf");
    AbsentFirstChar(s, "memory");
  }

  /** The `kernelcache` image counts twice under performance (`kernel`, `cache`) and once under critical. */
  lemma KernelcacheHits()
    ensures Hits("kernelcache", Performance) == 2
    ensures Hits("kernelcache", Critical) >= 1
  {
    KernelcacheLower();
    KernelcacheSubstrings("kernelcache");
    MatchCountFive("kernelcache", "kernel", "cache", "dyld", "perf", "memory");
    Occurs("kernelcache", "kernelcache", 0);
    MatchCountPositive("kernelcache", Keywords(Critical));
  }

  /** A later state of the loop: text only appended, table keeps its keywords and descriptions. */
  ghost predicate Grows(st: (Accumulator, Table), st': (Accumulator, Table))
  {
    && st.0.technical <= st'.0.technical
    && st.0.impact <= st'.0.impact
    && SameShape(st.1, st'.1)
  }

  lemma GrowsTrans(a: (Accumulator, Table), b: (Accumulator, Table), c: (Accumulator, Table))
    requires Grows(a, b) && Grows(b, c)
    ensures Grows(a, c)
  {
  }

  lemma MatchStepGrows(st: (Accumulator, Table), file: Path, c: Category)
    ensures Grows(st, MatchStep(st, file, c))
    ensures "\nComponent: " + file in MatchStep(st, file, c).0.technical
  {
    ResolveTableEffect(st.1, file);
    var r := MatchStep(st, file, c);
    var block := TechnicalBlock(file, c, Resolve(st.1, file).0.description);
    assert r.0.technical == st.0.technical + block;
    assert r.0.technical[|st.0.technical|] == block[0];
  }

  lemma {:induction false} PatternsFoldGrows(st: (Accumulator, Table), file: Path, c: Category, kws: seq<string>)
    ensures Grows(st, PatternsFold(st, file, c, kws))
    decreases |kws|
  {
    if kws != [] {
      var prev := PatternsFold(st, file, c, kws[..|kws| - 1]);
      PatternsFoldGrows(st, file, c, kws[..|kws| - 1]);
      if Contains(Lower(file), kws[|kws| - 1]) {
        MatchStepGrows(prev, file, c);
        GrowsTrans(st, prev, MatchStep(prev, file, c));
      }
    }
  }

  lemma {:induction false} CategoriesFoldGrows(st: (Accumulator, Table), file: Path, cats: seq<Category>)
    ensures Grows(st, CategoriesFold(st, file, cats))
    decreases |cats|
  {
    if cats != [] {
      var c := cats[|cats| - 1];
      var prev := CategoriesFold(st, file, cats[..|cats| - 1]);
      CategoriesFoldGrows(st, file, cats[..|cats| - 1]);
      PatternsFoldGrows(prev, file, c, Keywords(c));
      GrowsTrans(st, prev, PatternsFold(prev, file, c, Keywords(c)));
    }
  }

  /** The loop over the modified files only appends text, and leaves the table's keywords and descriptions alone. */
  lemma {:induction false} FilesFoldGrows(st: (Accumulator, Table), files: seq<Path>)
    ensures Grows(st, FilesFold(st, files))
    decreases |files|
  {
    if files != [] {
      var prev := FilesFold(st, files[..|files| - 1]);
      FilesFoldGrows(st, files[..|files| - 1]);
      CategoriesFoldGrows(prev, files[|files| - 1], CategoryOrder);
      GrowsTrans(st, prev, CategoriesFold(prev, files[|files| - 1], CategoryOrder));
    }
  }

  lemma {:induction false} PatternsFoldNames(st: (Accumulator, Table), file: Path, c: Category, kws: seq<string>, i: nat)
    requires i < |kws| && Contains(Lower(file), kws[i])
    ensures "\nComponent: " + file in PatternsFold(st, file, c, kws).0.technical
    decreases |kws|
  {
    var init := kws[..|kws| - 1];
    var prev := PatternsFold(st, file, c, init);
    if i == |kws| - 1 {
      MatchStepGrows(prev, file, c);
    } else {
      PatternsFoldNames(st, file, c, init, i);
      if Contains(Lower(file), kws[|kws| - 1]) {
        MatchStepGrows(prev, file, c);
      }
    }
  }

  lemma {:induction false} CategoriesFoldNames(st: (Accumulator, Table), file: Path, cats: seq<Category>, j: nat)
    requires j < |cats| && Hits(file, cats[j]) > 0
    ensures "\nComponent: " + file in CategoriesFold(st, file, cats).0.technical
    decreases |cats|
  {
    var init := cats[..|cats| - 1];
    var c := cats[|cats| - 1];
    var prev := CategoriesFold(st, file, init);
    if j == |cats| - 1 {
      MatchCountPositive(Lower(file), Keywords(c));
      var i :| 0 <= i < |Keywords(c)| && Contains(Lower(file), Keywords(c)[i]);
      PatternsFoldNames(prev, file, c, Keywords(c), i);
    } else {
      CategoriesFoldNames(st, file, init, j);
      PatternsFoldGrows(prev, file, c, Keywords(c));
    }
  }

  /** Every modified file that some pattern matches gets a technical block. */
  lemma {:induction false} FilesFoldNames(st: (Accumulator, Table), files: seq<Path>, f: Path, c: Category)
    requires f in files && Hits(f, c) > 0
    ensures "\nComponent: " + f in FilesFold(st, files).0.technical
    decreases |files|
  {
    var init := files[..|files| - 1];
    var last := files[|files| - 1];
    var prev := FilesFold(st, init);
    assert files == init + [last];
    var j := match c case Security => 0 case Performance => 1 case Boot => 2 case System => 3 case Critical => 4;
    assert CategoryOrder[j] == c;
    if f == last {
      CategoriesFoldNames(prev, f, CategoryOrder, j);
    } else {
      FilesFoldNames(st, init, f, c);
      CategoriesFoldGrows(prev, last, CategoryOrder);
    }
  }

  /** The three kinds of technical line start with different characters. */
  lemma LineHeads(f: Path, c: Category, d: string)
    ensures ComponentLine(f)[0] == '\n' && CategoryLine(c)[0] == 'C' && DescriptionLine(d)[0] == 'D'
  {
  }

  /** Each kind of technical line determines what it was made from. */
  lemma LinesInjective(f: Path, g: Path, c: Category, c': Category, d: string, d': string)
    ensures ComponentLine(f) == ComponentLine(g) <==> f == g
    ensures CategoryLine(c) == CategoryLine(c') <==> c == c'
    ensures DescriptionLine(d) == DescriptionLine(d') <==> d == d'
  {
    if ComponentLine(f) == ComponentLine(g) {
      assert f == ComponentLine(f)[12..] && g == ComponentLine(g)[12..];
    }
    if DescriptionLine(d) == DescriptionLine(d') {
      assert d == DescriptionLine(d)[13..] && d' == DescriptionLine(d')[13..];
    }
    if CategoryLine(c) == CategoryLine(c') {
      var u, u' := Upper(CategoryName(c)), Upper(CategoryName(c'));
      assert u == CategoryLine(c)[10..] && u' == CategoryLine(c')[10..];
      assert u[0] == UpperChar(CategoryName(c)[0]) && u'[0] == UpperChar(CategoryName(c')[0]);
    }
  }

  /**
   * What one match contributes to the technical lines: it opens with the
   * file's component line, names the category next, and has a description
   * line exactly when the analysis has a description; the block holds one
   * component line and one category line.
   */
  lemma TechnicalBlockLines(file: Path, c: Category, d: string, f: Path, c': Category, d': string)
    ensures var b := TechnicalBlock(file, c, d);
      && b[0] == ComponentLine(file) && b[1] == CategoryLine(c)
      && multiset(b)[ComponentLine(f)] == (if f == file then 1 else 0)
      && multiset(b)[CategoryLine(c')] == (if c' == c then 1 else 0)
      && multiset(b)[DescriptionLine(d')] == (if d != "" && d' == d then 1 else 0)
  {
    LineHeads(file, c, d);
    LineHeads(f, c', d');
    LinesInjective(file, f, c, c', d, d');
    var b := TechnicalBlock(file, c, d);
    if d != "" {
      assert multiset(b) == multiset{ComponentLine(file), CategoryLine(c), DescriptionLine(d)};
    } else {
      assert b == [ComponentLine(file), CategoryLine(c)];
      assert multiset(b) == multiset{ComponentLine(file), CategoryLine(c)};
    }
  }

  /** `n` copies of the lines `b`, one after the other. */
  function Copies(b: seq<string>, n: nat): seq<string>
  {
    if n == 0 then [] else Copies(b, n - 1) + b
  }

  /** `n` copies hold every line `n` times as often as one does. */
  lemma {:induction false} CopiesCount(b: seq<string>, n: nat, x: string)
    ensures multiset(Copies(b, n))[x] == n * multiset(b)[x]
  {
    if n > 0 {
      CopiesCount(b, n - 1, x);
      assert multiset(Copies(b, n))[x] == multiset(Copies(b, n - 1))[x] + multiset(b)[x];
      MulSucc(n - 1, multiset(b)[x], true);
    }
  }

  /** `n` technical blocks of category `c` for `file`, one per matching pattern. */
  function Blocks(file: Path, c: Category, d: string, n: nat): seq<string>
  {
    Copies(TechnicalBlock(file, c, d), n)
  }

  /** The technical blocks of one file over the categories `cats`. */
  function FileBlocks(file: Path, d: string, cats: seq<Category>): seq<string>
    decreases |cats|
  {
    if cats == [] then []
    else
      var c := cats[|cats| - 1];
      FileBlocks(file, d, cats[..|cats| - 1]) + Blocks(file, c, d, Hits(file, c))
  }

  /**
   * The technical lines of the file loop over `files`, in closed form: per
   * file, per category in table order, one block per matching pattern, each
   * with the description the knowledge base `t` gives the file.
   */
  function TechnicalOf(t: Table, files: seq<Path>): seq<string>
    decreases |files|
  {
    if files == [] then []
    else
      var f := files[|files| - 1];
      TechnicalOf(t, files[..|files| - 1]) + FileBlocks(f, Resolve(t, f).0.description, CategoryOrder)
  }

  /** The number of patterns of `cats` that match `file`. */
  function HitsIn(file: Path, cats: seq<Category>): nat
    decreases |cats|
  {
    if cats == [] then 0 else HitsIn(file, cats[..|cats| - 1]) + Hits(file, cats[|cats| - 1])
  }

  /** The number of patterns of the whole table that match `file`. */
  function TotalHits(file: Path): nat
  {
    HitsIn(file, CategoryOrder)
  }

  /** The patterns of the table matching a file are those of its five categories together. */
  lemma TotalHitsSum(file: Path)
    ensures TotalHits(file)
         == Hits(file, Security) + Hits(file, Performance) + Hits(file, Boot) + Hits(file, System) + Hits(file, Critical)
    ensures TotalHits(file) > 0 <==> exists c :: Hits(file, c) > 0
  {
    var o := CategoryOrder;
    assert o[..4] == [Security, Performance, Boot, System];
    assert o[..4][..3] == [Security, Performance, Boot];
    assert o[..4][..3][..2] == [Security, Performance];
    assert o[..4][..3][..2][..1] == [Security];
    assert o[..4][..3][..2][..1][..0] == [];
    assert HitsIn(file, [Security]) == Hits(file, Security);
    assert HitsIn(file, [Security, Performance]) == Hits(file, Security) + Hits(file, Performance);
    assert HitsIn(file, [Security, Performance, Boot]) == HitsIn(file, [Security, Performance]) + Hits(file, Boot);
    assert HitsIn(file, o[..4]) == HitsIn(file, [Security, Performance, Boot]) + Hits(file, System);
    if exists c :: Hits(file, c) > 0 {
      var c :| Hits(file, c) > 0;
      assert c == Security || c == Performance || c == Boot || c == System || c == Critical;
    }
  }

  lemma CategoryOrderOnce(c: Category)
    ensures multiset(CategoryOrder)[c] == 1
  {
  }

  /** A match appends the technical block of its file, with the description the table's shape fixes. */
  lemma MatchStepTechnical(t: Table, st: (Accumulator, Table), file: Path, c: Category)
    requires SameShape(t, st.1)
    ensures MatchStep(st, file, c).0.technical == st.0.technical + TechnicalBlock(file, c, Resolve(t, file).0.description)
  {
    ResolveHistoryIndependent(t, st.1, file);
    MatchStepOf(st, file, c, Resolve(st.1, file).0, Resolve(st.1, file).1);
  }

  /** The pattern loop emits one block per matching pattern, with the description the table's shape fixes. */
  lemma {:induction false} PatternsFoldTechnical(t: Table, st: (Accumulator, Table), file: Path, c: Category, kws: seq<string>)
    requires SameShape(t, st.1)
    ensures PatternsFold(st, file, c, kws).0.technical
         == st.0.technical + Blocks(file, c, Resolve(t, file).0.description, MatchCount(Lower(file), kws))
    decreases |kws|
  {
    var d := Resolve(t, file).0.description;
    if kws != [] {
      var init := kws[..|kws| - 1];
      var prev := PatternsFold(st, file, c, init);
      var m := MatchCount(Lower(file), init);
      PatternsFoldTechnical(t, st, file, c, init);
      if Contains(Lower(file), kws[|kws| - 1]) {
        PatternsFoldGrows(st, file, c, init);
        ShapeTrans(t, st.1, prev.1);
        MatchStepTechnical(t, prev, file, c);
        assert MatchCount(Lower(file), kws) == m + 1;
        AppendAssoc(st.0.technical, Copies(TechnicalBlock(file, c, d), m), TechnicalBlock(file, c, d));
      } else {
        assert MatchCount(Lower(file), kws) == m;
      }
    }
  }

  lemma {:induction false} CategoriesFoldTechnical(t: Table, st: (Accumulator, Table), file: Path, cats: seq<Category>)
    requires SameShape(t, st.1)
    ensures CategoriesFold(st, file, cats).0.technical
         == st.0.technical + FileBlocks(file, Resolve(t, file).0.description, cats)
    decreases |cats|
  {
    if cats != [] {
      var d := Resolve(t, file).0.description;
      var init, c := cats[..|cats| - 1], cats[|cats| - 1];
      var prev := CategoriesFold(st, file, init);
      CategoriesFoldTechnical(t, st, file, init);
      CategoriesFoldGrows(st, file, init);
      ShapeTrans(t, st.1, prev.1);
      PatternsFoldTechnical(t, prev, file, c, Keywords(c));
      AppendAssoc(st.0.technical, FileBlocks(file, d, init), Blocks(file, c, d, Hits(file, c)));
    }
  }

  lemma {:induction false} FilesFoldTechnical(t: Table, st: (Accumulator, Table), files: seq<Path>)
    requires SameShape(t, st.1)
    ensures FilesFold(st, files).0.technical == st.0.technical + TechnicalOf(t, files)
    decreases |files|
  {
    if files != [] {
      var init, f := files[..|files| - 1], files[|files| - 1];
      var prev := FilesFold(st, init);
      FilesFoldTechnical(t, st, init);
      FilesFoldGrows(st, init);
      ShapeTrans(t, st.1, prev.1);
      CategoriesFoldTechnical(t, prev, f, CategoryOrder);
      AppendAssoc(st.0.technical, TechnicalOf(t, init), FileBlocks(f, Resolve(t, f).0.description, CategoryOrder));
    }
  }

  lemma AppendAssoc(a: seq<string>, b: seq<string>, c: seq<string>)
    ensures (a + b) + c == a + (b + c)
  {
  }

  /** How often `x` occurs in a non-empty list: in all but its last element, and once more if it is last. */
  lemma CountSnoc<T>(s: seq<T>, x: T)
    requires s != []
    ensures multiset(s)[x] == multiset(s[..|s| - 1])[x] + if x == s[|s| - 1] then 1 else 0
  {
    assert s == s[..|s| - 1] + [s[|s| - 1]];
  }

  lemma MulSucc(k: nat, h: nat, b: bool)
    ensures (k + if b then 1 else 0) * h == k * h + if b then h else 0
  {
  }

  /** Counting the lines of `n` blocks. */
  lemma BlocksCount(file: Path, c: Category, d: string, n: nat, f: Path, c': Category, d': string)
    ensures var b := Blocks(file, c, d, n);
      && multiset(b)[ComponentLine(f)] == (if f == file then n else 0)
      && multiset(b)[CategoryLine(c')] == (if c' == c then n else 0)
      && multiset(b)[DescriptionLine(d')] == (if d != "" && d' == d then n else 0)
  {
    TechnicalBlockLines(file, c, d, f, c', d');
    var b := TechnicalBlock(file, c, d);
    CopiesCount(b, n, ComponentLine(f));
    CopiesCount(b, n, CategoryLine(c'));
    CopiesCount(b, n, DescriptionLine(d'));
  }

  /** Counting the lines of one file's blocks over `cats`. */
  lemma {:induction false} FileBlocksCount(file: Path, d: string, cats: seq<Category>, f: Path, c': Category, d': string)
    ensures var b := FileBlocks(file, d, cats);
      && multiset(b)[ComponentLine(f)] == (if f == file then HitsIn(file, cats) else 0)
      && multiset(b)[CategoryLine(c')] == multiset(cats)[c'] * Hits(file, c')
      && multiset(b)[DescriptionLine(d')] == (if d != "" && d' == d then HitsIn(file, cats) else 0)
    decreases |cats|
  {
    if cats != [] {
      var init, c := cats[..|cats| - 1], cats[|cats| - 1];
      var b0, b1 := FileBlocks(file, d, init), Blocks(file, c, d, Hits(file, c));
      assert multiset(FileBlocks(file, d, cats)) == multiset(b0) + multiset(b1);
      FileBlocksCount(file, d, init, f, c', d');
      BlocksCount(file, c, d, Hits(file, c), f, c', d');
      CountSnoc(cats, c');
      MulSucc(multiset(init)[c'], Hits(file, c'), c' == c);
    }
  }

  /**
   * Counting the technical lines of the file loop: a file's component line
   * occurs once per matching pattern of the table for each time the file is
   * listed, and a category's line occurs as often as its counter says.
   */
  lemma {:induction false} TechnicalOfCount(t: Table, files: seq<Path>, f: Path, c: Category)
    ensures var lines := TechnicalOf(t, files);
      && multiset(lines)[ComponentLine(f)] == multiset(files)[f] * TotalHits(f)
      && multiset(lines)[CategoryLine(c)] == CategoryCount(files, c)
    decreases |files|
  {
    if files != [] {
      var init, g := files[..|files| - 1], files[|files| - 1];
      TechnicalOfCount(t, init, f, c);
      FileBlocksCount(g, Resolve(t, g).0.description, CategoryOrder, f, c, "");
      CategoryOrderOnce(c);
      CountSnoc(files, f);
      MulSucc(multiset(init)[f], TotalHits(f), f == g);
    }
  }

  /** A listed file with a matching pattern whose analysis has the description `d`. */
  ghost predicate DescribedAs(t: Table, files: seq<Path>, d: string)
  {
    exists g :: g in files && TotalHits(g) > 0 && d != "" && Resolve(t, g).0.description == d
  }

  /**
   * A description line occurs in the technical lines exactly when a listed
   * file with a matching pattern resolves to that non-empty description.
   */
  lemma {:induction false} TechnicalOfDescriptions(t: Table, files: seq<Path>, d: string)
    ensures DescriptionLine(d) in TechnicalOf(t, files) <==> DescribedAs(t, files, d)
    decreases |files|
  {
    if files != [] {
      var init, g := files[..|files| - 1], files[|files| - 1];
      var dg := Resolve(t, g).0.description;
      TechnicalOfDescriptions(t, init, d);
      FileBlocksCount(g, dg, CategoryOrder, g, Security, d);
      assert DescriptionLine(d) in FileBlocks(g, dg, CategoryOrder) <==> TotalHits(g) > 0 && d != "" && dg == d;
      DescribedAsSnoc(t, files, d);
    }
  }

  lemma DescribedAsSnoc(t: Table, files: seq<Path>, d: string)
    requires files != []
    ensures var g := files[|files| - 1];
      DescribedAs(t, files, d)
      <==> DescribedAs(t, files[..|files| - 1], d) || (TotalHits(g) > 0 && d != "" && Resolve(t, g).0.description == d)
  {
    var init, g := files[..|files| - 1], files[|files| - 1];
    assert files == init + [g];
    if DescribedAs(t, files, d) {
      var h :| h in files && TotalHits(h) > 0 && d != "" && Resolve(t, h).0.description == d;
      if h != g {
        assert h in init;
      }
    }
  }

  /** From the empty accumulator, the file loop's technical lines are the closed form. */
  lemma TechnicalOfFold(t: Table, files: seq<Path>)
    ensures FilesFold((EmptyAccumulator, t), files).0.technical == TechnicalOf(t, files)
  {
    FilesFoldTechnical(t, (EmptyAccumulator, t), files);
    assert [] + TechnicalOf(t, files) == TechnicalOf(t, files);
  }

  /**
   * The technical lines of the detailed analysis: exactly the closed form
   * `TechnicalOf`, so one block per (file, matching pattern) pair, with the
   * counts `TechnicalOfCount` states.
   */
  lemma FilesFoldTechnicalCount(t: Table, files: seq<Path>, f: Path, c: Category, d: string)
    ensures var lines := FilesFold((EmptyAccumulator, t), files).0.technical;
      && lines == TechnicalOf(t, files)
      && multiset(lines)[ComponentLine(f)] == multiset(files)[f] * TotalHits(f)
      && multiset(lines)[CategoryLine(c)] == CategoryCount(files, c)
      && (DescriptionLine(d) in lines <==> DescribedAs(t, files, d))
  {
    TechnicalOfFold(t, files);
    TechnicalOfCount(t, files, f, c);
    TechnicalOfDescriptions(t, files, d);
  }

  /** A heading names its file, and no impact entry line is a heading. */
  lemma ImpactBlockHeading(file: Path, a: ComponentAnalysis, f: Path)
    ensures ImpactHeading(f) in ImpactBlock(file, a) <==> f == file && a.impact != []
  {
    if a.impact != [] {
      var lines := ImpactLines(a.impact);
      assert ImpactHeading(f)[0] == '\n';
      assert forall i :: 0 <= i < |lines| ==> lines[i][0] == '-';
      if ImpactHeading(f) == ImpactHeading(file) {
        assert f == ImpactHeading(f)[1..|ImpactHeading(f)| - 1];
        assert file == ImpactHeading(file)[1..|ImpactHeading(file)| - 1];
      }
    }
  }

  lemma InPrefix(a: seq<string>, b: seq<string>, x: string)
    requires a <= b && x in a
    ensures x in b
  {
    var i :| 0 <= i < |a| && a[i] == x;
    assert b[i] == x;
  }

  lemma MemberSnoc(s: seq<Path>, x: Path)
    requires s != []
    ensures x in s <==> x in s[..|s| - 1] || x == s[|s| - 1]
  {
    assert s == s[..|s| - 1] + [s[|s| - 1]];
  }

  /** A matching pattern emits a heading for `file` exactly when the analysis of `file` has impact entries. */
  lemma MatchStepHeading(st: (Accumulator, Table), file: Path, c: Category, f: Path)
    ensures var r := MatchStep(st, file, c);
      && r.1 == Resolve(st.1, file).1
      && (ImpactHeading(f) in r.0.impact <==>
            ImpactHeading(f) in st.0.impact || (f == file && Resolve(st.1, file).0.impact != []))
  {
    var a := Resolve(st.1, file).0;
    MatchStepOf(st, file, c, a, Resolve(st.1, file).1);
    ImpactBlockHeading(file, a, f);
  }

  lemma {:induction false} PatternsFoldHeadings(st: (Accumulator, Table), file: Path, c: Category, kws: seq<string>, f: Path)
    ensures var r := PatternsFold(st, file, c, kws);
      && (ImpactHeading(f) in r.0.impact ==>
            ImpactHeading(f) in st.0.impact || (f == file && MatchCount(Lower(file), kws) > 0 && Described(st.1, file)))
      && (ImpactsFilled(st.1) ==> ImpactsFilled(r.1))
      && (ImpactsFilled(st.1) && f == file && MatchCount(Lower(file), kws) > 0 && Described(st.1, file) ==>
            ImpactHeading(f) in r.0.impact)
    decreases |kws|
  {
    if kws != [] {
      var init := kws[..|kws| - 1];
      var prev := PatternsFold(st, file, c, init);
      PatternsFoldHeadings(st, file, c, init, f);
      if Contains(Lower(file), kws[|kws| - 1]) {
        PatternsFoldGrows(st, file, c, init);
        DescribedShape(st.1, prev.1, file);
        ResolveImpact(prev.1, file);
        MatchStepHeading(prev, file, c, f);
      }
    }
  }

  lemma {:induction false} CategoriesFoldHeadings(st: (Accumulator, Table), file: Path, cats: seq<Category>, f: Path)
    ensures var r := CategoriesFold(st, file, cats);
      && (ImpactHeading(f) in r.0.impact ==>
            ImpactHeading(f) in st.0.impact || (f == file && HitsIn(file, cats) > 0 && Described(st.1, file)))
      && (ImpactsFilled(st.1) ==> ImpactsFilled(r.1))
      && (ImpactsFilled(st.1) && f == file && HitsIn(file, cats) > 0 && Described(st.1, file) ==>
            ImpactHeading(f) in r.0.impact)
    decreases |cats|
  {
    if cats != [] {
      var init, c := cats[..|cats| - 1], cats[|cats| - 1];
      var prev := CategoriesFold(st, file, init);
      var r := PatternsFold(prev, file, c, Keywords(c));
      CategoriesFoldHeadings(st, file, init, f);
      CategoriesFoldGrows(st, file, init);
      DescribedShape(st.1, prev.1, file);
      PatternsFoldHeadings(prev, file, c, Keywords(c), f);
      PatternsFoldGrows(prev, file, c, Keywords(c));
      if ImpactHeading(f) in prev.0.impact {
        InPrefix(prev.0.impact, r.0.impact, ImpactHeading(f));
      }
    }
  }

  lemma {:induction false} FilesFoldHeadings(st: (Accumulator, Table), files: seq<Path>, f: Path)
    ensures var r := FilesFold(st, files);
      && (ImpactHeading(f) in r.0.impact ==>
            ImpactHeading(f) in st.0.impact || (f in files && TotalHits(f) > 0 && Described(st.1, f)))
      && (ImpactsFilled(st.1) ==> ImpactsFilled(r.1))
      && (ImpactsFilled(st.1) && f in files && TotalHits(f) > 0 && Described(st.1, f) ==>
            ImpactHeading(f) in r.0.impact)
    decreases |files|
  {
    if files != [] {
      var init, g := files[..|files| - 1], files[|files| - 1];
      var prev := FilesFold(st, init);
      var r := CategoriesFold(prev, g, CategoryOrder);
      FilesFoldHeadings(st, init, f);
      FilesFoldGrows(st, init);
      DescribedShape(st.1, prev.1, f);
      CategoriesFoldHeadings(prev, g, CategoryOrder, f);
      CategoriesFoldGrows(prev, g, CategoryOrder);
      MemberSnoc(files, f);
      if ImpactHeading(f) in prev.0.impact {
        InPrefix(prev.0.impact, r.0.impact, ImpactHeading(f));
      }
    }
  }

  /**
   * The impact lines of the detailed analysis head a block for a file only
   * when the file is modified, some pattern matches it and a keyword or an
   * artifact marker gives it an analysis; on a knowledge base whose profiles
   * all have impact entries, as the declared one does, every such file gets
   * its heading.
   */
  lemma FilesFoldImpactHeadings(t: Table, files: seq<Path>, f: Path)
    ensures var lines := FilesFold((EmptyAccumulator, t), files).0.impact;
      && (ImpactHeading(f) in lines ==> f in files && TotalHits(f) > 0 && Described(t, f))
      && (ImpactsFilled(t) ==> (ImpactHeading(f) in lines <==> f in files && TotalHits(f) > 0 && Described(t, f)))
  {
    FilesFoldHeadings((EmptyAccumulator, t), files, f);
  }

  /** The summary's update priority. */
  function SummaryPriority(s: ChangeStats): string
  {
    if s.critical > 0 || s.security > 2 then "HIGH"
    else if s.security > 0 || s.performance > 2 then "MEDIUM"
    else "LOW"
  }

  /** The order of the priority labels. */
  function Rank(priority: string): nat
  {
    if priority == "HIGH" then 2 else if priority == "MEDIUM" then 1 else 0
  }

  /**
   * The priority of a set of modified files: HIGH when a critical component
   * is among them or more than two security patterns matched, MEDIUM when
   * otherwise a security pattern matched or more than two performance
   * patterns did, LOW when neither.
   */
  lemma PriorityOfFiles(files: seq<Path>)
    ensures var p := SummaryPriority(TallyOf(files).stats);
      var critical := exists f :: f in files && Hits(f, Critical) > 0;
      var security := CategoryCount(files, Security);
      && (p == "HIGH" <==> critical || security > 2)
      && (p == "MEDIUM" <==> !critical && security <= 2 && (security > 0 || CategoryCount(files, Performance) > 2))
      && (p == "LOW" <==> !critical && security == 0 && CategoryCount(files, Performance) <= 2)
  {
    CategoryCountPositive(files, Critical);
  }

  /** Modifying more files never lowers the summary priority. */
  lemma PriorityMonotone(files: seq<Path>, more: seq<Path>)
    ensures Rank(SummaryPriority(TallyOf(files).stats)) <= Rank(SummaryPriority(TallyOf(files + more).stats))
  {
    CategoryCountAppend(files, more, Security);
    CategoryCountAppend(files, more, Performance);
    CategoryCountAppend(files, more, Critical);
  }

  /** The three texts of the detailed analysis. */
  datatype Report = Report(summary: string, technical: string, impact: string)

  /** `â†’` as the source file spells the arrow. */
  const Arrow := "\U{E2}\U{2020}\U{2019}"
  /** `âœ“` as the source file spells the check mark. */
  const CheckMark := "\U{E2}\U{153}\U{201C}"

  function HeaderLines(now: string, firstArchive: Path, secondArchive: Path): seq<string>
  {
    var v1 := Version.ExtractVersion(Version.Basename(firstArchive));
    var v2 := Version.ExtractVersion(Version.Basename(secondArchive));
    ["=== IPSW Firmware Update Analysis ===\n",
     "Analysis Date: " + now,
     "Firmware Comparison: Version " + v1 + " " + Arrow + " " + v2 + "\n",
     "Key Findings:"]
  }

  function ListLines(items: seq<Path>): (lines: seq<string>)
    ensures |lines| == |items|
    ensures forall i :: 0 <= i < |items| ==> lines[i] == "- " + items[i]
  {
    if items == [] then [] else ["- " + items[0]] + ListLines(items[1..])
  }

  function CriticalLines(critical: seq<Path>): seq<string>
  {
    if critical == [] then []
    else
      ["\nCritical System Changes Detected:"] + ListLines(critical)
      + ["  These changes affect core system functionality and security"]
  }

  function SecurityLines(security: seq<Path>): seq<string>
  {
    if security == [] then []
    else ["\nSecurity-Related Modifications:",
          "- " + NatToString(|security|) + " security components modified",
          "- Updates include security patches and trust mechanism changes"]
  }

  function BootLines(s: ChangeStats): seq<string>
  {
    if s.boot == 0 then []
    else ["\nBoot System Changes:",
          "- Modified boot chain components detected",
          "- May affect device startup and security verification"]
  }

  function StatisticsLines(s: ChangeStats): seq<string>
  {
    ["\nChange Statistics:",
     "- Security Changes: " + NatToString(s.security),
     "- Performance Changes: " + NatToString(s.performance),
     "- Boot System Changes: " + NatToString(s.boot),
     "- System Components: " + NatToString(s.system),
     "- Critical Components: " + NatToString(s.critical)]
  }

  function TotalsLines(cs: TreeDiff.ChangeSet): seq<string>
  {
    ["\nTotal Changes:",
     "- Added files: " + NatToString(|cs.added|),
     "- Removed files: " + NatToString(|cs.removed|),
     "- Modified files: " + NatToString(|cs.modified|),
     "- Unchanged files: " + NatToString(|cs.unmodified|)]
  }

  function PriorityLines(s: ChangeStats): seq<string>
  {
    ["\nUpdate Analysis:", "Update Priority: " + SummaryPriority(s)]
  }

  function RecommendationLines(s: ChangeStats): seq<string>
  {
    ["\nRecommendations:"]
      + (if s.critical > 0 then [CheckMark + " Critical system update - install as soon as possible"] else [])
      + (if s.security > 0 then [CheckMark + " Contains important security improvements"] else [])
      + (if s.performance > 0 then [CheckMark + " Performance improvements included"] else [])
      + (if s.boot > 0 then [CheckMark + " Backup device before updating due to boot system changes"] else [])
  }

  function CompatibilityLines(system: seq<Path>, s: ChangeStats): seq<string>
  {
    if system == [] then []
    else
      ["\nCompatibility Notes:",
       "- This update modifies core system components",
       "- May require fresh system boot after installation"]
      + (if s.critical > 0 then ["- Could affect third-party app compatibility"] else [])
  }

  /** The summary lines, after the header, from the change set and the tally. */
  function SummaryLines(header: seq<string>, cs: TreeDiff.ChangeSet, t: Tally): seq<string>
  {
    header
      + CriticalLines(t.critical) + SecurityLines(t.security) + BootLines(t.stats)
      + StatisticsLines(t.stats) + TotalsLines(cs) + PriorityLines(t.stats)
      + RecommendationLines(t.stats) + CompatibilityLines(t.system, t.stats)
  }

  /**
   * The detailed analysis of a change set, together with the component table
   * as the analysis leaves it: `_analyze_component` runs once per matching
   * pattern and may write into the table.
   */
  function DetailedAnalysis(now: string, firstArchive: Path, secondArchive: Path, cs: TreeDiff.ChangeSet, t: Table): (Report, Table)
  {
    var st := FilesFold((EmptyAccumulator, t), cs.modified);
    (Report(Join(SummaryLines(HeaderLines(now, firstArchive, secondArchive), cs, st.0.tally), "\n"),
            Join(st.0.technical, "\n"),
            Join(st.0.impact, "\n")),
     st.1)
  }

  /** The detailed analysis leaves the table's keywords and descriptions as they were. */
  lemma DetailedAnalysisKeepsShape(now: string, firstArchive: Path, secondArchive: Path, cs: TreeDiff.ChangeSet, t: Table)
    ensures SameShape(t, DetailedAnalysis(now, firstArchive, secondArchive, cs, t).1)
  {
    FilesFoldGrows((EmptyAccumulator, t), cs.modified);
  }

  /** The summary states the priority that the counters of the modified files call for. */
  lemma DetailedAnalysisPriority(now: string, firstArchive: Path, secondArchive: Path, cs: TreeDiff.ChangeSet, t: Table)
    ensures Contains(DetailedAnalysis(now, firstArchive, secondArchive, cs, t).0.summary,
                     "Update Priority: " + SummaryPriority(TallyOf(cs.modified).stats))
  {
    FilesFoldTally(t, cs.modified);
    var lines := SummaryLines(HeaderLines(now, firstArchive, secondArchive), cs, TallyOf(cs.modified));
    JoinContainsMember(lines, "\n", "Update Priority: " + SummaryPriority(TallyOf(cs.modified).stats));
  }

  /** A line of the critical list, the statistics, the totals or the priority appears in the summary text. */
  lemma SummaryMember(header: seq<string>, cs: TreeDiff.ChangeSet, t: Tally, x: string)
    requires x in CriticalLines(t.critical) || x in StatisticsLines(t.stats) || x in TotalsLines(cs) || x in PriorityLines(t.stats)
    ensures Contains(Join(SummaryLines(header, cs, t), "\n"), x)
  {
    var lines := SummaryLines(header, cs, t);
    assert x in lines;
    JoinContainsMember(lines, "\n", x);
  }

  /** The summary text of a tally states the priority and the five counters. */
  lemma SummaryCounters(header: seq<string>, cs: TreeDiff.ChangeSet, files: seq<Path>)
    ensures var summary := Join(SummaryLines(header, cs, TallyOf(files)), "\n");
      && Contains(summary, "Update Priority: " + SummaryPriority(TallyOf(files).stats))
      && Contains(summary, "- Security Changes: " + NatToString(CategoryCount(files, Security)))
      && Contains(summary, "- Performance Changes: " + NatToString(CategoryCount(files, Performance)))
      && Contains(summary, "- Boot System Changes: " + NatToString(CategoryCount(files, Boot)))
      && Contains(summary, "- System Components: " + NatToString(CategoryCount(files, System)))
      && Contains(summary, "- Critical Components: " + NatToString(CategoryCount(files, Critical)))
  {
    var tally := TallyOf(files);
    var st := StatisticsLines(tally.stats);
    SummaryMember(header, cs, tally, PriorityLines(tally.stats)[1]);
    SummaryMember(header, cs, tally, st[1]);
    SummaryMember(header, cs, tally, st[2]);
    SummaryMember(header, cs, tally, st[3]);
    SummaryMember(header, cs, tally, st[4]);
    SummaryMember(header, cs, tally, st[5]);
  }

  /** The summary text states the four totals of the change set. */
  lemma SummaryTotals(header: seq<string>, cs: TreeDiff.ChangeSet, t: Tally)
    ensures var summary := Join(SummaryLines(header, cs, t), "\n");
      && Contains(summary, "- Added files: " + NatToString(|cs.added|))
      && Contains(summary, "- Removed files: " + NatToString(|cs.removed|))
      && Contains(summary, "- Modified files: " + NatToString(|cs.modified|))
      && Contains(summary, "- Unchanged files: " + NatToString(|cs.unmodified|))
  {
    var tot := TotalsLines(cs);
    SummaryMember(header, cs, t, tot[1]);
    SummaryMember(header, cs, t, tot[2]);
    SummaryMember(header, cs, t, tot[3]);
    SummaryMember(header, cs, t, tot[4]);
  }

  /** Every critical component has its own line in the critical block. */
  lemma CriticalListed(critical: seq<Path>, f: Path)
    requires f in critical
    ensures "- " + f in CriticalLines(critical)
  {
    var i :| 0 <= i < |critical| && critical[i] == f;
    assert ListLines(critical)[i] == "- " + f;
  }

  /** The summary text lists every file that a critical pattern matches. */
  lemma SummaryCritical(header: seq<string>, cs: TreeDiff.ChangeSet, files: seq<Path>)
    ensures forall f :: f in files && Hits(f, Critical) > 0 ==>
      Contains(Join(SummaryLines(header, cs, TallyOf(files)), "\n"), "- " + f)
  {
    var tally := TallyOf(files);
    forall f | f in files && Hits(f, Critical) > 0
      ensures Contains(Join(SummaryLines(header, cs, tally), "\n"), "- " + f)
    {
      CategoryListMembers(files, Critical, f);
      CriticalListed(tally.critical, f);
      SummaryMember(header, cs, tally, "- " + f);
    }
  }

  /**
   * What the detailed analysis states: the priority the statistics call for,
   * the counters and totals, every critical component, a technical block for
   * every modified file that a pattern matches; the table keeps its keywords
   * and descriptions.
   */
  lemma DetailedAnalysisStates(now: string, firstArchive: Path, secondArchive: Path, cs: TreeDiff.ChangeSet, t: Table)
    ensures var (r, t') := DetailedAnalysis(now, firstArchive, secondArchive, cs, t);
      var files := cs.modified;
      && Contains(r.summary, "Update Priority: " + SummaryPriority(TallyOf(files).stats))
      && Contains(r.summary, "- Security Changes: " + NatToString(CategoryCount(files, Security)))
      && Contains(r.summary, "- Performance Changes: " + NatToString(CategoryCount(files, Performance)))
      && Contains(r.summary, "- Boot System Changes: " + NatToString(CategoryCount(files, Boot)))
      && Contains(r.summary, "- System Components: " + NatToString(CategoryCount(files, System)))
      && Contains(r.summary, "- Critical Components: " + NatToString(CategoryCount(files, Critical)))
      && Contains(r.summary, "- Modified files: " + NatToString(|files|))
      && Contains(r.summary, "- Added files: " + NatToString(|cs.added|))
      && Contains(r.summary, "- Removed files: " + NatToString(|cs.removed|))
      && Contains(r.summary, "- Unchanged files: " + NatToString(|cs.unmodified|))
      && (forall f :: f in files && Hits(f, Critical) > 0 ==> Contains(r.summary, "- " + f))
      && (forall f, c :: f in files && Hits(f, c) > 0 ==> Contains(r.technical, "\nComponent: " + f))
      && SameShape(t, t')
  {
    var files := cs.modified;
    var st := FilesFold((EmptyAccumulator, t), files);
    FilesFoldTally(t, files);
    FilesFoldGrows((EmptyAccumulator, t), files);
    var header := HeaderLines(now, firstArchive, secondArchive);
    SummaryCounters(header, cs, files);
    SummaryTotals(header, cs, TallyOf(files));
    SummaryCritical(header, cs, files);
    forall f, c | f in files && Hits(f, c) > 0
      ensures Contains(Join(st.0.technical, "\n"), "\nComponent: " + f)
    {
      FilesFoldNames((EmptyAccumulator, t), files, f, c);
      JoinContainsMember(st.0.technical, "\n", "\nComponent: " + f);
    }
  }

  /**
   * The technical text of the detailed analysis joins the closed form
   * `TechnicalOf`: one block per (modified file, matching pattern) pair, in
   * file, category and pattern order, counted by `TechnicalOfCount`.
   */
  lemma DetailedAnalysisTechnical(now: string, firstArchive: Path, secondArchive: Path, cs: TreeDiff.ChangeSet, t: Table)
    ensures DetailedAnalysis(now, firstArchive, secondArchive, cs, t).0.technical == Join(TechnicalOf(t, cs.modified), "\n")
  {
    TechnicalOfFold(t, cs.modified);
    var st := FilesFold((EmptyAccumulator, t), cs.modified);
    assert DetailedAnalysis(now, firstArchive, secondArchive, cs, t).0.technical == Join(st.0.technical, "\n");
  }
}
