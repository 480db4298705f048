/**
 * The component knowledge base (`component_knowledge`) and the resolution
 * rule of `_analyze_component`.
 *
 * The knowledge base is an ordered table from a component keyword to a
 * profile: a description and an ordered impact dictionary.  Resolution takes
 * the first keyword, in table order, that occurs case-insensitively in the
 * file name, then applies one case-sensitive artifact rule (`dmg.trustcache`,
 * else `.root_hash`, else `.plist`).  The artifact rule writes into the
 * impact dictionary the resolution copied from the table, and that dictionary
 * is the table's own object: the write stays in the table.  `Resolve`
 * therefore returns the analysis together with the table afterwards.
 */
module ComponentKnowledge {
  import opened Text

  datatype Option<T> = None | Some(value: T)

  /** An insertion-ordered dictionary from strings to strings. */
  type Dict = seq<(string, string)>

  /** `d.get(k)`: the value of the first entry with key `k`. */
  function Get(d: Dict, k: string): Option<string>
  {
    if d == [] then None else if d[0].0 == k then Some(d[0].1) else Get(d[1..], k)
  }

  /** `d[k] = v`: an existing key keeps its place, a new key goes last. */
  function Put(d: Dict, k: string, v: string): (r: Dict)
    ensures KeysOf(r) == if k in KeysOf(d) then KeysOf(d) else KeysOf(d) + [k]
    ensures Get(r, k) == Some(v)
    ensures forall k' :: k' != k ==> Get(r, k') == Get(d, k')
  {
    if d == [] then [(k, v)]
    else if d[0].0 == k then [(k, v)] + d[1..]
    else [d[0]] + Put(d[1..], k, v)
  }

  /** Writing the same value twice is the same as writing it once. */
  lemma {:induction false} PutIdempotent(d: Dict, k: string, v: string)
    ensures Put(Put(d, k, v), k, v) == Put(d, k, v)
  {
    if d != [] && d[0].0 != k {
      PutIdempotent(d[1..], k, v);
      assert Put(d, k, v)[1..] == Put(d[1..], k, v);
    }
  }

  datatype Profile = Profile(description: string, impact: Dict)

  /** The knowledge base: component keyword and profile, in declaration order. */
  type Table = seq<(string, Profile)>

  const ComponentKeys: seq<string> := ["kernelcache", "iBoot", "trustcache", "root_hash"]

  /** The knowledge base as `_initialize_knowledge_bases` builds it. */
  const InitialTable: Table := [
    ("kernelcache", Profile("Core operating system kernel", [
      ("security", "May contain critical security patches and vulnerability fixes"),
      ("performance", "Could affect system stability and overall device performance"),
      ("battery", "Might impact power management and battery life"),
      ("features", "May enable or modify kernel-level features")])),
    ("iBoot", Profile("Bootloader responsible for system initialization", [
      ("security", "Changes could affect secure boot chain and system security"),
      ("performance", "May modify boot time and system initialization"),
      ("recovery", "Could impact device recovery and update procedures")])),
    ("trustcache", Profile("Security certificate and trust management system", [
      ("security", "Updates to security certificates and trust relationships"),
      ("compatibility", "May affect app signing verification and system trust"),
      ("features", "Could modify allowed system operations and app capabilities")])),
    ("root_hash", Profile("System integrity verification component", [
      ("security", "Changes in system file verification mechanism"),
      ("integrity", "Updates to system integrity checking"),
      ("recovery", "May affect system restore and recovery processes")]))
  ]

  /** What a table built from the initial one keeps: its keywords, in order, and their descriptions. */
  ghost predicate SameShape(t: Table, u: Table)
  {
    |t| == |u| && forall i :: 0 <= i < |t| ==> t[i].0 == u[i].0 && t[i].1.description == u[i].1.description
  }

  lemma ShapeTrans(t: Table, u: Table, v: Table)
    ensures SameShape(t, u) && SameShape(u, v) ==> SameShape(t, v)
  {
  }

  datatype ComponentAnalysis = ComponentAnalysis(componentType: string, description: string, impact: Dict)

  const UnknownComponent := ComponentAnalysis("unknown", "", [])

  /** The position, from `from` on, of the first keyword that occurs in the lower-cased `name`. */
  function FirstKeyMatch(t: Table, name: string, from: nat): (r: Option<nat>)
    requires from <= |t|
    ensures r.Some? ==> from <= r.value < |t| && Contains(Lower(name), Lower(t[r.value].0))
    ensures r.Some? ==> forall k :: from <= k < r.value ==> !Contains(Lower(name), Lower(t[k].0))
    ensures r.None? ==> forall k :: from <= k < |t| ==> !Contains(Lower(name), Lower(t[k].0))
    decreases |t| - from
  {
    if from == |t| then None
    else if Contains(Lower(name), Lower(t[from].0)) then Some(from)
    else FirstKeyMatch(t, name, from + 1)
  }

  /** The case-sensitive artifact rules, tried in this order. */
  datatype Artifact = TrustCacheImage | RootHash | PropertyList | NoArtifact

  function ArtifactOf(name: string): Artifact
  {
    if Contains(name, "dmg.trustcache") then TrustCacheImage
    else if Contains(name, ".root_hash") then RootHash
    else if Contains(name, ".plist") then PropertyList
    else NoArtifact
  }

  /** What an artifact rule sets: the description and one entry of the impact dictionary. */
  datatype Rule = Rule(description: string, key: string, value: string)

  function ArtifactRule(a: Artifact): Option<Rule>
  {
    match a
    case TrustCacheImage =>
      Some(Rule("Trust cache component containing security certificates and trust data",
                "security", "Updates to system security certificates and trust relationships"))
    case RootHash =>
      Some(Rule("Root hash for system integrity verification",
                "security", "Changes to system integrity verification mechanism"))
    case PropertyList =>
      Some(Rule("System configuration file",
                "configuration", "Changes to system settings and configurations"))
    case NoArtifact => None
  }

  /** The analysis that the keyword scan alone gives. */
  function KeywordAnalysis(t: Table, name: string): ComponentAnalysis
  {
    match FirstKeyMatch(t, name, 0)
    case Some(k) => ComponentAnalysis(t[k].0, t[k].1.description, t[k].1.impact)
    case None => UnknownComponent
  }

  /**
   * The artifact rule `rule` of `_analyze_component`, applied to the keyword
   * scan's result `base`, found at entry `m` of `t`: when an entry matched,
   * the analysis shares that entry's impact dictionary, so the entry sees
   * the write as well.
   */
  function ArtifactStep(t: Table, rule: Option<Rule>, m: Option<nat>, base: ComponentAnalysis): (ComponentAnalysis, Table)
    requires m.Some? ==> m.value < |t|
  {
    match rule
    case None => (base, t)
    case Some(r) =>
      var impact := Put(base.impact, r.key, r.value);
      var analysis := base.(description := r.description, impact := impact);
      match m
      case Some(k) => (analysis, t[k := (t[k].0, t[k].1.(impact := impact))])
      case None => (analysis, t)
  }

  /**
   * `_analyze_component` on the knowledge base `t`: the analysis of `name`
   * and the knowledge base afterwards, which carries the artifact rule's
   * write in the matched profile's impact dictionary.
   */
  function Resolve(t: Table, name: string): (ComponentAnalysis, Table)
  {
    ArtifactStep(t, ArtifactRule(ArtifactOf(name)), FirstKeyMatch(t, name, 0), KeywordAnalysis(t, name))
  }

  /** Resolution keeps the component type of the keyword scan. */
  lemma ResolveKeepsKeyword(t: Table, name: string)
    ensures Resolve(t, name).0.componentType == KeywordAnalysis(t, name).componentType
  {
  }

  /**
   * The component type is the first keyword, in table order, contained
   * case-insensitively in the name, and no earlier keyword is contained;
   * with no keyword contained the type is `unknown`.
   */
  lemma ResolveComponentType(t: Table, name: string)
    ensures (exists k :: 0 <= k < |t| && Contains(Lower(name), Lower(t[k].0))) ==>
      exists k :: 0 <= k < |t| && Resolve(t, name).0.componentType == t[k].0
        && Contains(Lower(name), Lower(t[k].0))
        && forall k' :: 0 <= k' < k ==> !Contains(Lower(name), Lower(t[k'].0))
    ensures (forall k :: 0 <= k < |t| ==> !Contains(Lower(name), Lower(t[k].0))) ==>
      Resolve(t, name).0.componentType == "unknown"
  {
    ResolveKeepsKeyword(t, name);
    var r := FirstKeyMatch(t, name, 0);
    if r.Some? {
      assert KeywordAnalysis(t, name).componentType == t[r.value].0;
    }
  }

  /**
   * With no keyword contained and none of the three artifact markers present
   * (case-sensitively), the analysis is `unknown` with an empty description
   * and no impact, and the table is left alone.
   */
  lemma ResolveUnknown(t: Table, name: string)
    requires forall k :: 0 <= k < |t| ==> !Contains(Lower(name), Lower(t[k].0))
    requires !Contains(name, "dmg.trustcache") && !Contains(name, ".root_hash") && !Contains(name, ".plist")
    ensures Resolve(t, name) == (UnknownComponent, t)
  {
  }

  /**
   * The rule each case-sensitive marker selects, the first marker in the
   * order `dmg.trustcache`, `.root_hash`, `.plist` winning; a name with none
   * of them has no rule.
   */
  lemma ArtifactMarkers(name: string)
    ensures var rule := ArtifactRule(ArtifactOf(name));
      && (Contains(name, "dmg.trustcache") ==>
            rule == Some(Rule("Trust cache component containing security certificates and trust data",
                              "security", "Updates to system security certificates and trust relationships")))
      && (!Contains(name, "dmg.trustcache") && Contains(name, ".root_hash") ==>
            rule == Some(Rule("Root hash for system integrity verification",
                              "security", "Changes to system integrity verification mechanism")))
      && (!Contains(name, "dmg.trustcache") && !Contains(name, ".root_hash") && Contains(name, ".plist") ==>
            rule == Some(Rule("System configuration file",
                              "configuration", "Changes to system settings and configurations")))
      && (!Contains(name, "dmg.trustcache") && !Contains(name, ".root_hash") && !Contains(name, ".plist") ==>
            rule == None)
  {
  }

  /**
   * An artifact rule decides the description and adds its impact entry,
   * whatever keyword matched; without one the analysis is the keyword
   * scan's.
   */
  lemma ResolveArtifact(t: Table, name: string)
    ensures var a := Resolve(t, name).0;
      match ArtifactRule(ArtifactOf(name))
      case Some(r) => a.componentType == KeywordAnalysis(t, name).componentType
                      && a.description == r.description && Get(a.impact, r.key) == Some(r.value)
      case None => a == KeywordAnalysis(t, name)
  {
    ArtifactStepAnalysis(t, ArtifactRule(ArtifactOf(name)), FirstKeyMatch(t, name, 0), KeywordAnalysis(t, name));
  }

  /** An artifact rule sets its description and impact entry; without one the analysis is left alone. */
  lemma ArtifactStepAnalysis(t: Table, rule: Option<Rule>, m: Option<nat>, base: ComponentAnalysis)
    requires m.Some? ==> m.value < |t|
    ensures var a := ArtifactStep(t, rule, m, base).0;
      && (rule.None? ==> a == base)
      && (rule.Some? ==>
            a.componentType == base.componentType && a.description == rule.value.description
            && Get(a.impact, rule.value.key) == Some(rule.value.value))
  {
  }

  /** An artifact rule changes at most the impact of entry `m`, and that impact is the one handed out. */
  lemma ArtifactStepTable(t: Table, rule: Option<Rule>, m: Option<nat>, base: ComponentAnalysis)
    requires m.Some? ==> m.value < |t|
    ensures var (a, u) := ArtifactStep(t, rule, m, base);
      && SameShape(t, u)
      && (forall k :: 0 <= k < |t| && m != Some(k) ==> u[k] == t[k])
      && (m.Some? && rule.Some? ==> u[m.value].1.impact == a.impact)
      && (rule.None? ==> u == t)
  {
  }

  /** Applying a rule again, to the entry it wrote, changes nothing more. */
  lemma ArtifactStepAgain(t: Table, rule: Option<Rule>, m: Option<nat>, base: ComponentAnalysis, again: ComponentAnalysis)
    requires m.Some? ==> m.value < |t| && base == ComponentAnalysis(t[m.value].0, t[m.value].1.description, t[m.value].1.impact)
    requires var u := ArtifactStep(t, rule, m, base).1;
      && (m.None? ==> again == base)
      && (m.Some? ==> again == ComponentAnalysis(u[m.value].0, u[m.value].1.description, u[m.value].1.impact))
    ensures var (a, u) := ArtifactStep(t, rule, m, base);
      ArtifactStep(u, rule, m, again) == (a, u)
  {
    var (a, u) := ArtifactStep(t, rule, m, base);
    if rule.Some? {
      PutIdempotent(base.impact, rule.value.key, rule.value.value);
      if m.Some? {
        var k := m.value;
        assert u[k := (u[k].0, u[k].1.(impact := a.impact))] == u;
      }
    }
  }

  /** On tables of the same shape, a rule applied to analyses of the same type and description keeps them alike. */
  lemma ArtifactStepShape(t: Table, u: Table, rule: Option<Rule>, m: Option<nat>, bt: ComponentAnalysis, bu: ComponentAnalysis)
    requires SameShape(t, u) && (m.Some? ==> m.value < |t|)
    requires bt.componentType == bu.componentType && bt.description == bu.description
    ensures var (at, t') := ArtifactStep(t, rule, m, bt);
      var (au, u') := ArtifactStep(u, rule, m, bu);
      at.componentType == au.componentType && at.description == au.description && SameShape(t', u')
  {
    ArtifactStepTable(t, rule, m, bt);
    ArtifactStepTable(u, rule, m, bu);
  }

  /**
   * What resolution does to the table: keywords and descriptions stay; the
   * matched profile's impact becomes exactly the impact handed out (the two
   * are one object); every other profile is untouched.
   */
  lemma ResolveTableEffect(t: Table, name: string)
    ensures SameShape(t, Resolve(t, name).1)
    ensures forall k :: 0 <= k < |t| && FirstKeyMatch(t, name, 0) != Some(k) ==> Resolve(t, name).1[k] == t[k]
    ensures FirstKeyMatch(t, name, 0).Some? ==>
      Resolve(t, name).1[FirstKeyMatch(t, name, 0).value].1.impact == Resolve(t, name).0.impact
  {
    var m := FirstKeyMatch(t, name, 0);
    var base := KeywordAnalysis(t, name);
    ArtifactStepTable(t, ArtifactRule(ArtifactOf(name)), m, base);
    if m.Some? && ArtifactOf(name) == NoArtifact {
      assert Resolve(t, name).0 == base;
    }
  }

  /** The keyword scan looks at keywords only. */
  lemma {:induction false} FirstKeyMatchShape(t: Table, u: Table, name: string, from: nat)
    requires SameShape(t, u) && from <= |t|
    ensures FirstKeyMatch(t, name, from) == FirstKeyMatch(u, name, from)
    decreases |t| - from
  {
    if from < |t| {
      FirstKeyMatchShape(t, u, name, from + 1);
    }
  }

  /**
   * Component type and description do not depend on what earlier
   * resolutions wrote into the table; only the impact does.
   */
  lemma ResolveHistoryIndependent(t: Table, u: Table, name: string)
    requires SameShape(t, u)
    ensures Resolve(t, name).0.componentType == Resolve(u, name).0.componentType
    ensures Resolve(t, name).0.description == Resolve(u, name).0.description
    ensures SameShape(Resolve(t, name).1, Resolve(u, name).1)
  {
    FirstKeyMatchShape(t, u, name, 0);
    ArtifactStepShape(t, u, ArtifactRule(ArtifactOf(name)), FirstKeyMatch(t, name, 0),
                      KeywordAnalysis(t, name), KeywordAnalysis(u, name));
  }

  /** Resolving the same name again gives the same analysis and leaves the table as the first call left it. */
  lemma ResolveIdempotent(t: Table, name: string)
    ensures var (a, u) := Resolve(t, name);
      Resolve(u, name) == (a, u)
  {
    var m := FirstKeyMatch(t, name, 0);
    var rule := ArtifactRule(ArtifactOf(name));
    var base := KeywordAnalysis(t, name);
    var u := Resolve(t, name).1;
    ArtifactStepTable(t, rule, m, base);
    FirstKeyMatchShape(t, u, name, 0);
    ArtifactStepAgain(t, rule, m, base, KeywordAnalysis(u, name));
  }

  /**
   * Through the shared impact dictionary, an artifact rule applied while
   * analysing one file shows up in the analysis of a later file that matches
   * the same keyword and no artifact rule.
   */
  lemma ImpactCarriesOver(t: Table, first: string, second: string)
    requires FirstKeyMatch(t, first, 0).Some?
    requires FirstKeyMatch(t, second, 0) == FirstKeyMatch(t, first, 0)
    requires ArtifactOf(second) == NoArtifact
    ensures Resolve(Resolve(t, first).1, second).0.impact == Resolve(t, first).0.impact
  {
    var u := Resolve(t, first).1;
    ResolveTableEffect(t, first);
    FirstKeyMatchShape(t, u, second, 0);
  }

  /** Resolution has something to say about `name`: a keyword occurs in it or an artifact marker does. */
  predicate Described(t: Table, name: string)
  {
    FirstKeyMatch(t, name, 0).Some? || ArtifactOf(name) != NoArtifact
  }

  /** Every profile of the knowledge base has at least one impact entry. */
  ghost predicate ImpactsFilled(t: Table)
  {
    forall k :: 0 <= k < |t| ==> t[k].1.impact != []
  }

  lemma InitialImpactsFilled()
    ensures ImpactsFilled(InitialTable)
  {
  }

  lemma DescribedShape(t: Table, u: Table, name: string)
    requires SameShape(t, u)
    ensures Described(t, name) <==> Described(u, name)
  {
    FirstKeyMatchShape(t, u, name, 0);
  }

  /** An analysis with impact entries comes from a keyword or an artifact marker. */
  lemma ResolveImpactDescribed(t: Table, name: string)
    ensures Resolve(t, name).0.impact != [] ==> Described(t, name)
  {
    var rule := ArtifactRule(ArtifactOf(name));
    if rule.None? && FirstKeyMatch(t, name, 0).None? {
      ResolveUnknown(t, name);
    }
  }

  /**
   * On a knowledge base whose profiles all have impact entries, a name with
   * a keyword or an artifact marker gets impact entries, and resolution keeps
   * every profile filled.
   */
  lemma ResolveImpactFilled(t: Table, name: string)
    requires ImpactsFilled(t)
    ensures Described(t, name) ==> Resolve(t, name).0.impact != []
    ensures ImpactsFilled(Resolve(t, name).1)
  {
    var a := ArtifactOf(name);
    var m := FirstKeyMatch(t, name, 0);
    assert a != NoArtifact ==> ArtifactRule(a).Some?;
    ArtifactStepFilled(t, ArtifactRule(a), m, KeywordAnalysis(t, name));
  }

  /** An artifact step on a filled knowledge base keeps it filled, and hands out impact entries whenever something matched. */
  lemma ArtifactStepFilled(t: Table, rule: Option<Rule>, m: Option<nat>, base: ComponentAnalysis)
    requires m.Some? ==> m.value < |t| && base.impact == t[m.value].1.impact
    requires ImpactsFilled(t)
    ensures ImpactsFilled(ArtifactStep(t, rule, m, base).1)
    ensures m.Some? || rule.Some? ==> ArtifactStep(t, rule, m, base).0.impact != []
  {
    ArtifactStepTable(t, rule, m, base);
    ArtifactStepAnalysis(t, rule, m, base);
  }

  /**
   * An analysis with impact entries comes from a keyword or an artifact
   * marker.  On a knowledge base whose profiles all have impact entries, as
   * the declared one does, the converse holds too and resolution keeps every
   * profile filled.
   */
  lemma ResolveImpact(t: Table, name: string)
    ensures Resolve(t, name).0.impact != [] ==> Described(t, name)
    ensures ImpactsFilled(t) ==>
      (Resolve(t, name).0.impact != [] <==> Described(t, name)) && ImpactsFilled(Resolve(t, name).1)
  {
    ResolveImpactDescribed(t, name);
    if ImpactsFilled(t) {
      ResolveImpactFilled(t, name);
    }
  }
}
