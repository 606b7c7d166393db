/**
 * The reporting policy of `AnalyzeProjectCompilation`, once the compiler
 * and the analyzers have produced their diagnostics: which diagnostics
 * belong to the plugins, how their errors are tallied per plugin, and which
 * group of diagnostics is shown.
 */
module Diagnostics {
  import opened Wrappers
  import opened Text
  import opened Seqs
  import opened Syntax
  import opened Counts

  /** `DiagnosticSeverity`, in declaration order. */
  datatype Severity = Hidden | Info | Warning | Error

  /** The enum's underlying value, which `>=` and `OrderByDescending` compare. */
  function Rank(s: Severity): nat {
    match s
    case Hidden => 0
    case Info => 1
    case Warning => 2
    case Error => 3
  }

  /**
   * A compiler or analyzer diagnostic: `path` is its syntax tree's file
   * path (absent when it has none), `span` its line span.
   */
  datatype Diagnostic = Diagnostic(id: string, severity: Severity, inSource: bool, path: Option<string>, span: Span, message: string)

  /** `{sep}plugins{sep}` for the platform's directory separator. */
  function PluginsMarker(sep: char): (m: string)
    ensures |m| == 9 && m[0] == sep && m[8] == sep
  {
    [sep] + "plugins" + [sep]
  }

  // ---------------------------------------------------------------------------
  // Which diagnostics are reported
  // ---------------------------------------------------------------------------

  /**
   * The path test: with a plugin name, the file must lie in that plugin's
   * directory; otherwise it must lie under some `plugins` directory,
   * written with either separator.
   */
  predicate InPluginTree(d: Diagnostic, specific: string, sep: char) {
    if specific != "" && d.path.Some? then Contains(d.path.value, PluginsMarker(sep) + specific + [sep])
    else d.path.Some? && (Contains(d.path.value, "/plugins/") || Contains(d.path.value, "\\plugins\\"))
  }

  /** A warning or an error, located in source, in the plugin tree. */
  predicate IsReported(d: Diagnostic, specific: string, sep: char) {
    Rank(d.severity) >= Rank(Warning) && d.inSource && InPluginTree(d, specific, sep)
  }

  function ReportedTest(specific: string, sep: char): Diagnostic -> bool {
    (d: Diagnostic) => IsReported(d, specific, sep)
  }

  /** `filteredDiagnostics`; `specific` is empty when no plugin is named. */
  function Reported(ds: seq<Diagnostic>, specific: string, sep: char): seq<Diagnostic> {
    Filter(ds, ReportedTest(specific, sep))
  }

  /**
   * A diagnostic is reported exactly when it is a warning or an error, in
   * source, with a path under the named plugin's directory or, with no
   * name, under a `plugins` directory.
   */
  lemma ReportedSpec(ds: seq<Diagnostic>, specific: string, sep: char)
    ensures forall d :: d in Reported(ds, specific, sep) <==>
      d in ds && (d.severity == Warning || d.severity == Error) && d.inSource && d.path.Some? &&
      (if specific != "" then Contains(d.path.value, PluginsMarker(sep) + specific + [sep])
       else Contains(d.path.value, "/plugins/") || Contains(d.path.value, "\\plugins\\"))
  {
    var r := Reported(ds, specific, sep);
    forall d | d in r ensures d in ds && IsReported(d, specific, sep) {
      var k :| 0 <= k < |r| && r[k] == d;
    }
    forall d | d in ds && IsReported(d, specific, sep) ensures d in r {
      var k :| 0 <= k < |ds| && ds[k] == d;
    }
  }

  /** A diagnostic reported for a named plugin is reported with no name too. */
  lemma NamedIsReported(d: Diagnostic, specific: string, sep: char)
    requires sep == '/' || sep == '\\'
    requires IsReported(d, specific, sep)
    ensures IsReported(d, "", sep)
  {
    if specific != "" && d.path.Some? {
      var path := d.path.value;
      assert PluginsMarker(sep) + specific + [sep] == PluginsMarker(sep) + (specific + [sep]);
      ContainsPrefix(path, PluginsMarker(sep), specific + [sep]);
      if sep == '/' {
        assert PluginsMarker(sep) == "/plugins/";
      } else {
        assert PluginsMarker(sep) == "\\plugins\\";
      }
    }
  }

  /** Naming a plugin only narrows the reported diagnostics. */
  lemma NamingPluginNarrows(ds: seq<Diagnostic>, specific: string, sep: char)
    requires sep == '/' || sep == '\\'
    ensures forall d :: d in Reported(ds, specific, sep) ==> d in Reported(ds, "", sep)
  {
    var r := Reported(ds, specific, sep);
    forall d | d in r ensures d in Reported(ds, "", sep) {
      var k :| 0 <= k < |r| && r[k] == d;
      NamedIsReported(d, specific, sep);
      var m :| 0 <= m < |ds| && ds[m] == d;
      assert ReportedTest("", sep)(ds[m]);
    }
  }

  // ---------------------------------------------------------------------------
  // The per-plugin error tally
  // ---------------------------------------------------------------------------

  /**
   * The key an error is counted under: the path segment that follows the
   * first `{sep}plugins{sep}` (found ignoring case). Only errors count,
   * and only when the plugins root is known (`rootKnown`).
   */
  function TallyKey(d: Diagnostic, sep: char, rootKnown: bool): (r: Option<string>)
    ensures r.Some? <==> (d.severity == Error && rootKnown && d.path.Some? &&
      exists i :: OccursAtIgnoreCase(d.path.value, PluginsMarker(sep), i))
    ensures r.Some? ==> sep !in r.value
  {
    if d.severity != Error || d.path.None? || !rootKnown then None
    else
      var path := d.path.value;
      var idx := IndexOfIgnoreCase(path, PluginsMarker(sep));
      if idx < 0 then None
      else Some(BeforeFirst(path[idx + 9..], sep))
  }

  /** The counts after tallying `ds` in order. */
  function Tally(m: map<string, nat>, ds: seq<Diagnostic>, sep: char, rootKnown: bool): (r: map<string, nat>)
    ensures m.Keys <= r.Keys
    ensures forall k :: CountOf(m, k) <= CountOf(r, k)
    decreases |ds|
  {
    if ds == [] then m
    else
      var prev := Tally(m, ds[..|ds| - 1], sep, rootKnown);
      match TallyKey(ds[|ds| - 1], sep, rootKnown)
      case None => prev
      case Some(k) => Added(prev, k, 1)
  }

  function TalliedUnder(k: string, sep: char, rootKnown: bool): Diagnostic -> bool {
    (d: Diagnostic) => TallyKey(d, sep, rootKnown) == Some(k)
  }

  /** Each plugin's count rises by exactly the number of its tallied errors. */
  lemma {:induction false} TallyCounts(m: map<string, nat>, ds: seq<Diagnostic>, sep: char, rootKnown: bool, k: string)
    ensures CountOf(Tally(m, ds, sep, rootKnown), k) == CountOf(m, k) + |Filter(ds, TalliedUnder(k, sep, rootKnown))|
    decreases |ds|
  {
    if ds != [] {
      TallyCounts(m, ds[..|ds| - 1], sep, rootKnown, k);
      FilterSnoc(ds, TalliedUnder(k, sep, rootKnown));
    }
  }

  /**
   * An error in a file below `{sep}plugins{sep}name{sep}`, where the
   * plugins directory is the first one on the path, is counted under
   * `name`.
   */
  lemma TallyKeyOfPluginFile(d: Diagnostic, prefix: string, name: string, rest: string, sep: char)
    requires sep !in name
    requires d.severity == Error && d.path == Some(prefix + PluginsMarker(sep) + name + [sep] + rest)
    requires forall i :: 0 <= i < |prefix| ==> !OccursAtIgnoreCase(d.path.value, PluginsMarker(sep), i)
    ensures TallyKey(d, sep, true) == Some(name)
  {
    var path := d.path.value;
    var marker := PluginsMarker(sep);
    var tail := name + [sep] + rest;
    assert path == prefix + marker + tail;
    OccursAtIgnoreCaseSelf(prefix, marker, tail);
    IndexOfIgnoreCaseAt(path, marker, |prefix|);
    assert path[|prefix| + 9..] == tail;
    JoinHead(name, sep, rest);
  }

  // ---------------------------------------------------------------------------
  // Priority levels
  // ---------------------------------------------------------------------------

  /** A configured priority level: the diagnostic ids it groups. */
  datatype PriorityLevel = PriorityLevel(level: int, name: string, rules: seq<string>)

  function LevelOf(p: PriorityLevel): int { p.level }

  function RulesOf(p: PriorityLevel): seq<string> { p.rules }

  function InRules(rules: seq<string>): Diagnostic -> bool {
    (d: Diagnostic) => d.id in rules
  }

  function NotInRules(rules: seq<string>): Diagnostic -> bool {
    (d: Diagnostic) => d.id !in rules
  }

  /** The key under which `OrderByDescending(d => d.Severity)` sorts ascending. */
  function SeverityDescending(d: Diagnostic): int { -(Rank(d.severity) as int) }

  /** `OrderByDescending(d => d.Severity)`: stable, most severe first. */
  function BySeverity(ds: seq<Diagnostic>): seq<Diagnostic> {
    SortBy(ds, SeverityDescending)
  }

  /** The diagnostics a level groups. */
  function LevelMatches(l: PriorityLevel, ds: seq<Diagnostic>): seq<Diagnostic> {
    Filter(ds, InRules(l.rules))
  }

  /** Every rule of every level. */
  function AllRules(levels: seq<PriorityLevel>): seq<string> {
    FlatMap(levels, RulesOf)
  }

  /** The position of the first level that groups some diagnostic. */
  function FirstLevel(levels: seq<PriorityLevel>, ds: seq<Diagnostic>): (r: Option<nat>)
    ensures r.Some? ==> (r.value < |levels| && LevelMatches(levels[r.value], ds) != [] &&
      forall j :: 0 <= j < r.value ==> LevelMatches(levels[j], ds) == [])
    ensures r.None? ==> forall j :: 0 <= j < |levels| ==> LevelMatches(levels[j], ds) == []
  {
    if levels == [] then None
    else if LevelMatches(levels[0], ds) != [] then Some(0)
    else
      match FirstLevel(levels[1..], ds)
      case None => None
      case Some(i) => Some(i + 1)
  }

  lemma FirstLevelAt(levels: seq<PriorityLevel>, ds: seq<Diagnostic>, i: nat)
    requires i < |levels| && LevelMatches(levels[i], ds) != []
    requires forall j :: 0 <= j < i ==> LevelMatches(levels[j], ds) == []
    ensures FirstLevel(levels, ds) == Some(i)
  {
  }

  lemma FirstLevelNone(levels: seq<PriorityLevel>, ds: seq<Diagnostic>)
    requires forall j :: 0 <= j < |levels| ==> LevelMatches(levels[j], ds) == []
    ensures FirstLevel(levels, ds) == None
  {
  }

  /** What is shown: one level's diagnostics, the unprioritized ones, or nothing. */
  datatype Display =
    | LevelIssues(level: PriorityLevel, shown: seq<Diagnostic>)
    | UnprioritizedIssues(levelCount: nat, shown: seq<Diagnostic>)
    | NoIssues

  /**
   * The levels in ascending `Level` order; the first that groups some
   * reported diagnostic is shown, most severe first. When none does, the
   * diagnostics whose id is in no level's rules are shown, if any.
   */
  function Bucket(levels: seq<PriorityLevel>, ds: seq<Diagnostic>): Display {
    var sorted := SortBy(levels, LevelOf);
    match FirstLevel(sorted, ds)
    case Some(i) => LevelIssues(sorted[i], BySeverity(LevelMatches(sorted[i], ds)))
    case None =>
      var rest := Filter(ds, NotInRules(AllRules(levels)));
      if rest != [] then UnprioritizedIssues(|sorted|, BySeverity(rest)) else NoIssues
  }

  lemma BucketOfLevel(levels: seq<PriorityLevel>, ds: seq<Diagnostic>, i: nat)
    requires FirstLevel(SortBy(levels, LevelOf), ds) == Some(i)
    ensures i < |levels|
    ensures Bucket(levels, ds) == LevelIssues(SortBy(levels, LevelOf)[i], BySeverity(LevelMatches(SortBy(levels, LevelOf)[i], ds)))
  {
  }

  lemma BucketOfNoLevel(levels: seq<PriorityLevel>, ds: seq<Diagnostic>)
    requires FirstLevel(SortBy(levels, LevelOf), ds) == None
    ensures var rest := Filter(ds, NotInRules(AllRules(levels)));
      Bucket(levels, ds) == if rest != [] then UnprioritizedIssues(|levels|, BySeverity(rest)) else NoIssues
  {
  }

  /** `DisplayDiagnostics` renders at most this many. */
  const MaxRendered := 15

  /** The diagnostics actually rendered: the first fifteen shown. */
  function Rendered(d: Display): (r: seq<Diagnostic>)
    ensures d.NoIssues? ==> r == []
    ensures !d.NoIssues? ==> r <= d.shown && |r| == (if |d.shown| < MaxRendered then |d.shown| else MaxRendered)
  {
    match d
    case NoIssues => []
    case LevelIssues(_, shown) => Take(shown, MaxRendered)
    case UnprioritizedIssues(_, shown) => Take(shown, MaxRendered)
  }

  /**
   * The bucketing loop over the sorted levels: it stops at the first level
   * that groups some diagnostic.
   */
  method FindLevel(sorted: seq<PriorityLevel>, ds: seq<Diagnostic>) returns (found: Option<nat>)
    ensures found == FirstLevel(sorted, ds)
  {
    var i: nat := 0;
    while i < |sorted|
      invariant i <= |sorted|
      invariant forall j :: 0 <= j < i ==> LevelMatches(sorted[j], ds) == []
    {
      var levelDiagnostics := LevelMatches(sorted[i], ds);
      if levelDiagnostics != [] {
        FirstLevelAt(sorted, ds, i);
        return Some(i);
      }
      i := i + 1;
    }
    FirstLevelNone(sorted, ds);
    return None;
  }

  /**
   * The bucketing: levels tried in ascending order until one groups
   * something, then the unprioritized fallback. Returns the display and
   * `issueFound`.
   */
  method ShowIssues(levels: seq<PriorityLevel>, ds: seq<Diagnostic>) returns (display: Display, issueFound: bool)
    ensures display == Bucket(levels, ds)
    ensures issueFound <==> !display.NoIssues?
  {
    var sorted := SortBy(levels, LevelOf);
    var found := FindLevel(sorted, ds);
    if found.Some? {
      var i := found.value;
      display, issueFound := LevelIssues(sorted[i], BySeverity(LevelMatches(sorted[i], ds))), true;
      BucketOfLevel(levels, ds, i);
    } else {
      var unprioritized := Filter(ds, NotInRules(AllRules(levels)));
      if unprioritized != [] {
        display, issueFound := UnprioritizedIssues(|sorted|, BySeverity(unprioritized)), true;
      } else {
        display, issueFound := NoIssues, false;
      }
      BucketOfNoLevel(levels, ds);
    }
  }

  // ---------------------------------------------------------------------------
  // Properties of the bucketing
  // ---------------------------------------------------------------------------

  /** A diagnostic that no sorted level groups has an id in no level's rules. */
  lemma InNoLevel(levels: seq<PriorityLevel>, ds: seq<Diagnostic>, sorted: seq<PriorityLevel>, d: Diagnostic)
    requires sorted == SortBy(levels, LevelOf)
    requires forall j :: 0 <= j < |sorted| ==> LevelMatches(sorted[j], ds) == []
    requires d in ds
    ensures d.id !in AllRules(levels)
  {
    FlatMapMember(levels, RulesOf, d.id);
    forall l | l in levels ensures d.id !in l.rules {
      assert l in multiset(sorted);
      var j :| 0 <= j < |sorted| && sorted[j] == l;
      assert d !in LevelMatches(sorted[j], ds);
    }
  }

  /** When no level groups anything, no diagnostic's id is in any rule. */
  lemma NoLevelMatchedRestIsAll(levels: seq<PriorityLevel>, ds: seq<Diagnostic>)
    requires FirstLevel(SortBy(levels, LevelOf), ds).None?
    ensures Filter(ds, NotInRules(AllRules(levels))) == ds
  {
    var sorted := SortBy(levels, LevelOf);
    forall k | 0 <= k < |ds| ensures NotInRules(AllRules(levels))(ds[k]) {
      InNoLevel(levels, ds, sorted, ds[k]);
    }
    FilterAll(ds, NotInRules(AllRules(levels)));
  }

  /** Something is shown (`issueFound`) exactly when some diagnostic was reported. */
  lemma IssueFoundIffReported(levels: seq<PriorityLevel>, ds: seq<Diagnostic>)
    ensures Bucket(levels, ds).NoIssues? <==> ds == []
  {
    var sorted := SortBy(levels, LevelOf);
    if FirstLevel(sorted, ds).None? {
      NoLevelMatchedRestIsAll(levels, ds);
    }
  }

  /**
   * The level shown is a configured level that groups some diagnostic, and
   * no level with a smaller `Level` groups any; the shown list holds exactly
   * the diagnostics the level groups.
   */
  lemma ShownLevelIsFirst(levels: seq<PriorityLevel>, ds: seq<Diagnostic>)
    ensures Bucket(levels, ds).LevelIssues? ==>
      var l := Bucket(levels, ds).level;
      var shown := Bucket(levels, ds).shown;
      && l in levels
      && shown != []
      && multiset(shown) == multiset(LevelMatches(l, ds))
      && (forall d :: d in shown ==> d in ds && d.id in l.rules)
      && (forall m :: m in levels && m.level < l.level ==> LevelMatches(m, ds) == [])
  {
    var sorted := SortBy(levels, LevelOf);
    var first := FirstLevel(sorted, ds);
    if first.Some? {
      var i := first.value;
      BucketOfLevel(levels, ds, i);
      LevelChosenFacts(levels, ds, i);
    } else {
      BucketOfNoLevel(levels, ds);
    }
  }

  lemma LevelChosenFacts(levels: seq<PriorityLevel>, ds: seq<Diagnostic>, i: nat)
    requires FirstLevel(SortBy(levels, LevelOf), ds) == Some(i)
    ensures i < |levels|
    ensures var l := SortBy(levels, LevelOf)[i];
      var shown := BySeverity(LevelMatches(l, ds));
      && l in levels
      && shown != []
      && multiset(shown) == multiset(LevelMatches(l, ds))
      && (forall d :: d in shown ==> d in ds && d.id in l.rules)
      && (forall m :: m in levels && m.level < l.level ==> LevelMatches(m, ds) == [])
  {
    var sorted := SortBy(levels, LevelOf);
    assert sorted[i] in multiset(levels);
    ShownFromLevel(sorted[i], ds);
    SmallerLevelsSkipped(levels, ds, sorted, i);
  }

  /** The shown list of a level is a reordering of what it groups. */
  lemma ShownFromLevel(l: PriorityLevel, ds: seq<Diagnostic>)
    ensures var selected := LevelMatches(l, ds); var shown := BySeverity(selected);
      && multiset(shown) == multiset(selected)
      && (forall d :: d in shown ==> d in ds && d.id in l.rules)
  {
    var selected := LevelMatches(l, ds);
    var shown := BySeverity(selected);
    forall d | d in shown ensures d in ds && d.id in l.rules {
      assert d in multiset(selected);
      var k :| 0 <= k < |selected| && selected[k] == d;
    }
  }

  /** No level with a smaller `Level` than the first grouping one groups anything. */
  lemma SmallerLevelsSkipped(levels: seq<PriorityLevel>, ds: seq<Diagnostic>, sorted: seq<PriorityLevel>, i: nat)
    requires sorted == SortBy(levels, LevelOf)
    requires i < |sorted| && forall j :: 0 <= j < i ==> LevelMatches(sorted[j], ds) == []
    ensures forall m :: m in levels && m.level < sorted[i].level ==> LevelMatches(m, ds) == []
  {
    forall m | m in levels && m.level < sorted[i].level ensures LevelMatches(m, ds) == [] {
      assert m in multiset(sorted);
      var j :| 0 <= j < |sorted| && sorted[j] == m;
      SmallerKeyComesFirst(sorted, LevelOf, i, j);
    }
  }

  /**
   * When no level groups anything, every reported diagnostic is shown: the
   * unprioritized list is a reordering of all of them, and its heading
   * counts the configured levels.
   */
  lemma UnprioritizedIsEverything(levels: seq<PriorityLevel>, ds: seq<Diagnostic>)
    ensures Bucket(levels, ds).UnprioritizedIssues? ==>
      multiset(Bucket(levels, ds).shown) == multiset(ds) && Bucket(levels, ds).levelCount == |levels|
    ensures Bucket(levels, ds).UnprioritizedIssues? <==>
      ds != [] && forall m :: m in levels ==> LevelMatches(m, ds) == []
  {
    var sorted := SortBy(levels, LevelOf);
    if FirstLevel(sorted, ds).None? {
      NoLevelMatchedRestIsAll(levels, ds);
      forall m | m in levels ensures LevelMatches(m, ds) == [] {
        assert m in multiset(sorted);
        var j :| 0 <= j < |sorted| && sorted[j] == m;
      }
    } else {
      var i := FirstLevel(sorted, ds).value;
      assert sorted[i] in multiset(levels);
    }
  }

  /**
   * The order of a shown list: most severe first, and diagnostics of equal
   * severity in their reported order.
   */
  lemma BySeverityOrder(ds: seq<Diagnostic>)
    ensures multiset(BySeverity(ds)) == multiset(ds)
    ensures forall i, j :: 0 <= i < j < |BySeverity(ds)| ==> Rank(BySeverity(ds)[i].severity) >= Rank(BySeverity(ds)[j].severity)
    ensures forall s :: WithKey(BySeverity(ds), SeverityDescending, -(Rank(s) as int)) == WithKey(ds, SeverityDescending, -(Rank(s) as int))
  {
    var r := BySeverity(ds);
    forall i, j | 0 <= i < j < |r| ensures Rank(r[i].severity) >= Rank(r[j].severity) {
      assert SeverityDescending(r[i]) <= SeverityDescending(r[j]);
    }
    forall s ensures WithKey(r, SeverityDescending, -(Rank(s) as int)) == WithKey(ds, SeverityDescending, -(Rank(s) as int)) {
      SortByStable(ds, SeverityDescending, -(Rank(s) as int));
    }
  }

  // ---------------------------------------------------------------------------
  // The analysis of one compilation
  // ---------------------------------------------------------------------------

  /** What the analysis of a compilation leaves: the per-plugin counts after its tally, and what it shows. */
  datatype Analysis = Analysis(counts: map<string, nat>, display: Display)

  /**
   * `AnalyzeProjectCompilation` from the filtering on: the diagnostics are
   * filtered once, and that one reported list is both tallied into the
   * counts `m` and bucketed by the priority levels.
   */
  function Analyze(m: map<string, nat>, ds: seq<Diagnostic>, specific: string, sep: char, rootKnown: bool,
                   levels: seq<PriorityLevel>): (r: Analysis)
    ensures forall k :: CountOf(m, k) <= CountOf(r.counts, k)
    ensures Reported(ds, specific, sep) == [] ==> r.counts == m
    ensures r.display.NoIssues? <==> Reported(ds, specific, sep) == []
  {
    var reported := Reported(ds, specific, sep);
    IssueFoundIffReported(levels, reported);
    Analysis(Tally(m, reported, sep, rootKnown), Bucket(levels, reported))
  }

  /** Tallying diagnostics none of which is charged to a plugin changes nothing. */
  lemma {:induction false} TallyUncharged(m: map<string, nat>, a: seq<Diagnostic>, b: seq<Diagnostic>, sep: char, rootKnown: bool)
    requires forall k :: 0 <= k < |b| ==> TallyKey(b[k], sep, rootKnown).None?
    ensures Tally(m, a + b, sep, rootKnown) == Tally(m, a, sep, rootKnown)
    decreases |b|
  {
    if b != [] {
      var front := b[..|b| - 1];
      assert (a + b)[..|a + b| - 1] == a + front;
      assert (a + b)[|a + b| - 1] == b[|b| - 1];
      assert TallyKey(b[|b| - 1], sep, rootKnown).None?;
      assert forall k :: 0 <= k < |front| ==> front[k] == b[k];
      TallyUncharged(m, a, front, sep, rootKnown);
      assert Tally(m, a + b, sep, rootKnown) == Tally(m, a + front, sep, rootKnown);
    } else {
      assert a + b == a;
    }
  }

  /**
   * A plugin's count rises by exactly the number of reported errors charged
   * to it. So it rises only when some diagnostic is an error, in source,
   * with a path (in the named plugin's directory when a plugin is named),
   * charged to that plugin.
   */
  lemma AnalysisCounts(m: map<string, nat>, ds: seq<Diagnostic>, specific: string, sep: char, rootKnown: bool,
                       levels: seq<PriorityLevel>, k: string)
    ensures CountOf(Analyze(m, ds, specific, sep, rootKnown, levels).counts, k) ==
      CountOf(m, k) + |Filter(Reported(ds, specific, sep), TalliedUnder(k, sep, rootKnown))|
    ensures CountOf(Analyze(m, ds, specific, sep, rootKnown, levels).counts, k) > CountOf(m, k) ==>
      exists i :: 0 <= i < |ds| && ds[i].severity == Error && ds[i].inSource && ds[i].path.Some? &&
        (specific != "" ==> Contains(ds[i].path.value, PluginsMarker(sep) + specific + [sep])) &&
        TallyKey(ds[i], sep, rootKnown) == Some(k)
  {
    var reported := Reported(ds, specific, sep);
    TallyCounts(m, reported, sep, rootKnown, k);
    var tallied := Filter(reported, TalliedUnder(k, sep, rootKnown));
    if |tallied| > 0 {
      var d := tallied[0];
      assert d in reported && TallyKey(d, sep, rootKnown) == Some(k);
      assert IsReported(d, specific, sep);
      var i :| 0 <= i < |ds| && ds[i] == d;
    }
  }

  /** Diagnostics that are not errors never change a count. */
  lemma NonErrorsNeverCounted(m: map<string, nat>, ds: seq<Diagnostic>, ws: seq<Diagnostic>, specific: string,
                              sep: char, rootKnown: bool, levels: seq<PriorityLevel>)
    requires forall k :: 0 <= k < |ws| ==> ws[k].severity != Error
    ensures Analyze(m, ds + ws, specific, sep, rootKnown, levels).counts == Analyze(m, ds, specific, sep, rootKnown, levels).counts
  {
    FilterConcat(ds, ws, ReportedTest(specific, sep));
    var r := Reported(ws, specific, sep);
    forall k | 0 <= k < |r| ensures TallyKey(r[k], sep, rootKnown).None? {
      assert r[k] in ws;
    }
    TallyUncharged(m, Reported(ds, specific, sep), r, sep, rootKnown);
  }

  /** With a plugin named, no diagnostic in a file outside that plugin's directory is reported. */
  lemma ElsewhereNotReported(others: seq<Diagnostic>, specific: string, sep: char)
    requires specific != ""
    requires forall k :: 0 <= k < |others| ==>
      others[k].path.None? || !Contains(others[k].path.value, PluginsMarker(sep) + specific + [sep])
    ensures Reported(others, specific, sep) == []
  {
    FilterEmpty(others, ReportedTest(specific, sep));
  }

  /**
   * With a plugin named, diagnostics in files outside that plugin's
   * directory change neither the counts nor what is shown.
   */
  lemma OtherPluginsIgnored(m: map<string, nat>, ds: seq<Diagnostic>, others: seq<Diagnostic>, specific: string,
                            sep: char, rootKnown: bool, levels: seq<PriorityLevel>)
    requires specific != ""
    requires forall k :: 0 <= k < |others| ==>
      others[k].path.None? || !Contains(others[k].path.value, PluginsMarker(sep) + specific + [sep])
    ensures Analyze(m, ds + others, specific, sep, rootKnown, levels) == Analyze(m, ds, specific, sep, rootKnown, levels)
  {
    FilterConcat(ds, others, ReportedTest(specific, sep));
    ElsewhereNotReported(others, specific, sep);
    assert Reported(ds + others, specific, sep) == Reported(ds, specific, sep);
  }
}
