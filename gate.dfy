/**
 * The merge gate (`MergeAllPlugins`): every plugin directory below the
 * plugins root is merged unless the per-plugin error count, filled by the
 * analysis and by earlier merges, already holds errors for it, and a merge
 * that itself adds errors is reported as skipped. The error count is the
 * state that the analysis (`Tally`) and the merges share; it lives in a
 * `Ledger` whose methods update it in place.
 *
 * `rootKnown` stands for "`_pluginsRoot` is set and the directory lies
 * below it": true when the tool was started on a directory or a project
 * file, false when it was started on a solution file, which leaves the
 * root empty.
 */
module Gate {
  import opened Wrappers
  import opened Text
  import opened Seqs
  import opened Syntax
  import opened Counts
  import opened Diagnostics
  import opened Resolver
  import opened Validator
  import opened Merge

  /**
   * A plugin directory: its path below the plugins root, one segment per
   * directory, and its parsed sources, which are all the `.cs` files
   * anywhere below it, those of nested plugin directories included.
   */
  datatype PluginDir = PluginDir(segments: seq<string>, files: seq<SourceFile>)

  /** The last segment of a path (`Path.GetFileName`), empty for the root itself. */
  function LastSegment(segments: seq<string>): string {
    if segments == [] then "" else segments[|segments| - 1]
  }

  /** The name the gate uses: the relative path with every separator replaced by `_`. */
  function GateKey(d: PluginDir): string {
    Join(d.segments, '_')
  }

  /**
   * The name a merge charges its errors to (`pluginNameKey`): the gate's
   * name when the plugins root is known, otherwise only the directory's
   * own name. "Known" means the gate walks `_pluginsRoot` itself, so both
   * relative paths are taken from the same folder.
   */
  function MergeKey(d: PluginDir, rootKnown: bool): (k: string)
    ensures rootKnown ==> k == GateKey(d)
    ensures !rootKnown ==> k == LastSegment(d.segments)
  {
    if rootKnown then GateKey(d) else LastSegment(d.segments)
  }

  /**
   * The error count after one merge's validation: the errors it found are
   * added under `key`, and a validation that found none leaves the count
   * (and its key set) exactly as it was.
   */
  function Charged(counts: map<string, nat>, key: string, v: Validation): (r: map<string, nat>)
    ensures ErrorsAdded(v) == 0 ==> r == counts
    ensures CountOf(r, key) == CountOf(counts, key) + ErrorsAdded(v)
    ensures forall j :: j != key ==> CountOf(r, j) == CountOf(counts, j)
  {
    if ErrorsAdded(v) > 0 then Added(counts, key, ErrorsAdded(v)) else counts
  }

  /** An entry of the skipped list: errors counted before the merge, or errors the merge added. */
  datatype SkipEntry = HadErrors(name: string, count: nat) | NewErrors(name: string, added: nat)

  /** A file written to the build directory: `<name>.cs` holding the merged unit. */
  datatype Output = Output(name: string, unit: CompilationUnit)

  /** The gate's state: the error count, the two counters, the skipped list and the files written. */
  datatype GateState = GateState(
    counts: map<string, nat>,
    mergedCount: nat,
    skippedCount: nat,
    skippedPlugins: seq<SkipEntry>,
    outputs: seq<Output>)

  /** The gate's state before the first directory. */
  function Initial(counts: map<string, nat>): GateState {
    GateState(counts, 0, 0, [], [])
  }

  /** The files written after a merge that produced `output` for plugin `name`. */
  function Written(outputs: seq<Output>, name: string, output: Option<CompilationUnit>): (r: seq<Output>)
    ensures output.None? ==> r == outputs
    ensures output.Some? ==> r == outputs + [Output(name, output.value)]
  {
    match output
    case None => outputs
    case Some(u) => outputs + [Output(name, u)]
  }

  /**
   * The rest of a turn after the merge ran: the merge left `counts` and
   * `output`; the plugin is skipped when its count under the gate's name
   * rose, and merged otherwise.
   */
  function Settle(st: GateState, name: string, counts: map<string, nat>, output: Option<CompilationUnit>): GateState {
    var previous := CountOf(st.counts, name);
    var current := CountOf(counts, name);
    var outputs := Written(st.outputs, name, output);
    if current > previous then
      GateState(counts, st.mergedCount, st.skippedCount + 1, st.skippedPlugins + [NewErrors(name, current - previous)], outputs)
    else
      GateState(counts, st.mergedCount + 1, st.skippedCount, st.skippedPlugins, outputs)
  }

  /** One turn of the gate's loop, for directory `d`. */
  function Step(st: GateState, d: PluginDir, rootKnown: bool): (r: GateState)
    ensures r.mergedCount + r.skippedCount == st.mergedCount + st.skippedCount + 1
    ensures st.outputs <= r.outputs && |r.outputs| <= |st.outputs| + 1
  {
    var name := GateKey(d);
    var errCount := CountOf(st.counts, name);
    if errCount > 0 then
      GateState(st.counts, st.mergedCount, st.skippedCount + 1, st.skippedPlugins + [HadErrors(name, errCount)], st.outputs)
    else
      Settle(st, name, Charged(st.counts, MergeKey(d, rootKnown), Validate(d.files)), MergeOutput(d.files))
  }

  /** The gate's loop over `dirs`, in order. */
  function RunGate(st: GateState, dirs: seq<PluginDir>, rootKnown: bool): GateState
    decreases |dirs|
  {
    if dirs == [] then st else RunGate(Step(st, dirs[0], rootKnown), dirs[1..], rootKnown)
  }

  /** `Path.GetFileName(d).Equals(specificPluginName, OrdinalIgnoreCase)`. */
  function NamedTest(specific: string): PluginDir -> bool {
    (d: PluginDir) => EqualsIgnoreCase(LastSegment(d.segments), specific)
  }

  /** The directories the gate visits: all of them, or those whose own name is the requested plugin's. */
  function SelectDirs(dirs: seq<PluginDir>, specific: string): seq<PluginDir> {
    if specific == "" then dirs else Filter(dirs, NamedTest(specific))
  }

  /** A run of the gate: the requested plugin was not found, or the final state and the number processed. */
  datatype GateOutcome = PluginNotFound(name: string) | Ran(state: GateState, processed: nat)

  /** The whole of `MergeAllPlugins`, on the error count it starts from. */
  function GateRun(counts: map<string, nat>, dirs: seq<PluginDir>, specific: string, rootKnown: bool): GateOutcome {
    var selected := SelectDirs(dirs, specific);
    if specific != "" && selected == [] then PluginNotFound(specific)
    else Ran(RunGate(Initial(counts), selected, rootKnown), |selected|)
  }

  /** The shared per-plugin error count (`_pluginErrorCount`). */
  class Ledger {
    var counts: map<string, nat>

    /** The count starts empty. */
    constructor()
      ensures counts == map[]
    {
      counts := map[];
    }

    /** The count recorded for `k`, zero when there is none. */
    function Count(k: string): nat
      reads this
    {
      CountOf(counts, k)
    }

    /** The analysis's loop that counts each reported error under its plugin. */
    method TallyErrors(reported: seq<Diagnostic>, sep: char, rootKnown: bool)
      modifies this
      ensures counts == Tally(old(counts), reported, sep, rootKnown)
    {
      var i := 0;
      while i < |reported|
        invariant 0 <= i <= |reported|
        invariant counts == Tally(old(counts), reported[..i], sep, rootKnown)
      {
        assert reported[..i + 1][..i] == reported[..i];
        var key := TallyKey(reported[i], sep, rootKnown);
        if key.Some? {
          counts := Added(counts, key.value, 1);
        }
        i := i + 1;
      }
      assert reported[..|reported|] == reported;
    }

    /**
     * `AnalyzeProjectCompilation` from the filtering on: the reported
     * diagnostics are tallied into this ledger, then bucketed for display.
     * `issueFound` is what the analysis returns.
     */
    method AnalyzeCompilation(ds: seq<Diagnostic>, specific: string, sep: char, rootKnown: bool,
                              levels: seq<PriorityLevel>) returns (display: Display, issueFound: bool)
      modifies this
      ensures counts == Analyze(old(counts), ds, specific, sep, rootKnown, levels).counts
      ensures display == Analyze(old(counts), ds, specific, sep, rootKnown, levels).display
      ensures issueFound <==> !display.NoIssues?
    {
      var filtered := Reported(ds, specific, sep);
      TallyErrors(filtered, sep, rootKnown);
      display, issueFound := ShowIssues(levels, filtered);
    }

    /**
     * `MergePluginPartials`: the non-partial check, then the per-file
     * check, each charging what it found under the merge key and stopping;
     * otherwise the merged unit, which is what gets written.
     */
    method MergePlugin(d: PluginDir, rootKnown: bool) returns (output: Option<CompilationUnit>)
      modifies this
      ensures counts == Charged(old(counts), MergeKey(d, rootKnown), Validate(d.files))
      ensures output == MergeOutput(d.files)
    {
      var key := MergeKey(d, rootKnown);
      var nonPartial := NonPartial(d.files);
      if nonPartial != [] {
        counts := Added(counts, key, |nonPartial|);
        RejectedNonPartial(d.files, key, old(counts), nonPartial, counts);
        return None;
      }
      var primary := PrimaryClasses(AllClasses(d.files));
      var violating := CollectViolations(d.files, CandidateNames(primary), PrimaryNamespaces(primary));
      if violating != [] {
        counts := Added(counts, key, |violating|);
        RejectedViolating(d.files, key, old(counts), violating, counts);
        return None;
      }
      output := Some(MergedUnit(d.files));
      AcceptedValid(d.files, key, counts, violating, output);
    }

    /**
     * One turn of the gate's loop on the state `st`, whose count is this
     * ledger's: skip a plugin with errors counted, otherwise merge it and
     * skip it when the merge added errors under its name.
     */
    method Visit(st: GateState, d: PluginDir, rootKnown: bool) returns (next: GateState)
      requires st.counts == counts
      modifies this
      ensures next == Step(st, d, rootKnown)
      ensures counts == next.counts
    {
      var name := GateKey(d);
      var errCount := CountOf(counts, name);
      if errCount > 0 {
        StepWhenCounted(st, d, rootKnown);
        return st.(skippedCount := st.skippedCount + 1, skippedPlugins := st.skippedPlugins + [HadErrors(name, errCount)]);
      }
      var previous := CountOf(counts, name);
      var output := MergePlugin(d, rootKnown);
      var outputs := Written(st.outputs, name, output);
      var current := CountOf(counts, name);
      if current > previous {
        next := GateState(counts, st.mergedCount, st.skippedCount + 1, st.skippedPlugins + [NewErrors(name, current - previous)], outputs);
        SettleSkips(st, name, counts, output, previous, current, next);
      } else {
        next := GateState(counts, st.mergedCount + 1, st.skippedCount, st.skippedPlugins, outputs);
        SettleMerges(st, name, counts, output, previous, current, next);
      }
      StepWhenMerged(st, d, rootKnown, counts, output, next);
    }

    /** `MergeAllPlugins`: select the directories, then run the gate over them. */
    method MergeAll(dirs: seq<PluginDir>, specific: string, rootKnown: bool) returns (outcome: GateOutcome)
      modifies this
      ensures outcome == GateRun(old(counts), dirs, specific, rootKnown)
      ensures outcome.Ran? ==> counts == outcome.state.counts
      ensures outcome.PluginNotFound? ==> counts == old(counts)
    {
      var selected := SelectDirs(dirs, specific);
      if specific != "" && |selected| == 0 {
        return PluginNotFound(specific);
      }
      var st := Initial(counts);
      var i := 0;
      while i < |selected|
        invariant 0 <= i <= |selected|
        invariant st.counts == counts
        invariant RunGate(st, selected[i..], rootKnown) == RunGate(Initial(old(counts)), selected, rootKnown)
      {
        RunGateUnfold(st, selected, i, rootKnown);
        st := Visit(st, selected[i], rootKnown);
        i := i + 1;
      }
      outcome := Ran(st, |selected|);
    }
  }

  /** `MergePlugin` when the non-partial check rejects the plugin. */
  lemma RejectedNonPartial(files: seq<SourceFile>, key: string, before: map<string, nat>, nonPartial: seq<TypeDecl>,
                           after: map<string, nat>)
    requires nonPartial == NonPartial(files) && nonPartial != []
    requires after == Added(before, key, |nonPartial|)
    ensures after == Charged(before, key, Validate(files))
    ensures MergeOutput(files) == None
  {
  }

  /** `MergePlugin` when the per-file check rejects the plugin. */
  lemma RejectedViolating(files: seq<SourceFile>, key: string, before: map<string, nat>, violating: seq<Violation>,
                          after: map<string, nat>)
    requires NonPartial(files) == []
    requires violating == Violations(files, CandidateNames(PrimaryClasses(AllClasses(files))),
      PrimaryNamespaces(PrimaryClasses(AllClasses(files))))
    requires violating != []
    requires after == Added(before, key, |violating|)
    ensures after == Charged(before, key, Validate(files))
    ensures MergeOutput(files) == None
  {
  }

  /** `MergePlugin` when both checks pass. */
  lemma AcceptedValid(files: seq<SourceFile>, key: string, counts: map<string, nat>, violating: seq<Violation>,
                      output: Option<CompilationUnit>)
    requires NonPartial(files) == []
    requires violating == Violations(files, CandidateNames(PrimaryClasses(AllClasses(files))),
      PrimaryNamespaces(PrimaryClasses(AllClasses(files))))
    requires violating == []
    requires output == Some(MergedUnit(files))
    ensures counts == Charged(counts, key, Validate(files))
    ensures output == MergeOutput(files)
  {
  }

  /** `Step` on a plugin with errors already counted. */
  lemma StepWhenCounted(st: GateState, d: PluginDir, rootKnown: bool)
    requires CountOf(st.counts, GateKey(d)) > 0
    ensures Step(st, d, rootKnown) == GateState(st.counts, st.mergedCount, st.skippedCount + 1,
      st.skippedPlugins + [HadErrors(GateKey(d), CountOf(st.counts, GateKey(d)))], st.outputs)
  {
  }

  /** `Settle` when the merge raised the count under the plugin's name. */
  lemma SettleSkips(st: GateState, name: string, counts: map<string, nat>, output: Option<CompilationUnit>,
                    previous: nat, current: nat, next: GateState)
    requires previous == CountOf(st.counts, name) && current == CountOf(counts, name) && current > previous
    requires next == GateState(counts, st.mergedCount, st.skippedCount + 1,
      st.skippedPlugins + [NewErrors(name, current - previous)], Written(st.outputs, name, output))
    ensures next == Settle(st, name, counts, output)
  {
  }

  /** `Settle` when the merge left the count under the plugin's name as it was. */
  lemma SettleMerges(st: GateState, name: string, counts: map<string, nat>, output: Option<CompilationUnit>,
                     previous: nat, current: nat, next: GateState)
    requires previous == CountOf(st.counts, name) && current == CountOf(counts, name) && current <= previous
    requires next == GateState(counts, st.mergedCount + 1, st.skippedCount, st.skippedPlugins, Written(st.outputs, name, output))
    ensures next == Settle(st, name, counts, output)
  {
  }

  /** `Step` on a plugin with no errors counted, given the count and the output its merge left. */
  lemma StepWhenMerged(st: GateState, d: PluginDir, rootKnown: bool, counts: map<string, nat>,
                       output: Option<CompilationUnit>, next: GateState)
    requires CountOf(st.counts, GateKey(d)) == 0
    requires counts == Charged(st.counts, MergeKey(d, rootKnown), Validate(d.files))
    requires output == MergeOutput(d.files)
    requires next == Settle(st, GateKey(d), counts, output)
    ensures next == Step(st, d, rootKnown)
  {
  }

  /** The turn of the gate's loop for directory `i`. */
  lemma RunGateUnfold(st: GateState, dirs: seq<PluginDir>, i: nat, rootKnown: bool)
    requires i < |dirs|
    ensures RunGate(st, dirs[i..], rootKnown) == RunGate(Step(st, dirs[i], rootKnown), dirs[i + 1..], rootKnown)
  {
    assert dirs[i..][1..] == dirs[i + 1..];
  }

  // ---------------------------------------------------------------------------
  // Properties
  // ---------------------------------------------------------------------------

  /**
   * Every directory visited is either merged or skipped, the skipped
   * counter always equals the length of the skipped list, the list only
   * grows at its end and no error count ever falls.
   */
  lemma {:induction false} RunGateAccounts(st: GateState, dirs: seq<PluginDir>, rootKnown: bool)
    requires st.skippedCount == |st.skippedPlugins|
    ensures var r := RunGate(st, dirs, rootKnown);
      (&& r.mergedCount + r.skippedCount == st.mergedCount + st.skippedCount + |dirs|
       && r.skippedCount == |r.skippedPlugins|
       && st.skippedPlugins <= r.skippedPlugins
       && st.outputs <= r.outputs
       && |r.outputs| - |st.outputs| <= r.mergedCount - st.mergedCount
       && (forall k :: CountOf(r.counts, k) >= CountOf(st.counts, k)))
    decreases |dirs|
  {
    if dirs != [] {
      var next := Step(st, dirs[0], rootKnown);
      StepAccounts(st, dirs[0], rootKnown);
      RunGateAccounts(next, dirs[1..], rootKnown);
    }
  }

  /** One turn of the gate's loop keeps the books that `RunGateAccounts` states. */
  lemma StepAccounts(st: GateState, d: PluginDir, rootKnown: bool)
    requires st.skippedCount == |st.skippedPlugins|
    ensures var r := Step(st, d, rootKnown);
      (&& r.mergedCount + r.skippedCount == st.mergedCount + st.skippedCount + 1
       && r.skippedCount == |r.skippedPlugins|
       && st.skippedPlugins <= r.skippedPlugins
       && st.outputs <= r.outputs
       && |r.outputs| - |st.outputs| <= r.mergedCount - st.mergedCount
       && (forall k :: CountOf(r.counts, k) >= CountOf(st.counts, k)))
  {
    var name := GateKey(d);
    if CountOf(st.counts, name) == 0 {
      var v := Validate(d.files);
      var counts := Charged(st.counts, MergeKey(d, rootKnown), v);
      SettleAccounts(st, name, counts, MergeOutput(d.files));
    }
  }

  /** `Settle` keeps the books, given counts that never fall and that a written output added no error. */
  lemma SettleAccounts(st: GateState, name: string, counts: map<string, nat>, output: Option<CompilationUnit>)
    requires st.skippedCount == |st.skippedPlugins|
    requires forall k :: CountOf(counts, k) >= CountOf(st.counts, k)
    requires output.Some? ==> counts == st.counts
    ensures var r := Settle(st, name, counts, output);
      (&& r.mergedCount + r.skippedCount == st.mergedCount + st.skippedCount + 1
       && r.skippedCount == |r.skippedPlugins|
       && st.skippedPlugins <= r.skippedPlugins
       && st.outputs <= r.outputs
       && |r.outputs| - |st.outputs| <= r.mergedCount - st.mergedCount
       && (forall k :: CountOf(r.counts, k) >= CountOf(st.counts, k)))
  {
  }

  /**
   * A run of the gate accounts for every selected directory: the merged
   * and skipped counters add up to the number processed, and the skipped
   * list has one entry per skipped plugin.
   */
  lemma GateRunAccounts(counts: map<string, nat>, dirs: seq<PluginDir>, specific: string, rootKnown: bool)
    ensures var o := GateRun(counts, dirs, specific, rootKnown);
      (&& (o.PluginNotFound? <==> specific != "" && SelectDirs(dirs, specific) == [])
       && (o.Ran? ==>
             && o.processed == |SelectDirs(dirs, specific)|
             && o.state.mergedCount + o.state.skippedCount == o.processed
             && o.state.skippedCount == |o.state.skippedPlugins|
             && |o.state.outputs| <= o.state.mergedCount))
  {
    RunGateAccounts(Initial(counts), SelectDirs(dirs, specific), rootKnown);
  }

  /** Naming a plugin visits exactly the directories whose own name matches it, ignoring case. */
  lemma SelectedAreNamed(dirs: seq<PluginDir>, specific: string)
    requires specific != ""
    ensures forall k :: 0 <= k < |SelectDirs(dirs, specific)| ==>
      (&& SelectDirs(dirs, specific)[k] in dirs
       && EqualsIgnoreCase(LastSegment(SelectDirs(dirs, specific)[k].segments), specific))
    ensures forall k :: 0 <= k < |dirs| && EqualsIgnoreCase(LastSegment(dirs[k].segments), specific) ==>
      dirs[k] in SelectDirs(dirs, specific)
  {
  }

  /**
   * A plugin with errors already counted under its name is skipped
   * without being merged: the count and the files written stay as they
   * were, and the skip records the count.
   */
  lemma SkipLeavesStateAlone(st: GateState, d: PluginDir, rootKnown: bool)
    requires CountOf(st.counts, GateKey(d)) > 0
    ensures var r := Step(st, d, rootKnown);
      (&& r.counts == st.counts
       && r.outputs == st.outputs
       && r.mergedCount == st.mergedCount
       && r.skippedPlugins == st.skippedPlugins + [HadErrors(GateKey(d), CountOf(st.counts, GateKey(d)))])
  {
  }

  /**
   * With the plugins root known, a plugin with no errors counted is merged
   * exactly when its validation passes, and a file is written for it
   * exactly then, holding the merged unit; otherwise it is skipped with
   * the errors the validation found.
   */
  lemma MergedIffValid(st: GateState, d: PluginDir)
    requires CountOf(st.counts, GateKey(d)) == 0
    ensures var r := Step(st, d, true);
      (&& (r.mergedCount == st.mergedCount + 1 <==> Validate(d.files).Valid?)
       && (r.outputs == st.outputs + [Output(GateKey(d), MergedUnit(d.files))] <==> Validate(d.files).Valid?)
       && (!Validate(d.files).Valid? ==>
             && r.outputs == st.outputs
             && r.skippedPlugins == st.skippedPlugins + [NewErrors(GateKey(d), ErrorsAdded(Validate(d.files)))]))
  {
    OutputIffValid(d.files);
    SettleAfterMerge(st, GateKey(d), Validate(d.files), MergeOutput(d.files), MergedUnit(d.files));
  }

  /** `Settle` after a merge whose output exists exactly when its validation added no errors. */
  lemma SettleAfterMerge(st: GateState, name: string, v: Validation, output: Option<CompilationUnit>, u: CompilationUnit)
    requires CountOf(st.counts, name) == 0
    requires ErrorsAdded(v) == 0 <==> v.Valid?
    requires output.Some? <==> v.Valid?
    requires output.Some? ==> output.value == u
    ensures var r := Settle(st, name, Charged(st.counts, name, v), output);
      (&& (r.mergedCount == st.mergedCount + 1 <==> v.Valid?)
       && (r.outputs == st.outputs + [Output(name, u)] <==> v.Valid?)
       && (!v.Valid? ==>
             && r.outputs == st.outputs
             && r.skippedPlugins == st.skippedPlugins + [NewErrors(name, ErrorsAdded(v))]))
  {
    if !v.Valid? {
      assert |st.outputs + [Output(name, u)]| != |st.outputs|;
    }
  }

  /** A name joined from two or more segments is longer than its last segment. */
  lemma {:induction false} JoinLongerThanLast(segments: seq<string>, sep: char)
    requires |segments| >= 2
    ensures |Join(segments, sep)| > |LastSegment(segments)|
    decreases |segments|
  {
    if |segments| > 2 {
      JoinLongerThanLast(segments[1..], sep);
      assert LastSegment(segments[1..]) == LastSegment(segments);
    }
  }

  /**
   * Without the plugins root, a nested plugin (two or more segments) whose
   * validation fails is charged under its own directory name, which is
   * not the gate's name: the gate sees no new errors and counts it as
   * merged, although no file was written for it.
   */
  lemma NestedFailureCountedMerged(st: GateState, d: PluginDir)
    requires |d.segments| >= 2
    requires CountOf(st.counts, GateKey(d)) == 0
    requires !Validate(d.files).Valid?
    ensures MergeKey(d, false) != GateKey(d)
    ensures var r := Step(st, d, false);
      (&& r.mergedCount == st.mergedCount + 1
       && r.outputs == st.outputs
       && r.skippedPlugins == st.skippedPlugins
       && CountOf(r.counts, LastSegment(d.segments)) > CountOf(st.counts, LastSegment(d.segments)))
  {
    JoinLongerThanLast(d.segments, '_');
    ErrorsAddedIffRejected(d.files);
  }

  /**
   * An analysis error in a file of plugin directory `segments` is counted
   * under the first segment only: that is the gate's name for a plugin
   * directly below the root and never the gate's name for a nested one.
   */
  lemma TallyKeyVersusGateKey(d: Diagnostic, prefix: string, segments: seq<string>, rest: string, sep: char,
                              files: seq<SourceFile>)
    requires |segments| >= 1 && sep !in segments[0]
    requires d.severity == Error && d.path == Some(prefix + PluginsMarker(sep) + segments[0] + [sep] + rest)
    requires forall i :: 0 <= i < |prefix| ==> !OccursAtIgnoreCase(d.path.value, PluginsMarker(sep), i)
    ensures TallyKey(d, sep, true) == Some(segments[0])
    ensures |segments| == 1 ==> TallyKey(d, sep, true) == Some(GateKey(PluginDir(segments, files)))
    ensures |segments| >= 2 ==> TallyKey(d, sep, true) != Some(GateKey(PluginDir(segments, files)))
  {
    TallyKeyOfPluginFile(d, prefix, segments[0], rest, sep);
  }

  /**
   * An error in source in a file of a plugin directly below the root, as
   * the analysis of the whole compilation or of that plugin alone sees it,
   * blocks that plugin's merge: the analysis counts it, and the gate then
   * skips the plugin with the file system left alone.
   */
  lemma AnalysisErrorBlocksMerge(m: map<string, nat>, ds: seq<Diagnostic>, i: nat, prefix: string, name: string,
                                 rest: string, sep: char, specific: string, levels: seq<PriorityLevel>,
                                 files: seq<SourceFile>, st: GateState)
    requires sep == '/' || sep == '\\'
    requires i < |ds| && sep !in name
    requires specific == "" || specific == name
    requires ds[i].severity == Error && ds[i].inSource
    requires ds[i].path == Some(prefix + PluginsMarker(sep) + name + [sep] + rest)
    requires forall j :: 0 <= j < |prefix| ==> !OccursAtIgnoreCase(ds[i].path.value, PluginsMarker(sep), j)
    ensures CountOf(Analyze(m, ds, specific, sep, true, levels).counts, name) > 0
    ensures var before := st.(counts := Analyze(m, ds, specific, sep, true, levels).counts);
      (&& Step(before, PluginDir([name], files), true).mergedCount == st.mergedCount
       && Step(before, PluginDir([name], files), true).outputs == st.outputs
       && Step(before, PluginDir([name], files), true).counts == before.counts)
  {
    var d := ds[i];
    ReportedAtMarker(d, prefix, name, rest, sep, specific);
    var reported := Reported(ds, specific, sep);
    assert d in reported;
    TallyKeyOfPluginFile(d, prefix, name, rest, sep);
    FilterContains(reported, TalliedUnder(name, sep, true));
    assert d in Filter(reported, TalliedUnder(name, sep, true));
    AnalysisCounts(m, ds, specific, sep, true, levels, name);
    assert GateKey(PluginDir([name], files)) == name;
  }

  /** An error in source below `{sep}plugins{sep}name{sep}` is reported, with no plugin named or with `name`. */
  lemma ReportedAtMarker(d: Diagnostic, prefix: string, name: string, rest: string, sep: char, specific: string)
    requires sep == '/' || sep == '\\'
    requires specific == "" || specific == name
    requires d.severity == Error && d.inSource
    requires d.path == Some(prefix + PluginsMarker(sep) + name + [sep] + rest)
    ensures IsReported(d, specific, sep)
  {
    var path := d.path.value;
    var marker := PluginsMarker(sep);
    if specific != "" {
      var p := marker + name + [sep];
      assert path == prefix + p + rest;
      assert OccursAt(path, p, |prefix|);
    } else {
      assert path == prefix + marker + (name + [sep] + rest);
      assert OccursAt(path, marker, |prefix|);
      assert marker == if sep == '/' then "/plugins/" else "\\plugins\\";
    }
  }
}
