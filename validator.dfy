/**
 * Structural validation of a plugin's files (`MergePluginPartials`, the
 * two checks before the merge): every candidate class must be `partial`,
 * and every file must consist of partial parts of the plugin class only.
 */
module Validator {
  import opened Wrappers
  import opened Seqs
  import opened Syntax
  import opened Resolver

  /** `ExtraTypeInfo`: a top-level type that is not a valid part of the plugin class. */
  datatype ExtraTypeInfo = ExtraTypeInfo(kind: string, qualifiedName: string, span: Option<Span>)

  /** `PluginFileViolation`: a file that breaks the one-logical-unit-per-file rule. */
  datatype Violation = Violation(filePath: string, missingPartial: bool, extraTypes: seq<ExtraTypeInfo>, primarySpan: Option<Span>)

  /** What the two checks decide about a plugin. */
  datatype Validation =
    | NonPartialClasses(classes: seq<TypeDecl>)
    | ViolatingFiles(violations: seq<Violation>)
    | Valid

  /** The test the partial-modifier check applies. */
  predicate LacksPartial(c: TypeDecl) {
    !c.IsPartial()
  }

  /** The classes the partial-modifier check rejects. */
  function NonPartial(files: seq<SourceFile>): seq<TypeDecl> {
    Filter(ClassesToCheck(AllClasses(files)), LacksPartial)
  }

  /** A top-level type is a valid part: a candidate name, `partial`, and in a primary namespace. */
  predicate IsValidPart(t: TypeDecl, names: set<string>, namespaces: set<Option<string>>) {
    t.identifier in names && t.IsPartial() && t.ns in namespaces
  }

  function ValidTest(names: set<string>, namespaces: set<Option<string>>): TypeDecl -> bool {
    (t: TypeDecl) => IsValidPart(t, names, namespaces)
  }

  function ExtraTest(names: set<string>, namespaces: set<Option<string>>): TypeDecl -> bool {
    (t: TypeDecl) => !IsValidPart(t, names, namespaces)
  }

  function TopLevelTypes(f: SourceFile): seq<TypeDecl> {
    Filter(f.decls, (t: TypeDecl) => t.topLevel)
  }

  /** `pluginPartialsInFile`. */
  function ValidParts(f: SourceFile, names: set<string>, namespaces: set<Option<string>>): seq<TypeDecl> {
    Filter(TopLevelTypes(f), ValidTest(names, namespaces))
  }

  /** `extraTypes`. */
  function ExtraTypes(f: SourceFile, names: set<string>, namespaces: set<Option<string>>): seq<TypeDecl> {
    Filter(TopLevelTypes(f), ExtraTest(names, namespaces))
  }

  function ExtraInfo(t: TypeDecl): ExtraTypeInfo {
    ExtraTypeInfo(KeywordText(t.kind), QualifiedName(t.ns, t.identifier), t.identifierSpan)
  }

  function ExtraInfos(ts: seq<TypeDecl>): (r: seq<ExtraTypeInfo>)
    ensures |r| == |ts|
    ensures forall k :: 0 <= k < |ts| ==> r[k] == ExtraInfo(ts[k])
  {
    Map(ts, ExtraInfo)
  }

  /** `TryCreateFallbackSpan`: the start of the file, unless the path is empty. */
  function FallbackSpan(path: string): Option<Span> {
    if path == "" then None else Some(Span(path, 0, 0, 0, 0))
  }

  /** The span of the first extra type that has one. */
  function FirstExtraSpan(extras: seq<ExtraTypeInfo>): (r: Option<Span>)
    ensures r.None? <==> forall k :: 0 <= k < |extras| ==> extras[k].span.None?
    ensures r.Some? ==> exists k :: (0 <= k < |extras| && extras[k].span == r &&
      forall j :: 0 <= j < k ==> extras[j].span.None?)
  {
    if extras == [] then None
    else if extras[0].span.Some? then extras[0].span
    else
      var r := FirstExtraSpan(extras[1..]);
      assert r.Some? ==> exists k :: (0 <= k < |extras| && extras[k].span == r &&
        forall j :: 0 <= j < k ==> extras[j].span.None?) by {
        if r.Some? {
          var k :| 0 <= k < |extras[1..]| && extras[1..][k].span == r &&
            forall j :: 0 <= j < k ==> extras[1..][j].span.None?;
          assert extras[k + 1].span == r;
          assert forall j :: 0 <= j < k + 1 ==> extras[j].span.None? by {
            forall j | 0 <= j < k + 1 ensures extras[j].span.None? {
              if j > 0 { assert extras[j] == extras[1..][j - 1]; }
            }
          }
        }
      }
      r
  }

  /**
   * The span that anchors a violation: the first extra type with a span,
   * else the identifier of the first valid part, else the file's start.
   */
  function PrimarySpan(extras: seq<ExtraTypeInfo>, valid: seq<TypeDecl>, path: string): Option<Span> {
    var fromExtras := FirstExtraSpan(extras);
    if fromExtras.Some? then fromExtras
    else if valid != [] && valid[0].identifierSpan.Some? then valid[0].identifierSpan
    else FallbackSpan(path)
  }

  /** The per-file check: the file's violation, if it has one. */
  function FileViolation(f: SourceFile, names: set<string>, namespaces: set<Option<string>>): Option<Violation> {
    if TopLevelTypes(f) == [] then None
    else
      var valid := ValidParts(f, names, namespaces);
      var extras := ExtraTypes(f, names, namespaces);
      if valid == [] || extras != [] then
        var infos := ExtraInfos(extras);
        Some(Violation(f.path, valid == [], infos, PrimarySpan(infos, valid, f.path)))
      else None
  }

  /** `violatingFiles`: the violations of the files, in file order. */
  function Violations(files: seq<SourceFile>, names: set<string>, namespaces: set<Option<string>>): (vs: seq<Violation>)
    ensures |vs| <= |files|
  {
    if files == [] then []
    else
      var prev := Violations(files[..|files| - 1], names, namespaces);
      match FileViolation(files[|files| - 1], names, namespaces)
      case Some(v) => prev + [v]
      case None => prev
  }

  /** The test "this file violates". */
  function ViolatesTest(names: set<string>, namespaces: set<Option<string>>): SourceFile -> bool {
    (f: SourceFile) => FileViolation(f, names, namespaces).Some?
  }

  /** The per-file loop that collects `violatingFiles`. */
  method CollectViolations(files: seq<SourceFile>, names: set<string>, namespaces: set<Option<string>>)
    returns (violating: seq<Violation>)
    ensures violating == Violations(files, names, namespaces)
  {
    violating := [];
    var i := 0;
    while i < |files|
      invariant 0 <= i <= |files|
      invariant violating == Violations(files[..i], names, namespaces)
    {
      var f := files[i];
      assert files[..i + 1][..i] == files[..i];
      var topLevel := TopLevelTypes(f);
      if topLevel != [] {
        var valid := ValidParts(f, names, namespaces);
        var extras := ExtraTypes(f, names, namespaces);
        if valid == [] || extras != [] {
          var infos := ExtraInfos(extras);
          violating := violating + [Violation(f.path, valid == [], infos, PrimarySpan(infos, valid, f.path))];
        }
      }
      i := i + 1;
    }
    assert files[..|files|] == files;
  }

  /** Both checks, in order: the per-file check runs only when every candidate class is partial. */
  function Validate(files: seq<SourceFile>): (v: Validation)
    ensures ErrorsAdded(v) == 0 <==> v.Valid?
  {
    var nonPartial := NonPartial(files);
    if nonPartial != [] then NonPartialClasses(nonPartial)
    else
      var primary := PrimaryClasses(AllClasses(files));
      var vs := Violations(files, CandidateNames(primary), PrimaryNamespaces(primary));
      if vs != [] then ViolatingFiles(vs) else Valid
  }

  /** How much a validation adds to the plugin's error count. */
  function ErrorsAdded(v: Validation): nat {
    match v
    case NonPartialClasses(cs) => |cs|
    case ViolatingFiles(vs) => |vs|
    case Valid => 0
  }

  // ---------------------------------------------------------------------------
  // Properties
  // ---------------------------------------------------------------------------

  /**
   * The partition of a file's top-level types: each is in exactly one of
   * the valid parts and the extra types, and the two together account for
   * all of them.
   */
  lemma PartitionTopLevel(f: SourceFile, names: set<string>, namespaces: set<Option<string>>)
    ensures forall t :: t in TopLevelTypes(f) ==>
      (t in ValidParts(f, names, namespaces) <==> IsValidPart(t, names, namespaces)) &&
      (t in ExtraTypes(f, names, namespaces) <==> !IsValidPart(t, names, namespaces))
    ensures forall t :: t in ValidParts(f, names, namespaces) ==> t in TopLevelTypes(f) && IsValidPart(t, names, namespaces)
    ensures forall t :: t in ExtraTypes(f, names, namespaces) ==> t in TopLevelTypes(f) && !IsValidPart(t, names, namespaces)
    ensures |ValidParts(f, names, namespaces)| + |ExtraTypes(f, names, namespaces)| == |TopLevelTypes(f)|
  {
    var top := TopLevelTypes(f);
    var valid := ValidParts(f, names, namespaces);
    var extras := ExtraTypes(f, names, namespaces);
    FilterComplement(top, ValidTest(names, namespaces), ExtraTest(names, namespaces));
    forall t | t in top
      ensures (t in valid <==> IsValidPart(t, names, namespaces)) && (t in extras <==> !IsValidPart(t, names, namespaces))
    {
      var k :| 0 <= k < |top| && top[k] == t;
      if t in valid { var j :| 0 <= j < |valid| && valid[j] == t; }
      if t in extras { var j :| 0 <= j < |extras| && extras[j] == t; }
    }
    forall t | t in valid ensures t in top && IsValidPart(t, names, namespaces) {
      var j :| 0 <= j < |valid| && valid[j] == t;
    }
    forall t | t in extras ensures t in top && !IsValidPart(t, names, namespaces) {
      var j :| 0 <= j < |extras| && extras[j] == t;
    }
  }

  /**
   * When a file violates: exactly when it has top-level types and either no
   * valid part or some extra type; `MissingPartial` exactly when no valid
   * part; one extra entry per extra type, in order, with its keyword,
   * qualified name and identifier span; and the primary span chosen from
   * those entries and the valid parts. A file without top-level types never
   * violates.
   */
  lemma FileViolationSpec(f: SourceFile, names: set<string>, namespaces: set<Option<string>>)
    ensures TopLevelTypes(f) == [] ==> FileViolation(f, names, namespaces).None?
    ensures FileViolation(f, names, namespaces).Some? <==>
      TopLevelTypes(f) != [] &&
      ((forall t :: t in TopLevelTypes(f) ==> !IsValidPart(t, names, namespaces)) ||
       (exists t :: t in TopLevelTypes(f) && !IsValidPart(t, names, namespaces)))
    ensures FileViolation(f, names, namespaces).Some? ==>
      var v := FileViolation(f, names, namespaces).value;
      var extras := ExtraTypes(f, names, namespaces);
      && v.filePath == f.path
      && (v.missingPartial <==> forall t :: t in TopLevelTypes(f) ==> !IsValidPart(t, names, namespaces))
      && |v.extraTypes| == |extras|
      && (forall k :: 0 <= k < |extras| ==>
            !IsValidPart(extras[k], names, namespaces) &&
            v.extraTypes[k].kind == KeywordText(extras[k].kind) &&
            v.extraTypes[k].qualifiedName == QualifiedName(extras[k].ns, extras[k].identifier) &&
            v.extraTypes[k].span == extras[k].identifierSpan)
      && v.primarySpan == PrimarySpan(v.extraTypes, ValidParts(f, names, namespaces), f.path)
  {
    PartitionTopLevel(f, names, namespaces);
    var top := TopLevelTypes(f);
    var valid := ValidParts(f, names, namespaces);
    if valid != [] {
      assert valid[0] in valid;
    }
    var extras := ExtraTypes(f, names, namespaces);
    if extras != [] {
      assert extras[0] in extras;
    }
    forall k | 0 <= k < |extras| ensures !IsValidPart(extras[k], names, namespaces) {
      assert extras[k] in extras;
    }
  }

  /**
   * The primary span is the first extra type's span when some extra type
   * has one; otherwise the first valid part's identifier; otherwise the
   * start of the file (no span at all for an empty path).
   */
  lemma PrimarySpanChoice(extras: seq<ExtraTypeInfo>, valid: seq<TypeDecl>, path: string)
    ensures (exists k :: 0 <= k < |extras| && extras[k].span.Some?) ==>
      exists k :: 0 <= k < |extras| && PrimarySpan(extras, valid, path) == extras[k].span &&
        extras[k].span.Some? && forall j :: 0 <= j < k ==> extras[j].span.None?
    ensures (forall k :: 0 <= k < |extras| ==> extras[k].span.None?) && valid != [] && valid[0].identifierSpan.Some? ==>
      PrimarySpan(extras, valid, path) == valid[0].identifierSpan
    ensures (forall k :: 0 <= k < |extras| ==> extras[k].span.None?) && (valid == [] || valid[0].identifierSpan.None?) ==>
      PrimarySpan(extras, valid, path) == (if path == "" then None else Some(Span(path, 0, 0, 0, 0)))
  {
  }

  /** Violations has one entry per violating file, in file order, in no other case. */
  lemma ViolationsCount(files: seq<SourceFile>, names: set<string>, namespaces: set<Option<string>>)
    ensures |Violations(files, names, namespaces)| == |Filter(files, ViolatesTest(names, namespaces))|
    ensures Violations(files, names, namespaces) == [] <==>
      forall k :: 0 <= k < |files| ==> FileViolation(files[k], names, namespaces).None?
  {
    ViolationsLength(files, names, namespaces);
    FilterEmpty(files, ViolatesTest(names, namespaces));
  }

  lemma {:induction false} ViolationsLength(files: seq<SourceFile>, names: set<string>, namespaces: set<Option<string>>)
    ensures |Violations(files, names, namespaces)| == |Filter(files, ViolatesTest(names, namespaces))|
  {
    if files != [] {
      ViolationsLength(files[..|files| - 1], names, namespaces);
      FilterSnoc(files, ViolatesTest(names, namespaces));
    }
  }

  /** The per-file check is not reached when the partial check fails. */
  lemma NonPartialStopsValidation(files: seq<SourceFile>)
    ensures NonPartial(files) != [] <==> Validate(files).NonPartialClasses?
    ensures Validate(files).NonPartialClasses? ==>
      ErrorsAdded(Validate(files)) == |NonPartial(files)| &&
      forall c :: c in Validate(files).classes <==>
        c in AllClasses(files) && c.identifier in CandidateNames(PrimaryClasses(AllClasses(files))) && !c.IsPartial()
  {
    var all := AllClasses(files);
    ClassesToCheckAreNamed(all);
    FilterContains(ClassesToCheck(all), LacksPartial);
  }

  /** A validation adds errors exactly when it rejects the plugin. */
  lemma ErrorsAddedIffRejected(files: seq<SourceFile>)
    ensures ErrorsAdded(Validate(files)) > 0 <==> !Validate(files).Valid?
    ensures Validate(files).ViolatingFiles? ==>
      var primary := PrimaryClasses(AllClasses(files));
      ErrorsAdded(Validate(files)) ==
        |Filter(files, ViolatesTest(CandidateNames(primary), PrimaryNamespaces(primary)))|
  {
    var primary := PrimaryClasses(AllClasses(files));
    ViolationsCount(files, CandidateNames(primary), PrimaryNamespaces(primary));
  }
}
