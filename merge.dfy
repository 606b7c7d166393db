/**
 * The merge engine (`MergePluginPartials`, last part, with
 * `BuildMergedClassSyntax` and `UsingComparer`): the using directives of all
 * files, de-duplicated, and one non-partial class per (name, namespace)
 * group of partial classes, placed in its namespace. The merged unit is kept
 * as a structure; rendering it as text is not modelled.
 */
module Merge {
  import opened Wrappers
  import opened Seqs
  import opened Syntax
  import opened Resolver
  import opened Validator

  /** `int.MaxValue`, the start of a member that has no location. */
  const IntMax: int := 0x7fff_ffff

  datatype MergedClass = MergedClass(
    identifier: string,
    attributes: seq<AttributeList>,
    modifiers: seq<Modifier>,
    typeParams: Option<string>,
    baseList: Option<seq<string>>,
    constraints: seq<string>,
    members: seq<Member>)

  /** A member of the merged compilation unit. */
  datatype UnitMember = NamespaceDecl(name: string, classes: seq<MergedClass>) | TopLevelClass(cls: MergedClass)

  datatype CompilationUnit = CompilationUnit(usings: seq<UsingDirective>, members: seq<UnitMember>)

  // ---------------------------------------------------------------------------
  // Using directives
  // ---------------------------------------------------------------------------

  /** `UsingComparer`: two directives are equal when their names have the same text, or both have none. */
  function UsingKey(u: UsingDirective): Option<string> { u.name }

  function FileUsings(f: SourceFile): seq<UsingDirective> { f.usings }

  function AllUsings(files: seq<SourceFile>): seq<UsingDirective> {
    FlatMap(files, FileUsings)
  }

  /** `Distinct(new UsingComparer())` over every file's usings. */
  function MergedUsings(files: seq<SourceFile>): seq<UsingDirective> {
    DistinctBy(AllUsings(files), UsingKey)
  }

  // ---------------------------------------------------------------------------
  // One merged class
  // ---------------------------------------------------------------------------

  /** The first part that has a base list. */
  function FirstWithBaseList(parts: seq<TypeDecl>): (r: Option<TypeDecl>)
    ensures r.None? <==> forall i :: 0 <= i < |parts| ==> parts[i].baseList.None?
    ensures r.Some? ==> exists i :: (0 <= i < |parts| && r.value == parts[i] && parts[i].baseList.Some? &&
      forall j :: 0 <= j < i ==> parts[j].baseList.None?)
  {
    if parts == [] then None
    else if parts[0].baseList.Some? then Some(parts[0])
    else
      var r := FirstWithBaseList(parts[1..]);
      assert forall i :: 0 < i < |parts| ==> parts[i] == parts[1..][i - 1];
      assert r.Some? ==> exists i :: (0 <= i < |parts| && r.value == parts[i] && parts[i].baseList.Some? &&
        forall j :: 0 <= j < i ==> parts[j].baseList.None?) by {
        if r.Some? {
          var i :| 0 <= i < |parts[1..]| && r.value == parts[1..][i] && parts[1..][i].baseList.Some? &&
            forall j :: 0 <= j < i ==> parts[1..][j].baseList.None?;
          assert parts[i + 1] == r.value;
        }
      }
      r
  }

  /** `basePart`: the first part that has a base list, else the first part. */
  function BasePart(parts: seq<TypeDecl>): (b: TypeDecl)
    requires parts != []
  {
    FirstWithBaseList(parts).GetOr(parts[0])
  }

  predicate NotPartial(m: Modifier) { m != Partial }

  /** The base part's modifiers without `partial`, or `public` alone if none remain. */
  function MergedModifiers(mods: seq<Modifier>): seq<Modifier> {
    var kept := Filter(mods, NotPartial);
    if kept == [] then [Public] else kept
  }

  function MemberStart(m: Member): int { m.start.GetOr(IntMax) }

  function AttributeStart(a: AttributeList): int { a.start }

  function AttributeText(a: AttributeList): string { a.text }

  function PartMembers(p: TypeDecl): seq<Member> { p.members }

  function PartAttributes(p: TypeDecl): seq<AttributeList> { p.attributes }

  /** Every part's attribute lists, ordered by start offset (a stable sort). */
  function OrderedAttributes(parts: seq<TypeDecl>): seq<AttributeList> {
    SortBy(FlatMap(parts, PartAttributes), AttributeStart)
  }

  /** Every part's members, ordered by start offset (a stable sort). */
  function OrderedMembers(parts: seq<TypeDecl>): seq<Member> {
    SortBy(FlatMap(parts, PartMembers), MemberStart)
  }

  /** The merged class of one group of parts. */
  function MergedClassOf(parts: seq<TypeDecl>): MergedClass
    requires parts != []
  {
    var b := BasePart(parts);
    MergedClass(b.identifier, DistinctBy(OrderedAttributes(parts), AttributeText),
      MergedModifiers(b.modifiers), b.typeParams, b.baseList, b.constraints, OrderedMembers(parts))
  }

  /** The loop over the ordered attribute lists with its `seenAttributes` set. */
  method DedupAttributes(ordered: seq<AttributeList>) returns (kept: seq<AttributeList>)
    ensures kept == DistinctBy(ordered, AttributeText)
  {
    var seen: set<string> := {};
    kept := [];
    var i := 0;
    while i < |ordered|
      invariant 0 <= i <= |ordered|
      invariant kept == DistinctBy(ordered[..i], AttributeText)
      invariant seen == KeySet(kept, AttributeText)
    {
      assert ordered[..i + 1][..i] == ordered[..i];
      var key := ordered[i].text;
      if key !in seen {
        seen := seen + {key};
        kept := kept + [ordered[i]];
      }
      i := i + 1;
    }
    assert ordered[..|ordered|] == ordered;
  }

  /** `BuildMergedClassSyntax`. */
  method BuildMergedClass(parts: seq<TypeDecl>) returns (merged: MergedClass)
    requires parts != []
    ensures merged == MergedClassOf(parts)
  {
    var basePart := BasePart(parts);
    var attributes := DedupAttributes(OrderedAttributes(parts));
    var modifiers := Filter(basePart.modifiers, NotPartial);
    if modifiers == [] {
      modifiers := [Public];
    }
    merged := MergedClass(basePart.identifier, attributes, modifiers, None, None, [], OrderedMembers(parts));
    if basePart.typeParams.Some? {
      merged := merged.(typeParams := basePart.typeParams);
    }
    if basePart.baseList.Some? {
      merged := merged.(baseList := basePart.baseList);
    }
    if |basePart.constraints| > 0 {
      merged := merged.(constraints := basePart.constraints);
    }
  }

  // ---------------------------------------------------------------------------
  // Grouping and assembly
  // ---------------------------------------------------------------------------

  /** Every class declaration marked `partial`, nested ones included. */
  function PartialClasses(files: seq<SourceFile>): seq<TypeDecl> {
    Filter(AllClasses(files), (c: TypeDecl) => c.IsPartial())
  }

  function ClassKey(c: TypeDecl): (string, Option<string>) { (c.identifier, c.ns) }

  type ClassGroup = Group<(string, Option<string>), TypeDecl>

  /** Groups by (identifier, namespace). */
  function ClassGroups(files: seq<SourceFile>): seq<ClassGroup> {
    GroupBy(PartialClasses(files), ClassKey)
  }

  /** The namespace a group's class goes in; the empty name stands for none. */
  function NamespaceKey(g: ClassGroup): string { g.key.1.GetOr("") }

  function NamespaceGroups(files: seq<SourceFile>): seq<Group<string, ClassGroup>> {
    GroupBy(ClassGroups(files), NamespaceKey)
  }

  predicate NonEmptyGroups(gs: seq<ClassGroup>) {
    forall k :: 0 <= k < |gs| ==> gs[k].items != []
  }

  /** One merged class per group, in the groups' order. */
  function MergeGroups(gs: seq<ClassGroup>): (r: seq<MergedClass>)
    requires NonEmptyGroups(gs)
    ensures |r| == |gs|
  {
    if gs == [] then []
    else
      assert NonEmptyGroups(gs[1..]) by {
        forall k | 0 <= k < |gs| - 1 ensures gs[1..][k].items != [] {
          assert gs[1..][k] == gs[k + 1];
        }
      }
      [MergedClassOf(gs[0].items)] + MergeGroups(gs[1..])
  }

  /** The class merged at position `k` is the merge of group `k`'s parts. */
  lemma {:induction false} MergeGroupsEach(gs: seq<ClassGroup>, k: nat)
    requires NonEmptyGroups(gs) && k < |gs|
    ensures MergeGroups(gs)[k] == MergedClassOf(gs[k].items)
    decreases k
  {
    if k > 0 {
      assert NonEmptyGroups(gs[1..]) by {
        forall j | 0 <= j < |gs| - 1 ensures gs[1..][j].items != [] {
          assert gs[1..][j] == gs[j + 1];
        }
      }
      MergeGroupsEach(gs[1..], k - 1);
      assert gs[1..][k - 1] == gs[k];
    }
  }

  /** A namespace container per non-empty namespace name; classes without one at the top level. */
  function Place(merged: seq<(string, seq<MergedClass>)>): seq<UnitMember> {
    if merged == [] then [] else NamespaceMembers(merged[0].0, merged[0].1) + Place(merged[1..])
  }

  /** The members one namespace contributes: a container when it has a name, its classes at the top level otherwise. */
  function NamespaceMembers(key: string, classes: seq<MergedClass>): seq<UnitMember> {
    if key != "" then [NamespaceDecl(key, classes)] else Map(classes, (c: MergedClass) => TopLevelClass(c))
  }

  /** The members of the merged unit: each namespace group merged, then placed. */
  function Assemble(nsGroups: seq<Group<string, ClassGroup>>): seq<UnitMember>
    requires forall k :: 0 <= k < |nsGroups| ==> NonEmptyGroups(nsGroups[k].items)
  {
    Place(MapItems(nsGroups, MergeGroups))
  }

  lemma ClassGroupsNonEmpty(files: seq<SourceFile>)
    ensures forall g :: g in ClassGroups(files) ==> g.items != []
  {
    var cgs := ClassGroups(files);
    GroupByDistinctKeys(PartialClasses(files), ClassKey);
    forall g | g in cgs ensures g.items != [] {
      var i :| 0 <= i < |cgs| && cgs[i] == g;
    }
  }

  lemma NamespaceGroupsNonEmpty(files: seq<SourceFile>)
    ensures forall k :: 0 <= k < |NamespaceGroups(files)| ==> NonEmptyGroups(NamespaceGroups(files)[k].items)
  {
    var cgs := ClassGroups(files);
    var ngs := NamespaceGroups(files);
    ClassGroupsNonEmpty(files);
    forall k | 0 <= k < |ngs| ensures NonEmptyGroups(ngs[k].items) {
      GroupItemsFromInput(cgs, NamespaceKey, k);
    }
  }

  /** The merged compilation unit of a plugin's files. */
  function MergedUnit(files: seq<SourceFile>): CompilationUnit {
    NamespaceGroupsNonEmpty(files);
    CompilationUnit(MergedUsings(files), Assemble(NamespaceGroups(files)))
  }

  /** The output of one plugin: the merged unit, written only when validation passes. */
  function MergeOutput(files: seq<SourceFile>): Option<CompilationUnit> {
    if Validate(files).Valid? then Some(MergedUnit(files)) else None
  }

  // ---------------------------------------------------------------------------
  // Properties
  // ---------------------------------------------------------------------------

  /** The base part is the first part with a base list, or the first part when none has one. */
  lemma BasePartChoice(parts: seq<TypeDecl>)
    requires parts != []
    ensures (exists i :: 0 <= i < |parts| && parts[i].baseList.Some?) ==>
      exists i :: (0 <= i < |parts| && BasePart(parts) == parts[i] && parts[i].baseList.Some? &&
        forall j :: 0 <= j < i ==> parts[j].baseList.None?)
    ensures (forall i :: 0 <= i < |parts| ==> parts[i].baseList.None?) ==> BasePart(parts) == parts[0]
  {
  }

  /**
   * The merged class's header comes from the base part only: its name,
   * type parameters, base list and constraints.
   */
  lemma MergedHeader(parts: seq<TypeDecl>)
    requires parts != []
    ensures var m := MergedClassOf(parts); var b := BasePart(parts);
      && m.identifier == b.identifier && m.typeParams == b.typeParams
      && m.baseList == b.baseList && m.constraints == b.constraints
      && m.modifiers == MergedModifiers(b.modifiers)
  {
  }

  /**
   * The merged modifiers: never `partial`; every other modifier of the base
   * part kept, in order; nothing added but `public`, which stands alone
   * when the base part had nothing besides `partial`.
   */
  lemma MergedModifiersSpec(mods: seq<Modifier>)
    ensures var r := MergedModifiers(mods);
      && Partial !in r
      && (forall k :: 0 <= k < |mods| && mods[k] != Partial ==> mods[k] in r)
      && (forall x :: x in r ==> x in mods || x == Public)
      && ((forall k :: 0 <= k < |mods| ==> mods[k] == Partial) ==> r == [Public])
      && ((exists k :: 0 <= k < |mods| && mods[k] != Partial) ==> r == Filter(mods, NotPartial))
  {
    var kept := Filter(mods, NotPartial);
    FilterEmpty(mods, NotPartial);
    var r := MergedModifiers(mods);
    forall x | x in r ensures x != Partial && (x in mods || x == Public) {
      if kept != [] {
        var k :| 0 <= k < |kept| && kept[k] == x;
      }
    }
  }

  /**
   * The merged members are the parts' members, all of them and nothing
   * else, in non-decreasing start offset (no location counting as
   * `int.MaxValue`), members with equal offsets in their original order.
   */
  lemma MergedMembersOrdered(parts: seq<TypeDecl>)
    requires parts != []
    ensures var m := MergedClassOf(parts).members; var all := FlatMap(parts, PartMembers);
      && multiset(m) == multiset(all)
      && (forall i, j :: 0 <= i < j < |m| ==> MemberStart(m[i]) <= MemberStart(m[j]))
      && (forall k :: WithKey(m, MemberStart, k) == WithKey(all, MemberStart, k))
  {
    var all := FlatMap(parts, PartMembers);
    forall k ensures WithKey(SortBy(all, MemberStart), MemberStart, k) == WithKey(all, MemberStart, k) {
      SortByStable(all, MemberStart, k);
    }
  }

  /**
   * The merged attribute lists: ordered by start offset, no two with the
   * same text, every text of every part present, each kept list the first
   * in offset order with its text.
   */
  lemma MergedAttributesDeduplicated(parts: seq<TypeDecl>)
    requires parts != []
    ensures var a := MergedClassOf(parts).attributes; var ordered := OrderedAttributes(parts);
      && (forall i, j :: 0 <= i < j < |a| ==> a[i].start <= a[j].start && a[i].text != a[j].text)
      && KeySet(a, AttributeText) == KeySet(FlatMap(parts, PartAttributes), AttributeText)
      && (forall j :: 0 <= j < |a| ==>
            a[j].text in KeySet(ordered, AttributeText) && a[j] == ordered[FirstIndex(ordered, AttributeText, a[j].text)])
  {
    var ordered := OrderedAttributes(parts);
    var a := DistinctBy(ordered, AttributeText);
    assert MergedClassOf(parts).attributes == a;
    KeptAttributes(ordered, a);
    SortedKeySet(parts);
  }

  /** The attribute lists the deduplication keeps out of lists ordered by start offset. */
  lemma KeptAttributes(ordered: seq<AttributeList>, a: seq<AttributeList>)
    requires SortedBy(ordered, AttributeStart)
    requires a == DistinctBy(ordered, AttributeText)
    ensures forall i, j :: 0 <= i < j < |a| ==> a[i].start <= a[j].start && a[i].text != a[j].text
    ensures KeySet(a, AttributeText) == KeySet(ordered, AttributeText)
    ensures forall j :: 0 <= j < |a| ==>
      a[j].text in KeySet(ordered, AttributeText) && a[j] == ordered[FirstIndex(ordered, AttributeText, a[j].text)]
  {
    DistinctBySorted(ordered, AttributeText, AttributeStart);
    DistinctByFirstSeen(ordered, AttributeText);
    forall i, j | 0 <= i < j < |a| ensures a[i].start <= a[j].start && a[i].text != a[j].text {
      assert AttributeStart(a[i]) <= AttributeStart(a[j]);
      assert AttributeText(a[i]) != AttributeText(a[j]);
    }
  }

  lemma SortedKeySet(parts: seq<TypeDecl>)
    ensures KeySet(OrderedAttributes(parts), AttributeText) == KeySet(FlatMap(parts, PartAttributes), AttributeText)
  {
    var ordered := OrderedAttributes(parts);
    var all := FlatMap(parts, PartAttributes);
    assert multiset(ordered) == multiset(all);
    forall t | t in KeySet(all, AttributeText) ensures t in KeySet(ordered, AttributeText) {
      var x :| x in all && x.text == t;
      assert x in multiset(ordered);
      assert x in ordered;
    }
    forall t | t in KeySet(ordered, AttributeText) ensures t in KeySet(all, AttributeText) {
      var x :| x in ordered && x.text == t;
      assert x in multiset(all);
      assert x in all;
    }
  }

  /**
   * The merged usings: no two share a name (or both lack one), every name
   * used anywhere survives, and each kept directive is the first one with
   * its name across the files in order.
   */
  lemma MergedUsingsDeduplicated(files: seq<SourceFile>)
    ensures var u := MergedUsings(files); var all := AllUsings(files);
      && (forall i, j :: 0 <= i < j < |u| ==> u[i].name != u[j].name)
      && KeySet(u, UsingKey) == KeySet(all, UsingKey)
      && (forall j :: 0 <= j < |u| ==> u[j] == all[FirstIndex(all, UsingKey, u[j].name)])
      && (forall i, j :: 0 <= i < j < |u| ==>
            FirstIndex(all, UsingKey, u[i].name) < FirstIndex(all, UsingKey, u[j].name))
  {
    DistinctByFirstSeen(AllUsings(files), UsingKey);
  }

  /** The classes grouped are exactly the partial ones, nested ones included. */
  lemma PartialClassesAre(files: seq<SourceFile>)
    ensures forall x :: x in PartialClasses(files) <==> x in AllClasses(files) && x.IsPartial()
  {
    FilterContains(AllClasses(files), (c: TypeDecl) => c.IsPartial());
  }

  /**
   * The grouping of `partials`: no two groups share a (name, namespace)
   * key, every partial class has the group of its key, and each group
   * holds exactly the partial classes with its key.
   */
  lemma ClassGroupsPartition(files: seq<SourceFile>)
    ensures forall g, h :: 0 <= g < h < |ClassGroups(files)| ==> ClassGroups(files)[g].key != ClassGroups(files)[h].key
    ensures forall i :: 0 <= i < |PartialClasses(files)| ==>
      exists g :: 0 <= g < |ClassGroups(files)| && ClassGroups(files)[g].key == ClassKey(PartialClasses(files)[i])
    ensures forall g :: 0 <= g < |ClassGroups(files)| ==> forall x :: x in ClassGroups(files)[g].items <==>
      (x in PartialClasses(files) && ClassKey(x) == ClassGroups(files)[g].key)
  {
    GroupsPartitionClasses(PartialClasses(files), ClassGroups(files));
  }

  lemma GroupsPartitionClasses(ps: seq<TypeDecl>, cgs: seq<ClassGroup>)
    requires cgs == GroupBy(ps, ClassKey)
    ensures forall g, h :: 0 <= g < h < |cgs| ==> cgs[g].key != cgs[h].key
    ensures forall i :: 0 <= i < |ps| ==> exists g :: 0 <= g < |cgs| && cgs[g].key == ClassKey(ps[i])
    ensures forall g :: 0 <= g < |cgs| ==> forall x :: x in cgs[g].items <==> (x in ps && ClassKey(x) == cgs[g].key)
  {
    GroupByPartition(ps, ClassKey);
  }

  /** A namespace container of the placed members comes from a named namespace and holds its classes. */
  lemma {:induction false} PlacedContainer(merged: seq<(string, seq<MergedClass>)>, m: UnitMember) returns (k: nat)
    requires m in Place(merged) && m.NamespaceDecl?
    ensures k < |merged| && merged[k].0 != "" && m == NamespaceDecl(merged[k].0, merged[k].1)
  {
    if m in NamespaceMembers(merged[0].0, merged[0].1) {
      NamespaceMembersContainer(merged[0].0, merged[0].1);
      k := 0;
    } else {
      var j := PlacedContainer(merged[1..], m);
      assert merged[1..][j] == merged[j + 1];
      k := j + 1;
    }
  }

  /** A top-level class of the placed members is a class of a namespace without a name. */
  lemma {:induction false} PlacedTopLevel(merged: seq<(string, seq<MergedClass>)>, m: UnitMember) returns (k: nat, i: nat)
    requires m in Place(merged) && m.TopLevelClass?
    ensures k < |merged| && merged[k].0 == "" && i < |merged[k].1| && m == TopLevelClass(merged[k].1[i])
  {
    if m in NamespaceMembers(merged[0].0, merged[0].1) {
      i := TopLevelIndex(merged[0].0, merged[0].1, m);
      k := 0;
    } else {
      var j;
      j, i := PlacedTopLevel(merged[1..], m);
      assert merged[1..][j] == merged[j + 1];
      assert m == TopLevelClass(merged[j + 1].1[i]);
      k := j + 1;
    }
  }

  lemma NamespaceMembersContainer(key: string, classes: seq<MergedClass>)
    ensures forall m :: m in NamespaceMembers(key, classes) && m.NamespaceDecl? ==> key != "" && m == NamespaceDecl(key, classes)
  {
    var head := NamespaceMembers(key, classes);
    forall m | m in head && m.NamespaceDecl? ensures key != "" && m == NamespaceDecl(key, classes) {
      var j :| 0 <= j < |head| && head[j] == m;
    }
  }

  /** A top-level member contributed by one namespace is one of its classes, and the namespace has no name. */
  lemma TopLevelIndex(key: string, classes: seq<MergedClass>, m: UnitMember) returns (i: nat)
    requires m in NamespaceMembers(key, classes) && m.TopLevelClass?
    ensures key == "" && i < |classes| && m == TopLevelClass(classes[i])
  {
    var head := NamespaceMembers(key, classes);
    var j :| 0 <= j < |head| && head[j] == m;
    i := j;
  }

  /** Each namespace container has a non-empty name and holds the merged classes of that namespace's groups. */
  lemma AssembleNamespaces(nsGroups: seq<Group<string, ClassGroup>>)
    requires forall k :: 0 <= k < |nsGroups| ==> NonEmptyGroups(nsGroups[k].items)
    ensures forall m :: m in Assemble(nsGroups) && m.NamespaceDecl? ==>
      exists k :: 0 <= k < |nsGroups| && nsGroups[k].key != "" && m == NamespaceDecl(nsGroups[k].key, MergeGroups(nsGroups[k].items))
  {
    forall m | m in Assemble(nsGroups) && m.NamespaceDecl?
      ensures exists k :: 0 <= k < |nsGroups| && nsGroups[k].key != "" && m == NamespaceDecl(nsGroups[k].key, MergeGroups(nsGroups[k].items))
    {
      var k := PlacedContainer(MapItems(nsGroups, MergeGroups), m);
    }
  }

  /**
   * Each top-level class of the assembled unit is the merge of one class
   * group of the namespace group without a name.
   */
  lemma AssembleTopLevel(nsGroups: seq<Group<string, ClassGroup>>)
    requires forall k :: 0 <= k < |nsGroups| ==> NonEmptyGroups(nsGroups[k].items)
    ensures forall m :: m in Assemble(nsGroups) && m.TopLevelClass? ==>
      exists k, i :: 0 <= k < |nsGroups| && nsGroups[k].key == "" && 0 <= i < |nsGroups[k].items| && m == TopLevelClass(MergedClassOf(nsGroups[k].items[i].items))
  {
    forall m | m in Assemble(nsGroups) && m.TopLevelClass?
      ensures exists k, i :: 0 <= k < |nsGroups| && nsGroups[k].key == "" && 0 <= i < |nsGroups[k].items| && m == TopLevelClass(MergedClassOf(nsGroups[k].items[i].items))
    {
      var k, i := PlacedTopLevel(MapItems(nsGroups, MergeGroups), m);
      MergeGroupsEach(nsGroups[k].items, i);
    }
  }

  /** A merged unit is written exactly when both checks pass. */
  lemma OutputIffValid(files: seq<SourceFile>)
    ensures MergeOutput(files).Some? <==> ErrorsAdded(Validate(files)) == 0
    ensures MergeOutput(files).Some? ==> MergeOutput(files).value == MergedUnit(files)
  {
    ErrorsAddedIffRejected(files);
  }
}
