/**
 * Primary-class resolution (`MergePluginPartials`, first part): which class
 * declarations of a plugin are its main plugin class. Three heuristics are
 * tried in turn over every class declaration of every file; the first that
 * selects anything wins.
 */
module Resolver {
  import opened Wrappers
  import opened Text
  import opened Seqs
  import opened Syntax

  /** The base types that mark a plugin class. */
  const PluginBaseMarkers: seq<string> := ["RustPlugin", "CovalencePlugin"]

  /** Every class declaration of every file, nested ones included, in file and document order. */
  function AllClasses(files: seq<SourceFile>): seq<TypeDecl> {
    FlatMap(files, FileClasses)
  }

  function FileClasses(f: SourceFile): seq<TypeDecl> {
    Filter(f.decls, (d: TypeDecl) => d.IsClass())
  }

  /** Tier 1: some base-type text contains a marker (ordinal substring). */
  predicate HasMarkerBase(c: TypeDecl) {
    c.baseList.Some? &&
    exists t, m :: t in c.baseList.value && m in PluginBaseMarkers && Contains(t, m)
  }

  /** Tier 2: some attribute's name contains "Info". */
  predicate HasInfoAttribute(c: TypeDecl) {
    exists a, n :: a in c.attributes && n in a.names && Contains(n, "Info")
  }

  /** Tier 3: declared `public` and named "...Plugin", ignoring case. */
  predicate IsPublicPluginNamed(c: TypeDecl) {
    c.IsPublic() && EndsWithIgnoreCase(c.identifier, "Plugin")
  }

  /** `primaryPluginClasses`: the classes chosen by the first tier that chooses any. */
  function PrimaryClasses(all: seq<TypeDecl>): (r: seq<TypeDecl>)
    ensures forall k :: 0 <= k < |r| ==> r[k] in all
  {
    var tier1 := Filter(all, HasMarkerBase);
    if tier1 != [] then tier1
    else
      var tier2 := Filter(all, HasInfoAttribute);
      if tier2 != [] then tier2
      else Filter(all, IsPublicPluginNamed)
  }

  /** `pluginClassNames`: the identifiers of the primary classes. */
  function CandidateNames(primary: seq<TypeDecl>): (names: set<string>)
    ensures forall n :: n in names <==> exists k :: 0 <= k < |primary| && primary[k].identifier == n
  {
    set k | 0 <= k < |primary| :: primary[k].identifier
  }

  /** `pluginNamespaces`: the namespaces of the primary classes. */
  function PrimaryNamespaces(primary: seq<TypeDecl>): set<Option<string>> {
    set k | 0 <= k < |primary| :: primary[k].ns
  }

  /** The test "its identifier is one of `names`". */
  function NamedIn(names: set<string>): TypeDecl -> bool {
    (c: TypeDecl) => c.identifier in names
  }

  /**
   * `classesToCheck`: every class whose identifier is a candidate name, or
   * the primary classes when there is none.
   */
  function ClassesToCheck(all: seq<TypeDecl>): seq<TypeDecl> {
    var primary := PrimaryClasses(all);
    var named := Filter(all, NamedIn(CandidateNames(primary)));
    if named != [] then named else primary
  }

  /**
   * The tiers, as the resolver applies them: tier 1 decides whenever any
   * class qualifies for it; tier 2 only when no class qualifies for tier 1;
   * tier 3 only when no class qualifies for either. In each case a class is
   * primary exactly when it qualifies for the deciding tier.
   */
  lemma ResolutionTiers(all: seq<TypeDecl>)
    ensures (exists i :: 0 <= i < |all| && HasMarkerBase(all[i])) ==>
      forall i :: 0 <= i < |all| ==> (all[i] in PrimaryClasses(all) <==> HasMarkerBase(all[i]))
    ensures (forall i :: 0 <= i < |all| ==> !HasMarkerBase(all[i])) &&
            (exists i :: 0 <= i < |all| && HasInfoAttribute(all[i])) ==>
      forall i :: 0 <= i < |all| ==> (all[i] in PrimaryClasses(all) <==> HasInfoAttribute(all[i]))
    ensures (forall i :: 0 <= i < |all| ==> !HasMarkerBase(all[i]) && !HasInfoAttribute(all[i])) ==>
      forall i :: 0 <= i < |all| ==> (all[i] in PrimaryClasses(all) <==> IsPublicPluginNamed(all[i]))
    ensures forall c :: c in PrimaryClasses(all) ==> c in all
  {
    TierOneDecides(all);
    TierTwoDecides(all);
    TierThreeDecides(all);
    var r := PrimaryClasses(all);
    forall c | c in r ensures c in all {
      var k :| 0 <= k < |r| && r[k] == c;
    }
  }

  lemma TierOneDecides(all: seq<TypeDecl>)
    ensures (exists i :: 0 <= i < |all| && HasMarkerBase(all[i])) ==>
      forall i :: 0 <= i < |all| ==> (all[i] in PrimaryClasses(all) <==> HasMarkerBase(all[i]))
  {
    FilterEmpty(all, HasMarkerBase);
    FilterMember(all, HasMarkerBase);
  }

  lemma TierTwoDecides(all: seq<TypeDecl>)
    ensures (forall i :: 0 <= i < |all| ==> !HasMarkerBase(all[i])) &&
            (exists i :: 0 <= i < |all| && HasInfoAttribute(all[i])) ==>
      forall i :: 0 <= i < |all| ==> (all[i] in PrimaryClasses(all) <==> HasInfoAttribute(all[i]))
  {
    FilterEmpty(all, HasMarkerBase);
    FilterEmpty(all, HasInfoAttribute);
    FilterMember(all, HasInfoAttribute);
  }

  lemma TierThreeDecides(all: seq<TypeDecl>)
    ensures (forall i :: 0 <= i < |all| ==> !HasMarkerBase(all[i]) && !HasInfoAttribute(all[i])) ==>
      forall i :: 0 <= i < |all| ==> (all[i] in PrimaryClasses(all) <==> IsPublicPluginNamed(all[i]))
  {
    FilterEmpty(all, HasMarkerBase);
    FilterEmpty(all, HasInfoAttribute);
    FilterMember(all, IsPublicPluginNamed);
  }

  /**
   * The fallback of `classesToCheck` never changes anything: the checked
   * classes are always exactly the classes bearing a candidate name (when
   * no class is primary there are no candidate names and nothing to check).
   */
  lemma ClassesToCheckAreNamed(all: seq<TypeDecl>)
    ensures ClassesToCheck(all) == Filter(all, NamedIn(CandidateNames(PrimaryClasses(all))))
    ensures forall c :: c in ClassesToCheck(all) <==> c in all && c.identifier in CandidateNames(PrimaryClasses(all))
  {
    var primary := PrimaryClasses(all);
    NamedCoversPrimary(all, primary);
    FilterContains(all, NamedIn(CandidateNames(primary)));
  }

  /** Some class bears a candidate name exactly when some class is primary. */
  lemma NamedCoversPrimary(all: seq<TypeDecl>, primary: seq<TypeDecl>)
    requires forall k :: 0 <= k < |primary| ==> primary[k] in all
    ensures (Filter(all, NamedIn(CandidateNames(primary))) == []) <==> (primary == [])
  {
    var p := NamedIn(CandidateNames(primary));
    if primary != [] {
      var i :| 0 <= i < |all| && all[i] == primary[0];
      assert p(all[i]);
    } else {
      assert CandidateNames(primary) == {};
      FilterEmpty(all, p);
    }
  }
}
