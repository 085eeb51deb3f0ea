/** The composite-type rule (internal/xpkg/lint/linter/rules/composition.go): every
    Composition must reference a composite type that an XRD of the same package
    defines. Only the package's own XRDs are consulted, never the schema store. */
module CompositionRule {
  import opened Wrappers
  import opened Kube
  import opened Foreign
  import opened Xpkg
  import opened Lint

  function ErrConvertTo(typeName: string): string { "failed to convert object to " + typeName }

  /** The message wrapped around a group/version parse error: it reuses the text of a
      conversion failure. */
  const ErrParseGroupVersion := "failed to convert object to Composition"

  function ErrNoMatchingCompositeType(gvk: GVK): string
  {
    "no composite type found for " + gvk.kind + "." + gvk.group + "/" + gvk.version
  }

  /** What `getCompositeXRD` returns: the matching version, nothing, or the issue that
      stopped the scan. */
  datatype XrdSearch = Found(version: XrdVersion) | NoMatch | ConvertFailed(issue: Issue)

  /** The XRD defines the composite type: same group and kind, and a version of that name. */
  predicate Defines(xrd: Xrd, gvk: GVK)
  {
    xrd.group == gvk.group && xrd.kind == gvk.kind && exists v :: v in xrd.versions && v.name == gvk.version
  }

  /** The first version of `vs` with the given name. */
  function FirstVersion(vs: seq<XrdVersion>, name: string): (r: Option<XrdVersion>)
    ensures r.Some? ==> r.value in vs && r.value.name == name
    ensures r.None? <==> forall v :: v in vs ==> v.name != name
  {
    if vs == [] then None
    else if vs[0].name == name then Some(vs[0])
    else
      var r := FirstVersion(vs[1..], name);
      assert forall v :: v in vs ==> v == vs[0] || v in vs[1..];
      r
  }

  /** The scan moves past entry `j`: it is not an XRD, or it converts and does not
      define the composite type. */
  predicate Passes(entries: seq<PackageEntry>, codec: Codec, gvk: GVK, j: nat)
    requires j < |entries|
  {
    IsXRD(entries[j]) ==> AsXRD(entries[j], codec).Ok? && !Defines(AsXRD(entries[j], codec).value, gvk)
  }

  /** `getCompositeXRD` from entry `i` on, in entry order. */
  function SearchFrom(entries: seq<PackageEntry>, codec: Codec, gvk: GVK, i: nat): XrdSearch
    decreases |entries| - i
  {
    if i >= |entries| then NoMatch
    else if !IsXRD(entries[i]) then SearchFrom(entries, codec, gvk, i + 1)
    else
      match AsXRD(entries[i], codec)
      case Err(err) => ConvertFailed(EntryIssue(i, [], "", Wrap(ErrConvertTo("XRD"), err)))
      case Ok(xrd) =>
        if xrd.group == gvk.group && xrd.kind == gvk.kind && FirstVersion(xrd.versions, gvk.version).Some?
        then Found(FirstVersion(xrd.versions, gvk.version).value)
        else SearchFrom(entries, codec, gvk, i + 1)
  }

  function GetCompositeXRD(entries: seq<PackageEntry>, codec: Codec, gvk: GVK): XrdSearch
  {
    SearchFrom(entries, codec, gvk, 0)
  }

  /** The search is a first-match scan: it finds the first XRD that defines the type,
      unless an XRD that fails to convert comes first, in which case that entry's
      conversion issue is returned; it finds nothing exactly when every entry passes. */
  lemma {:induction false} SearchFromSpec(entries: seq<PackageEntry>, codec: Codec, gvk: GVK, i: nat)
    ensures SearchFrom(entries, codec, gvk, i).NoMatch? <==>
              forall j :: i <= j < |entries| ==> Passes(entries, codec, gvk, j)
    ensures SearchFrom(entries, codec, gvk, i).Found? ==>
              exists j :: i <= j < |entries| && IsXRD(entries[j]) && AsXRD(entries[j], codec).Ok?
                          && Defines(AsXRD(entries[j], codec).value, gvk)
                          && SearchFrom(entries, codec, gvk, i).version in AsXRD(entries[j], codec).value.versions
                          && SearchFrom(entries, codec, gvk, i).version.name == gvk.version
                          && forall j' :: i <= j' < j ==> Passes(entries, codec, gvk, j')
    ensures SearchFrom(entries, codec, gvk, i).ConvertFailed? ==>
              exists j :: i <= j < |entries| && IsXRD(entries[j]) && AsXRD(entries[j], codec).Err?
                          && SearchFrom(entries, codec, gvk, i).issue
                             == EntryIssue(j, [], "", Wrap(ErrConvertTo("XRD"), AsXRD(entries[j], codec).error))
                          && forall j' :: i <= j' < j ==> Passes(entries, codec, gvk, j')
    decreases |entries| - i
  {
    if i < |entries| {
      SearchFromSpec(entries, codec, gvk, i + 1);
      if IsXRD(entries[i]) && AsXRD(entries[i], codec).Ok? {
        var xrd := AsXRD(entries[i], codec).value;
        if Defines(xrd, gvk) {
          var v :| v in xrd.versions && v.name == gvk.version;
          assert FirstVersion(xrd.versions, gvk.version).Some?;
          assert !Passes(entries, codec, gvk, i);
        } else {
          assert SearchFrom(entries, codec, gvk, i) == SearchFrom(entries, codec, gvk, i + 1);
          assert Passes(entries, codec, gvk, i);
        }
      } else if IsXRD(entries[i]) {
        assert !Passes(entries, codec, gvk, i);
      } else {
        assert Passes(entries, codec, gvk, i);
      }
    }
  }

  /** `CheckCompositionCompositeTypeRef` for the entry at `idx`: only Compositions are
      examined, and each gives at most one issue. */
  function CompositeTypeRefIssues(entries: seq<PackageEntry>, codec: Codec, idx: nat): (r: seq<Issue>)
    requires idx < |entries|
    ensures |r| <= 1
    ensures !IsComposition(entries[idx]) ==> r == []
    ensures AsComposition(entries[idx], codec).Err? && IsComposition(entries[idx]) ==>
              r == [EntryIssue(idx, [], "", Wrap(ErrConvertTo("Composition"), AsComposition(entries[idx], codec).error))]
    ensures IsComposition(entries[idx]) && AsComposition(entries[idx], codec).Ok?
            && codec.parseGroupVersion(AsComposition(entries[idx], codec).value.compositeTypeRef.apiVersion).Err? ==>
              r == [EntryIssue(idx, [], "", Wrap(ErrParseGroupVersion,
                      codec.parseGroupVersion(AsComposition(entries[idx], codec).value.compositeTypeRef.apiVersion).error))]
  {
    var e := entries[idx];
    if !IsComposition(e) then []
    else
      match AsComposition(e, codec)
      case Err(err) => [EntryIssue(idx, [], "", Wrap(ErrConvertTo("Composition"), err))]
      case Ok(comp) =>
        match codec.parseGroupVersion(comp.compositeTypeRef.apiVersion)
        case Err(err) => [EntryIssue(idx, [], "", Wrap(ErrParseGroupVersion, err))]
        case Ok(gv) =>
          var gvk := gv.WithKind(comp.compositeTypeRef.kind);
          match GetCompositeXRD(entries, codec, gvk)
          case ConvertFailed(issue) => [issue]
          case NoMatch => [EntryIssue(idx, [], "", ErrNoMatchingCompositeType(gvk))]
          case Found(_) => []
  }

  /** A composition whose type reference parses gets no issue exactly when some XRD
      defines the type and no failing XRD precedes the first one that does; without a
      defining XRD it gets the single no-match issue, unless a failing XRD stops the scan. */
  lemma CompositeTypeRefOutcome(entries: seq<PackageEntry>, codec: Codec, idx: nat, comp: Composition, gv: GroupVersion)
    requires idx < |entries| && IsComposition(entries[idx]) && AsComposition(entries[idx], codec) == Ok(comp)
    requires codec.parseGroupVersion(comp.compositeTypeRef.apiVersion) == Ok(gv)
    ensures var gvk := gv.WithKind(comp.compositeTypeRef.kind);
      (forall j :: 0 <= j < |entries| ==> Passes(entries, codec, gvk, j)) ==>
        CompositeTypeRefIssues(entries, codec, idx) == [EntryIssue(idx, [], "", ErrNoMatchingCompositeType(gvk))]
    ensures var gvk := gv.WithKind(comp.compositeTypeRef.kind);
      CompositeTypeRefIssues(entries, codec, idx) == [] <==>
        exists j :: 0 <= j < |entries| && IsXRD(entries[j]) && AsXRD(entries[j], codec).Ok?
                    && Defines(AsXRD(entries[j], codec).value, gvk)
                    && forall j' :: 0 <= j' < j ==> Passes(entries, codec, gvk, j')
    ensures var gvk := gv.WithKind(comp.compositeTypeRef.kind);
      forall j :: 0 <= j < |entries| && IsXRD(entries[j]) && AsXRD(entries[j], codec).Err?
                  && (forall j' :: 0 <= j' < j ==> Passes(entries, codec, gvk, j')) ==>
        CompositeTypeRefIssues(entries, codec, idx)
        == [EntryIssue(j, [], "", Wrap(ErrConvertTo("XRD"), AsXRD(entries[j], codec).error))]
  {
    var gvk := gv.WithKind(comp.compositeTypeRef.kind);
    SearchFromSpec(entries, codec, gvk, 0);
    var s := SearchFrom(entries, codec, gvk, 0);
    assert CompositeTypeRefIssues(entries, codec, idx)
           == (match s
               case ConvertFailed(issue) => [issue]
               case NoMatch => [EntryIssue(idx, [], "", ErrNoMatchingCompositeType(gvk))]
               case Found(_) => []);
    if exists j :: 0 <= j < |entries| && IsXRD(entries[j]) && AsXRD(entries[j], codec).Ok?
                   && Defines(AsXRD(entries[j], codec).value, gvk)
                   && forall j' :: 0 <= j' < j ==> Passes(entries, codec, gvk, j') {
      var j :| 0 <= j < |entries| && IsXRD(entries[j]) && AsXRD(entries[j], codec).Ok?
               && Defines(AsXRD(entries[j], codec).value, gvk)
               && forall j' :: 0 <= j' < j ==> Passes(entries, codec, gvk, j');
      assert !Passes(entries, codec, gvk, j);
      if s.ConvertFailed? {
        var k :| 0 <= k < |entries| && IsXRD(entries[k]) && AsXRD(entries[k], codec).Err?
                 && !Passes(entries, codec, gvk, k)
                 && forall j' :: 0 <= j' < k ==> Passes(entries, codec, gvk, j');
        assert false;
      }
    }
    forall j | 0 <= j < |entries| && IsXRD(entries[j]) && AsXRD(entries[j], codec).Err?
               && (forall j' :: 0 <= j' < j ==> Passes(entries, codec, gvk, j'))
      ensures CompositeTypeRefIssues(entries, codec, idx)
              == [EntryIssue(j, [], "", Wrap(ErrConvertTo("XRD"), AsXRD(entries[j], codec).error))]
    {
      assert !Passes(entries, codec, gvk, j);
      if s.Found? {
        assert false;
      } else if s.ConvertFailed? {
        var k :| 0 <= k < |entries| && IsXRD(entries[k]) && AsXRD(entries[k], codec).Err?
                 && s.issue == EntryIssue(k, [], "", Wrap(ErrConvertTo("XRD"), AsXRD(entries[k], codec).error))
                 && forall j' :: 0 <= j' < k ==> Passes(entries, codec, gvk, j');
        assert !Passes(entries, codec, gvk, k);
        assert k == j;
      }
    }
  }

  /** The rule over the first `n` entries, in entry order. */
  function RuleIssues(entries: seq<PackageEntry>, codec: Codec, n: nat): seq<Issue>
    requires n <= |entries|
  {
    if n == 0 then [] else RuleIssues(entries, codec, n - 1) + CompositeTypeRefIssues(entries, codec, n - 1)
  }

  /** The number of Compositions among the first `n` entries. */
  function CountCompositions(entries: seq<PackageEntry>, n: nat): nat
    requires n <= |entries|
  {
    if n == 0 then 0 else CountCompositions(entries, n - 1) + (if IsComposition(entries[n - 1]) then 1 else 0)
  }

  /** The rule reports at most one issue per Composition and none for other kinds. */
  lemma {:induction false} RuleIssuesBound(entries: seq<PackageEntry>, codec: Codec, n: nat)
    requires n <= |entries|
    ensures |RuleIssues(entries, codec, n)| <= CountCompositions(entries, n)
  {
    if n > 0 {
      RuleIssuesBound(entries, codec, n - 1);
    }
  }

  /** The body of `CheckCompositionCompositeTypeRef`'s loop for the entry at `i`. */
  method CheckEntry(ctx: LinterContext, entries: seq<PackageEntry>, codec: Codec, i: nat)
    requires i < |entries|
    modifies ctx
    ensures ctx.issues == old(ctx.issues) + Tag(ctx.ruleName, CompositeTypeRefIssues(entries, codec, i))
  {
    var manifest := entries[i];
    if !IsComposition(manifest) {
      return;
    }
    var comp := AsComposition(manifest, codec);
    if comp.Err? {
      ctx.ReportIssue(EntryIssue(i, [], "", Wrap(ErrConvertTo("Composition"), comp.error)));
      return;
    }
    var gv := codec.parseGroupVersion(comp.value.compositeTypeRef.apiVersion);
    if gv.Err? {
      ctx.ReportIssue(EntryIssue(i, [], "", Wrap(ErrParseGroupVersion, gv.error)));
      return;
    }
    var gvk := gv.value.WithKind(comp.value.compositeTypeRef.kind);
    var search := GetCompositeXRD(entries, codec, gvk);
    if search.ConvertFailed? {
      ctx.ReportIssue(search.issue);
    } else if search.NoMatch? {
      ctx.ReportIssue(EntryIssue(i, [], "", ErrNoMatchingCompositeType(gvk)));
    }
  }

  /** `CheckCompositionCompositeTypeRef`: the loop over entries. */
  method CheckCompositionCompositeTypeRef(ctx: LinterContext, pkg: Package, codec: Codec)
    modifies ctx
    ensures ctx.issues == old(ctx.issues) + Tag(ctx.ruleName, RuleIssues(pkg.entries, codec, |pkg.entries|))
  {
    var entries := pkg.entries;
    for i := 0 to |entries|
      invariant ctx.issues == old(ctx.issues) + Tag(ctx.ruleName, RuleIssues(entries, codec, i))
    {
      TagAppend(ctx.ruleName, RuleIssues(entries, codec, i), CompositeTypeRefIssues(entries, codec, i));
      CheckEntry(ctx, entries, codec, i);
    }
  }
}
