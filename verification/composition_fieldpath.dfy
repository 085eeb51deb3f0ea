/** The field-path rule (internal/xpkg/lint/linter/rules/composition_fieldpath.go):
    every field path a Composition's patches read or write is resolved against the
    schema of the composite type or of the resource's base, in the direction the
    patch type gives. Issues go to one stream, under a path scoped to the patch. */
module CompositionFieldPath {
  import opened Wrappers
  import opened JsonPath
  import opened Kube
  import opened Foreign
  import opened Xpkg
  import opened Lint
  import opened Resolver
  import CompositionRule

  const ErrRequireField := "require field"
  const ErrNoMatchingPatchSet := "no matching patchset found"
  const ErrNestedPatchSet := "nested patch sets are not allowed"
  const ErrUnknownPatchType := "unknown patch type"
  const ErrParseBase := "failed to parse base"

  /** A path of field names, as `NewJSONPath("a", "b")` builds it. */
  function Fields(names: seq<string>): (r: JSONPath)
    ensures |r| == |names|
    ensures forall k :: 0 <= k < |names| ==> r[k] == FieldSegment(names[k])
  {
    if names == [] then [] else [FieldSegment(names[0])] + Fields(names[1..])
  }

  /** `scopedContext`: the linter context, the entry and the base path every report of
      the scope is placed under. */
  datatype ScopedContext = ScopedContext(linterContext: LinterContext, entry: nat, basePath: JSONPath)
  {
    /** `NewJSONPath(c.basePath, path)`. */
    function Join(path: JSONPath): JSONPath
    {
      Path([SegmentArg(PathSegment(basePath)), SegmentArg(PathSegment(path))])
    }

    function RequireField(path: JSONPath): Issue
    {
      EntryIssue(entry, Join(path), "", ErrRequireField)
    }

    function FieldPathIssue(path: JSONPath, description: string, pathValue: string): Issue
    {
      EntryIssue(entry, Join(path), pathValue, description)
    }

    /** `Wrap`: the same scope, one path deeper. */
    function Wrap(path: JSONPath): (r: ScopedContext)
      ensures r.linterContext == linterContext && r.entry == entry
      ensures Render(r.basePath) == Render(basePath) + Render(path)
    {
      NestedRender(basePath, path);
      ScopedContext(linterContext, entry, Join(path))
    }

    /** `ReportIssueRequireField`. */
    method ReportIssueRequireField(path: JSONPath)
      modifies linterContext
      ensures linterContext.issues == old(linterContext.issues) + Tag(linterContext.ruleName, [RequireField(path)])
    {
      linterContext.ReportIssue(RequireField(path));
    }

    /** `ReportIssueFieldPath`. */
    method ReportIssueFieldPath(path: JSONPath, description: string, pathValue: string)
      modifies linterContext
      ensures linterContext.issues
              == old(linterContext.issues) + Tag(linterContext.ruleName, [FieldPathIssue(path, description, pathValue)])
    {
      linterContext.ReportIssue(FieldPathIssue(path, description, pathValue));
    }
  }

  /** Every report of a scope renders under the scope's base path. */
  lemma ScopedRendering(sc: ScopedContext, path: JSONPath, description: string, pathValue: string)
    ensures Render(sc.RequireField(path).path) == Render(sc.basePath) + Render(path)
    ensures Render(sc.FieldPathIssue(path, description, pathValue).path) == Render(sc.basePath) + Render(path)
    ensures sc.RequireField(path).entry == Some(sc.entry)
  {
    NestedRender(sc.basePath, path);
  }

  /** The kind of patch `validatePatch` dispatches on; the empty type is a
      `FromCompositeFieldPath` patch. */
  datatype PatchKind =
    | CombineToComposite
    | CombineFromComposite
    | ToComposite
    | FromComposite
    | FromEnvironment
    | PatchSetRef
    | UnknownType

  /** The patch types `validatePatch` switches on; the empty type joins the
      `FromCompositeFieldPath` case. */
  const KindNames: map<string, PatchKind> := map[
    PatchTypeCombineToComposite := CombineToComposite,
    PatchTypeCombineFromComposite := CombineFromComposite,
    PatchTypeToCompositeFieldPath := ToComposite,
    "" := FromComposite,
    PatchTypeFromCompositeFieldPath := FromComposite,
    PatchTypeFromEnvironmentFieldPath := FromEnvironment,
    PatchTypePatchSet := PatchSetRef]

  function KindOf(patchType: string): PatchKind
  {
    if patchType in KindNames then KindNames[patchType] else UnknownType
  }

  /** Each case of the switch, and its default: any other type is unknown. */
  lemma KindOfSwitch(patchType: string)
    ensures KindOf(PatchTypeCombineToComposite) == CombineToComposite
    ensures KindOf(PatchTypeCombineFromComposite) == CombineFromComposite
    ensures KindOf(PatchTypeToCompositeFieldPath) == ToComposite
    ensures KindOf("") == FromComposite && KindOf(PatchTypeFromCompositeFieldPath) == FromComposite
    ensures KindOf(PatchTypeFromEnvironmentFieldPath) == FromEnvironment
    ensures KindOf(PatchTypePatchSet) == PatchSetRef
    ensures KindOf(patchType) == UnknownType
            <==> patchType !in {PatchTypeCombineToComposite, PatchTypeCombineFromComposite, PatchTypeToCompositeFieldPath,
                                "", PatchTypeFromCompositeFieldPath, PatchTypeFromEnvironmentFieldPath, PatchTypePatchSet}
  {
  }

  /** All of `s` reports on the entry at position `entry`. */
  predicate OnEntry(s: seq<Issue>, entry: nat)
  {
    forall iss :: iss in s ==> iss.entry == Some(entry)
  }

  /** A schema-checked field path at `at`: nothing when it resolves, otherwise one issue
      carrying the resolver's error and the raw path. */
  function CheckedPath(versions: map<GVK, CrdVersion>, codec: Codec, sc: ScopedContext, at: JSONPath,
                       gvk: GVK, rawPath: string): (r: seq<Issue>)
    requires SchemasPresent(versions)
    ensures |r| <= 1 && OnEntry(r, sc.entry)
    ensures r == [] <==> FieldPathOutcome(versions, codec, gvk, rawPath).Pass?
    ensures r != [] ==> r[0].pathValue == rawPath && r[0].path == sc.Join(at)
                        && Fail(r[0].description) == FieldPathOutcome(versions, codec, gvk, rawPath)
  {
    match FieldPathOutcome(versions, codec, gvk, rawPath)
    case Pass => []
    case Fail(e) => [sc.FieldPathIssue(at, e, rawPath)]
  }

  /** The target path of a single or environment patch: `toFieldPath`, defaulting to `fromFieldPath`. */
  function EffectiveTo(p: Patch): Option<string>
  {
    if p.toFieldPath.Some? then p.toFieldPath else p.fromFieldPath
  }

  /** The target check shared by every patch kind: a missing target is required,
      a present one is resolved against `toGvk`. */
  function ToFieldPathIssues(versions: map<GVK, CrdVersion>, codec: Codec, sc: ScopedContext,
                             to: Option<string>, toGvk: GVK): (r: seq<Issue>)
    requires SchemasPresent(versions)
    ensures |r| <= 1 && OnEntry(r, sc.entry)
  {
    if to.None? then [sc.RequireField(Fields(["toFieldPath"]))]
    else CheckedPath(versions, codec, sc, Fields(["toFieldPath"]), toGvk, to.value)
  }

  /** `validateSinglePatch`: the source is resolved against `fromGvk`, the target
      (defaulting to the source) against `toGvk`. */
  function SinglePatchIssues(versions: map<GVK, CrdVersion>, codec: Codec, sc: ScopedContext, p: Patch,
                             fromGvk: GVK, toGvk: GVK): (r: seq<Issue>)
    requires SchemasPresent(versions)
    ensures |r| <= 2 && OnEntry(r, sc.entry)
  {
    var fromIssues :=
      if p.fromFieldPath.None? then [sc.RequireField(Fields(["fromFieldPath"]))]
      else CheckedPath(versions, codec, sc, Fields(["fromFieldPath"]), fromGvk, p.fromFieldPath.value);
    fromIssues + ToFieldPathIssues(versions, codec, sc, EffectiveTo(p), toGvk)
  }

  /** `validateEnvironmentPatch`: the source is only required, never resolved; the
      target (defaulting to the source) is resolved against `toGvk`. */
  function EnvironmentPatchIssues(versions: map<GVK, CrdVersion>, codec: Codec, sc: ScopedContext, p: Patch,
                                  toGvk: GVK): (r: seq<Issue>)
    requires SchemasPresent(versions)
    ensures |r| <= 2 && OnEntry(r, sc.entry)
  {
    var fromIssues := if p.fromFieldPath.None? then [sc.RequireField(Fields(["fromFieldPath"]))] else [];
    fromIssues + ToFieldPathIssues(versions, codec, sc, EffectiveTo(p), toGvk)
  }

  /** The report path of the `i`-th combine variable's source. */
  function VariablePath(i: nat): JSONPath
  {
    Path([StringArg("combine"), StringArg("variables"), IntArg(i), StringArg("fromFieldPath")])
  }

  /** One combine variable: an empty source is required, any other is resolved. */
  function VariableIssues(versions: map<GVK, CrdVersion>, codec: Codec, sc: ScopedContext, v: CombineVariable,
                          i: nat, fromGvk: GVK): (r: seq<Issue>)
    requires SchemasPresent(versions)
    ensures |r| <= 1 && OnEntry(r, sc.entry)
    ensures v.fromFieldPath == "" ==> r == [sc.RequireField(VariablePath(i))]
  {
    if v.fromFieldPath == "" then [sc.RequireField(VariablePath(i))]
    else CheckedPath(versions, codec, sc, VariablePath(i), fromGvk, v.fromFieldPath)
  }

  /** The issues of each combine variable, by position. */
  function VariableParts(versions: map<GVK, CrdVersion>, codec: Codec, sc: ScopedContext, vars: seq<CombineVariable>,
                         fromGvk: GVK): seq<seq<Issue>>
    requires SchemasPresent(versions)
  {
    seq(|vars|, k requires 0 <= k < |vars| => VariableIssues(versions, codec, sc, vars[k], k, fromGvk))
  }

  /** The first `n` combine variables, in order. */
  function VariablesIssues(versions: map<GVK, CrdVersion>, codec: Codec, sc: ScopedContext, vars: seq<CombineVariable>,
                           n: nat, fromGvk: GVK): seq<Issue>
    requires SchemasPresent(versions) && n <= |vars|
  {
    Flatten(VariableParts(versions, codec, sc, vars, fromGvk)[..n])
  }

  /** `validateCombinePatch`: the variables are resolved against `fromGvk`, the target
      (which has no default) against `toGvk`. */
  function CombinePatchIssues(versions: map<GVK, CrdVersion>, codec: Codec, sc: ScopedContext, p: Patch,
                              fromGvk: GVK, toGvk: GVK): (r: seq<Issue>)
    requires SchemasPresent(versions)
  {
    var varIssues :=
      if p.combine.None? || |p.combine.value.variables| == 0 then [sc.RequireField(Fields(["combine", "variables"]))]
      else VariablesIssues(versions, codec, sc, p.combine.value.variables, |p.combine.value.variables|, fromGvk);
    varIssues + ToFieldPathIssues(versions, codec, sc, p.toFieldPath, toGvk)
  }

  /** The checks of a patch kind that carries field paths, or of an unknown type, with
      the direction the kind gives: patches towards the composite read the base. */
  function FieldPatchIssues(versions: map<GVK, CrdVersion>, codec: Codec, sc: ScopedContext, p: Patch,
                            compositeGvk: GVK, baseGvk: GVK): (r: seq<Issue>)
    requires SchemasPresent(versions) && KindOf(p.patchType) != PatchSetRef
  {
    match KindOf(p.patchType)
    case CombineToComposite => CombinePatchIssues(versions, codec, sc, p, baseGvk, compositeGvk)
    case CombineFromComposite => CombinePatchIssues(versions, codec, sc, p, compositeGvk, baseGvk)
    case ToComposite => SinglePatchIssues(versions, codec, sc, p, baseGvk, compositeGvk)
    case FromComposite => SinglePatchIssues(versions, codec, sc, p, compositeGvk, baseGvk)
    case FromEnvironment => EnvironmentPatchIssues(versions, codec, sc, p, baseGvk)
    case UnknownType => [sc.FieldPathIssue(Fields(["type"]), ErrUnknownPatchType, p.patchType)]
  }

  /** The scope of the `i`-th patch of an inlined patch set. */
  function InlinedScope(sc: ScopedContext, patchPath: JSONPath, i: nat): ScopedContext
  {
    sc.Wrap(Path([SegmentArg(PathSegment(patchPath)), StringArg("patches"), IntArg(i), StringArg("type")]))
  }

  /** One patch of an inlined patch set: a patch-set patch is refused, not expanded. */
  function InlinedPatchIssues(versions: map<GVK, CrdVersion>, codec: Codec, sc: ScopedContext, p: Patch,
                              compositeGvk: GVK, baseGvk: GVK): (r: seq<Issue>)
    requires SchemasPresent(versions)
    ensures KindOf(p.patchType) == PatchSetRef ==> |r| == 1 && r[0].description == ErrNestedPatchSet
  {
    if KindOf(p.patchType) == PatchSetRef then [sc.FieldPathIssue(Fields(["type"]), ErrNestedPatchSet, p.patchType)]
    else FieldPatchIssues(versions, codec, sc, p, compositeGvk, baseGvk)
  }

  /** The issues of each patch of an expanded set, by position. */
  function PatchSetParts(versions: map<GVK, CrdVersion>, codec: Codec, sc: ScopedContext, ps: PatchSet,
                         compositeGvk: GVK, baseGvk: GVK, patchPath: JSONPath): seq<seq<Issue>>
    requires SchemasPresent(versions)
  {
    seq(|ps.patches|, k requires 0 <= k < |ps.patches| =>
      InlinedPatchIssues(versions, codec, InlinedScope(sc, patchPath, k), ps.patches[k], compositeGvk, baseGvk))
  }

  /** `validatePatchSet` over the first `n` patches of the set. */
  function PatchSetIssues(versions: map<GVK, CrdVersion>, codec: Codec, sc: ScopedContext, ps: PatchSet,
                          compositeGvk: GVK, baseGvk: GVK, patchPath: JSONPath, n: nat): seq<Issue>
    requires SchemasPresent(versions) && n <= |ps.patches|
  {
    Flatten(PatchSetParts(versions, codec, sc, ps, compositeGvk, baseGvk, patchPath)[..n])
  }

  /** One more patch of the set extends the issues of those before it. */
  lemma PatchSetStep(versions: map<GVK, CrdVersion>, codec: Codec, sc: ScopedContext, ps: PatchSet,
                     compositeGvk: GVK, baseGvk: GVK, patchPath: JSONPath, i: nat)
    requires SchemasPresent(versions) && i < |ps.patches|
    ensures PatchSetIssues(versions, codec, sc, ps, compositeGvk, baseGvk, patchPath, i + 1)
            == PatchSetIssues(versions, codec, sc, ps, compositeGvk, baseGvk, patchPath, i)
               + InlinedPatchIssues(versions, codec, InlinedScope(sc, patchPath, i), ps.patches[i], compositeGvk, baseGvk)
  {
    FlattenStep(PatchSetParts(versions, codec, sc, ps, compositeGvk, baseGvk, patchPath), i);
  }

  /** The position of the first patch set with the given name, in declaration order. */
  function FindPatchSet(sets: seq<PatchSet>, name: string, i: nat): (r: Option<nat>)
    requires i <= |sets|
    ensures r.Some? ==> i <= r.value < |sets| && sets[r.value].name == name
                        && forall j :: i <= j < r.value ==> sets[j].name != name
    ensures r.None? <==> forall j :: i <= j < |sets| ==> sets[j].name != name
    decreases |sets| - i
  {
    if i == |sets| then None
    else if sets[i].name == name then Some(i)
    else FindPatchSet(sets, name, i + 1)
  }

  /** The base path of an expanded patch set. */
  function InlinedPath(index: nat): JSONPath
  {
    Path([StringArg("#inlined"), StringArg("spec"), StringArg("patchSets"), IntArg(index)])
  }

  /** `validatePatch`. */
  function PatchIssues(versions: map<GVK, CrdVersion>, codec: Codec, comp: Composition, sc: ScopedContext,
                       p: Patch, compositeGvk: GVK, baseGvk: GVK): (r: seq<Issue>)
    requires SchemasPresent(versions)
  {
    if KindOf(p.patchType) != PatchSetRef then FieldPatchIssues(versions, codec, sc, p, compositeGvk, baseGvk)
    else if p.patchSetName.None? then [sc.RequireField(Fields(["patchSetName"]))]
    else
      match FindPatchSet(comp.patchSets, p.patchSetName.value, 0)
      case None => [sc.FieldPathIssue(Fields(["patchSetName"]), ErrNoMatchingPatchSet, p.patchSetName.value)]
      case Some(index) =>
        var ps := comp.patchSets[index];
        PatchSetIssues(versions, codec, sc, ps, compositeGvk, baseGvk, InlinedPath(index), |ps.patches|)
  }

  /** The scope of the `ip`-th patch of the `i`-th resource. */
  function PatchScope(ctx: LinterContext, entry: nat, i: nat, ip: nat): ScopedContext
  {
    ScopedContext(ctx, entry, Path([StringArg("spec"), StringArg("resources"), IntArg(i), StringArg("patches"), IntArg(ip)]))
  }

  /** The issues of each patch of the `i`-th resource, by position. */
  function PatchesParts(versions: map<GVK, CrdVersion>, codec: Codec, ctx: LinterContext, entry: nat, comp: Composition,
                        i: nat, compositeGvk: GVK, baseGvk: GVK): seq<seq<Issue>>
    requires SchemasPresent(versions) && i < |comp.resources|
  {
    seq(|comp.resources[i].patches|, k requires 0 <= k < |comp.resources[i].patches| =>
      PatchIssues(versions, codec, comp, PatchScope(ctx, entry, i, k), comp.resources[i].patches[k], compositeGvk, baseGvk))
  }

  /** The first `n` patches of the `i`-th resource. */
  function PatchesIssues(versions: map<GVK, CrdVersion>, codec: Codec, ctx: LinterContext, entry: nat, comp: Composition,
                         i: nat, compositeGvk: GVK, baseGvk: GVK, n: nat): seq<Issue>
    requires SchemasPresent(versions) && i < |comp.resources| && n <= |comp.resources[i].patches|
  {
    Flatten(PatchesParts(versions, codec, ctx, entry, comp, i, compositeGvk, baseGvk)[..n])
  }

  function BasePath(i: nat): JSONPath
  {
    Path([StringArg("spec"), StringArg("resources"), IntArg(i), StringArg("base")])
  }

  /** One resource template: its base must parse and have a stored schema before its
      patches are checked. */
  function ResourceIssues(versions: map<GVK, CrdVersion>, codec: Codec, ctx: LinterContext, entry: nat,
                          comp: Composition, i: nat, compositeGvk: GVK): (r: seq<Issue>)
    requires SchemasPresent(versions) && i < |comp.resources|
  {
    match codec.unmarshalObject(comp.resources[i].baseRaw)
    case Err(e) => [EntryIssue(entry, BasePath(i), "", Wrap(ErrParseBase, e))]
    case Ok(base) =>
      if base.gvk !in versions then [EntryIssue(entry, BasePath(i), "", NoCrdFor(base.gvk))]
      else PatchesIssues(versions, codec, ctx, entry, comp, i, compositeGvk, base.gvk, |comp.resources[i].patches|)
  }

  /** The issues of each resource of the composition, by position. */
  function ResourcesParts(versions: map<GVK, CrdVersion>, codec: Codec, ctx: LinterContext, entry: nat,
                          comp: Composition, compositeGvk: GVK): seq<seq<Issue>>
    requires SchemasPresent(versions)
  {
    seq(|comp.resources|, k requires 0 <= k < |comp.resources| =>
      ResourceIssues(versions, codec, ctx, entry, comp, k, compositeGvk))
  }

  /** The first `n` resources of the composition. */
  function ResourcesIssues(versions: map<GVK, CrdVersion>, codec: Codec, ctx: LinterContext, entry: nat,
                           comp: Composition, compositeGvk: GVK, n: nat): seq<Issue>
    requires SchemasPresent(versions) && n <= |comp.resources|
  {
    Flatten(ResourcesParts(versions, codec, ctx, entry, comp, compositeGvk)[..n])
  }

  /** `checkCompositionFieldPaths` for the entry at position `entry`: only a Composition
      is examined, and everything reported is about it. */
  function DocumentIssues(versions: map<GVK, CrdVersion>, codec: Codec, ctx: LinterContext, e: PackageEntry,
                          entry: nat): (r: seq<Issue>)
    requires SchemasPresent(versions)
    ensures !IsComposition(e) ==> r == []
  {
    if !IsComposition(e) then []
    else
      match AsComposition(e, codec)
      case Err(err) => [EntryIssue(entry, [], "", Wrap(CompositionRule.ErrConvertTo("Composition"), err))]
      case Ok(comp) =>
        match codec.parseGroupVersion(comp.compositeTypeRef.apiVersion)
        case Err(err) => [EntryIssue(entry, [], "", Wrap(CompositionRule.ErrParseGroupVersion, err))]
        case Ok(gv) =>
          var compositeGvk := gv.WithKind(comp.compositeTypeRef.kind);
          if compositeGvk !in versions then
            [EntryIssue(entry, Fields(["spec", "compositeTypeRef"]), "", NoCrdFor(compositeGvk))]
          else ResourcesIssues(versions, codec, ctx, entry, comp, compositeGvk, |comp.resources|)
  }

  /** The issues of each entry, by position. */
  function RuleParts(versions: map<GVK, CrdVersion>, codec: Codec, ctx: LinterContext, entries: seq<PackageEntry>)
    : seq<seq<Issue>>
    requires SchemasPresent(versions)
  {
    seq(|entries|, k requires 0 <= k < |entries| => DocumentIssues(versions, codec, ctx, entries[k], k))
  }

  /** The rule over the first `n` entries, one document after another. */
  function RuleIssues(versions: map<GVK, CrdVersion>, codec: Codec, ctx: LinterContext, entries: seq<PackageEntry>,
                      n: nat): seq<Issue>
    requires SchemasPresent(versions) && n <= |entries|
  {
    Flatten(RuleParts(versions, codec, ctx, entries)[..n])
  }

  // ---------------------------------------------------------------------------
  // Properties

  /** Direction of a single patch with both paths set: towards the composite, the
      source is resolved against the base and the target against the composite; from
      the composite (and for the empty type), the other way round. */
  lemma SinglePatchDirection(versions: map<GVK, CrdVersion>, codec: Codec, sc: ScopedContext, p: Patch,
                             compositeGvk: GVK, baseGvk: GVK, from: string, to: string)
    requires SchemasPresent(versions)
    requires p.fromFieldPath == Some(from) && p.toFieldPath == Some(to)
    ensures KindOf(p.patchType) == ToComposite ==>
              FieldPatchIssues(versions, codec, sc, p, compositeGvk, baseGvk)
              == CheckedPath(versions, codec, sc, Fields(["fromFieldPath"]), baseGvk, from)
                 + CheckedPath(versions, codec, sc, Fields(["toFieldPath"]), compositeGvk, to)
    ensures KindOf(p.patchType) == FromComposite ==>
              FieldPatchIssues(versions, codec, sc, p, compositeGvk, baseGvk)
              == CheckedPath(versions, codec, sc, Fields(["fromFieldPath"]), compositeGvk, from)
                 + CheckedPath(versions, codec, sc, Fields(["toFieldPath"]), baseGvk, to)
    ensures KindOf("") == FromComposite
  {
  }

  /** A single patch without a target uses its source as target, so it is resolved
      on both sides. */
  lemma TargetDefaultsToSource(versions: map<GVK, CrdVersion>, codec: Codec, sc: ScopedContext, p: Patch,
                               fromGvk: GVK, toGvk: GVK, from: string)
    requires SchemasPresent(versions)
    requires p.fromFieldPath == Some(from) && p.toFieldPath.None?
    ensures SinglePatchIssues(versions, codec, sc, p, fromGvk, toGvk)
            == CheckedPath(versions, codec, sc, Fields(["fromFieldPath"]), fromGvk, from)
               + CheckedPath(versions, codec, sc, Fields(["toFieldPath"]), toGvk, from)
    ensures EnvironmentPatchIssues(versions, codec, sc, p, toGvk)
            == CheckedPath(versions, codec, sc, Fields(["toFieldPath"]), toGvk, from)
  {
  }

  /** A single or environment patch with neither path gives exactly two "require field"
      issues, at the source and at the target. */
  lemma NoPathsTwoRequireIssues(versions: map<GVK, CrdVersion>, codec: Codec, sc: ScopedContext, p: Patch,
                                compositeGvk: GVK, baseGvk: GVK)
    requires SchemasPresent(versions)
    requires p.fromFieldPath.None? && p.toFieldPath.None?
    requires KindOf(p.patchType) in {ToComposite, FromComposite, FromEnvironment}
    ensures FieldPatchIssues(versions, codec, sc, p, compositeGvk, baseGvk)
            == [sc.RequireField(Fields(["fromFieldPath"])), sc.RequireField(Fields(["toFieldPath"]))]
  {
  }

  /** An environment patch never resolves its source: two patches that differ only in
      their (present) source and share a present target give the same issues, which
      come from resolving the target against the base. */
  lemma EnvironmentSourceUnchecked(versions: map<GVK, CrdVersion>, codec: Codec, sc: ScopedContext, p: Patch, q: Patch,
                                   compositeGvk: GVK, baseGvk: GVK, to: string)
    requires SchemasPresent(versions)
    requires KindOf(p.patchType) == FromEnvironment && KindOf(q.patchType) == FromEnvironment
    requires p.fromFieldPath.Some? && q.fromFieldPath.Some? && p.toFieldPath == Some(to) && q.toFieldPath == Some(to)
    ensures FieldPatchIssues(versions, codec, sc, p, compositeGvk, baseGvk)
            == FieldPatchIssues(versions, codec, sc, q, compositeGvk, baseGvk)
            == CheckedPath(versions, codec, sc, Fields(["toFieldPath"]), baseGvk, to)
  {
  }

  /** Combine variables: each variable with an empty source is required (and skipped),
      and one variable's issue does not stop the later ones from being checked. */
  lemma EmptyVariablesRequired(versions: map<GVK, CrdVersion>, codec: Codec, sc: ScopedContext,
                                vars: seq<CombineVariable>, n: nat, fromGvk: GVK)
    requires SchemasPresent(versions) && n <= |vars|
    ensures forall i :: 0 <= i < n && vars[i].fromFieldPath == "" ==>
              sc.RequireField(VariablePath(i)) in VariablesIssues(versions, codec, sc, vars, n, fromGvk)
  {
    var parts := VariableParts(versions, codec, sc, vars, fromGvk);
    FlattenMembers(parts, n);
    forall i | 0 <= i < n && vars[i].fromFieldPath == ""
      ensures sc.RequireField(VariablePath(i)) in VariablesIssues(versions, codec, sc, vars, n, fromGvk)
    {
      assert parts[i] == VariableIssues(versions, codec, sc, vars[i], i, fromGvk);
      assert sc.RequireField(VariablePath(i)) in parts[i];
    }
  }

  /** Combine variables: every variable with a source that does not resolve gets an
      issue carrying the resolver's error and the source. */
  lemma FailingVariablesReported(versions: map<GVK, CrdVersion>, codec: Codec, sc: ScopedContext,
                                 vars: seq<CombineVariable>, n: nat, fromGvk: GVK)
    requires SchemasPresent(versions) && n <= |vars|
    ensures forall i :: 0 <= i < n && vars[i].fromFieldPath != ""
                        && FieldPathOutcome(versions, codec, fromGvk, vars[i].fromFieldPath).Fail? ==>
              sc.FieldPathIssue(VariablePath(i), FieldPathOutcome(versions, codec, fromGvk, vars[i].fromFieldPath).error,
                                vars[i].fromFieldPath) in VariablesIssues(versions, codec, sc, vars, n, fromGvk)
  {
    var parts := VariableParts(versions, codec, sc, vars, fromGvk);
    FlattenMembers(parts, n);
    forall i | 0 <= i < n && vars[i].fromFieldPath != ""
               && FieldPathOutcome(versions, codec, fromGvk, vars[i].fromFieldPath).Fail?
      ensures sc.FieldPathIssue(VariablePath(i), FieldPathOutcome(versions, codec, fromGvk, vars[i].fromFieldPath).error,
                                vars[i].fromFieldPath) in VariablesIssues(versions, codec, sc, vars, n, fromGvk)
    {
      assert parts[i] == VariableIssues(versions, codec, sc, vars[i], i, fromGvk);
      assert parts[i] == [sc.FieldPathIssue(VariablePath(i), FieldPathOutcome(versions, codec, fromGvk, vars[i].fromFieldPath).error,
                                            vars[i].fromFieldPath)];
    }
  }

  /** Combine variables: every issue belongs to one variable, and a variable whose
      source is set and resolves contributes nothing. */
  lemma VariableIssuesOrigin(versions: map<GVK, CrdVersion>, codec: Codec, sc: ScopedContext,
                             vars: seq<CombineVariable>, n: nat, fromGvk: GVK)
    requires SchemasPresent(versions) && n <= |vars|
    ensures forall iss :: iss in VariablesIssues(versions, codec, sc, vars, n, fromGvk) ==>
              exists i :: 0 <= i < n && iss in VariableIssues(versions, codec, sc, vars[i], i, fromGvk)
    ensures forall i :: 0 <= i < n && vars[i].fromFieldPath != ""
                        && FieldPathOutcome(versions, codec, fromGvk, vars[i].fromFieldPath).Pass? ==>
              VariableIssues(versions, codec, sc, vars[i], i, fromGvk) == []
  {
    var parts := VariableParts(versions, codec, sc, vars, fromGvk);
    FlattenMembers(parts, n);
    forall iss | iss in VariablesIssues(versions, codec, sc, vars, n, fromGvk)
      ensures exists i :: 0 <= i < n && iss in VariableIssues(versions, codec, sc, vars[i], i, fromGvk)
    {
      var i :| 0 <= i < n && iss in parts[i];
      assert parts[i] == VariableIssues(versions, codec, sc, vars[i], i, fromGvk);
    }
  }

  /** A combine patch without variables gives one "require field" issue at
      `combine.variables`, and its target is still checked. */
  lemma CombineWithoutVariables(versions: map<GVK, CrdVersion>, codec: Codec, sc: ScopedContext, p: Patch,
                                fromGvk: GVK, toGvk: GVK)
    requires SchemasPresent(versions)
    requires p.combine.None? || p.combine.value.variables == []
    ensures CombinePatchIssues(versions, codec, sc, p, fromGvk, toGvk)
            == [sc.RequireField(Fields(["combine", "variables"]))] + ToFieldPathIssues(versions, codec, sc, p.toFieldPath, toGvk)
    ensures p.toFieldPath.None? ==>
              CombinePatchIssues(versions, codec, sc, p, fromGvk, toGvk)
              == [sc.RequireField(Fields(["combine", "variables"])), sc.RequireField(Fields(["toFieldPath"]))]
  {
  }

  /** Direction of a combine patch: towards the composite the variables are resolved
      against the base and the target against the composite; from the composite, the
      other way round. */
  lemma CombineDirection(versions: map<GVK, CrdVersion>, codec: Codec, sc: ScopedContext, p: Patch,
                         compositeGvk: GVK, baseGvk: GVK, to: string)
    requires SchemasPresent(versions)
    requires p.combine.Some? && |p.combine.value.variables| > 0 && p.toFieldPath == Some(to)
    ensures var vars := p.combine.value.variables;
      KindOf(p.patchType) == CombineToComposite ==>
        FieldPatchIssues(versions, codec, sc, p, compositeGvk, baseGvk)
        == VariablesIssues(versions, codec, sc, vars, |vars|, baseGvk)
           + CheckedPath(versions, codec, sc, Fields(["toFieldPath"]), compositeGvk, to)
    ensures var vars := p.combine.value.variables;
      KindOf(p.patchType) == CombineFromComposite ==>
        FieldPatchIssues(versions, codec, sc, p, compositeGvk, baseGvk)
        == VariablesIssues(versions, codec, sc, vars, |vars|, compositeGvk)
           + CheckedPath(versions, codec, sc, Fields(["toFieldPath"]), baseGvk, to)
  {
  }

  /** A patch-set patch: without a name it is one "require field" issue; with a name no
      set declares it is one "no matching patchset found" issue carrying the name;
      otherwise the first set of that name is expanded with the same pair of GVKs. */
  lemma PatchSetReference(versions: map<GVK, CrdVersion>, codec: Codec, comp: Composition, sc: ScopedContext,
                          p: Patch, compositeGvk: GVK, baseGvk: GVK)
    requires SchemasPresent(versions) && KindOf(p.patchType) == PatchSetRef
    ensures p.patchSetName.None? ==>
              PatchIssues(versions, codec, comp, sc, p, compositeGvk, baseGvk) == [sc.RequireField(Fields(["patchSetName"]))]
    ensures p.patchSetName.Some? && (forall j :: 0 <= j < |comp.patchSets| ==> comp.patchSets[j].name != p.patchSetName.value) ==>
              PatchIssues(versions, codec, comp, sc, p, compositeGvk, baseGvk)
              == [sc.FieldPathIssue(Fields(["patchSetName"]), ErrNoMatchingPatchSet, p.patchSetName.value)]
    ensures forall j :: 0 <= j < |comp.patchSets| && p.patchSetName == Some(comp.patchSets[j].name)
                        && (forall j' :: 0 <= j' < j ==> comp.patchSets[j'].name != comp.patchSets[j].name) ==>
              PatchIssues(versions, codec, comp, sc, p, compositeGvk, baseGvk)
              == PatchSetIssues(versions, codec, sc, comp.patchSets[j], compositeGvk, baseGvk, InlinedPath(j),
                                |comp.patchSets[j].patches|)
  {
    if p.patchSetName.Some? {
      var r := FindPatchSet(comp.patchSets, p.patchSetName.value, 0);
      forall j | 0 <= j < |comp.patchSets| && p.patchSetName == Some(comp.patchSets[j].name)
                 && (forall j' :: 0 <= j' < j ==> comp.patchSets[j'].name != comp.patchSets[j].name)
        ensures r == Some(j)
      {
      }
    }
  }

  /** Expansion is one level deep: every patch-set patch inside an expanded set gives
      the single "nested patch sets are not allowed" issue at its own `type`. */
  lemma NestedPatchSetsRefused(versions: map<GVK, CrdVersion>, codec: Codec, sc: ScopedContext,
                               ps: PatchSet, compositeGvk: GVK, baseGvk: GVK, patchPath: JSONPath, n: nat)
    requires SchemasPresent(versions) && n <= |ps.patches|
    ensures forall i :: 0 <= i < n && KindOf(ps.patches[i].patchType) == PatchSetRef ==>
              InlinedScope(sc, patchPath, i).FieldPathIssue(Fields(["type"]), ErrNestedPatchSet, ps.patches[i].patchType)
              in PatchSetIssues(versions, codec, sc, ps, compositeGvk, baseGvk, patchPath, n)
  {
    var parts := PatchSetParts(versions, codec, sc, ps, compositeGvk, baseGvk, patchPath);
    FlattenMembers(parts, n);
    forall i | 0 <= i < n && KindOf(ps.patches[i].patchType) == PatchSetRef
      ensures InlinedScope(sc, patchPath, i).FieldPathIssue(Fields(["type"]), ErrNestedPatchSet, ps.patches[i].patchType)
              in PatchSetIssues(versions, codec, sc, ps, compositeGvk, baseGvk, patchPath, n)
    {
      assert parts[i] == InlinedPatchIssues(versions, codec, InlinedScope(sc, patchPath, i), ps.patches[i], compositeGvk, baseGvk);
      assert parts[i] == [InlinedScope(sc, patchPath, i).FieldPathIssue(Fields(["type"]), ErrNestedPatchSet, ps.patches[i].patchType)];
    }
  }

  /** An unknown patch type gives the single "unknown patch type" issue carrying the type. */
  lemma UnknownPatchType(versions: map<GVK, CrdVersion>, codec: Codec, comp: Composition, sc: ScopedContext,
                         p: Patch, compositeGvk: GVK, baseGvk: GVK)
    requires SchemasPresent(versions) && KindOf(p.patchType) == UnknownType
    ensures PatchIssues(versions, codec, comp, sc, p, compositeGvk, baseGvk)
            == [sc.FieldPathIssue(Fields(["type"]), ErrUnknownPatchType, p.patchType)]
    ensures InlinedPatchIssues(versions, codec, sc, p, compositeGvk, baseGvk)
            == [sc.FieldPathIssue(Fields(["type"]), ErrUnknownPatchType, p.patchType)]
  {
  }

  /** The segments every inlined patch's scope ends with. */
  lemma PatchesTypeRendering(i: nat)
    ensures Render([FieldSegment("patches"), IndexSegment(i), FieldSegment("type")]) == ".patches[" + IntString(i) + "].type"
  {
    var t := [FieldSegment("patches"), IndexSegment(i), FieldSegment("type")];
    assert '.' !in "type" && '.' !in "patches";
    assert t[1..][1..][1..] == [];
    assert Render(t[1..][1..]) == ".type";
    var n := IntString(i);
    assert Render(t[1..]) == "[" + n + "]" + ".type";
    assert Render(t) == ".patches" + ("[" + n + "]" + ".type");
    assert ".patches" + ("[" + n + "]" + ".type") == ".patches[" + n + "].type";
  }

  /** The path an inlined patch's scope adds: the set's inlined path, then `.patches[i].type`. */
  lemma InlinedPathRendering(patchPath: JSONPath, i: nat)
    ensures Render(Path([SegmentArg(PathSegment(patchPath)), StringArg("patches"), IntArg(i), StringArg("type")]))
            == Render(patchPath) + ".patches[" + IntString(i) + "].type"
  {
    var args := [SegmentArg(PathSegment(patchPath)), StringArg("patches"), IntArg(i), StringArg("type")];
    var tail := [FieldSegment("patches"), IndexSegment(i), FieldSegment("type")];
    PathAt(args);
    assert Path(args) == [PathSegment(patchPath)] + tail;
    RenderAppend([PathSegment(patchPath)], tail);
    assert Render([PathSegment(patchPath)]) == Render(patchPath) by {
      assert [PathSegment(patchPath)][1..] == [];
    }
    PatchesTypeRendering(i);
  }

  /** Where an issue of an inlined patch is reported: under the patch's scope, then the
      patch set's inlined path, then `.patches[i].type`, then the issue's own path. */
  lemma InlinedIssueRendering(sc: ScopedContext, patchPath: JSONPath, i: nat, path: JSONPath)
    ensures Render(InlinedScope(sc, patchPath, i).RequireField(path).path)
            == Render(sc.basePath) + (Render(patchPath) + ".patches[" + IntString(i) + "].type") + Render(path)
  {
    InlinedPathRendering(patchPath, i);
    ScopedRendering(InlinedScope(sc, patchPath, i), path, "", "");
  }

  /** A Composition that cannot be decoded, or whose composite type has no stored
      schema, gives exactly one issue and nothing about its resources. */
  lemma DocumentEarlyStops(versions: map<GVK, CrdVersion>, codec: Codec, ctx: LinterContext, e: PackageEntry, entry: nat)
    requires SchemasPresent(versions) && IsComposition(e)
    ensures AsComposition(e, codec).Err? ==> |DocumentIssues(versions, codec, ctx, e, entry)| == 1
    ensures AsComposition(e, codec).Ok?
            && codec.parseGroupVersion(AsComposition(e, codec).value.compositeTypeRef.apiVersion).Err? ==>
              |DocumentIssues(versions, codec, ctx, e, entry)| == 1
    ensures AsComposition(e, codec).Ok?
            && codec.parseGroupVersion(AsComposition(e, codec).value.compositeTypeRef.apiVersion).Ok?
            && codec.parseGroupVersion(AsComposition(e, codec).value.compositeTypeRef.apiVersion).value
                 .WithKind(AsComposition(e, codec).value.compositeTypeRef.kind) !in versions ==>
              DocumentIssues(versions, codec, ctx, e, entry)
              == [EntryIssue(entry, Fields(["spec", "compositeTypeRef"]), "",
                             NoCrdFor(codec.parseGroupVersion(AsComposition(e, codec).value.compositeTypeRef.apiVersion).value
                                        .WithKind(AsComposition(e, codec).value.compositeTypeRef.kind)))]
  {
  }

  /** A resource whose base cannot be decoded, or whose base type has no stored schema,
      gives one issue at `spec.resources[i].base`, and its patches are not checked. */
  lemma ResourceBaseStops(versions: map<GVK, CrdVersion>, codec: Codec, ctx: LinterContext, entry: nat,
                          comp: Composition, i: nat, compositeGvk: GVK)
    requires SchemasPresent(versions) && i < |comp.resources|
    ensures codec.unmarshalObject(comp.resources[i].baseRaw).Err? ==>
              ResourceIssues(versions, codec, ctx, entry, comp, i, compositeGvk)
              == [EntryIssue(entry, BasePath(i), "", Wrap(ErrParseBase, codec.unmarshalObject(comp.resources[i].baseRaw).error))]
    ensures codec.unmarshalObject(comp.resources[i].baseRaw).Ok?
            && codec.unmarshalObject(comp.resources[i].baseRaw).value.gvk !in versions ==>
              ResourceIssues(versions, codec, ctx, entry, comp, i, compositeGvk)
              == [EntryIssue(entry, BasePath(i), "", NoCrdFor(codec.unmarshalObject(comp.resources[i].baseRaw).value.gvk))]
  {
  }

  // ---------------------------------------------------------------------------
  // Every report is about the entry being checked

  lemma VariablesOnEntry(versions: map<GVK, CrdVersion>, codec: Codec, sc: ScopedContext,
                          vars: seq<CombineVariable>, n: nat, fromGvk: GVK)
    requires SchemasPresent(versions) && n <= |vars|
    ensures OnEntry(VariablesIssues(versions, codec, sc, vars, n, fromGvk), sc.entry)
  {
    var parts := VariableParts(versions, codec, sc, vars, fromGvk);
    FlattenMembers(parts, n);
    forall iss | iss in VariablesIssues(versions, codec, sc, vars, n, fromGvk)
      ensures iss.entry == Some(sc.entry)
    {
      var i :| 0 <= i < n && iss in parts[i];
      assert parts[i] == VariableIssues(versions, codec, sc, vars[i], i, fromGvk);
    }
  }

  lemma FieldPatchOnEntry(versions: map<GVK, CrdVersion>, codec: Codec, sc: ScopedContext, p: Patch,
                          compositeGvk: GVK, baseGvk: GVK)
    requires SchemasPresent(versions) && KindOf(p.patchType) != PatchSetRef
    ensures OnEntry(FieldPatchIssues(versions, codec, sc, p, compositeGvk, baseGvk), sc.entry)
  {
    if p.combine.Some? {
      VariablesOnEntry(versions, codec, sc, p.combine.value.variables, |p.combine.value.variables|, baseGvk);
      VariablesOnEntry(versions, codec, sc, p.combine.value.variables, |p.combine.value.variables|, compositeGvk);
    }
  }

  lemma PatchSetOnEntry(versions: map<GVK, CrdVersion>, codec: Codec, sc: ScopedContext, ps: PatchSet,
                         compositeGvk: GVK, baseGvk: GVK, patchPath: JSONPath, n: nat)
    requires SchemasPresent(versions) && n <= |ps.patches|
    ensures OnEntry(PatchSetIssues(versions, codec, sc, ps, compositeGvk, baseGvk, patchPath, n), sc.entry)
  {
    var parts := PatchSetParts(versions, codec, sc, ps, compositeGvk, baseGvk, patchPath);
    FlattenMembers(parts, n);
    forall iss | iss in PatchSetIssues(versions, codec, sc, ps, compositeGvk, baseGvk, patchPath, n)
      ensures iss.entry == Some(sc.entry)
    {
      var i :| 0 <= i < n && iss in parts[i];
      var p := ps.patches[i];
      assert parts[i] == InlinedPatchIssues(versions, codec, InlinedScope(sc, patchPath, i), p, compositeGvk, baseGvk);
      if KindOf(p.patchType) != PatchSetRef {
        FieldPatchOnEntry(versions, codec, InlinedScope(sc, patchPath, i), p, compositeGvk, baseGvk);
      }
    }
  }

  lemma PatchOnEntry(versions: map<GVK, CrdVersion>, codec: Codec, comp: Composition, sc: ScopedContext,
                     p: Patch, compositeGvk: GVK, baseGvk: GVK)
    requires SchemasPresent(versions)
    ensures OnEntry(PatchIssues(versions, codec, comp, sc, p, compositeGvk, baseGvk), sc.entry)
  {
    if KindOf(p.patchType) != PatchSetRef {
      FieldPatchOnEntry(versions, codec, sc, p, compositeGvk, baseGvk);
    } else if p.patchSetName.Some? {
      var found := FindPatchSet(comp.patchSets, p.patchSetName.value, 0);
      if found.Some? {
        var ps := comp.patchSets[found.value];
        PatchSetOnEntry(versions, codec, sc, ps, compositeGvk, baseGvk, InlinedPath(found.value), |ps.patches|);
      }
    }
  }

  lemma PatchesOnEntry(versions: map<GVK, CrdVersion>, codec: Codec, ctx: LinterContext, entry: nat,
                        comp: Composition, i: nat, compositeGvk: GVK, baseGvk: GVK, n: nat)
    requires SchemasPresent(versions) && i < |comp.resources| && n <= |comp.resources[i].patches|
    ensures OnEntry(PatchesIssues(versions, codec, ctx, entry, comp, i, compositeGvk, baseGvk, n), entry)
  {
    var parts := PatchesParts(versions, codec, ctx, entry, comp, i, compositeGvk, baseGvk);
    FlattenMembers(parts, n);
    forall iss | iss in PatchesIssues(versions, codec, ctx, entry, comp, i, compositeGvk, baseGvk, n)
      ensures iss.entry == Some(entry)
    {
      var ip :| 0 <= ip < n && iss in parts[ip];
      PatchOnEntry(versions, codec, comp, PatchScope(ctx, entry, i, ip), comp.resources[i].patches[ip], compositeGvk, baseGvk);
    }
  }

  lemma ResourcesOnEntry(versions: map<GVK, CrdVersion>, codec: Codec, ctx: LinterContext, entry: nat,
                          comp: Composition, compositeGvk: GVK, n: nat)
    requires SchemasPresent(versions) && n <= |comp.resources|
    ensures OnEntry(ResourcesIssues(versions, codec, ctx, entry, comp, compositeGvk, n), entry)
  {
    var parts := ResourcesParts(versions, codec, ctx, entry, comp, compositeGvk);
    FlattenMembers(parts, n);
    forall iss | iss in ResourcesIssues(versions, codec, ctx, entry, comp, compositeGvk, n)
      ensures iss.entry == Some(entry)
    {
      var i :| 0 <= i < n && iss in parts[i];
      assert parts[i] == ResourceIssues(versions, codec, ctx, entry, comp, i, compositeGvk);
      match codec.unmarshalObject(comp.resources[i].baseRaw)
      case Err(_) =>
      case Ok(base) =>
        PatchesOnEntry(versions, codec, ctx, entry, comp, i, compositeGvk, base.gvk, |comp.resources[i].patches|);
    }
  }

  /** Everything reported while checking an entry is about that entry. */
  lemma DocumentOnEntry(versions: map<GVK, CrdVersion>, codec: Codec, ctx: LinterContext, e: PackageEntry, entry: nat)
    requires SchemasPresent(versions)
    ensures OnEntry(DocumentIssues(versions, codec, ctx, e, entry), entry)
  {
    if IsComposition(e) && AsComposition(e, codec).Ok? {
      var comp := AsComposition(e, codec).value;
      match codec.parseGroupVersion(comp.compositeTypeRef.apiVersion)
      case Err(_) =>
      case Ok(gv) =>
        ResourcesOnEntry(versions, codec, ctx, entry, comp, gv.WithKind(comp.compositeTypeRef.kind), |comp.resources|);
    }
  }

  /** Every issue of the rule is about one of the entries checked so far, and that entry
      is a Composition. */
  lemma RuleIssuesScoped(versions: map<GVK, CrdVersion>, codec: Codec, ctx: LinterContext,
                          entries: seq<PackageEntry>, n: nat)
    requires SchemasPresent(versions) && n <= |entries|
    ensures forall iss :: iss in RuleIssues(versions, codec, ctx, entries, n) ==>
              iss.entry.Some? && iss.entry.value < n && IsComposition(entries[iss.entry.value])
  {
    var parts := RuleParts(versions, codec, ctx, entries);
    FlattenMembers(parts, n);
    forall iss | iss in RuleIssues(versions, codec, ctx, entries, n)
      ensures iss.entry.Some? && iss.entry.value < n && IsComposition(entries[iss.entry.value])
    {
      var i :| 0 <= i < n && iss in parts[i];
      assert parts[i] == DocumentIssues(versions, codec, ctx, entries[i], i);
      DocumentOnEntry(versions, codec, ctx, entries[i], i);
    }
  }

  // ---------------------------------------------------------------------------
  // The validators as they run: each reports through the scope's linter context.

  /** The `toFieldPath` step shared by the validators. */
  method ValidateToFieldPath(sc: ScopedContext, codec: Codec, to: Option<string>, toGvk: GVK)
    requires SchemasPresent(sc.linterContext.store.versions)
    modifies sc.linterContext
    ensures sc.linterContext.issues == old(sc.linterContext.issues)
              + Tag(sc.linterContext.ruleName, ToFieldPathIssues(sc.linterContext.store.versions, codec, sc, to, toGvk))
  {
    if to.None? {
      sc.ReportIssueRequireField(Fields(["toFieldPath"]));
    } else {
      var err := ValidateFieldPath(sc.linterContext, codec, toGvk, to.value);
      if err.Fail? {
        sc.ReportIssueFieldPath(Fields(["toFieldPath"]), err.error, to.value);
      }
    }
  }

  /** `validateSinglePatch`. */
  method ValidateSinglePatch(sc: ScopedContext, codec: Codec, p: Patch, fromGvk: GVK, toGvk: GVK)
    requires SchemasPresent(sc.linterContext.store.versions)
    modifies sc.linterContext
    ensures sc.linterContext.issues == old(sc.linterContext.issues)
              + Tag(sc.linterContext.ruleName, SinglePatchIssues(sc.linterContext.store.versions, codec, sc, p, fromGvk, toGvk))
  {
    ghost var versions := sc.linterContext.store.versions;
    ghost var fromIssues :=
      if p.fromFieldPath.None? then [sc.RequireField(Fields(["fromFieldPath"]))]
      else CheckedPath(versions, codec, sc, Fields(["fromFieldPath"]), fromGvk, p.fromFieldPath.value);
    TagAppend(sc.linterContext.ruleName, fromIssues, ToFieldPathIssues(versions, codec, sc, EffectiveTo(p), toGvk));
    if p.fromFieldPath.None? {
      sc.ReportIssueRequireField(Fields(["fromFieldPath"]));
    } else {
      var err := ValidateFieldPath(sc.linterContext, codec, fromGvk, p.fromFieldPath.value);
      if err.Fail? {
        sc.ReportIssueFieldPath(Fields(["fromFieldPath"]), err.error, p.fromFieldPath.value);
      }
    }
    var toFieldPath := p.toFieldPath;
    if toFieldPath.None? {
      toFieldPath := p.fromFieldPath;
    }
    ValidateToFieldPath(sc, codec, toFieldPath, toGvk);
  }

  /** `validateEnvironmentPatch`. */
  method ValidateEnvironmentPatch(sc: ScopedContext, codec: Codec, p: Patch, toGvk: GVK)
    requires SchemasPresent(sc.linterContext.store.versions)
    modifies sc.linterContext
    ensures sc.linterContext.issues == old(sc.linterContext.issues)
              + Tag(sc.linterContext.ruleName, EnvironmentPatchIssues(sc.linterContext.store.versions, codec, sc, p, toGvk))
  {
    ghost var versions := sc.linterContext.store.versions;
    ghost var fromIssues := if p.fromFieldPath.None? then [sc.RequireField(Fields(["fromFieldPath"]))] else [];
    TagAppend(sc.linterContext.ruleName, fromIssues, ToFieldPathIssues(versions, codec, sc, EffectiveTo(p), toGvk));
    if p.fromFieldPath.None? {
      sc.ReportIssueRequireField(Fields(["fromFieldPath"]));
    }
    var toFieldPath := p.toFieldPath;
    if toFieldPath.None? {
      toFieldPath := p.fromFieldPath;
    }
    ValidateToFieldPath(sc, codec, toFieldPath, toGvk);
  }

  /** The body of the variable loop of `validateCombinePatch`: an empty source is
      required and the loop continues; any other is resolved. */
  method ValidateVariable(sc: ScopedContext, ghost versions: map<GVK, CrdVersion>, codec: Codec,
                          vars: seq<CombineVariable>, i: nat, fromGvk: GVK, ghost start: seq<Issue>)
    requires sc.linterContext.store.versions == versions && SchemasPresent(versions) && i < |vars|
    requires sc.linterContext.issues == start + Tag(sc.linterContext.ruleName, VariablesIssues(versions, codec, sc, vars, i, fromGvk))
    modifies sc.linterContext
    ensures sc.linterContext.issues == start + Tag(sc.linterContext.ruleName, VariablesIssues(versions, codec, sc, vars, i + 1, fromGvk))
  {
    ghost var before := sc.linterContext.issues;
    var v := vars[i];
    if v.fromFieldPath == "" {
      sc.ReportIssueRequireField(VariablePath(i));
    } else {
      var err := ValidateFieldPath(sc.linterContext, codec, fromGvk, v.fromFieldPath);
      if err.Fail? {
        sc.ReportIssueFieldPath(VariablePath(i), err.error, v.fromFieldPath);
      }
    }
    VariablesStep(versions, codec, sc, vars, i, fromGvk);
    TagStep(sc.linterContext.ruleName, start, before, sc.linterContext.issues,
            VariablesIssues(versions, codec, sc, vars, i, fromGvk), VariableIssues(versions, codec, sc, vars[i], i, fromGvk),
            VariablesIssues(versions, codec, sc, vars, i + 1, fromGvk));
  }

  /** One more variable extends the issues of those before it. */
  lemma VariablesStep(versions: map<GVK, CrdVersion>, codec: Codec, sc: ScopedContext, vars: seq<CombineVariable>,
                      i: nat, fromGvk: GVK)
    requires SchemasPresent(versions) && i < |vars|
    ensures VariablesIssues(versions, codec, sc, vars, i + 1, fromGvk)
            == VariablesIssues(versions, codec, sc, vars, i, fromGvk) + VariableIssues(versions, codec, sc, vars[i], i, fromGvk)
  {
    FlattenStep(VariableParts(versions, codec, sc, vars, fromGvk), i);
  }

  /** The variable loop of `validateCombinePatch`. */
  method ValidateVariables(sc: ScopedContext, ghost versions: map<GVK, CrdVersion>, codec: Codec,
                           vars: seq<CombineVariable>, fromGvk: GVK)
    requires sc.linterContext.store.versions == versions && SchemasPresent(versions)
    modifies sc.linterContext
    ensures sc.linterContext.issues == old(sc.linterContext.issues)
              + Tag(sc.linterContext.ruleName, VariablesIssues(versions, codec, sc, vars, |vars|, fromGvk))
  {
    ghost var start := sc.linterContext.issues;
    for i := 0 to |vars|
      invariant sc.linterContext.store.versions == versions
      invariant sc.linterContext.issues == start + Tag(sc.linterContext.ruleName, VariablesIssues(versions, codec, sc, vars, i, fromGvk))
    {
      ValidateVariable(sc, versions, codec, vars, i, fromGvk, start);
    }
  }

  /** `validateCombinePatch`: the variables are required and checked, then the target. */
  method ValidateCombinePatch(sc: ScopedContext, codec: Codec, p: Patch, fromGvk: GVK, toGvk: GVK)
    requires SchemasPresent(sc.linterContext.store.versions)
    modifies sc.linterContext
    ensures sc.linterContext.issues == old(sc.linterContext.issues)
              + Tag(sc.linterContext.ruleName, CombinePatchIssues(sc.linterContext.store.versions, codec, sc, p, fromGvk, toGvk))
  {
    ghost var versions := sc.linterContext.store.versions;
    ghost var varIssues :=
      if p.combine.None? || |p.combine.value.variables| == 0 then [sc.RequireField(Fields(["combine", "variables"]))]
      else VariablesIssues(versions, codec, sc, p.combine.value.variables, |p.combine.value.variables|, fromGvk);
    TagExtend(sc.linterContext.ruleName, sc.linterContext.issues, varIssues, ToFieldPathIssues(versions, codec, sc, p.toFieldPath, toGvk));
    if p.combine.None? || |p.combine.value.variables| == 0 {
      sc.ReportIssueRequireField(Fields(["combine", "variables"]));
    } else {
      ValidateVariables(sc, versions, codec, p.combine.value.variables, fromGvk);
    }
    ValidateToFieldPath(sc, codec, p.toFieldPath, toGvk);
  }

  /** The cases `validatePatch` and `validatePatchSet` share: the field-path kinds and
      the unknown type. */
  method ValidateFieldPatch(sc: ScopedContext, codec: Codec, p: Patch, compositeGvk: GVK, baseGvk: GVK)
    requires SchemasPresent(sc.linterContext.store.versions) && KindOf(p.patchType) != PatchSetRef
    modifies sc.linterContext
    ensures sc.linterContext.issues == old(sc.linterContext.issues)
              + Tag(sc.linterContext.ruleName, FieldPatchIssues(sc.linterContext.store.versions, codec, sc, p, compositeGvk, baseGvk))
  {
    match KindOf(p.patchType)
    case CombineToComposite => ValidateCombinePatch(sc, codec, p, baseGvk, compositeGvk);
    case CombineFromComposite => ValidateCombinePatch(sc, codec, p, compositeGvk, baseGvk);
    case ToComposite => ValidateSinglePatch(sc, codec, p, baseGvk, compositeGvk);
    case FromComposite => ValidateSinglePatch(sc, codec, p, compositeGvk, baseGvk);
    case FromEnvironment => ValidateEnvironmentPatch(sc, codec, p, baseGvk);
    case UnknownType => sc.ReportIssueFieldPath(Fields(["type"]), ErrUnknownPatchType, p.patchType);
  }

  /** `validatePatchSet`: each patch of the set under its own wrapped scope. */
  method ValidatePatchSet(sc: ScopedContext, codec: Codec, ps: PatchSet, compositeGvk: GVK, baseGvk: GVK, patchPath: JSONPath)
    requires SchemasPresent(sc.linterContext.store.versions)
    modifies sc.linterContext
    ensures sc.linterContext.issues == old(sc.linterContext.issues)
              + Tag(sc.linterContext.ruleName,
                    PatchSetIssues(sc.linterContext.store.versions, codec, sc, ps, compositeGvk, baseGvk, patchPath, |ps.patches|))
  {
    ghost var versions := sc.linterContext.store.versions;
    ghost var rule := sc.linterContext.ruleName;
    ghost var start := sc.linterContext.issues;
    for i := 0 to |ps.patches|
      invariant sc.linterContext.store.versions == versions
      invariant sc.linterContext.issues
                == start + Tag(rule, PatchSetIssues(versions, codec, sc, ps, compositeGvk, baseGvk, patchPath, i))
    {
      var sctx := InlinedScope(sc, patchPath, i);
      var p := ps.patches[i];
      ghost var done := PatchSetIssues(versions, codec, sc, ps, compositeGvk, baseGvk, patchPath, i);
      ghost var step := InlinedPatchIssues(versions, codec, sctx, p, compositeGvk, baseGvk);
      TagExtend(rule, start, done, step);
      PatchSetStep(versions, codec, sc, ps, compositeGvk, baseGvk, patchPath, i);
      if KindOf(p.patchType) == PatchSetRef {
        sctx.ReportIssueFieldPath(Fields(["type"]), ErrNestedPatchSet, p.patchType);
      } else {
        ValidateFieldPatch(sctx, codec, p, compositeGvk, baseGvk);
      }
    }
  }

  /** `validatePatch`: a patch-set patch is looked up by name and expanded; every other
      kind is checked directly. */
  method ValidatePatch(sc: ScopedContext, codec: Codec, p: Patch, comp: Composition, compositeGvk: GVK, baseGvk: GVK)
    requires SchemasPresent(sc.linterContext.store.versions)
    modifies sc.linterContext
    ensures sc.linterContext.issues == old(sc.linterContext.issues)
              + Tag(sc.linterContext.ruleName, PatchIssues(sc.linterContext.store.versions, codec, comp, sc, p, compositeGvk, baseGvk))
  {
    if KindOf(p.patchType) != PatchSetRef {
      ValidateFieldPatch(sc, codec, p, compositeGvk, baseGvk);
      return;
    }
    if p.patchSetName.None? {
      sc.ReportIssueRequireField(Fields(["patchSetName"]));
      return;
    }
    var name := p.patchSetName.value;
    var found: Option<nat> := None;
    var i := 0;
    while i < |comp.patchSets|
      invariant 0 <= i <= |comp.patchSets|
      invariant FindPatchSet(comp.patchSets, name, 0) == (if found.Some? then found else FindPatchSet(comp.patchSets, name, i))
      invariant found.None? ==> forall j :: 0 <= j < i ==> comp.patchSets[j].name != name
      decreases |comp.patchSets| - i, if found.None? then 1 else 0
    {
      if comp.patchSets[i].name == name {
        found := Some(i);
        break;
      }
      i := i + 1;
    }
    if found.None? {
      sc.ReportIssueFieldPath(Fields(["patchSetName"]), ErrNoMatchingPatchSet, name);
      return;
    }
    ValidatePatchSet(sc, codec, comp.patchSets[found.value], compositeGvk, baseGvk, InlinedPath(found.value));
  }

  /** The body of the patch loop: the `ip`-th patch of the `i`-th resource, under its own
      scope. `versions` names the store's content, which checking does not change. */
  method CheckPatch(ctx: LinterContext, ghost versions: map<GVK, CrdVersion>, codec: Codec, entry: nat,
                    comp: Composition, i: nat, ip: nat, compositeGvk: GVK, baseGvk: GVK)
    requires ctx.store.versions == versions && SchemasPresent(versions)
    requires i < |comp.resources| && ip < |comp.resources[i].patches|
    modifies ctx
    ensures ctx.issues == old(ctx.issues)
              + Tag(ctx.ruleName, PatchIssues(versions, codec, comp, PatchScope(ctx, entry, i, ip),
                                              comp.resources[i].patches[ip], compositeGvk, baseGvk))
  {
    ValidatePatch(PatchScope(ctx, entry, i, ip), codec, comp.resources[i].patches[ip], comp, compositeGvk, baseGvk);
  }

  /** One more patch of a resource template extends the issues of those before it. */
  lemma PatchesStep(versions: map<GVK, CrdVersion>, codec: Codec, ctx: LinterContext, entry: nat, comp: Composition,
                    i: nat, compositeGvk: GVK, baseGvk: GVK, ip: nat)
    requires SchemasPresent(versions) && i < |comp.resources| && ip < |comp.resources[i].patches|
    ensures PatchesIssues(versions, codec, ctx, entry, comp, i, compositeGvk, baseGvk, ip + 1)
            == PatchesIssues(versions, codec, ctx, entry, comp, i, compositeGvk, baseGvk, ip)
               + PatchIssues(versions, codec, comp, PatchScope(ctx, entry, i, ip), comp.resources[i].patches[ip], compositeGvk, baseGvk)
  {
    FlattenStep(PatchesParts(versions, codec, ctx, entry, comp, i, compositeGvk, baseGvk), ip);
  }

  /** The patch loop of one resource template. */
  method CheckPatches(ctx: LinterContext, ghost versions: map<GVK, CrdVersion>, codec: Codec, entry: nat,
                      comp: Composition, i: nat, compositeGvk: GVK, baseGvk: GVK)
    requires ctx.store.versions == versions && SchemasPresent(versions) && i < |comp.resources|
    modifies ctx
    ensures ctx.issues == old(ctx.issues)
              + Tag(ctx.ruleName, PatchesIssues(versions, codec, ctx, entry, comp, i, compositeGvk, baseGvk,
                                                |comp.resources[i].patches|))
  {
    ghost var start := ctx.issues;
    for ip := 0 to |comp.resources[i].patches|
      invariant ctx.issues == start + Tag(ctx.ruleName, PatchesIssues(versions, codec, ctx, entry, comp, i, compositeGvk, baseGvk, ip))
    {
      ghost var before := ctx.issues;
      CheckPatch(ctx, versions, codec, entry, comp, i, ip, compositeGvk, baseGvk);
      PatchesStep(versions, codec, ctx, entry, comp, i, compositeGvk, baseGvk, ip);
      TagStep(ctx.ruleName, start, before, ctx.issues,
              PatchesIssues(versions, codec, ctx, entry, comp, i, compositeGvk, baseGvk, ip),
              PatchIssues(versions, codec, comp, PatchScope(ctx, entry, i, ip), comp.resources[i].patches[ip], compositeGvk, baseGvk),
              PatchesIssues(versions, codec, ctx, entry, comp, i, compositeGvk, baseGvk, ip + 1));
    }
  }

  /** The body of the resource loop of `checkCompositionFieldPaths` for resource `i`:
      the base must parse and have a stored schema before the patches are checked. */
  method CheckResource(ctx: LinterContext, ghost versions: map<GVK, CrdVersion>, codec: Codec, entry: nat,
                       comp: Composition, i: nat, compositeGvk: GVK)
    requires ctx.store.versions == versions && SchemasPresent(versions) && i < |comp.resources|
    modifies ctx
    ensures ctx.issues == old(ctx.issues) + Tag(ctx.ruleName, ResourceIssues(versions, codec, ctx, entry, comp, i, compositeGvk))
  {
    var base := codec.unmarshalObject(comp.resources[i].baseRaw);
    if base.Err? {
      ctx.ReportIssue(EntryIssue(entry, BasePath(i), "", Wrap(ErrParseBase, base.error)));
      return;
    }
    var baseGvk := base.value.gvk;
    var baseCrd := ctx.GetCRDSchema(baseGvk);
    if baseCrd.None? {
      ctx.ReportIssue(EntryIssue(entry, BasePath(i), "", NoCrdFor(baseGvk)));
      return;
    }
    CheckPatches(ctx, versions, codec, entry, comp, i, compositeGvk, baseGvk);
  }

  /** One more resource extends the issues of those before it. */
  lemma ResourcesStep(versions: map<GVK, CrdVersion>, codec: Codec, ctx: LinterContext, entry: nat,
                      comp: Composition, compositeGvk: GVK, i: nat)
    requires SchemasPresent(versions) && i < |comp.resources|
    ensures ResourcesIssues(versions, codec, ctx, entry, comp, compositeGvk, i + 1)
            == ResourcesIssues(versions, codec, ctx, entry, comp, compositeGvk, i)
               + ResourceIssues(versions, codec, ctx, entry, comp, i, compositeGvk)
  {
    FlattenStep(ResourcesParts(versions, codec, ctx, entry, comp, compositeGvk), i);
  }

  /** The resource loop of `checkCompositionFieldPaths`. */
  method CheckResources(ctx: LinterContext, ghost versions: map<GVK, CrdVersion>, codec: Codec, entry: nat,
                        comp: Composition, compositeGvk: GVK)
    requires ctx.store.versions == versions && SchemasPresent(versions)
    modifies ctx
    ensures ctx.issues == old(ctx.issues)
              + Tag(ctx.ruleName, ResourcesIssues(versions, codec, ctx, entry, comp, compositeGvk, |comp.resources|))
  {
    ghost var start := ctx.issues;
    for i := 0 to |comp.resources|
      invariant ctx.store.versions == versions
      invariant ctx.issues == start + Tag(ctx.ruleName, ResourcesIssues(versions, codec, ctx, entry, comp, compositeGvk, i))
    {
      ghost var before := ctx.issues;
      CheckResource(ctx, versions, codec, entry, comp, i, compositeGvk);
      ResourcesStep(versions, codec, ctx, entry, comp, compositeGvk, i);
      TagStep(ctx.ruleName, start, before, ctx.issues,
              ResourcesIssues(versions, codec, ctx, entry, comp, compositeGvk, i),
              ResourceIssues(versions, codec, ctx, entry, comp, i, compositeGvk),
              ResourcesIssues(versions, codec, ctx, entry, comp, compositeGvk, i + 1));
    }
  }

  /** `checkCompositionFieldPaths` for the entry at position `entry`. */
  method CheckDocument(ctx: LinterContext, ghost versions: map<GVK, CrdVersion>, codec: Codec, manifest: PackageEntry,
                       entry: nat)
    requires ctx.store.versions == versions && SchemasPresent(versions)
    modifies ctx
    ensures ctx.issues == old(ctx.issues) + Tag(ctx.ruleName, DocumentIssues(versions, codec, ctx, manifest, entry))
  {
    if !IsComposition(manifest) {
      return;
    }
    var comp := AsComposition(manifest, codec);
    if comp.Err? {
      ctx.ReportIssue(EntryIssue(entry, [], "", Wrap(CompositionRule.ErrConvertTo("Composition"), comp.error)));
      return;
    }
    var compositeGv := codec.parseGroupVersion(comp.value.compositeTypeRef.apiVersion);
    if compositeGv.Err? {
      ctx.ReportIssue(EntryIssue(entry, [], "", Wrap(CompositionRule.ErrParseGroupVersion, compositeGv.error)));
      return;
    }
    var compositeGvk := compositeGv.value.WithKind(comp.value.compositeTypeRef.kind);
    var compositeCrd := ctx.GetCRDSchema(compositeGvk);
    if compositeCrd.None? {
      ctx.ReportIssue(EntryIssue(entry, Fields(["spec", "compositeTypeRef"]), "", NoCrdFor(compositeGvk)));
      return;
    }
    CheckResources(ctx, versions, codec, entry, comp.value, compositeGvk);
  }

  /** One more entry extends the issues of those before it. */
  lemma RuleStep(versions: map<GVK, CrdVersion>, codec: Codec, ctx: LinterContext, entries: seq<PackageEntry>, i: nat)
    requires SchemasPresent(versions) && i < |entries|
    ensures RuleIssues(versions, codec, ctx, entries, i + 1)
            == RuleIssues(versions, codec, ctx, entries, i) + DocumentIssues(versions, codec, ctx, entries[i], i)
  {
    FlattenStep(RuleParts(versions, codec, ctx, entries), i);
  }

  /** `CheckCompositionFieldPaths`, with the documents checked one after another
      instead of concurrently. */
  method CheckCompositionFieldPaths(ctx: LinterContext, pkg: Package, codec: Codec)
    requires SchemasPresent(ctx.store.versions)
    modifies ctx
    ensures ctx.issues == old(ctx.issues) + Tag(ctx.ruleName, RuleIssues(ctx.store.versions, codec, ctx, pkg.entries, |pkg.entries|))
  {
    var entries := pkg.entries;
    ghost var versions := ctx.store.versions;
    ghost var start := ctx.issues;
    for i := 0 to |entries|
      invariant ctx.store.versions == versions
      invariant ctx.issues == start + Tag(ctx.ruleName, RuleIssues(versions, codec, ctx, entries, i))
    {
      ghost var before := ctx.issues;
      CheckDocument(ctx, versions, codec, entries[i], i);
      RuleStep(versions, codec, ctx, entries, i);
      TagStep(ctx.ruleName, start, before, ctx.issues, RuleIssues(versions, codec, ctx, entries, i),
              DocumentIssues(versions, codec, ctx, entries[i], i), RuleIssues(versions, codec, ctx, entries, i + 1));
    }
  }
}
