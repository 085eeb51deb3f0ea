# crossplane-lint core, modelled in Dafny

crossplane-lint reads a Crossplane package (an OCI image or a directory of YAML
manifests), builds a schema store from the CRDs the package ships and the CRDs its
XRDs (CompositeResourceDefinitions) derive, and runs three lint rules over the
package's entries. Each rule reports issues that carry the rule's name, the entry
they are about, a report path (a JSON path such as `spec.resources[0].patches[1]`),
the offending value and a description.

This project models that core and proves what it does:

- `image.dfy` (module `ImageParse`): reading a package out of an image. The
  base-annotated layer is selected, and more than one such layer is refused. The
  `package.yaml` file is located in the layer's tarball, and its YAML stream is parsed
  into entries, skipping blank documents.
- `package.dfy` (module `Xpkg`): packages and entries. It covers the kind
  predicates, the typed conversions through the conversion cache, the
  package-descriptor lookup and the memoised YAML node.
- `store.dfy` (module `Schema`): the schema store. It is a class whose map from GVK
  to CRD version is updated in place by registration. Every stored version gets the
  standard `metadata` properties, and nothing already declared is overwritten. The
  stored versions use the corrected injection described under Findings.
- `lint.dfy` (module `Lint`): issues and the linter context a rule reports through.
- `jsonpath.dfy` (module `JsonPath`): report paths, their construction from variadic
  arguments and their rendering.
- `generic.dfy` (module `Generic`): the duplicate-object rule.
- `composition.dfy` (module `CompositionRule`): the rule that checks each
  Composition's composite type reference.
- `composition_fieldpath.dfy` (module `CompositionFieldPath`) and `resolver.dfy`
  (module `Resolver`): the field-path rule. Every patch of every resource template
  of a Composition is checked. Each of its field paths is resolved against the
  stored schema of the composite type or of the resource's base, in the direction
  the patch type dictates.
- `kube.dfy`, `foreign.dfy`, `wrappers.dfy`: the slices of the Kubernetes and
  Crossplane types that the core reads, the library calls it makes (as a `Codec`
  value of functions), and `Option`/`Result`/`Outcome`.

Each rule is a method that appends to the `issues` field of a `Lint.LinterContext`
object. Its `ensures` clause states that the new issues are a specification
function of the package, tagged with the rule's name. The lemmas beside each
specification function state what the rule promises.

## Model

| member | source | states |
|---|---|---|
| `JsonPath.Digits` | internal/xpkg/lint/jsonpath/jsonpath.go:23-25 | `%d` of a natural number is a non-empty run of decimal digits, one digit exactly below ten |
| `JsonPath.IntString` | internal/xpkg/lint/jsonpath/jsonpath.go:23-25 | an index prints as its digits, with a leading minus sign exactly for a negative index |
| `JsonPath.FieldSegmentRendering` | internal/xpkg/lint/jsonpath/jsonpath.go:14-19 | a field segment renders as `[name]` when its name contains a dot, and as `.name` otherwise |
| `JsonPath.RenderAppend` | internal/xpkg/lint/jsonpath/jsonpath.go:29-35 | rendering is concatenative: the rendering of `p + q` is that of `p` followed by that of `q` |
| `JsonPath.PathString` | internal/xpkg/lint/jsonpath/jsonpath.go:29-35 | the builder loop yields the path's rendering |
| `JsonPath.PathAt` | internal/xpkg/lint/jsonpath/jsonpath.go:37-52 | a built path has one segment per argument, each chosen by the argument's dynamic type |
| `JsonPath.PathAppend` | internal/xpkg/lint/jsonpath/jsonpath.go:37-52 | building from `a + b` is building from `a` then from `b` |
| `JsonPath.NestedRender` | internal/xpkg/lint/jsonpath/jsonpath.go:27-52 | a path built from two whole paths renders as their two renderings concatenated, so nesting is flattened |
| `JsonPath.NewJSONPath` | internal/xpkg/lint/jsonpath/jsonpath.go:37-52 | the slice filled by index holds, at each position, the segment for that argument |
| `Lint.Tag` | internal/xpkg/lint/linter/linter.go:20-23 | tagging a stream keeps its length |
| `Lint.TagSpec` | internal/xpkg/lint/linter/linter.go:20-23 | tagging sets each issue's rule name and changes nothing else |
| `Lint.TagAppend` | internal/xpkg/lint/linter/linter.go:20-23 | tagging distributes over concatenation, so reporting in pieces tags the whole stream |
| `Lint.LinterContext.constructor` | internal/xpkg/lint/linter/linter.go:72-77 | a rule's context starts with its name, the shared store and no issues |
| `Lint.LinterContext.ReportIssue` | internal/xpkg/lint/linter/linter.go:20-23 | the issue, with the context's rule name, is appended to the stream |
| `Xpkg.KindsExclusive` | internal/xpkg/package.go:61-113 | at most one of the XRD, Composition, CRD and package-descriptor predicates holds of an entry |
| `Xpkg.GetPackageDescriptor` | internal/xpkg/package.go:28-37 | none exactly when no entry is a descriptor; otherwise an entry of the package that is one |
| `Xpkg.ConvertToWithCache` | internal/xpkg/package.go:122-132 | a cached object of the requested type is returned without decoding; otherwise the raw text is decoded, and an error is wrapped with the type's (empty) name |
| `Xpkg.AsXRD` | internal/xpkg/package.go:66-72 | another kind is refused with "object is not of kind XRD"; an XRD goes through the cache |
| `Xpkg.AsComposition` | internal/xpkg/package.go:79-85 | another kind is refused with "object is not of kind Composition"; a Composition goes through the cache |
| `Xpkg.AsCRD` | internal/xpkg/package.go:115-120 | another kind is refused with a message that names "Composition", as the code does; a CRD goes through the cache |
| `Xpkg.AsPackageDescriptor` | internal/xpkg/package.go:93-103 | a non-descriptor is refused; a Provider decodes only to a Provider and a Configuration only to a Configuration |
| `Xpkg.GetYamlNode` | internal/xpkg/package.go:134-145 | a memoised node is returned unchanged; otherwise the raw text is decoded and memoised on success; only the memo field of the entry changes |
| `Xpkg.GetYamlNodeMemoises` | internal/xpkg/package.go:134-145 | asking again after a success returns the same node and leaves the entry as it is |
| `Schema.InjectNamesSpec` | internal/xpkg/lint/schema/store.go:113-119 | metadata injection only adds: every name ends up present, existing properties are kept, and absent ones get their defaults |
| `Schema.AddMetaDataAsWritten` | internal/xpkg/lint/schema/store.go:69-120 | follows the code's steps (schema, root, properties, metadata, the four names); the result is the nil-map panic exactly when the root schema exists with a nil properties map, and otherwise the corrected `WithMetadata` version, which has its metadata and keeps its name |
| `Schema.NilRootPropertiesPanics` | internal/xpkg/lint/schema/store.go:97-103 | a root schema that only preserves unknown fields makes the code as written panic |
| `Schema.WithMetadataSpec` | internal/xpkg/lint/schema/store.go:69-120 | the injected version has `metadata` with the four standard properties; the name and all other root fields are unchanged; root properties other than `metadata` are kept, and existing metadata properties are not overwritten |
| `Schema.WithMetadataIdempotent` | internal/xpkg/lint/schema/store.go:102-119 | injecting twice is injecting once |
| `Schema.AddMetaDataToSchema` | internal/xpkg/lint/schema/store.go:69-120 | the method walks the code's steps and its loop over the four names; it returns the nil-map panic as an error exactly when the root schema exists with a nil properties map, is equal to `Schema.AddMetaDataAsWritten`, and otherwise yields a version with its metadata and its name |
| `Schema.Lookup` | internal/xpkg/lint/schema/store.go:122-128 | a version is found exactly for a registered GVK, and it is the stored one |
| `Schema.LastNamed` | internal/xpkg/lint/schema/store.go:61-66 | the version a registration keeps for a name is the last of the CRD's versions with that name, and there is none exactly when no version has it |
| `Schema.RegisterVersionsAt` | internal/xpkg/lint/schema/store.go:56-67 | after registering a CRD's versions, a key of its group and kind holds the last version of that name with its metadata, and every other key is unchanged |
| `Schema.RegisterCrdInjects` | internal/xpkg/lint/schema/store.go:56-67 | registration keeps every stored version's metadata and loses no key |
| `Schema.LaterRegistrationWins` | internal/xpkg/lint/schema/store.go:61-66 | of two registrations sharing a key, the later CRD's version is found |
| `Schema.RegisterEntriesAppend` | internal/xpkg/lint/schema/store.go:25-54 | registering `a + b` is registering `a` and then, unless that failed, `b`: the first error is returned and later entries are not registered |
| `Schema.XrdRegistersClaimOnlyWithClaimNames` | internal/xpkg/lint/schema/store.go:34-50 | an XRD registers its composite CRD, and its claim CRD only when it has claim names |
| `Schema.ClaimFailureKeepsComposite` | internal/xpkg/lint/schema/store.go:43-49 | a failing claim derivation is reported wrapped, and the composite CRD stays registered |
| `Schema.RegisterEntryInjects` | internal/xpkg/lint/schema/store.go:25-54 | registering one entry of any kind keeps the metadata invariant |
| `Schema.RegisterEntriesInjects` | internal/xpkg/lint/schema/store.go:25-54 | registering a whole package keeps the metadata invariant, whatever the outcome |
| `Schema.SchemaStore.constructor` | internal/xpkg/lint/schema/store.go:19-23 | a new store is empty and valid |
| `Schema.SchemaStore.RegisterCRD` | internal/xpkg/lint/schema/store.go:56-67 | the loop stores each version, with its metadata injected by `Schema.WithMetadata`, under its group, version and kind, and keeps the invariant |
| `Schema.SchemaStore.RegisterPackage` | internal/xpkg/lint/schema/store.go:25-54 | the entries are registered in order up to the first error, which is returned; the invariant is kept |
| `Resolver.ValidateFieldPathSegment` | internal/xpkg/lint/linter/rules/composition_fieldpath.go:273-305 | a step leads only to a child schema (a property, the additional-properties schema or the item schema); a declared field leads to its property schema and a field on an object preserving unknown fields leads nowhere without error; a field on a non-object is a type error, and a field on an object can only fail as not found; an index on a non-array is the `array` type error, an index on an array without an item schema is the no-items error, and a successful index leads to the item schema |
| `Resolver.WalkAppend` | internal/xpkg/lint/linter/rules/composition_fieldpath.go:259-270 | walking `a + b` walks `a`, then `b` from where `a` ended |
| `Resolver.WalkNone` | internal/xpkg/lint/linter/rules/composition_fieldpath.go:260-263 | once no schema node is left, every remaining segment is accepted |
| `Resolver.WalkStopsAt` | internal/xpkg/lint/linter/rules/composition_fieldpath.go:260-269 | a segment that fails at the node reached before it ends the walk with that error |
| `Resolver.WalkFailureHasStop` | internal/xpkg/lint/linter/rules/composition_fieldpath.go:260-269 | a failing walk has a segment at which it first fails |
| `Resolver.WalkFirstError` | internal/xpkg/lint/linter/rules/composition_fieldpath.go:259-270 | the walk fails exactly when some prefix reaches a node at which the next segment fails, and then with that segment's error |
| `Resolver.PreserveUnknownAcceptsRest` | internal/xpkg/lint/linter/rules/composition_fieldpath.go:283-285 | on an object that preserves unknown fields, a field and everything after it are accepted |
| `Resolver.EmptyTypeIsObjectForFieldsOnly` | internal/xpkg/lint/linter/rules/composition_fieldpath.go:276-296 | an untyped node counts as an object for a field segment only; an index on it is a type error naming the empty type |
| `Resolver.AdditionalPropertiesFallback` | internal/xpkg/lint/linter/rules/composition_fieldpath.go:286-293 | an undeclared field falls back to the allowed additional-properties schema, and is not found otherwise |
| `Resolver.InjectedSchemasPresent` | internal/xpkg/lint/schema/store.go:94-101 | every version the store holds has a root schema, so the resolver never reads a missing one |
| `Resolver.FieldPathOutcome` | internal/xpkg/lint/linter/rules/composition_fieldpath.go:250-271 | a parse error is returned as is; an unregistered GVK gives "no CRD for"; an empty path on a registered GVK passes |
| `Resolver.FieldPathFirstSegmentError` | internal/xpkg/lint/linter/rules/composition_fieldpath.go:250-271 | on a registered GVK, the check fails exactly at the first segment that fails from the stored root |
| `Resolver.ValidateFieldPath` | internal/xpkg/lint/linter/rules/composition_fieldpath.go:250-271 | the loop that reassigns the current node computes the outcome above |
| `CompositionRule.FirstVersion` | internal/xpkg/lint/linter/rules/composition.go:68-72 | the version found has the requested name and belongs to the XRD; none exactly when no version has that name |
| `CompositionRule.SearchFromSpec` | internal/xpkg/lint/linter/rules/composition.go:55-76 | the XRD search is a first-match scan: no match exactly when every entry is passed over; a match is the first defining XRD; a conversion failure of an earlier XRD is returned instead |
| `CompositionRule.CompositeTypeRefIssues` | internal/xpkg/lint/linter/rules/composition.go:22-52 | at most one issue per entry, none for other kinds, the conversion issue for a Composition that does not decode, and exactly the wrapped group-version parse error for a Composition whose type reference's apiVersion does not parse |
| `CompositionRule.CompositeTypeRefOutcome` | internal/xpkg/lint/linter/rules/composition.go:34-75 | a parsed Composition gets no issue exactly when a defining XRD comes before any failing one; with every entry passed over it gets the single no-match issue; an XRD that fails to convert before any defining XRD gives exactly its wrapped conversion error, reported on the XRD's own entry |
| `CompositionRule.RuleIssuesBound` | internal/xpkg/lint/linter/rules/composition.go:21-53 | the rule reports at most as many issues as there are Compositions |
| `CompositionRule.CheckEntry` | internal/xpkg/lint/linter/rules/composition.go:22-52 | one loop step reports the entry's issues, tagged |
| `CompositionRule.CheckCompositionCompositeTypeRef` | internal/xpkg/lint/linter/rules/composition.go:19-53 | the loop reports every entry's issues, in entry order, tagged with the rule's name |
| `Generic.PositionsSpec` | internal/xpkg/lint/linter/rules/generic.go:20-32 | a key's group holds exactly the positions of the entries with that key, in increasing order |
| `Generic.FirstPosition` | internal/xpkg/lint/linter/rules/generic.go:33-38 | a group's first element is the key's first occurrence, which is the entry an issue points at |
| `Generic.PositionsCount` | internal/xpkg/lint/linter/rules/generic.go:20-34 | a group's size is the number of occurrences of its key |
| `Generic.DuplicatesPermutationInvariant` | internal/xpkg/lint/linter/rules/generic.go:33-34 | whether a key is reported does not depend on the order of the entries |
| `Generic.GroupsSpec` | internal/xpkg/lint/linter/rules/generic.go:20-32 | the `objects` map holds exactly the keys that occur, each mapped to its group |
| `Generic.ReportsMembership` | internal/xpkg/lint/linter/rules/generic.go:33-40 | an issue is reported exactly for a visited group of two or more entries |
| `Generic.DistinctKeysDistinctIssues` | internal/xpkg/lint/linter/rules/generic.go:33-40 | groups are disjoint, so the issues of two different keys point at different entries |
| `Generic.ReportsOncePerKey` | internal/xpkg/lint/linter/rules/generic.go:33-40 | visiting each key once reports no issue twice |
| `Generic.ReportedGroupIsDuplicate` | internal/xpkg/lint/linter/rules/generic.go:33-39 | a group is reported exactly when two or more entries share its key, on the first of them |
| `Generic.DuplicateReports` | internal/xpkg/lint/linter/rules/generic.go:17-41 | in any map order: exactly one issue per key shared by two or more entries, on the first of them, and nothing else |
| `Generic.CheckDuplicateObjects` | internal/xpkg/lint/linter/rules/generic.go:19-41 | the two loops report, tagged, the issues of the groups in some order that visits each key once |
| `CompositionFieldPath.ScopedContext.Wrap` | internal/xpkg/lint/linter/rules/composition_fieldpath.go:43-49 | a wrapped scope keeps the context and the entry, and its base path renders one path deeper |
| `CompositionFieldPath.ScopedContext.ReportIssueRequireField` | internal/xpkg/lint/linter/rules/composition_fieldpath.go:26-32 | one "require field" issue under the scope's base path is reported |
| `CompositionFieldPath.ScopedContext.ReportIssueFieldPath` | internal/xpkg/lint/linter/rules/composition_fieldpath.go:34-41 | one issue with the description and the offending value under the scope's base path is reported |
| `CompositionFieldPath.ScopedRendering` | internal/xpkg/lint/linter/rules/composition_fieldpath.go:26-41 | every report of a scope is on the scope's entry and renders under its base path |
| `CompositionFieldPath.KindOfSwitch` | internal/xpkg/lint/linter/rules/composition_fieldpath.go:128-160 | each patch type selects its case, the empty type is "from composite", and any other type is unknown |
| `CompositionFieldPath.CheckedPath` | internal/xpkg/lint/linter/rules/composition_fieldpath.go:205-206 | a checked path gives no issue exactly when it resolves, and otherwise one issue carrying the raw path at the given report path |
| `CompositionFieldPath.ToFieldPathIssues` | internal/xpkg/lint/linter/rules/composition_fieldpath.go:208-216 | the target check gives at most one issue, on the entry |
| `CompositionFieldPath.SinglePatchIssues` | internal/xpkg/lint/linter/rules/composition_fieldpath.go:202-217 | a single patch gives at most two issues, on the entry |
| `CompositionFieldPath.EnvironmentPatchIssues` | internal/xpkg/lint/linter/rules/composition_fieldpath.go:186-200 | an environment patch gives at most two issues, on the entry |
| `CompositionFieldPath.VariableIssues` | internal/xpkg/lint/linter/rules/composition_fieldpath.go:167-174 | a combine variable gives at most one issue, and an empty source gives "require field" at its own path |
| `CompositionFieldPath.InlinedPatchIssues` | internal/xpkg/lint/linter/rules/composition_fieldpath.go:220-237 | a patch-set patch inside a set gives the single "nested patch sets are not allowed" issue |
| `CompositionFieldPath.FindPatchSet` | internal/xpkg/lint/linter/rules/composition_fieldpath.go:146-152 | the set found has the requested name; none exactly when no set has it |
| `CompositionFieldPath.DocumentIssues` | internal/xpkg/lint/linter/rules/composition_fieldpath.go:65-125 | an entry that is not a Composition gives no issue |
| `CompositionFieldPath.SinglePatchDirection` | internal/xpkg/lint/linter/rules/composition_fieldpath.go:133-136 | towards the composite the source is resolved against the base and the target against the composite; from the composite, and for the empty type, the other way round |
| `CompositionFieldPath.TargetDefaultsToSource` | internal/xpkg/lint/linter/rules/composition_fieldpath.go:208-211 | a patch without a target uses its source as the target |
| `CompositionFieldPath.NoPathsTwoRequireIssues` | internal/xpkg/lint/linter/rules/composition_fieldpath.go:202-217 | a single or environment patch with neither path gives exactly the two "require field" issues, for the source and for the target |
| `CompositionFieldPath.EnvironmentSourceUnchecked` | internal/xpkg/lint/linter/rules/composition_fieldpath.go:186-200 | an environment patch's source is never resolved, and only its target is checked, against the base |
| `CompositionFieldPath.EmptyVariablesRequired` | internal/xpkg/lint/linter/rules/composition_fieldpath.go:167-171 | each combine variable with an empty source gets "require field" at its own path |
| `CompositionFieldPath.FailingVariablesReported` | internal/xpkg/lint/linter/rules/composition_fieldpath.go:172-174 | each combine variable whose source does not resolve gets the resolver's error with that source |
| `CompositionFieldPath.VariableIssuesOrigin` | internal/xpkg/lint/linter/rules/composition_fieldpath.go:163-176 | every variable issue belongs to one variable, and a variable whose source resolves gets none |
| `CompositionFieldPath.CombineWithoutVariables` | internal/xpkg/lint/linter/rules/composition_fieldpath.go:164-183 | a combine patch without variables gives "require field" at `combine.variables`, and its target is still checked |
| `CompositionFieldPath.CombineDirection` | internal/xpkg/lint/linter/rules/composition_fieldpath.go:129-132 | towards the composite the variables are resolved against the base and the target against the composite; from it, the other way round |
| `CompositionFieldPath.PatchSetReference` | internal/xpkg/lint/linter/rules/composition_fieldpath.go:139-157 | a missing name is required, an unknown name gives "no matching patchset found" with the name, and a known name expands the first set of that name |
| `CompositionFieldPath.NestedPatchSetsRefused` | internal/xpkg/lint/linter/rules/composition_fieldpath.go:219-232 | every patch-set patch inside an expanded set is refused under its own scope |
| `CompositionFieldPath.UnknownPatchType` | internal/xpkg/lint/linter/rules/composition_fieldpath.go:158-159 | an unknown type gives the single "unknown patch type" issue carrying the type, both directly and inside a set |
| `CompositionFieldPath.PatchesTypeRendering` | internal/xpkg/lint/linter/rules/composition_fieldpath.go:221 | an inlined patch's scope ends with `.patches[i].type` |
| `CompositionFieldPath.InlinedPathRendering` | internal/xpkg/lint/linter/rules/composition_fieldpath.go:219-221 | an inlined patch's scope adds the set's inlined path, then `.patches[i].type` |
| `CompositionFieldPath.InlinedIssueRendering` | internal/xpkg/lint/linter/rules/composition_fieldpath.go:219-221 | an inlined patch's issue renders under the referring patch's path, the inlined set path and `.patches[i].type` |
| `CompositionFieldPath.DocumentEarlyStops` | internal/xpkg/lint/linter/rules/composition_fieldpath.go:66-94 | an undecodable Composition, an unparsable group/version or an unregistered composite type gives exactly one issue and no resource is checked |
| `CompositionFieldPath.ResourceBaseStops` | internal/xpkg/lint/linter/rules/composition_fieldpath.go:96-115 | an undecodable base or an unregistered base type gives one issue at `spec.resources[i].base`, and the resource's patches are not checked |
| `CompositionFieldPath.VariablesOnEntry` | internal/xpkg/lint/linter/rules/composition_fieldpath.go:163-176 | every variable issue is about the scope's entry |
| `CompositionFieldPath.FieldPatchOnEntry` | internal/xpkg/lint/linter/rules/composition_fieldpath.go:128-138 | every issue of a field-path patch is about the scope's entry |
| `CompositionFieldPath.PatchSetOnEntry` | internal/xpkg/lint/linter/rules/composition_fieldpath.go:219-239 | every issue of an expanded set is about the scope's entry |
| `CompositionFieldPath.PatchOnEntry` | internal/xpkg/lint/linter/rules/composition_fieldpath.go:127-161 | every issue of a patch is about the scope's entry |
| `CompositionFieldPath.PatchesOnEntry` | internal/xpkg/lint/linter/rules/composition_fieldpath.go:116-123 | every issue of a resource's patches is about the entry |
| `CompositionFieldPath.ResourcesOnEntry` | internal/xpkg/lint/linter/rules/composition_fieldpath.go:96-124 | every issue of the resource loop is about the entry |
| `CompositionFieldPath.DocumentOnEntry` | internal/xpkg/lint/linter/rules/composition_fieldpath.go:65-125 | everything reported while checking an entry is about that entry |
| `CompositionFieldPath.RuleIssuesScoped` | internal/xpkg/lint/linter/rules/composition_fieldpath.go:51-63 | every issue of the rule is about a checked entry, and that entry is a Composition |
| `CompositionFieldPath.ValidateToFieldPath` | internal/xpkg/lint/linter/rules/composition_fieldpath.go:208-216 | the target step reports the target issues |
| `CompositionFieldPath.ValidateSinglePatch` | internal/xpkg/lint/linter/rules/composition_fieldpath.go:202-217 | `validateSinglePatch` reports the single-patch issues |
| `CompositionFieldPath.ValidateEnvironmentPatch` | internal/xpkg/lint/linter/rules/composition_fieldpath.go:186-200 | `validateEnvironmentPatch` reports the environment-patch issues |
| `CompositionFieldPath.ValidateVariable` | internal/xpkg/lint/linter/rules/composition_fieldpath.go:167-175 | one variable step extends the reported variable issues by that variable's |
| `CompositionFieldPath.ValidateVariables` | internal/xpkg/lint/linter/rules/composition_fieldpath.go:167-175 | the variable loop reports every variable's issues, in order |
| `CompositionFieldPath.ValidateCombinePatch` | internal/xpkg/lint/linter/rules/composition_fieldpath.go:163-184 | `validateCombinePatch` reports the variables' issues, then the target's |
| `CompositionFieldPath.ValidateFieldPatch` | internal/xpkg/lint/linter/rules/composition_fieldpath.go:128-138 | the cases shared by patches and patch sets report their issues |
| `CompositionFieldPath.ValidatePatchSet` | internal/xpkg/lint/linter/rules/composition_fieldpath.go:219-239 | `validatePatchSet` reports each patch's issues under its wrapped scope, in order |
| `CompositionFieldPath.ValidatePatch` | internal/xpkg/lint/linter/rules/composition_fieldpath.go:127-161 | `validatePatch` reports the patch's issues, expanding a referenced set |
| `CompositionFieldPath.CheckPatch` | internal/xpkg/lint/linter/rules/composition_fieldpath.go:116-123 | one patch step extends the resource's reported issues by that patch's |
| `CompositionFieldPath.CheckPatches` | internal/xpkg/lint/linter/rules/composition_fieldpath.go:116-123 | the patch loop reports every patch's issues, in order |
| `CompositionFieldPath.CheckResource` | internal/xpkg/lint/linter/rules/composition_fieldpath.go:96-123 | one resource step reports that resource's issues |
| `CompositionFieldPath.CheckResources` | internal/xpkg/lint/linter/rules/composition_fieldpath.go:96-124 | the resource loop reports every resource's issues, in order |
| `CompositionFieldPath.CheckDocument` | internal/xpkg/lint/linter/rules/composition_fieldpath.go:65-125 | checking one entry reports that entry's issues, tagged |
| `CompositionFieldPath.CheckCompositionFieldPaths` | internal/xpkg/lint/linter/rules/composition_fieldpath.go:51-63 | the rule reports every entry's issues, one document after another, tagged with the rule's name |
| `ImageParse.IsWhiteSpace` | internal/xpkg/parse/image.go:158-169 | the scan reports true exactly when every byte is Unicode white space, and true for no bytes |
| `ImageParse.Kept` | internal/xpkg/parse/image.go:129-142 | no kept document is empty or white space only |
| `ImageParse.FirstReadError` | internal/xpkg/parse/image.go:130-133 | there is a first read error exactly when the stream has one |
| `ImageParse.DecodedEntries` | internal/xpkg/parse/image.go:144-153 | decoding succeeds exactly when every document decodes, and then gives one entry per document, in order |
| `ImageParse.DecodedFirstError` | internal/xpkg/parse/image.go:145-147 | a decode failure carries the error of a document that does not decode |
| `ImageParse.ParseFromSpec` | internal/xpkg/parse/image.go:129-155 | the read loop from any point computes the reference outcome of the rest of the stream |
| `ImageParse.ParsePackageSpec` | internal/xpkg/parse/image.go:123-156 | `parsePackage` computes the reference outcome: decode error first, then read error with a partial package, then success |
| `ImageParse.ParsedPackage` | internal/xpkg/parse/image.go:123-156 | the package and its entries are named after the source, its entries are the kept documents decoded in order with their raw text, no package exactly when a kept document does not decode, and a partial package carries the first read error |
| `ImageParse.BlankDocumentSkipped` | internal/xpkg/parse/image.go:137-142 | a blank document changes neither the kept documents nor the first read error |
| `ImageParse.BlankDocumentIgnored` | internal/xpkg/parse/image.go:137-142 | inserting a blank document anywhere leaves the parsed package unchanged |
| `ImageParse.ParsePackageStream` | internal/xpkg/parse/image.go:122-156 | the loop that appends to the package's entries computes `parsePackage` |
| `ImageParse.BaseLayersMembers` | internal/xpkg/parse/image.go:78-81 | the selected layers are exactly the layers annotated as base |
| `ImageParse.NonBaseLayerIgnored` | internal/xpkg/parse/image.go:78-81 | a layer without the base annotation does not affect the selection |
| `ImageParse.NoBaseUsesFlattened` | internal/xpkg/parse/image.go:101-104 | without any base layer the flattened filesystem is read |
| `ImageParse.TwoBasesRefused` | internal/xpkg/parse/image.go:82-89 | a second base layer after a fetched first one is refused as invalid |
| `ImageParse.SelectBaseLayer` | internal/xpkg/parse/image.go:77-99 | the loop reassigning `foundAnnotated` and `tarc` computes the selection: flattened without a base, the wrapped fetch or uncompress error of the first base, the refusal of a second base |
| `ImageParse.FindStream` | internal/xpkg/parse/image.go:109-118 | the scan fails exactly when no entry is named `package.yaml`, with the tar reader's end error wrapped; otherwise it yields the stream of such an entry |
| `ImageParse.FindPackageStream` | internal/xpkg/parse/image.go:109-118 | the `Next` loop computes that scan from the first header |
| `ImageParse.GetPackageFromImage` | internal/xpkg/parse/image.go:63-120 | the manifest, the base selection, the stream search and the parse are chained, and the first error is returned |
| `ImageParse.ImagePackageNamed` | internal/xpkg/parse/image.go:109-127 | a package read from an image is named after the reference, as are its entries' sources; an image without `package.yaml` gives no package and the wrapped open-stream error |

## Left out

- The three rules run concurrently in the original, and `CheckCompositionFieldPaths` starts one goroutine per entry. Here the entries are checked one after another. The issue sequence is therefore one of the interleavings the original can produce, not every one.
- The fan-in of issues through a channel and `Lint`, which collects the channel into a report, are left out. Each rule's context holds its own issue sequence instead.
- The command line, reading packages from directories and printing reports are not modelled. Neither are the registry fetch and reference parsing of `PackageImageParser.ParsePackage` (internal/xpkg/parse/image.go:51-61). `getPackageFromImage` receives the image as a value and the reference's name as a string.
- The library calls are fields of a `Codec` value, and their results are left unconstrained. These are `fieldpath.Parse`, the YAML and JSON decoders, `schema.ParseGroupVersion`, and the CRD derivation from an XRD for the composite and for the claim.
- Image layers, their uncompressed tarballs and the YAML reader's documents are given as values. `Close` calls are left out.
- ImageParse.Text: a document's bytes become one character each, and no UTF-8 decoding is done.
- ImageParse.IsSpaceByte tests the white-space bytes that `unicode.IsSpace` accepts for a byte widened to a rune.
- Issues refer to their entry by its position in the package, not by a pointer. In generic.go the pointer `&e` refers to the loop variable. Under the Go 1.22 loop semantics this is a fresh copy of the entry on each iteration, and so the issue's entry is the group's first entry.
- Generic.CheckDuplicateObjects: Go's map iteration order is unspecified. The method returns the order it used as a ghost value, and its contract holds for every order that visits each key once.
- Xpkg.AsPackageDescriptor: only the kind of the decoded descriptor is stated, not the whole conversion. Provider and Configuration are both one opaque `PkgMeta` here, because the linter reads none of their fields.
- Schema.SchemaStore.RegisterCRD: registration stores the corrected `Schema.WithMetadata` injection. The nil-map panic of the code as written (internal/xpkg/lint/schema/store.go:103, modelled by `Schema.AddMetaDataToSchema` and `Schema.AddMetaDataAsWritten`) is not propagated through `RegisterCRD` or `RegisterPackage`.
- Resolver.ValidateFieldPathSegment: a segment is either a field or an index here, so the invalid-segment-type error of internal/xpkg/lint/linter/rules/composition_fieldpath.go:304 cannot arise.
- Re-registering a GVK replaces its version, metadata included. Nothing is merged, and this follows the code of `registerCRD`.
- The resolver's callers require that every stored version has a root schema (`Resolver.SchemasPresent`). The store keeps this invariant (`Resolver.InjectedSchemasPresent`). So the nil dereference that the original would hit on a version without a root schema is outside the model, because the store never holds such a version.

## Findings

| source | as written | input that shows it | evidently intended | confidence | as-written member | corrected member |
|---|---|---|---|---|---|---|
| internal/xpkg/lint/schema/store.go:97-103 | when the root schema exists with a nil `properties` map, the write of `metadata` into that map panics | a CRD version whose root schema declares only `x-kubernetes-preserve-unknown-fields: true` | create the properties map before adding `metadata`, as is done for a missing root; `Schema.WithMetadataSpec` proves the repaired injection adds the metadata and keeps everything else | not executed | `Schema.NilRootPropertiesPanics` | `Schema.WithMetadata` |
