/** The slices of the Kubernetes and Crossplane API types that the linter reads.
    Every field the linter never reads is left out. */
module Kube {
  import opened Wrappers

  /** `schema.GroupVersionKind`. */
  datatype GVK = GVK(group: string, version: string, kind: string)

  /** `schema.GroupVersion`, as `schema.ParseGroupVersion` returns it. */
  datatype GroupVersion = GroupVersion(group: string, version: string)
  {
    function WithKind(kind: string): GVK { GVK(group, version, kind) }
  }

  /** `GroupVersionKind.String()` of the Kubernetes apimachinery library. */
  function GvkString(gvk: GVK): string
  {
    gvk.group + "/" + gvk.version + ", Kind=" + gvk.kind
  }

  /** The unstructured view of a manifest: its type and `metadata.name`. */
  datatype Object = Object(gvk: GVK, name: string)

  /** `JSONSchemaProps`, restricted to the structural fields the linter reads.
      `properties` is `None` for a nil Go map, which differs from an empty one.
      `preserveUnknownFields` is `x-kubernetes-preserve-unknown-fields` after
      `pointer.BoolDeref(_, false)`: an absent flag reads as false. */
  datatype Props = Props(
    typ: string,
    properties: Option<map<string, Props>>,
    additionalProperties: Option<PropsOrBool>,
    items: Option<PropsOrArray>,
    preserveUnknownFields: bool)

  /** `JSONSchemaPropsOrBool`. */
  datatype PropsOrBool = PropsOrBool(allows: bool, schema: Option<Props>)

  /** `JSONSchemaPropsOrArray`; only its single-schema form is read. */
  datatype PropsOrArray = PropsOrArray(schema: Option<Props>)

  /** `CustomResourceValidation`. */
  datatype Validation = Validation(openAPIV3Schema: Option<Props>)

  /** `CustomResourceDefinitionVersion`. */
  datatype CrdVersion = CrdVersion(name: string, schema: Option<Validation>)

  /** `CustomResourceDefinition`: `spec.group`, `spec.names.kind`, `spec.versions`. */
  datatype Crd = Crd(group: string, kind: string, versions: seq<CrdVersion>)

  /** `CompositeResourceDefinition`: `spec.group`, `spec.names.kind`, `spec.versions`
      and `spec.claimNames` (nil when the definition offers no claim). */
  datatype Xrd = Xrd(group: string, kind: string, versions: seq<XrdVersion>, claimNames: Option<Names>)

  datatype XrdVersion = XrdVersion(name: string)

  datatype Names = Names(kind: string)

  /** `spec.compositeTypeRef` of a Composition. */
  datatype TypeRef = TypeRef(apiVersion: string, kind: string)

  /** `Composition`: the composite type reference, the resource templates and the
      named patch sets. */
  datatype Composition = Composition(compositeTypeRef: TypeRef, resources: seq<ComposedTemplate>, patchSets: seq<PatchSet>)

  /** A resource template: the raw `base` manifest and its patches. */
  datatype ComposedTemplate = ComposedTemplate(baseRaw: string, patches: seq<Patch>)

  /** `Patch`: `type` (kept as a string, since unknown types are reported verbatim),
      the optional field paths, the optional combine block and the optional patch-set name. */
  datatype Patch = Patch(
    patchType: string,
    fromFieldPath: Option<string>,
    toFieldPath: Option<string>,
    combine: Option<Combine>,
    patchSetName: Option<string>)

  datatype Combine = Combine(variables: seq<CombineVariable>)

  datatype CombineVariable = CombineVariable(fromFieldPath: string)

  datatype PatchSet = PatchSet(name: string, patches: seq<Patch>)

  /** A Provider or Configuration package descriptor; the linter reads none of its fields. */
  datatype PkgMeta = PkgMeta(name: string)

  /** A segment of a parsed field path (`fieldpath.Segment` of crossplane-runtime). */
  datatype FieldPathSegment = FieldSeg(field: string) | IndexSeg(index: nat)

  // Patch type names of the Crossplane v1 API.
  const PatchTypeFromCompositeFieldPath := "FromCompositeFieldPath"
  const PatchTypeFromEnvironmentFieldPath := "FromEnvironmentFieldPath"
  const PatchTypePatchSet := "PatchSet"
  const PatchTypeToCompositeFieldPath := "ToCompositeFieldPath"
  const PatchTypeCombineFromComposite := "CombineFromComposite"
  const PatchTypeCombineToComposite := "CombineToComposite"

  // Kinds the package helpers recognise.
  const XrdGvk := GVK("apiextensions.crossplane.io", "v1", "CompositeResourceDefinition")
  const CompositionGvk := GVK("apiextensions.crossplane.io", "v1", "Composition")
  const CrdGvk := GVK("apiextensions.k8s.io", "v1", "CustomResourceDefinition")
  const ProviderGvk := GVK("meta.pkg.crossplane.io", "v1", "Provider")
  const ConfigurationGvk := GVK("meta.pkg.crossplane.io", "v1", "Configuration")
}
