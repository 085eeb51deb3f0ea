/** The library calls the linter makes but does not implement: YAML and JSON decoding,
    field-path parsing, group/version parsing and the derivation of composite and
    claim CRDs from an XRD. The model takes each as a given total function. */
module Foreign {
  import opened Wrappers
  import opened Kube

  /** Stands for a decoded `yaml.v3` node tree, which the linter only hands on. */
  datatype YamlNode = YamlNode(document: string)

  datatype Codec = Codec(
    /** `fieldpath.Parse` of crossplane-runtime. */
    parseFieldPath: string -> Result<seq<FieldPathSegment>>,
    /** `schema.ParseGroupVersion` of apimachinery. */
    parseGroupVersion: string -> Result<GroupVersion>,
    /** `yaml.Unmarshal` into `unstructured.Unstructured`. */
    unmarshalObject: string -> Result<Object>,
    /** `yaml.Unmarshal` into each typed object. */
    unmarshalCrd: string -> Result<Crd>,
    unmarshalXrd: string -> Result<Xrd>,
    unmarshalComposition: string -> Result<Composition>,
    unmarshalProvider: string -> Result<PkgMeta>,
    unmarshalConfiguration: string -> Result<PkgMeta>,
    /** `yaml.v3` decoding into a node tree. */
    unmarshalYamlNode: string -> Result<YamlNode>,
    /** `ForCompositeResource` and `ForCompositeResourceClaim`. */
    forCompositeResource: Xrd -> Result<Crd>,
    forCompositeResourceClaim: Xrd -> Result<Crd>)
}
