/** Packages and their entries (internal/xpkg/package.go): kind predicates, typed
    decoding guarded by kind, the conversion cache read and the YAML-node memo. */
module Xpkg {
  import opened Wrappers
  import opened Kube
  import opened Foreign

  /** A typed decoding of an entry, as the conversion cache may hold it. */
  datatype Typed =
    | TypedCrd(crd: Crd)
    | TypedXrd(xrd: Xrd)
    | TypedComposition(composition: Composition)
    | TypedProvider(provider: PkgMeta)
    | TypedConfiguration(configuration: PkgMeta)

  /** `PackageEntry`: the unstructured object, the source it came from, the raw
      manifest text and the two cache cells. */
  datatype PackageEntry = PackageEntry(
    obj: Object,
    source: string,
    raw: string,
    cachedConversion: Option<Typed>,
    cachedNode: Option<YamlNode>)

  datatype Package = Package(source: string, name: string, entries: seq<PackageEntry>)

  function ErrNotType(kindName: string): string { "object is not of kind " + kindName }

  function ErrConvert(typeName: string): string { "failed to convert object to " + typeName }

  predicate IsXRD(e: PackageEntry) { e.obj.gvk == XrdGvk }

  predicate IsComposition(e: PackageEntry) { e.obj.gvk == CompositionGvk }

  predicate IsCRD(e: PackageEntry) { e.obj.gvk == CrdGvk }

  predicate IsPackageDescriptor(e: PackageEntry)
  {
    e.obj.gvk == ProviderGvk || e.obj.gvk == ConfigurationGvk
  }

  /** The kinds are pairwise distinct, so at most one predicate holds of an entry. */
  lemma KindsExclusive(e: PackageEntry)
    ensures !(IsXRD(e) && IsComposition(e)) && !(IsXRD(e) && IsCRD(e)) && !(IsComposition(e) && IsCRD(e))
    ensures IsPackageDescriptor(e) ==> !IsXRD(e) && !IsComposition(e) && !IsCRD(e)
  {
  }

  /** `Package.GetPackageDescriptor`: the first descriptor entry, or none. */
  function GetPackageDescriptor(entries: seq<PackageEntry>): (r: Option<PackageEntry>)
    ensures r.None? <==> forall i :: 0 <= i < |entries| ==> !IsPackageDescriptor(entries[i])
    ensures r.Some? ==> exists i :: 0 <= i < |entries| && entries[i] == r.value && IsPackageDescriptor(entries[i])
                                   && forall j :: 0 <= j < i ==> !IsPackageDescriptor(entries[j])
  {
    if entries == [] then None
    else if IsPackageDescriptor(entries[0]) then Some(entries[0])
    else
      var r := GetPackageDescriptor(entries[1..]);
      assert r.Some? ==> exists i :: 0 <= i < |entries| && entries[i] == r.value && IsPackageDescriptor(entries[i])
                                     && forall j :: 0 <= j < i ==> !IsPackageDescriptor(entries[j]) by {
        if r.Some? {
          var i :| 0 <= i < |entries| - 1 && entries[1..][i] == r.value && IsPackageDescriptor(entries[1..][i])
                   && forall j :: 0 <= j < i ==> !IsPackageDescriptor(entries[1..][j]);
          assert entries[i + 1] == r.value;
          assert forall j :: 0 <= j < i + 1 ==> !IsPackageDescriptor(entries[j]) by {
            forall j | 0 <= j < i + 1 ensures !IsPackageDescriptor(entries[j]) {
              if j > 0 { assert entries[j] == entries[1..][j - 1]; }
            }
          }
        }
      }
      assert r.None? ==> forall i :: 0 <= i < |entries| ==> !IsPackageDescriptor(entries[i]) by {
        if r.None? {
          forall i | 0 <= i < |entries| ensures !IsPackageDescriptor(entries[i]) {
            if i > 0 { assert entries[i] == entries[1..][i - 1]; }
          }
        }
      }
      r
  }

  /** `convertToWithCache[T]`: the cached object when it already has the requested
      type, otherwise a fresh decoding of the raw text. The cache cell is read and
      never written. The name in the error is `reflect.TypeOf(res).Name()` of a
      pointer type, which Go reports as the empty string. */
  function ConvertToWithCache<T>(raw: string, cached: Option<Typed>, view: Typed -> Option<T>,
                                 unmarshal: string -> Result<T>): (r: Result<T>)
    ensures cached.Some? && view(cached.value).Some? ==> r == Ok(view(cached.value).value)
    ensures r.Ok? && (cached.None? || view(cached.value).None?) ==> unmarshal(raw) == r
    ensures r.Err? <==> (cached.None? || view(cached.value).None?) && unmarshal(raw).Err?
    ensures r.Err? ==> r.error == Wrap(ErrConvert(""), unmarshal(raw).error)
  {
    if cached.Some? && view(cached.value).Some? then Ok(view(cached.value).value)
    else
      match unmarshal(raw)
      case Ok(v) => Ok(v)
      case Err(e) => Err(Wrap(ErrConvert(""), e))
  }

  function CrdView(t: Typed): Option<Crd> { if t.TypedCrd? then Some(t.crd) else None }

  function XrdView(t: Typed): Option<Xrd> { if t.TypedXrd? then Some(t.xrd) else None }

  function CompositionView(t: Typed): Option<Composition>
  {
    if t.TypedComposition? then Some(t.composition) else None
  }

  function ProviderView(t: Typed): Option<PkgMeta> { if t.TypedProvider? then Some(t.provider) else None }

  function ConfigurationView(t: Typed): Option<PkgMeta>
  {
    if t.TypedConfiguration? then Some(t.configuration) else None
  }

  /** `AsXRD`: refuses another kind without decoding. */
  function AsXRD(e: PackageEntry, codec: Codec): (r: Result<Xrd>)
    ensures !IsXRD(e) ==> r == Err(ErrNotType("XRD"))
    ensures IsXRD(e) ==> r == ConvertToWithCache(e.raw, e.cachedConversion, XrdView, codec.unmarshalXrd)
  {
    if !IsXRD(e) then Err(ErrNotType("XRD"))
    else ConvertToWithCache(e.raw, e.cachedConversion, XrdView, codec.unmarshalXrd)
  }

  /** `AsComposition`: refuses another kind without decoding. */
  function AsComposition(e: PackageEntry, codec: Codec): (r: Result<Composition>)
    ensures !IsComposition(e) ==> r == Err(ErrNotType("Composition"))
    ensures IsComposition(e) ==> r == ConvertToWithCache(e.raw, e.cachedConversion, CompositionView, codec.unmarshalComposition)
  {
    if !IsComposition(e) then Err(ErrNotType("Composition"))
    else ConvertToWithCache(e.raw, e.cachedConversion, CompositionView, codec.unmarshalComposition)
  }

  /** `AsCRD`: refuses another kind without decoding; its message names "Composition". */
  function AsCRD(e: PackageEntry, codec: Codec): (r: Result<Crd>)
    ensures !IsCRD(e) ==> r == Err(ErrNotType("Composition"))
    ensures IsCRD(e) ==> r == ConvertToWithCache(e.raw, e.cachedConversion, CrdView, codec.unmarshalCrd)
  {
    if !IsCRD(e) then Err(ErrNotType("Composition"))
    else ConvertToWithCache(e.raw, e.cachedConversion, CrdView, codec.unmarshalCrd)
  }

  /** `AsPackageDescriptor`: decodes as Provider or Configuration by kind. */
  function AsPackageDescriptor(e: PackageEntry, codec: Codec): (r: Result<Typed>)
    ensures !IsPackageDescriptor(e) ==> r == Err(ErrNotType("package descriptor"))
    ensures e.obj.gvk == ProviderGvk && r.Ok? ==> r.value.TypedProvider?
    ensures e.obj.gvk == ConfigurationGvk && r.Ok? ==> r.value.TypedConfiguration?
  {
    if e.obj.gvk == ProviderGvk then
      match ConvertToWithCache(e.raw, e.cachedConversion, ProviderView, codec.unmarshalProvider)
      case Ok(p) => Ok(TypedProvider(p))
      case Err(err) => Err(err)
    else if e.obj.gvk == ConfigurationGvk then
      match ConvertToWithCache(e.raw, e.cachedConversion, ConfigurationView, codec.unmarshalConfiguration)
      case Ok(c) => Ok(TypedConfiguration(c))
      case Err(err) => Err(err)
    else Err(ErrNotType("package descriptor"))
  }

  /** `GetYamlNode`: the memoised node when set; otherwise the decoding of the raw text,
      stored in the cell only when it succeeds. The result pairs the node with the
      entry as it is afterwards. */
  function GetYamlNode(e: PackageEntry, codec: Codec): (r: (Result<YamlNode>, PackageEntry))
    ensures r.1 == e.(cachedNode := r.1.cachedNode)
    ensures e.cachedNode.Some? ==> r == (Ok(e.cachedNode.value), e)
    ensures e.cachedNode.None? ==> r.0 == codec.unmarshalYamlNode(e.raw)
    ensures r.0.Err? ==> r.1 == e
    ensures r.0.Ok? ==> r.1.cachedNode == Some(r.0.value)
  {
    if e.cachedNode.Some? then (Ok(e.cachedNode.value), e)
    else
      match codec.unmarshalYamlNode(e.raw)
      case Err(err) => (Err(err), e)
      case Ok(node) => (Ok(node), e.(cachedNode := Some(node)))
  }

  /** Once a node is memoised, asking again returns the same node and changes nothing. */
  lemma GetYamlNodeMemoises(e: PackageEntry, codec: Codec)
    requires GetYamlNode(e, codec).0.Ok?
    ensures GetYamlNode(GetYamlNode(e, codec).1, codec) == (GetYamlNode(e, codec).0, GetYamlNode(e, codec).1)
  {
  }
}
