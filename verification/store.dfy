/** The schema store (internal/xpkg/lint/schema/store.go): a map from GVK to CRD
    version, filled by registering the CRDs of a package and the CRDs derived from its
    XRDs. Every stored schema first gets the standard metadata properties, added
    without overwriting anything. */
module Schema {
  import opened Wrappers
  import opened Kube
  import opened Foreign
  import opened Xpkg

  const ErrBuildCompositeCRD := "failed to build composite CRD"
  const ErrBuildClaimCRD := "failed to build claim CRD"

  /** The message of the Go runtime panic raised by a write into a nil map. */
  const NilMapPanic := "assignment to entry in nil map"

  /** The metadata properties every stored schema is given. */
  const MetaPropNames: seq<string> := ["name", "namespace", "labels", "annotations"]

  const StringProps := Props("string", None, None, None, false)

  /** A map whose values are strings: `additionalProperties` allowed, with a string schema. */
  const StringMapProps := Props("", None, Some(PropsOrBool(true, Some(StringProps))), None, false)

  /** The root created when a version has no schema at all. */
  const EmptyRoot := Props("", Some(map[]), None, None, false)

  /** The `metadata` property created when the root does not declare one. */
  const EmptyMetadata := Props("object", Some(map[]), None, None, false)

  /** The default of each metadata property: `name` and `namespace` are strings,
      `labels` and `annotations` string maps. */
  function MetaDefault(name: string): Props
  {
    if name == "name" || name == "namespace" then StringProps else StringMapProps
  }

  /** Adds, one name after another, each of `names` that `mp` lacks, with its default. */
  function InjectNames(mp: map<string, Props>, names: seq<string>): map<string, Props>
    decreases names
  {
    if names == [] then mp
    else InjectNames(if names[0] in mp then mp else mp[names[0] := MetaDefault(names[0])], names[1..])
  }

  /** Injection is additive only: every name ends up present, existing entries are
      never overwritten, and nothing but the missing names is added. */
  lemma {:induction false} InjectNamesSpec(mp: map<string, Props>, names: seq<string>)
    ensures InjectNames(mp, names).Keys == mp.Keys + set n | n in names
    ensures forall k :: k in mp ==> InjectNames(mp, names)[k] == mp[k]
    ensures forall k :: k in names && k !in mp ==> InjectNames(mp, names)[k] == MetaDefault(k)
    decreases names
  {
    if names != [] {
      var next := if names[0] in mp then mp else mp[names[0] := MetaDefault(names[0])];
      InjectNamesSpec(next, names[1..]);
      assert forall n :: n in names <==> n == names[0] || n in names[1..];
    }
  }

  /** The root schema of a version, an empty object schema when there is none. */
  function RootOf(v: CrdVersion): Props
  {
    if v.schema.None? || v.schema.value.openAPIV3Schema.None? then EmptyRoot
    else v.schema.value.openAPIV3Schema.value
  }

  /** The properties map of a schema node, empty for a nil map. */
  function PropsMap(p: Props): map<string, Props>
  {
    if p.properties.Some? then p.properties.value else map[]
  }

  /** `addMetaDataToSchema`, with the nil root map repaired (see `AddMetaDataAsWritten`):
      create what is missing (the validation, the root, the `metadata` property, its
      properties map), then add each metadata property that is absent. */
  function WithMetadata(v: CrdVersion): CrdVersion
  {
    var root := RootOf(v);
    var props := PropsMap(root);
    var meta := if "metadata" in props then props["metadata"] else EmptyMetadata;
    var meta' := meta.(properties := Some(InjectNames(PropsMap(meta), MetaPropNames)));
    v.(schema := Some(Validation(Some(root.(properties := Some(props["metadata" := meta']))))))
  }

  /** `addMetaDataToSchema` as written, step by step: a missing validation and a missing
      root are created (the root with an empty properties map), but a root that exists
      with a nil properties map is kept as it is, and the write of `metadata` into that
      nil map panics. Otherwise a missing `metadata` and its missing properties map are
      created, and each absent metadata property is added. */
  function AddMetaDataAsWritten(v: CrdVersion): (r: Result<CrdVersion>)
    ensures r.Err? <==> v.schema.Some? && v.schema.value.openAPIV3Schema.Some?
                        && v.schema.value.openAPIV3Schema.value.properties.None?
    ensures r.Err? ==> r.error == NilMapPanic
    ensures r.Ok? ==> r.value == WithMetadata(v)
    ensures r.Ok? ==> HasMetadata(r.value) && r.value.name == v.name
  {
    var schema := if v.schema.None? then Validation(None) else v.schema.value;
    var root := if schema.openAPIV3Schema.None? then EmptyRoot else schema.openAPIV3Schema.value;
    if root.properties.None? then Err(NilMapPanic)
    else
      var props := root.properties.value;
      var withMeta := if "metadata" in props then props else props["metadata" := EmptyMetadata];
      var meta := withMeta["metadata"];
      var metaProps := if meta.properties.None? then map[] else meta.properties.value;
      var meta' := meta.(properties := Some(InjectNames(metaProps, MetaPropNames)));
      assert root == RootOf(v) && withMeta["metadata" := meta'] == PropsMap(RootOf(v))["metadata" := meta'];
      WithMetadataSpec(v);
      Ok(v.(schema := Some(schema.(openAPIV3Schema := Some(root.(properties := Some(withMeta["metadata" := meta'])))))))
  }

  /** A CRD whose root only preserves unknown fields, and so declares no properties,
      makes the written code panic; the repaired version gives it its metadata. */
  lemma NilRootPropertiesPanics()
    ensures var v := CrdVersion("v1", Some(Validation(Some(Props("object", None, None, None, true)))));
            AddMetaDataAsWritten(v) == Err(NilMapPanic) && HasMetadata(WithMetadata(v))
  {
    var v := CrdVersion("v1", Some(Validation(Some(Props("object", None, None, None, true)))));
    WithMetadataSpec(v);
  }

  /** The metadata properties map of a version, when the version has one. */
  function MetadataProps(v: CrdVersion): Option<map<string, Props>>
  {
    if v.schema.Some? && v.schema.value.openAPIV3Schema.Some?
       && v.schema.value.openAPIV3Schema.value.properties.Some?
       && "metadata" in v.schema.value.openAPIV3Schema.value.properties.value
    then v.schema.value.openAPIV3Schema.value.properties.value["metadata"].properties
    else None
  }

  /** The metadata properties a version had before injection, empty when it had none. */
  function MetadataPropsOrEmpty(v: CrdVersion): map<string, Props>
  {
    if MetadataProps(v).Some? then MetadataProps(v).value else map[]
  }

  /** A version with a root schema whose `metadata` declares the four standard properties. */
  predicate HasMetadata(v: CrdVersion)
  {
    && v.schema.Some? && v.schema.value.openAPIV3Schema.Some?
    && MetadataProps(v).Some?
    && forall n :: n in MetaPropNames ==> n in MetadataProps(v).value
  }

  /** What metadata injection does and does not change. */
  lemma WithMetadataSpec(v: CrdVersion)
    ensures HasMetadata(WithMetadata(v))
    ensures WithMetadata(v).name == v.name
    // Outside top-level `metadata` the root is unchanged.
    ensures RootOf(WithMetadata(v)).typ == RootOf(v).typ
    ensures RootOf(WithMetadata(v)).additionalProperties == RootOf(v).additionalProperties
    ensures RootOf(WithMetadata(v)).items == RootOf(v).items
    ensures RootOf(WithMetadata(v)).preserveUnknownFields == RootOf(v).preserveUnknownFields
    ensures PropsMap(RootOf(WithMetadata(v))).Keys == PropsMap(RootOf(v)).Keys + {"metadata"}
    ensures forall k :: k in PropsMap(RootOf(v)) && k != "metadata" ==>
              PropsMap(RootOf(WithMetadata(v)))[k] == PropsMap(RootOf(v))[k]
    // Existing metadata properties are kept; only the missing standard ones are added.
    ensures MetadataProps(WithMetadata(v)).value.Keys == MetadataPropsOrEmpty(v).Keys + set n | n in MetaPropNames
    ensures forall k :: k in MetadataPropsOrEmpty(v) ==>
              MetadataProps(WithMetadata(v)).value[k] == MetadataPropsOrEmpty(v)[k]
    ensures forall k :: k in MetaPropNames && k !in MetadataPropsOrEmpty(v) ==>
              MetadataProps(WithMetadata(v)).value[k] == MetaDefault(k)
  {
    var root := RootOf(v);
    var props := PropsMap(root);
    var meta := if "metadata" in props then props["metadata"] else EmptyMetadata;
    InjectNamesSpec(PropsMap(meta), MetaPropNames);
    assert MetadataPropsOrEmpty(v) == PropsMap(meta);
  }

  /** Injecting twice is injecting once. */
  lemma WithMetadataIdempotent(v: CrdVersion)
    ensures WithMetadata(WithMetadata(v)) == WithMetadata(v)
  {
    var w := WithMetadata(v);
    WithMetadataSpec(v);
    var mp := MetadataProps(w).value;
    InjectNamesSpec(mp, MetaPropNames);
    assert InjectNames(mp, MetaPropNames) == mp;
    var root' := RootOf(w);
    assert root'.properties.value["metadata"].properties == Some(mp);
    assert root'.properties.value["metadata" := root'.properties.value["metadata"]] == root'.properties.value;
  }

  /** `addMetaDataToSchema`: create what is missing, then add each absent metadata
      property in turn. The write of `metadata` into a root's nil properties map is
      the panic of the code as written. */
  method AddMetaDataToSchema(crdv: CrdVersion) returns (r: Result<CrdVersion>)
    ensures r == AddMetaDataAsWritten(crdv)
    ensures r.Err? <==> crdv.schema.Some? && crdv.schema.value.openAPIV3Schema.Some?
                        && crdv.schema.value.openAPIV3Schema.value.properties.None?
    ensures r.Ok? ==> HasMetadata(r.value) && r.value.name == crdv.name
  {
    var schema := if crdv.schema.None? then Validation(None) else crdv.schema.value;
    var root := if schema.openAPIV3Schema.None? then EmptyRoot else schema.openAPIV3Schema.value;
    if root.properties.None? {
      return Err(NilMapPanic);
    }
    var props := root.properties.value;
    if "metadata" !in props {
      props := props["metadata" := EmptyMetadata];
    }
    ghost var withMeta := props;
    ghost var meta := props["metadata"];
    if props["metadata"].properties.None? {
      props := props["metadata" := props["metadata"].(properties := Some(map[]))];
    }
    var metaProps := props["metadata"].properties.value;
    ghost var start := metaProps;
    assert start == if meta.properties.None? then map[] else meta.properties.value;
    for i := 0 to |MetaPropNames|
      invariant InjectNames(metaProps, MetaPropNames[i..]) == InjectNames(start, MetaPropNames)
    {
      assert MetaPropNames[i..][1..] == MetaPropNames[i + 1..];
      var name := MetaPropNames[i];
      if name !in metaProps {
        metaProps := metaProps[name := MetaDefault(name)];
      }
    }
    props := props["metadata" := props["metadata"].(properties := Some(metaProps))];
    assert props == withMeta["metadata" := meta.(properties := Some(InjectNames(start, MetaPropNames)))];
    r := Ok(crdv.(schema := Some(schema.(openAPIV3Schema := Some(root.(properties := Some(props)))))));
  }

  /** Every stored version carries its metadata. */
  predicate AllInjected(m: map<GVK, CrdVersion>)
  {
    forall k :: k in m ==> HasMetadata(m[k])
  }

  /** `GetCRDSchema`: the stored version, or none; absence is not an error. */
  function Lookup(versions: map<GVK, CrdVersion>, gvk: GVK): (r: Option<CrdVersion>)
    ensures r.Some? <==> gvk in versions
    ensures r.Some? ==> r.value == versions[gvk]
  {
    if gvk in versions then Some(versions[gvk]) else None
  }

  /** `registerCRD`'s loop: each version, with its metadata, under
      (group, version name, kind), later versions overwriting earlier ones. */
  function RegisterVersions(m: map<GVK, CrdVersion>, group: string, kind: string, vs: seq<CrdVersion>): map<GVK, CrdVersion>
    decreases vs
  {
    if vs == [] then m
    else RegisterVersions(m[GVK(group, vs[0].name, kind) := WithMetadata(vs[0])], group, kind, vs[1..])
  }

  function RegisterCrd(m: map<GVK, CrdVersion>, crd: Crd): map<GVK, CrdVersion>
  {
    RegisterVersions(m, crd.group, crd.kind, crd.versions)
  }

  /** The last of `vs` named `name`: the one a registration keeps. */
  function LastNamed(vs: seq<CrdVersion>, name: string): (r: Option<CrdVersion>)
    ensures r.Some? ==> r.value in vs && r.value.name == name
    ensures r.Some? ==> exists i :: 0 <= i < |vs| && vs[i] == r.value && forall j :: i < j < |vs| ==> vs[j].name != name
    ensures r.None? <==> forall i :: 0 <= i < |vs| ==> vs[i].name != name
  {
    if vs == [] then None
    else
      var rest := LastNamed(vs[1..], name);
      assert forall i :: 1 <= i < |vs| ==> vs[i] == vs[1..][i - 1];
      if rest.Some? then rest else if vs[0].name == name then Some(vs[0]) else None
  }

  /** Last write wins: after registering `vs`, a key of this group and kind that some
      version names holds the last such version with its metadata; every other key is
      as before. */
  lemma {:induction false} RegisterVersionsAt(m: map<GVK, CrdVersion>, group: string, kind: string,
                                              vs: seq<CrdVersion>, key: GVK)
    ensures var named := key.group == group && key.kind == kind && LastNamed(vs, key.version).Some?;
      && (key in RegisterVersions(m, group, kind, vs) <==> key in m || named)
      && (named ==> RegisterVersions(m, group, kind, vs)[key] == WithMetadata(LastNamed(vs, key.version).value))
      && (!named && key in m ==> RegisterVersions(m, group, kind, vs)[key] == m[key])
    decreases vs
  {
    if vs != [] {
      var m' := m[GVK(group, vs[0].name, kind) := WithMetadata(vs[0])];
      RegisterVersionsAt(m', group, kind, vs[1..], key);
    }
  }

  /** Registration keeps the store's invariant: every stored version has its metadata. */
  lemma RegisterCrdInjects(m: map<GVK, CrdVersion>, crd: Crd)
    requires AllInjected(m)
    ensures AllInjected(RegisterCrd(m, crd))
    ensures m.Keys <= RegisterCrd(m, crd).Keys
  {
    forall key | key in RegisterCrd(m, crd)
      ensures HasMetadata(RegisterCrd(m, crd)[key])
    {
      RegisterVersionsAt(m, crd.group, crd.kind, crd.versions, key);
      if key.group == crd.group && key.kind == crd.kind && LastNamed(crd.versions, key.version).Some? {
        WithMetadataSpec(LastNamed(crd.versions, key.version).value);
      }
    }
    forall key | key in m ensures key in RegisterCrd(m, crd) {
      RegisterVersionsAt(m, crd.group, crd.kind, crd.versions, key);
    }
  }

  /** Two registrations sharing a key: the lookup returns the later CRD's version. The
      earlier one's own metadata properties are not merged in; only the four standard
      ones are guaranteed. */
  lemma LaterRegistrationWins(m: map<GVK, CrdVersion>, c1: Crd, c2: Crd, key: GVK)
    requires key.group == c2.group && key.kind == c2.kind && LastNamed(c2.versions, key.version).Some?
    ensures Lookup(RegisterCrd(RegisterCrd(m, c1), c2), key) == Some(WithMetadata(LastNamed(c2.versions, key.version).value))
    ensures HasMetadata(RegisterCrd(RegisterCrd(m, c1), c2)[key])
  {
    RegisterVersionsAt(RegisterCrd(m, c1), c2.group, c2.kind, c2.versions, key);
    WithMetadataSpec(LastNamed(c2.versions, key.version).value);
  }

  /** One entry of `RegisterPackage`'s loop: CRDs are registered as they are, XRDs
      through their derived composite CRD and, only with claim names, their claim CRD;
      other kinds are ignored. The outcome is the error that ends the loop. */
  function RegisterEntry(m: map<GVK, CrdVersion>, e: PackageEntry, codec: Codec): (map<GVK, CrdVersion>, Outcome)
  {
    if IsCRD(e) then
      match AsCRD(e, codec)
      case Err(err) => (m, Fail(err))
      case Ok(crd) => (RegisterCrd(m, crd), Pass)
    else if IsXRD(e) then
      match AsXRD(e, codec)
      case Err(err) => (m, Fail(err))
      case Ok(xrd) =>
        match codec.forCompositeResource(xrd)
        case Err(err) => (m, Fail(Wrap(ErrBuildCompositeCRD, err)))
        case Ok(comp) =>
          var m1 := RegisterCrd(m, comp);
          if xrd.claimNames.None? then (m1, Pass)
          else
            match codec.forCompositeResourceClaim(xrd)
            case Err(err) => (m1, Fail(Wrap(ErrBuildClaimCRD, err)))
            case Ok(claim) => (RegisterCrd(m1, claim), Pass)
    else (m, Pass)
  }

  /** `RegisterPackage`: the entries in order, stopping at the first error. */
  function RegisterEntries(m: map<GVK, CrdVersion>, es: seq<PackageEntry>, codec: Codec): (map<GVK, CrdVersion>, Outcome)
    decreases es
  {
    if es == [] then (m, Pass)
    else
      var (m1, o) := RegisterEntry(m, es[0], codec);
      if o.Fail? then (m1, o) else RegisterEntries(m1, es[1..], codec)
  }

  /** Registration proceeds entry by entry: registering `a + b` is registering `a` and,
      unless that failed, then `b`. So the first error is returned, the entries before
      it stay registered, and no later entry is. */
  lemma {:induction false} RegisterEntriesAppend(m: map<GVK, CrdVersion>, a: seq<PackageEntry>, b: seq<PackageEntry>, codec: Codec)
    ensures RegisterEntries(m, a + b, codec)
         == (var (m1, o) := RegisterEntries(m, a, codec); if o.Fail? then (m1, o) else RegisterEntries(m1, b, codec))
    decreases a
  {
    if a == [] {
      assert a + b == b;
    } else {
      assert (a + b)[0] == a[0];
      assert (a + b)[1..] == a[1..] + b;
      var (m1, o) := RegisterEntry(m, a[0], codec);
      if o.Pass? {
        RegisterEntriesAppend(m1, a[1..], b, codec);
      }
    }
  }

  /** An XRD with claim names that derives both CRDs registers both; without claim
      names only the composite CRD is registered. */
  lemma XrdRegistersClaimOnlyWithClaimNames(m: map<GVK, CrdVersion>, e: PackageEntry, codec: Codec, xrd: Xrd, comp: Crd, claim: Crd)
    requires IsXRD(e) && AsXRD(e, codec) == Ok(xrd) && codec.forCompositeResource(xrd) == Ok(comp)
    requires codec.forCompositeResourceClaim(xrd) == Ok(claim)
    ensures xrd.claimNames.Some? ==> RegisterEntry(m, e, codec) == (RegisterCrd(RegisterCrd(m, comp), claim), Pass)
    ensures xrd.claimNames.None? ==> RegisterEntry(m, e, codec) == (RegisterCrd(m, comp), Pass)
  {
    KindsExclusive(e);
  }

  /** A failing claim derivation still leaves the composite CRD registered. */
  lemma ClaimFailureKeepsComposite(m: map<GVK, CrdVersion>, e: PackageEntry, codec: Codec, xrd: Xrd, comp: Crd, err: string)
    requires IsXRD(e) && AsXRD(e, codec) == Ok(xrd) && codec.forCompositeResource(xrd) == Ok(comp)
    requires xrd.claimNames.Some? && codec.forCompositeResourceClaim(xrd) == Err(err)
    ensures RegisterEntry(m, e, codec) == (RegisterCrd(m, comp), Fail(Wrap(ErrBuildClaimCRD, err)))
  {
    KindsExclusive(e);
  }

  lemma RegisterEntryInjects(m: map<GVK, CrdVersion>, e: PackageEntry, codec: Codec)
    requires AllInjected(m)
    ensures AllInjected(RegisterEntry(m, e, codec).0)
  {
    if IsCRD(e) && AsCRD(e, codec).Ok? {
      RegisterCrdInjects(m, AsCRD(e, codec).value);
    } else if IsXRD(e) && AsXRD(e, codec).Ok? {
      var xrd := AsXRD(e, codec).value;
      if codec.forCompositeResource(xrd).Ok? {
        var m1 := RegisterCrd(m, codec.forCompositeResource(xrd).value);
        RegisterCrdInjects(m, codec.forCompositeResource(xrd).value);
        if codec.forCompositeResourceClaim(xrd).Ok? {
          RegisterCrdInjects(m1, codec.forCompositeResourceClaim(xrd).value);
        }
      }
    }
  }

  /** Whatever the package holds, the store's invariant survives registration. */
  lemma {:induction false} RegisterEntriesInjects(m: map<GVK, CrdVersion>, es: seq<PackageEntry>, codec: Codec)
    requires AllInjected(m)
    ensures AllInjected(RegisterEntries(m, es, codec).0)
    decreases es
  {
    if es != [] {
      var e := es[0];
      RegisterEntryInjects(m, e, codec);
      var (m1, o) := RegisterEntry(m, e, codec);
      if o.Pass? {
        RegisterEntriesInjects(m1, es[1..], codec);
      }
    }
  }

  /** `SchemaStore`: the versions map, updated in place by registration and read-only
      once linting starts. */
  class SchemaStore {
    var versions: map<GVK, CrdVersion>

    ghost predicate Valid()
      reads this
    {
      AllInjected(versions)
    }

    /** `NewSchemaStore`. */
    constructor ()
      ensures Valid() && versions == map[]
    {
      versions := map[];
    }

    function GetCRDSchema(gvk: GVK): Option<CrdVersion>
      reads this
    {
      Lookup(versions, gvk)
    }

    /** `registerCRD`. */
    method RegisterCRD(crd: Crd)
      requires Valid()
      modifies this
      ensures Valid()
      ensures versions == RegisterCrd(old(versions), crd)
    {
      RegisterCrdInjects(versions, crd);
      var vs := crd.versions;
      for i := 0 to |vs|
        invariant RegisterVersions(versions, crd.group, crd.kind, vs[i..]) == RegisterCrd(old(versions), crd)
      {
        assert vs[i..][1..] == vs[i + 1..];
        versions := versions[GVK(crd.group, vs[i].name, crd.kind) := WithMetadata(vs[i])];
      }
    }

    /** `RegisterPackage`: returns the first conversion or derivation error. */
    method RegisterPackage(pkg: Package, codec: Codec) returns (err: Outcome)
      requires Valid()
      modifies this
      ensures Valid()
      ensures (versions, err) == RegisterEntries(old(versions), pkg.entries, codec)
    {
      var es := pkg.entries;
      for i := 0 to |es|
        invariant Valid()
        invariant RegisterEntries(versions, es[i..], codec) == RegisterEntries(old(versions), es, codec)
      {
        assert es[i..][0] == es[i] && es[i..][1..] == es[i + 1..];
        var e := es[i];
        if IsCRD(e) {
          var crd := AsCRD(e, codec);
          if crd.Err? {
            return Fail(crd.error);
          }
          RegisterCRD(crd.value);
        } else if IsXRD(e) {
          var xrd := AsXRD(e, codec);
          if xrd.Err? {
            return Fail(xrd.error);
          }
          var comp := codec.forCompositeResource(xrd.value);
          if comp.Err? {
            return Fail(Wrap(ErrBuildCompositeCRD, comp.error));
          }
          RegisterCRD(comp.value);
          if xrd.value.claimNames.Some? {
            var claim := codec.forCompositeResourceClaim(xrd.value);
            if claim.Err? {
              return Fail(Wrap(ErrBuildClaimCRD, claim.error));
            }
            RegisterCRD(claim.value);
          }
        }
      }
      assert es[|es|..] == [];
      return Pass;
    }
  }
}
