/** The field-path resolver of the composition rule
    (`validateFieldPath` and `validateFieldPathSegment` in
    internal/xpkg/lint/linter/rules/composition_fieldpath.go): a parsed field path
    is walked down the structural schema stored for a GVK. */
module Resolver {
  import opened Wrappers
  import opened Kube
  import opened Foreign
  import Schema
  import Lint

  function WrongType(expected: string, got: string): string
  {
    "expected type '" + expected + "' but got '" + got + "'"
  }

  function FieldNotFound(name: string): string { "property '" + name + "' not found" }

  const ErrFieldArrayNoItems := "prop type is array but missing items definition"

  function NoCrdFor(gvk: GVK): string { "no CRD for " + GvkString(gvk) }

  /** A node a field segment may descend into: an empty type counts as an object. */
  predicate ObjectLike(p: Props) { p.typ == "" || p.typ == "object" }

  /** The schema nodes a segment may lead to from `p`: a declared property, the
      additional-properties schema, or the items schema. */
  predicate ChildOf(c: Props, p: Props)
  {
    || (p.properties.Some? && exists k :: k in p.properties.value && p.properties.value[k] == c)
    || (p.additionalProperties.Some? && p.additionalProperties.value.schema == Some(c))
    || (p.items.Some? && p.items.value.schema == Some(c))
  }

  /** `validateFieldPathSegment`: one step of the walk. `Ok(None)` means "accept the
      rest of the path": the node preserves unknown fields, or it allows additional
      properties without a schema for them. */
  function ValidateFieldPathSegment(current: Props, segment: FieldPathSegment): (r: Result<Option<Props>>)
    // Each step descends to a child of the node.
    ensures r.Ok? && r.value.Some? ==> ChildOf(r.value.value, current)
    // An index segment succeeds exactly on an array node with an items schema.
    ensures segment.IndexSeg? ==>
              (r.Ok? <==> current.typ == "array" && current.items.Some? && current.items.value.schema.Some?)
    ensures segment.IndexSeg? && r.Ok? ==> r.value.Some?
    // A field segment fails with a type error on a non-object node, and otherwise
    // can only fail to find the field.
    ensures segment.FieldSeg? && !ObjectLike(current) ==> r == Err(WrongType("object", current.typ))
    ensures segment.FieldSeg? && ObjectLike(current) && r.Err? ==> r == Err(FieldNotFound(segment.field))
    // On an object node, a node preserving unknown fields accepts the rest of the path,
    // and otherwise a declared field descends into its property.
    ensures segment.FieldSeg? && ObjectLike(current) && current.preserveUnknownFields ==> r == Ok(None)
    ensures segment.FieldSeg? && ObjectLike(current) && !current.preserveUnknownFields
            && current.properties.Some? && segment.field in current.properties.value ==>
              r == Ok(Some(current.properties.value[segment.field]))
    // An index segment: a type error on a non-array, a missing items schema on an
    // array without one, and otherwise the items schema.
    ensures segment.IndexSeg? && current.typ != "array" ==> r == Err(WrongType("array", current.typ))
    ensures segment.IndexSeg? && current.typ == "array" && (current.items.None? || current.items.value.schema.None?) ==>
              r == Err(ErrFieldArrayNoItems)
    ensures segment.IndexSeg? && r.Ok? ==> r.value == current.items.value.schema
  {
    match segment
    case FieldSeg(field) =>
      var propType := if current.typ == "" then "object" else current.typ;
      if propType != "object" then Err(WrongType("object", propType))
      else if current.preserveUnknownFields then Ok(None)
      else if current.properties.Some? && field in current.properties.value then
        Ok(Some(current.properties.value[field]))
      else if current.additionalProperties.Some? && current.additionalProperties.value.allows then
        Ok(current.additionalProperties.value.schema)
      else Err(FieldNotFound(field))
    case IndexSeg(_) =>
      if current.typ != "array" then Err(WrongType("array", current.typ))
      else if current.items.None? || current.items.value.schema.None? then Err(ErrFieldArrayNoItems)
      else Ok(current.items.value.schema)
  }

  /** The loop of `validateFieldPath`: the node reached after the path, or the first
      segment error. A missing node accepts whatever follows. */
  function Walk(current: Option<Props>, path: seq<FieldPathSegment>): Result<Option<Props>>
    decreases path
  {
    if path == [] || current.None? then Ok(current)
    else
      match ValidateFieldPathSegment(current.value, path[0])
      case Err(e) => Err(e)
      case Ok(next) => Walk(next, path[1..])
  }

  /** The walk is compositional: walking `a + b` walks `a`, then `b` from where `a` ended. */
  lemma {:induction false} WalkAppend(current: Option<Props>, a: seq<FieldPathSegment>, b: seq<FieldPathSegment>)
    ensures Walk(current, a + b) == (if Walk(current, a).Err? then Walk(current, a) else Walk(Walk(current, a).value, b))
    decreases a
  {
    if a == [] {
      assert a + b == b;
    } else if current.None? {
      assert Walk(None, b) == Ok(None) by { WalkNone(b); }
    } else {
      assert (a + b)[0] == a[0];
      assert (a + b)[1..] == a[1..] + b;
      match ValidateFieldPathSegment(current.value, a[0])
      case Err(e) =>
      case Ok(next) => WalkAppend(next, a[1..], b);
    }
  }

  /** A missing node accepts every path. */
  lemma WalkNone(path: seq<FieldPathSegment>)
    ensures Walk(None, path) == Ok(None)
  {
  }

  /** A walk that reaches, after `k` segments, a node at which segment `k` fails, fails
      with that segment's error. */
  lemma WalkStopsAt(current: Option<Props>, path: seq<FieldPathSegment>, k: nat)
    requires k < |path| && Walk(current, path[..k]).Ok? && Walk(current, path[..k]).value.Some?
    requires ValidateFieldPathSegment(Walk(current, path[..k]).value.value, path[k]).Err?
    ensures Walk(current, path) == ValidateFieldPathSegment(Walk(current, path[..k]).value.value, path[k])
  {
    assert path == path[..k] + ([path[k]] + path[k + 1..]);
    WalkAppend(current, path[..k], [path[k]] + path[k + 1..]);
    assert ([path[k]] + path[k + 1..])[0] == path[k];
  }

  /** A failing walk has a first failing segment. */
  lemma {:induction false} WalkFailureHasStop(current: Option<Props>, path: seq<FieldPathSegment>)
    requires Walk(current, path).Err?
    ensures exists k :: 0 <= k < |path| && Walk(current, path[..k]).Ok? && Walk(current, path[..k]).value.Some?
                        && ValidateFieldPathSegment(Walk(current, path[..k]).value.value, path[k]).Err?
    decreases path
  {
    if path == [] || current.None? {
      assert false;
    } else {
      match ValidateFieldPathSegment(current.value, path[0])
      case Err(e) =>
        assert path[..0] == [];
      case Ok(next) =>
        WalkFailureHasStop(next, path[1..]);
        var j :| 0 <= j < |path[1..]| && Walk(next, path[1..][..j]).Ok? && Walk(next, path[1..][..j]).value.Some?
                 && ValidateFieldPathSegment(Walk(next, path[1..][..j]).value.value, path[1..][j]).Err?;
        assert path[..j + 1] == [path[0]] + path[1..][..j];
        WalkAppend(current, [path[0]], path[1..][..j]);
        assert [path[0]][1..] == [];
        assert Walk(current, [path[0]]) == Ok(next) by {
          assert Walk(next, []) == Ok(next);
        }
        assert path[1..][j] == path[j + 1];
    }
  }

  /** The walk fails exactly when some prefix of the path reaches a node at which the
      next segment fails, and the error is that segment's. */
  lemma WalkFirstError(current: Option<Props>, path: seq<FieldPathSegment>)
    ensures Walk(current, path).Err? <==>
              exists k :: 0 <= k < |path| && Walk(current, path[..k]).Ok? && Walk(current, path[..k]).value.Some?
                          && ValidateFieldPathSegment(Walk(current, path[..k]).value.value, path[k]).Err?
    ensures forall k :: 0 <= k < |path| && Walk(current, path[..k]).Ok? && Walk(current, path[..k]).value.Some?
                        && ValidateFieldPathSegment(Walk(current, path[..k]).value.value, path[k]).Err?
                        ==> Walk(current, path) == ValidateFieldPathSegment(Walk(current, path[..k]).value.value, path[k])
  {
    forall k | 0 <= k < |path| && Walk(current, path[..k]).Ok? && Walk(current, path[..k]).value.Some?
                 && ValidateFieldPathSegment(Walk(current, path[..k]).value.value, path[k]).Err?
      ensures Walk(current, path) == ValidateFieldPathSegment(Walk(current, path[..k]).value.value, path[k])
    {
      WalkStopsAt(current, path, k);
    }
    if Walk(current, path).Err? {
      WalkFailureHasStop(current, path);
    }
  }

  /** On an object node that preserves unknown fields, a field segment is accepted even
      when the field is declared, and the rest of the path is not inspected. */
  lemma PreserveUnknownAcceptsRest(current: Props, field: string, rest: seq<FieldPathSegment>)
    requires ObjectLike(current) && current.preserveUnknownFields
    ensures ValidateFieldPathSegment(current, FieldSeg(field)) == Ok(None)
    ensures Walk(Some(current), [FieldSeg(field)] + rest) == Ok(None)
  {
    assert ([FieldSeg(field)] + rest)[1..] == rest;
    WalkNone(rest);
  }

  /** The empty type is an object for a field segment only: an index segment on an
      untyped node fails, and preserving unknown fields does not help an index. */
  lemma EmptyTypeIsObjectForFieldsOnly(current: Props, field: string, index: nat)
    requires current.typ == ""
    ensures ValidateFieldPathSegment(current, FieldSeg(field)).Err? ==>
              ValidateFieldPathSegment(current, FieldSeg(field)) == Err(FieldNotFound(field))
    ensures ValidateFieldPathSegment(current, IndexSeg(index)) == Err(WrongType("array", ""))
  {
  }

  /** A field missing from the properties falls back to the additional-properties
      schema when additional properties are allowed; a nil schema there accepts the
      rest of the path. Otherwise the field is not found. */
  lemma AdditionalPropertiesFallback(current: Props, field: string, rest: seq<FieldPathSegment>)
    requires ObjectLike(current) && !current.preserveUnknownFields
    requires current.properties.None? || field !in current.properties.value
    ensures current.additionalProperties.Some? && current.additionalProperties.value.allows ==>
              Walk(Some(current), [FieldSeg(field)] + rest) == Walk(current.additionalProperties.value.schema, rest)
    ensures current.additionalProperties.Some? && current.additionalProperties.value.allows
            && current.additionalProperties.value.schema.None? ==>
              Walk(Some(current), [FieldSeg(field)] + rest) == Ok(None)
    ensures !(current.additionalProperties.Some? && current.additionalProperties.value.allows) ==>
              Walk(Some(current), [FieldSeg(field)] + rest) == Err(FieldNotFound(field))
  {
    assert ([FieldSeg(field)] + rest)[0] == FieldSeg(field);
    assert ([FieldSeg(field)] + rest)[1..] == rest;
    WalkNone(rest);
  }

  /** Every schema the store holds: registration always gives a version its schema. */
  predicate SchemasPresent(versions: map<GVK, CrdVersion>)
  {
    forall k :: k in versions ==> versions[k].schema.Some?
  }

  lemma InjectedSchemasPresent(versions: map<GVK, CrdVersion>)
    requires Schema.AllInjected(versions)
    ensures SchemasPresent(versions)
  {
  }

  /** `validateFieldPath`: parse, look the GVK up, walk. A parse error is returned as it
      is; a GVK the store lacks gives "no CRD for"; otherwise the first segment error. */
  function FieldPathOutcome(versions: map<GVK, CrdVersion>, codec: Codec, gvk: GVK, rawPath: string): (r: Outcome)
    requires SchemasPresent(versions)
    ensures codec.parseFieldPath(rawPath).Err? ==> r == Fail(codec.parseFieldPath(rawPath).error)
    ensures codec.parseFieldPath(rawPath).Ok? && gvk !in versions ==> r == Fail(NoCrdFor(gvk))
    ensures codec.parseFieldPath(rawPath) == Ok([]) && gvk in versions ==> r == Pass
  {
    match codec.parseFieldPath(rawPath)
    case Err(e) => Fail(e)
    case Ok(path) =>
      if gvk !in versions then Fail(NoCrdFor(gvk))
      else
        match Walk(versions[gvk].schema.value.openAPIV3Schema, path)
        case Err(e) => Fail(e)
        case Ok(_) => Pass
  }

  /** Once the GVK is found, the outcome fails exactly when some prefix of the parsed
      path reaches a node whose next segment fails, with that segment's error. */
  lemma FieldPathFirstSegmentError(versions: map<GVK, CrdVersion>, codec: Codec, gvk: GVK, rawPath: string, path: seq<FieldPathSegment>)
    requires SchemasPresent(versions)
    requires codec.parseFieldPath(rawPath) == Ok(path) && gvk in versions
    ensures var root := versions[gvk].schema.value.openAPIV3Schema;
      FieldPathOutcome(versions, codec, gvk, rawPath).Fail? <==>
        exists k :: 0 <= k < |path| && Walk(root, path[..k]).Ok? && Walk(root, path[..k]).value.Some?
                    && ValidateFieldPathSegment(Walk(root, path[..k]).value.value, path[k]).Err?
  {
    WalkFirstError(versions[gvk].schema.value.openAPIV3Schema, path);
  }

  /** `validateFieldPath`, as the loop reassigning the current node. */
  method ValidateFieldPath(ctx: Lint.LinterContext, codec: Codec, gvk: GVK, rawPath: string) returns (err: Outcome)
    requires SchemasPresent(ctx.store.versions)
    ensures err == FieldPathOutcome(ctx.store.versions, codec, gvk, rawPath)
  {
    var parsed := codec.parseFieldPath(rawPath);
    if parsed.Err? {
      return Fail(parsed.error);
    }
    var path := parsed.value;
    var crd := ctx.GetCRDSchema(gvk);
    if crd.None? {
      return Fail(NoCrdFor(gvk));
    }
    ghost var root := crd.value.schema.value.openAPIV3Schema;
    var current := crd.value.schema.value.openAPIV3Schema;
    for i := 0 to |path|
      invariant Walk(root, path).Err? ==> Walk(current, path[i..]) == Walk(root, path)
      invariant Walk(root, path).Ok? ==> Walk(current, path[i..]).Ok?
    {
      assert path[i..][0] == path[i] && path[i..][1..] == path[i + 1..];
      if current.None? {
        WalkNone(path[i..]);
        return Pass;
      }
      var next := ValidateFieldPathSegment(current.value, path[i]);
      if next.Err? {
        return Fail(next.error);
      }
      current := next.value;
    }
    return Pass;
  }
}
