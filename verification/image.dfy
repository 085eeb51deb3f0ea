/** Parsing a package out of an OCI image (internal/xpkg/parse/image.go): the base
    layer is selected by annotation (or the flattened filesystem is used), the
    `package.yaml` entry of its tarball is located, and that YAML stream is split into
    documents, blank ones skipped and the others decoded into entries. Registry access,
    the image and tar APIs and the YAML reader are given as values. */
module ImageParse {
  import opened Wrappers
  import opened Kube
  import opened Foreign
  import opened Xpkg

  const ErrMultipleAnnotatedLayers := "package is invalid due to multiple annotated base layers"
  const ErrFetchLayer := "failed to fetch annotated base layer from remote"
  const ErrGetUncompressed := "failed to get uncompressed contents from layer"
  const ErrOpenPackageStream := "failed to open package stream file"

  const LayerAnnotation := "io.crossplane.xpkg"
  const BaseAnnotationValue := "base"
  const StreamFile := "package.yaml"

  newtype byte = b: int | 0 <= b < 256

  // ---------------------------------------------------------------------------
  // Blank documents

  /** `unicode.IsSpace` of a byte widened to a rune: '\t', '\n', '\v', '\f', '\r', ' ',
      U+0085 (NEL) and U+00A0 (NO-BREAK SPACE). */
  predicate IsSpaceByte(b: byte)
  {
    b == 9 || b == 10 || b == 11 || b == 12 || b == 13 || b == 32 || b == 0x85 || b == 0xA0
  }

  predicate AllSpace(data: seq<byte>)
  {
    forall k :: 0 <= k < |data| ==> IsSpaceByte(data[k])
  }

  /** `isWhiteSpace`: the scan clears its flag at the first byte that is not a space. */
  method IsWhiteSpace(bytes: seq<byte>) returns (empty: bool)
    ensures empty <==> AllSpace(bytes)
    ensures bytes == [] ==> empty
  {
    empty := true;
    for i := 0 to |bytes|
      invariant empty
      invariant forall k :: 0 <= k < i ==> IsSpaceByte(bytes[k])
    {
      if !IsSpaceByte(bytes[i]) {
        empty := false;
        break;
      }
    }
  }

  /** A document `parsePackage` skips: empty, or white space only. */
  predicate Blank(data: seq<byte>)
  {
    |data| == 0 || AllSpace(data)
  }

  /** `string(data)`: a Go string is a byte string, so each byte becomes one character. */
  function Text(data: seq<byte>): string
  {
    seq(|data|, k requires 0 <= k < |data| => data[k] as char)
  }

  // ---------------------------------------------------------------------------
  // The document stream

  /** One call of the YAML reader's `Read`: the next document, or an error other than
      `io.EOF`. The end of the steps is `io.EOF`. */
  datatype ReadStep = Doc(data: seq<byte>) | ReadError(err: string)

  /** The `(*xpkg.Package, error)` pair `parsePackage` returns: a package, a partial
      package with the read error, or a nil package with the decode error. */
  datatype ParseResult =
    | Parsed(pkg: Package)
    | PartialFailed(pkg: Package, err: string)
    | Failed(err: string)

  /** The entry made of a decoded document: its source is the package's source name and
      its raw text the document. */
  function NewEntry(o: Object, sourceName: string, data: seq<byte>): PackageEntry
  {
    PackageEntry(o, sourceName, Text(data), None, None)
  }

  /** The read loop of `parsePackage` from the `i`-th read on, with `entries` appended so far. */
  function ParseFrom(codec: Codec, sourceName: string, steps: seq<ReadStep>, i: nat, entries: seq<PackageEntry>)
    : ParseResult
    requires i <= |steps|
    decreases |steps| - i
  {
    if i == |steps| then Parsed(Package(sourceName, sourceName, entries))
    else
      match steps[i]
      case ReadError(e) => PartialFailed(Package(sourceName, sourceName, entries), e)
      case Doc(data) =>
        if Blank(data) then ParseFrom(codec, sourceName, steps, i + 1, entries)
        else
          match codec.unmarshalObject(Text(data))
          case Err(e) => Failed(e)
          case Ok(o) => ParseFrom(codec, sourceName, steps, i + 1, entries + [NewEntry(o, sourceName, data)])
  }

  /** `parsePackage`: both the package's source and its name are `sourceName`. */
  function ParsePackage(codec: Codec, steps: seq<ReadStep>, sourceName: string): ParseResult
  {
    ParseFrom(codec, sourceName, steps, 0, [])
  }

  /** `parsePackage`, as the read loop appending to the package's entries. */
  method ParsePackageStream(codec: Codec, steps: seq<ReadStep>, sourceName: string) returns (r: ParseResult)
    ensures r == ParsePackage(codec, steps, sourceName)
  {
    var entries: seq<PackageEntry> := [];
    var i := 0;
    while i < |steps|
      invariant i <= |steps|
      invariant ParseFrom(codec, sourceName, steps, i, entries) == ParsePackage(codec, steps, sourceName)
    {
      var step := steps[i];
      i := i + 1;
      if step.ReadError? {
        return PartialFailed(Package(sourceName, sourceName, entries), step.err);
      }
      var data := step.data;
      if |data| == 0 {
        continue;
      }
      var blank := IsWhiteSpace(data);
      if blank {
        continue;
      }
      var o := codec.unmarshalObject(Text(data));
      if o.Err? {
        return Failed(o.error);
      }
      entries := entries + [NewEntry(o.value, sourceName, data)];
    }
    return Parsed(Package(sourceName, sourceName, entries));
  }

  // ---------------------------------------------------------------------------
  // What the read loop computes, stated without the loop

  /** The documents read before the first read error that are not blank, in stream order. */
  function Kept(steps: seq<ReadStep>): (r: seq<seq<byte>>)
    ensures forall d :: d in r ==> !Blank(d)
  {
    if steps == [] || steps[0].ReadError? then []
    else if Blank(steps[0].data) then Kept(steps[1..])
    else [steps[0].data] + Kept(steps[1..])
  }

  /** The first read error, if the stream has one. */
  function FirstReadError(steps: seq<ReadStep>): (r: Option<string>)
    ensures r.Some? <==> exists k :: 0 <= k < |steps| && steps[k].ReadError?
  {
    if steps == [] then None
    else if steps[0].ReadError? then Some(steps[0].err)
    else FirstReadError(steps[1..])
  }

  /** Decoding documents in order: the first decode error, or one entry per document. */
  function Decoded(codec: Codec, sourceName: string, docs: seq<seq<byte>>): Result<seq<PackageEntry>>
  {
    if docs == [] then Ok([])
    else
      match codec.unmarshalObject(Text(docs[0]))
      case Err(e) => Err(e)
      case Ok(o) =>
        match Decoded(codec, sourceName, docs[1..])
        case Err(e) => Err(e)
        case Ok(es) => Ok([NewEntry(o, sourceName, docs[0])] + es)
  }

  /** Decoding succeeds exactly when every document decodes, and then gives one entry per
      document, in order, carrying the decoded object, the source name and the text. */
  lemma {:induction false} DecodedEntries(codec: Codec, sourceName: string, docs: seq<seq<byte>>)
    ensures Decoded(codec, sourceName, docs).Ok? <==>
              forall k :: 0 <= k < |docs| ==> codec.unmarshalObject(Text(docs[k])).Ok?
    ensures Decoded(codec, sourceName, docs).Ok? ==>
              var es := Decoded(codec, sourceName, docs).value;
              |es| == |docs| &&
              forall k :: 0 <= k < |docs| ==>
                es[k] == NewEntry(codec.unmarshalObject(Text(docs[k])).value, sourceName, docs[k])
  {
    if docs != [] {
      DecodedEntries(codec, sourceName, docs[1..]);
      assert forall k :: 1 <= k < |docs| ==> docs[k] == docs[1..][k - 1];
    }
  }

  /** A decode failure carries the error of the first document that does not decode. */
  lemma {:induction false} DecodedFirstError(codec: Codec, sourceName: string, docs: seq<seq<byte>>)
    requires Decoded(codec, sourceName, docs).Err?
    ensures exists k :: 0 <= k < |docs| && codec.unmarshalObject(Text(docs[k])) == Err(Decoded(codec, sourceName, docs).error)
                        && forall j :: 0 <= j < k ==> codec.unmarshalObject(Text(docs[j])).Ok?
  {
    if codec.unmarshalObject(Text(docs[0])).Ok? {
      DecodedFirstError(codec, sourceName, docs[1..]);
      var k :| 0 <= k < |docs[1..]| && codec.unmarshalObject(Text(docs[1..][k])) == Err(Decoded(codec, sourceName, docs).error)
               && forall j :: 0 <= j < k ==> codec.unmarshalObject(Text(docs[1..][j])).Ok?;
      assert forall j :: 1 <= j < k + 1 ==> docs[j] == docs[1..][j - 1];
      assert docs[k + 1] == docs[1..][k];
    }
  }

  /** The outcome of `parsePackage` without the loop: a decode error among the kept
      documents gives a nil package; otherwise the kept documents' entries form the
      package, returned with the read error if the stream has one. */
  function Expected(codec: Codec, sourceName: string, steps: seq<ReadStep>): ParseResult
  {
    var d := Decoded(codec, sourceName, Kept(steps));
    var re := FirstReadError(steps);
    if d.Err? then Failed(d.error)
    else if re.Some? then PartialFailed(Package(sourceName, sourceName, d.value), re.value)
    else Parsed(Package(sourceName, sourceName, d.value))
  }

  lemma {:induction false} ParseFromSpec(codec: Codec, sourceName: string, steps: seq<ReadStep>, i: nat,
                                         entries: seq<PackageEntry>)
    requires i <= |steps|
    ensures var d := Decoded(codec, sourceName, Kept(steps[i..]));
            var re := FirstReadError(steps[i..]);
            ParseFrom(codec, sourceName, steps, i, entries)
            == if d.Err? then Failed(d.error)
               else if re.Some? then PartialFailed(Package(sourceName, sourceName, entries + d.value), re.value)
               else Parsed(Package(sourceName, sourceName, entries + d.value))
    decreases |steps| - i
  {
    if i == |steps| {
      assert steps[i..] == [];
      assert entries + [] == entries;
    } else {
      var rest := steps[i..];
      assert rest[0] == steps[i] && rest[1..] == steps[i + 1..];
      match steps[i]
      case ReadError(e) =>
        assert entries + [] == entries;
      case Doc(data) =>
        if Blank(data) {
          ParseFromSpec(codec, sourceName, steps, i + 1, entries);
        } else {
          assert Kept(rest) == [data] + Kept(steps[i + 1..]);
          var docs := [data] + Kept(steps[i + 1..]);
          assert docs[0] == data && docs[1..] == Kept(steps[i + 1..]);
          match codec.unmarshalObject(Text(data))
          case Err(e) =>
          case Ok(o) =>
            var entry := NewEntry(o, sourceName, data);
            ParseFromSpec(codec, sourceName, steps, i + 1, entries + [entry]);
            var d := Decoded(codec, sourceName, Kept(steps[i + 1..]));
            if d.Ok? {
              assert entries + [entry] + d.value == entries + ([entry] + d.value);
            }
        }
    }
  }

  /** `parsePackage` computes `Expected`. */
  lemma ParsePackageSpec(codec: Codec, steps: seq<ReadStep>, sourceName: string)
    ensures ParsePackage(codec, steps, sourceName) == Expected(codec, sourceName, steps)
  {
    ParseFromSpec(codec, sourceName, steps, 0, []);
    assert steps[0..] == steps;
    var d := Decoded(codec, sourceName, Kept(steps));
    if d.Ok? {
      assert [] + d.value == d.value;
    }
  }

  /** The package is named after its source; its entries are the kept documents, in
      stream order, each with that source and with the document as its raw text. A
      decode error yields no package at all. */
  lemma ParsedPackage(codec: Codec, steps: seq<ReadStep>, sourceName: string)
    ensures var r := ParsePackage(codec, steps, sourceName);
      (r.Parsed? || r.PartialFailed?) ==>
        var kept := Kept(steps);
        && r.pkg.source == sourceName && r.pkg.name == sourceName
        && |r.pkg.entries| == |kept|
        && forall k :: 0 <= k < |kept| ==>
             && codec.unmarshalObject(Text(kept[k])).Ok?
             && r.pkg.entries[k].obj == codec.unmarshalObject(Text(kept[k])).value
             && r.pkg.entries[k].source == sourceName
             && r.pkg.entries[k].raw == Text(kept[k])
    ensures var r := ParsePackage(codec, steps, sourceName);
      r.Failed? <==> exists k :: 0 <= k < |Kept(steps)| && codec.unmarshalObject(Text(Kept(steps)[k])).Err?
    ensures var r := ParsePackage(codec, steps, sourceName);
      r.PartialFailed? ==> FirstReadError(steps) == Some(r.err)
  {
    ParsePackageSpec(codec, steps, sourceName);
    var kept := Kept(steps);
    DecodedEntries(codec, sourceName, kept);
    if Decoded(codec, sourceName, kept).Err? {
      DecodedFirstError(codec, sourceName, kept);
    }
  }

  /** A blank document changes nothing: the package is what it would be without it. */
  lemma {:induction false} BlankDocumentSkipped(a: seq<ReadStep>, data: seq<byte>, b: seq<ReadStep>)
    requires Blank(data)
    ensures Kept(a + [Doc(data)] + b) == Kept(a + b)
    ensures FirstReadError(a + [Doc(data)] + b) == FirstReadError(a + b)
  {
    var s := a + [Doc(data)] + b;
    if a == [] {
      assert s[0] == Doc(data) && s[1..] == b;
      assert a + b == b;
    } else {
      BlankDocumentSkipped(a[1..], data, b);
      assert s[0] == a[0] && s[1..] == a[1..] + [Doc(data)] + b;
      assert (a + b)[0] == a[0] && (a + b)[1..] == a[1..] + b;
    }
  }

  lemma BlankDocumentIgnored(codec: Codec, a: seq<ReadStep>, data: seq<byte>, b: seq<ReadStep>, sourceName: string)
    requires Blank(data)
    ensures ParsePackage(codec, a + [Doc(data)] + b, sourceName) == ParsePackage(codec, a + b, sourceName)
  {
    BlankDocumentSkipped(a, data, b);
    ParsePackageSpec(codec, a + [Doc(data)] + b, sourceName);
    ParsePackageSpec(codec, a + b, sourceName);
  }

  // ---------------------------------------------------------------------------
  // The image

  /** A layer descriptor of the image manifest: its annotations and its digest. */
  datatype Layer = Layer(annotations: map<string, string>, digest: string)

  /** A tar archive as `tar.Reader.Next` walks it: the entries read, each with the YAML
      stream of its content, then the error `Next` returns after the last one (`io.EOF`
      for a well-formed archive). */
  datatype TarEntry = TarEntry(name: string, stream: seq<ReadStep>)

  datatype Tarball = Tarball(entries: seq<TarEntry>, endError: string)

  /** A fetched layer: its uncompressed contents, or the error `Uncompressed` returns. */
  datatype Blob = Blob(uncompressed: Result<Tarball>)

  /** A `v1.Image`: its manifest's layers (or the error `Manifest` returns), the layers by
      digest as `LayerByDigest` fetches them, and the flattened filesystem
      `mutate.Extract` gives. */
  datatype Image = Image(manifest: Result<seq<Layer>>, layerByDigest: string -> Result<Blob>, flattened: Tarball)

  /** A layer annotated as the package's base. */
  predicate IsBase(l: Layer)
  {
    LayerAnnotation in l.annotations && l.annotations[LayerAnnotation] == BaseAnnotationValue
  }

  /** The base-annotated layers, in manifest order. */
  function BaseLayers(layers: seq<Layer>): seq<Layer>
  {
    if layers == [] then []
    else
      var last := layers[|layers| - 1];
      BaseLayers(layers[..|layers| - 1]) + if IsBase(last) then [last] else []
  }

  /** One more layer adds itself when it is a base layer. */
  lemma BaseLayersStep(layers: seq<Layer>, i: nat)
    requires i < |layers|
    ensures BaseLayers(layers[..i + 1]) == BaseLayers(layers[..i]) + if IsBase(layers[i]) then [layers[i]] else []
  {
    assert layers[..i + 1][..i] == layers[..i];
  }

  /** The base layers are exactly the layers carrying the base annotation. */
  lemma {:induction false} BaseLayersMembers(layers: seq<Layer>)
    ensures forall l :: l in BaseLayers(layers) <==> l in layers && IsBase(l)
  {
    if layers != [] {
      var front := layers[..|layers| - 1];
      BaseLayersMembers(front);
      assert layers == front + [layers[|layers| - 1]];
    }
  }

  /** The base layers of a prefix are a prefix of the base layers. */
  lemma {:induction false} BaseLayersPrefix(layers: seq<Layer>, i: nat)
    requires i <= |layers|
    ensures var p := BaseLayers(layers[..i]);
      |p| <= |BaseLayers(layers)| && BaseLayers(layers)[..|p|] == p
    decreases |layers| - i
  {
    if i < |layers| {
      BaseLayersPrefix(layers, i + 1);
      BaseLayersStep(layers, i);
    } else {
      assert layers[..i] == layers;
    }
  }

  /** A layer without the base annotation does not affect the selection. */
  lemma {:induction false} NonBaseLayerIgnored(a: seq<Layer>, l: Layer, b: seq<Layer>)
    requires !IsBase(l)
    ensures BaseLayers(a + [l] + b) == BaseLayers(a + b)
  {
    if b == [] {
      assert (a + [l] + b)[..|a + [l] + b| - 1] == a;
      assert a + [l] + b == a + [l] && a + b == a;
    } else {
      NonBaseLayerIgnored(a, l, b[..|b| - 1]);
      var s := a + [l] + b;
      assert s[..|s| - 1] == a + [l] + b[..|b| - 1];
      assert (a + b)[..|a + b| - 1] == a + b[..|b| - 1];
    }
  }

  /** The layer loop of `getPackageFromImage`: the first base layer is fetched and
      uncompressed, a second base layer is refused, and without any base layer the
      flattened filesystem is used. */
  function SelectBase(img: Image, layers: seq<Layer>): Result<Tarball>
  {
    var bases := BaseLayers(layers);
    if bases == [] then Ok(img.flattened)
    else
      match img.layerByDigest(bases[0].digest)
      case Err(e) => Err(Wrap(ErrFetchLayer, e))
      case Ok(blob) =>
        match blob.uncompressed
        case Err(e) => Err(Wrap(ErrGetUncompressed, e))
        case Ok(t) => if |bases| > 1 then Err(ErrMultipleAnnotatedLayers) else Ok(t)
  }

  /** No base-annotated layer: the flattened filesystem is read. */
  lemma NoBaseUsesFlattened(img: Image, layers: seq<Layer>)
    requires forall k :: 0 <= k < |layers| ==> !IsBase(layers[k])
    ensures SelectBase(img, layers) == Ok(img.flattened)
  {
    NoBaseLayers(layers);
  }

  lemma {:induction false} NoBaseLayers(layers: seq<Layer>)
    requires forall k :: 0 <= k < |layers| ==> !IsBase(layers[k])
    ensures BaseLayers(layers) == []
  {
    if layers != [] {
      var front := layers[..|layers| - 1];
      assert forall k :: 0 <= k < |front| ==> front[k] == layers[k];
      NoBaseLayers(front);
    }
  }

  /** Two base-annotated layers: once the first has been fetched, the second is refused. */
  lemma TwoBasesRefused(img: Image, layers: seq<Layer>, i: nat, j: nat)
    requires i < j < |layers| && IsBase(layers[i]) && IsBase(layers[j])
    requires forall k :: 0 <= k < i ==> !IsBase(layers[k])
    requires img.layerByDigest(layers[i].digest).Ok? && img.layerByDigest(layers[i].digest).value.uncompressed.Ok?
    ensures SelectBase(img, layers) == Err(ErrMultipleAnnotatedLayers)
  {
    NoBaseLayers(layers[..i]);
    BaseLayersStep(layers, i);
    assert BaseLayers(layers[..i + 1]) == [layers[i]];
    BaseLayersPrefix(layers, i + 1);
    assert BaseLayers(layers)[0] == layers[i];
    BaseLayersPrefix(layers[..j], i + 1);
    assert layers[..j][..i + 1] == layers[..i + 1];
    assert |BaseLayers(layers[..j])| > 0;
    BaseLayersStep(layers, j);
    assert |BaseLayers(layers[..j + 1])| > 1;
    BaseLayersPrefix(layers, j + 1);
  }

  /** The layer loop, reassigning `foundAnnotated` and `tarc`. */
  method SelectBaseLayer(img: Image, layers: seq<Layer>) returns (r: Result<Tarball>)
    ensures r == SelectBase(img, layers)
  {
    var foundAnnotated := false;
    var tarc: Option<Tarball> := None;
    for i := 0 to |layers|
      invariant foundAnnotated <==> BaseLayers(layers[..i]) != []
      invariant foundAnnotated ==>
                  && |BaseLayers(layers[..i])| == 1
                  && tarc.Some?
                  && img.layerByDigest(BaseLayers(layers[..i])[0].digest).Ok?
                  && img.layerByDigest(BaseLayers(layers[..i])[0].digest).value.uncompressed == Ok(tarc.value)
    {
      BaseLayersStep(layers, i);
      var l := layers[i];
      if !IsBase(l) {
        continue;
      }
      BaseLayersPrefix(layers, i + 1);
      if foundAnnotated {
        return Err(ErrMultipleAnnotatedLayers);
      }
      foundAnnotated := true;
      var layer := img.layerByDigest(l.digest);
      if layer.Err? {
        return Err(Wrap(ErrFetchLayer, layer.error));
      }
      var contents := layer.value.uncompressed;
      if contents.Err? {
        return Err(Wrap(ErrGetUncompressed, contents.error));
      }
      tarc := Some(contents.value);
    }
    assert layers[..|layers|] == layers;
    if !foundAnnotated {
      return Ok(img.flattened);
    }
    return Ok(tarc.value);
  }

  /** The tar scan from the `i`-th header: the first entry named `package.yaml`, or the
      error that ends the archive, wrapped. */
  function FindStream(t: Tarball, i: nat): (r: Result<seq<ReadStep>>)
    requires i <= |t.entries|
    ensures r.Err? <==> forall j :: i <= j < |t.entries| ==> t.entries[j].name != StreamFile
    ensures r.Err? ==> r.error == Wrap(ErrOpenPackageStream, t.endError)
    ensures r.Ok? ==> exists j :: i <= j < |t.entries| && t.entries[j].name == StreamFile && r.value == t.entries[j].stream
                                  && forall j' :: i <= j' < j ==> t.entries[j'].name != StreamFile
    decreases |t.entries| - i
  {
    if i == |t.entries| then Err(Wrap(ErrOpenPackageStream, t.endError))
    else if t.entries[i].name == StreamFile then Ok(t.entries[i].stream)
    else FindStream(t, i + 1)
  }

  /** The tar loop: `Next` until the header named `package.yaml`. */
  method FindPackageStream(t: Tarball) returns (r: Result<seq<ReadStep>>)
    ensures r == FindStream(t, 0)
  {
    var i := 0;
    while true
      invariant i <= |t.entries|
      invariant FindStream(t, i) == FindStream(t, 0)
      decreases |t.entries| - i
    {
      if i == |t.entries| {
        return Err(Wrap(ErrOpenPackageStream, t.endError));
      }
      var h := t.entries[i];
      if h.name == StreamFile {
        break;
      }
      i := i + 1;
    }
    return Ok(t.entries[i].stream);
  }

  /** `getPackageFromImage`: the manifest, the base layer, the stream, then `parsePackage`
      under the reference's name. */
  function PackageFromImage(codec: Codec, img: Image, refName: string): ParseResult
  {
    match img.manifest
    case Err(e) => Failed(e)
    case Ok(layers) =>
      match SelectBase(img, layers)
      case Err(e) => Failed(e)
      case Ok(t) =>
        match FindStream(t, 0)
        case Err(e) => Failed(e)
        case Ok(stream) => ParsePackage(codec, stream, refName)
  }

  method GetPackageFromImage(codec: Codec, img: Image, refName: string) returns (r: ParseResult)
    ensures r == PackageFromImage(codec, img, refName)
  {
    if img.manifest.Err? {
      return Failed(img.manifest.error);
    }
    var tarc := SelectBaseLayer(img, img.manifest.value);
    if tarc.Err? {
      return Failed(tarc.error);
    }
    var stream := FindPackageStream(tarc.value);
    if stream.Err? {
      return Failed(stream.error);
    }
    r := ParsePackageStream(codec, stream.value, refName);
  }

  /** A package read from an image is named after the image reference, and so is the
      source of each of its entries; an image without `package.yaml` gives no package. */
  lemma ImagePackageNamed(codec: Codec, img: Image, refName: string)
    ensures var r := PackageFromImage(codec, img, refName);
      (r.Parsed? || r.PartialFailed?) ==>
        r.pkg.source == refName && r.pkg.name == refName
        && forall k :: 0 <= k < |r.pkg.entries| ==> r.pkg.entries[k].source == refName
    ensures img.manifest.Ok? && SelectBase(img, img.manifest.value).Ok?
            && (forall e :: e in SelectBase(img, img.manifest.value).value.entries ==> e.name != StreamFile) ==>
              PackageFromImage(codec, img, refName)
              == Failed(Wrap(ErrOpenPackageStream, SelectBase(img, img.manifest.value).value.endError))
  {
    if img.manifest.Ok? && SelectBase(img, img.manifest.value).Ok? {
      var t := SelectBase(img, img.manifest.value).value;
      var s := FindStream(t, 0);
      if s.Ok? {
        ParsedPackage(codec, s.value, refName);
      } else {
        assert forall j :: 0 <= j < |t.entries| ==> t.entries[j].name != StreamFile;
      }
      if forall e :: e in t.entries ==> e.name != StreamFile {
        assert forall j :: 0 <= j < |t.entries| ==> t.entries[j] in t.entries;
      }
    }
  }
}
