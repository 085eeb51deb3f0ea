/** Report paths (internal/xpkg/lint/jsonpath/jsonpath.go).
    A report path is a sequence of segments; because a whole path also satisfies the
    segment interface through its `String` method, a segment may itself be a path, and
    paths nest. Rendering flattens the nesting. */
module JsonPath {

  /** A `JSONPathSegment`: a `FieldSegment`, an `IndexSegment`, or a nested `JSONPath`. */
  datatype Segment =
    | FieldSegment(name: string)
    | IndexSegment(index: int)
    | PathSegment(path: seq<Segment>)

  type JSONPath = seq<Segment>

  /** An argument of the variadic `NewJSONPath(rawSegments ...any)`, by dynamic type.
      `OtherArg` carries what `fmt.Sprint` prints for a value of any other type. */
  datatype Arg =
    | SegmentArg(segment: Segment)
    | IntArg(i: int)
    | StringArg(s: string)
    | OtherArg(printed: string)

  predicate IsDigit(c: char) { '0' <= c <= '9' }

  /** The decimal digits of `n`, most significant first, as `%d` prints them. */
  function Digits(n: nat): (r: string)
    ensures |r| > 0 && forall k :: 0 <= k < |r| ==> IsDigit(r[k])
    ensures n < 10 <==> |r| == 1
  {
    if n < 10 then [(48 + n) as char] else Digits(n / 10) + [(48 + n % 10) as char]
  }

  /** `fmt.Sprintf("%d", i)`: a minus sign for a negative number, then the digits. */
  function IntString(i: int): (r: string)
    ensures |r| > 0
    ensures i >= 0 ==> forall k :: 0 <= k < |r| ==> IsDigit(r[k])
    ensures i < 0 ==> r[0] == '-' && r[1..] == Digits(-i)
  {
    if i < 0 then "-" + Digits(-i) else Digits(i)
  }

  /** `FieldSegment.String`, `IndexSegment.String` and, for a nested path, `JSONPath.String`. */
  function SegmentString(s: Segment): string
    decreases s
  {
    match s
    case FieldSegment(name) => if '.' in name then "[" + name + "]" else "." + name
    case IndexSegment(i) => "[" + IntString(i) + "]"
    case PathSegment(p) => Render(p)
  }

  /** The rendering of a path: its segments' renderings, concatenated in order. */
  function Render(p: JSONPath): string
    decreases p
  {
    if p == [] then "" else SegmentString(p[0]) + Render(p[1..])
  }

  /** What `NewJSONPath` makes of one argument. */
  function ArgSegment(a: Arg): Segment
  {
    match a
    case SegmentArg(s) => s
    case IntArg(i) => IndexSegment(i)
    case StringArg(s) => FieldSegment(s)
    case OtherArg(printed) => FieldSegment(printed)
  }

  /** The path `NewJSONPath(args...)` builds, defined one argument at a time. */
  function Path(args: seq<Arg>): JSONPath
  {
    if args == [] then [] else [ArgSegment(args[0])] + Path(args[1..])
  }

  /** One segment per argument, in argument order. */
  lemma {:induction false} PathAt(args: seq<Arg>)
    ensures |Path(args)| == |args|
    ensures forall k :: 0 <= k < |args| ==> Path(args)[k] == ArgSegment(args[k])
  {
    if args != [] {
      PathAt(args[1..]);
    }
  }

  lemma {:induction false} PathAppend(a: seq<Arg>, b: seq<Arg>)
    ensures Path(a + b) == Path(a) + Path(b)
  {
    if a == [] {
      assert a + b == b;
    } else {
      assert (a + b)[1..] == a[1..] + b;
      PathAppend(a[1..], b);
    }
  }

  /** Rendering is concatenative: the rendering of `p + q` is that of `p` followed by that of `q`. */
  lemma {:induction false} RenderAppend(p: JSONPath, q: JSONPath)
    ensures Render(p + q) == Render(p) + Render(q)
  {
    if p == [] {
      assert p + q == q;
    } else {
      assert (p + q)[1..] == p[1..] + q;
      RenderAppend(p[1..], q);
    }
  }

  /** `NewJSONPath(p, q)` nests two whole paths, and its rendering is the two renderings
      concatenated: nesting is flattened when rendered. */
  lemma NestedRender(p: JSONPath, q: JSONPath)
    ensures Render(Path([SegmentArg(PathSegment(p)), SegmentArg(PathSegment(q))])) == Render(p) + Render(q)
  {
    var args := [SegmentArg(PathSegment(p)), SegmentArg(PathSegment(q))];
    PathAt(args);
    var r := Path(args);
    assert r == [PathSegment(p), PathSegment(q)];
    assert Render([PathSegment(q)]) == Render(q) by {
      assert [PathSegment(q)][1..] == [];
    }
    assert r[1..] == [PathSegment(q)];
  }

  /** A field segment renders bracketed exactly when its name contains a dot. */
  lemma FieldSegmentRendering(name: string)
    ensures '.' in name ==> SegmentString(FieldSegment(name)) == "[" + name + "]"
    ensures '.' !in name ==> SegmentString(FieldSegment(name)) == "." + name
    ensures SegmentString(FieldSegment(name))[0] == (if '.' in name then '[' else '.')
  {
  }

  /** `JSONPath.String`: the segments written into a builder one after another. */
  method PathString(p: JSONPath) returns (s: string)
    ensures s == Render(p)
  {
    s := "";
    var i := 0;
    while i < |p|
      invariant 0 <= i <= |p|
      invariant s + Render(p[i..]) == Render(p)
    {
      assert p[i..] == [p[i]] + p[i + 1..];
      s := s + SegmentString(p[i]);
      i := i + 1;
    }
  }

  /** `NewJSONPath`: a slice of `len(args)` segments, filled by index. */
  method NewJSONPath(args: seq<Arg>) returns (path: JSONPath)
    ensures |path| == |args|
    ensures forall k :: 0 <= k < |args| ==> path[k] == ArgSegment(args[k])
    ensures path == Path(args)
  {
    var a := new Segment[|args|](_ => FieldSegment(""));
    for i := 0 to |args|
      invariant forall k :: 0 <= k < i ==> a[k] == ArgSegment(args[k])
    {
      a[i] := ArgSegment(args[i]);
    }
    path := a[..];
    PathAt(args);
  }
}
