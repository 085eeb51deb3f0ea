/** The duplicate-object rule (internal/xpkg/lint/linter/rules/generic.go): entries are
    grouped by GVK and `metadata.name`, and every group of two or more entries is
    reported once, on its first entry. Entries are referred to by their position in
    the package. */
module Generic {
  import opened Wrappers
  import opened Kube
  import opened Xpkg
  import opened Lint

  /** `groupVersionKindName`: the key entries are grouped by. */
  datatype ObjectKey = ObjectKey(gvk: GVK, name: string)

  function KeyOf(e: PackageEntry): ObjectKey
  {
    ObjectKey(e.obj.gvk, e.obj.name)
  }

  function DuplicateMessage(k: ObjectKey): string
  {
    "Multiple objects of kind '" + GvkString(k.gvk) + "' with name '" + k.name + "'"
  }

  /** The issue for a duplicated key: on the group's first entry, without a path. */
  function DuplicateIssue(k: ObjectKey, first: nat): Issue
  {
    Issue("", Some(first), [], "", DuplicateMessage(k))
  }

  /** The positions, among the first `n`, of the entries with key `k`, in package order. */
  function Positions(entries: seq<PackageEntry>, k: ObjectKey, n: nat): seq<nat>
    requires n <= |entries|
  {
    if n == 0 then []
    else Positions(entries, k, n - 1) + (if KeyOf(entries[n - 1]) == k then [n - 1] else [])
  }

  /** The positions are exactly those of the entries with the key, strictly increasing. */
  lemma {:induction false} PositionsSpec(entries: seq<PackageEntry>, k: ObjectKey, n: nat)
    requires n <= |entries|
    ensures forall j :: j in Positions(entries, k, n) <==> 0 <= j < n && KeyOf(entries[j]) == k
    ensures forall a, b :: 0 <= a < b < |Positions(entries, k, n)| ==>
              Positions(entries, k, n)[a] < Positions(entries, k, n)[b]
  {
    if n > 0 {
      PositionsSpec(entries, k, n - 1);
      var prev := Positions(entries, k, n - 1);
      var last: seq<nat> := if KeyOf(entries[n - 1]) == k then [n - 1] else [];
      assert Positions(entries, k, n) == prev + last;
      assert forall a :: 0 <= a < |prev| ==> prev[a] in prev;
    }
  }

  /** The group's first element is the key's first occurrence in the package. */
  lemma FirstPosition(entries: seq<PackageEntry>, k: ObjectKey, n: nat)
    requires n <= |entries| && Positions(entries, k, n) != []
    ensures var p := Positions(entries, k, n)[0];
      p < n && KeyOf(entries[p]) == k && forall j :: 0 <= j < p ==> KeyOf(entries[j]) != k
  {
    PositionsSpec(entries, k, n);
    var ps := Positions(entries, k, n);
    assert ps[0] in ps;
    assert forall a :: 0 < a < |ps| ==> ps[0] < ps[a];
  }

  /** The key of every entry, in package order. */
  function KeySeq(entries: seq<PackageEntry>): (r: seq<ObjectKey>)
    ensures |r| == |entries| && forall j :: 0 <= j < |entries| ==> r[j] == KeyOf(entries[j])
  {
    if entries == [] then [] else KeySeq(entries[..|entries| - 1]) + [KeyOf(entries[|entries| - 1])]
  }

  /** A group's size is the number of times its key occurs in the package. */
  lemma {:induction false} PositionsCount(entries: seq<PackageEntry>, k: ObjectKey, n: nat)
    requires n <= |entries|
    ensures |Positions(entries, k, n)| == multiset(KeySeq(entries)[..n])[k]
  {
    if n > 0 {
      PositionsCount(entries, k, n - 1);
      var keys := KeySeq(entries);
      var last: seq<nat> := if KeyOf(entries[n - 1]) == k then [n - 1] else [];
      assert Positions(entries, k, n) == Positions(entries, k, n - 1) + last;
      assert keys[..n] == keys[..n - 1] + [keys[n - 1]];
      assert multiset(keys[..n]) == multiset(keys[..n - 1]) + multiset{keys[n - 1]};
      assert keys[n - 1] == KeyOf(entries[n - 1]);
    }
  }

  /** Whether a key is reported depends only on how often each key occurs, so it does
      not change when the entries are reordered. */
  lemma DuplicatesPermutationInvariant(e1: seq<PackageEntry>, e2: seq<PackageEntry>, k: ObjectKey)
    requires multiset(KeySeq(e1)) == multiset(KeySeq(e2))
    ensures |Positions(e1, k, |e1|)| > 1 <==> |Positions(e2, k, |e2|)| > 1
  {
    PositionsCount(e1, k, |e1|);
    PositionsCount(e2, k, |e2|);
    assert KeySeq(e1)[..|e1|] == KeySeq(e1);
    assert KeySeq(e2)[..|e2|] == KeySeq(e2);
  }

  /** The `objects` map after the first `n` entries have been added. */
  function Groups(entries: seq<PackageEntry>, n: nat): map<ObjectKey, seq<nat>>
    requires n <= |entries|
  {
    if n == 0 then map[]
    else
      var g := Groups(entries, n - 1);
      var k := KeyOf(entries[n - 1]);
      if k in g then g[k := g[k] + [n - 1]] else g[k := [n - 1]]
  }

  /** The map holds a key exactly when some entry has it, and maps it to its group. */
  lemma {:induction false} GroupsSpec(entries: seq<PackageEntry>, n: nat)
    requires n <= |entries|
    ensures forall k :: k in Groups(entries, n) <==> Positions(entries, k, n) != []
    ensures forall k :: k in Groups(entries, n) ==> Groups(entries, n)[k] == Positions(entries, k, n)
  {
    if n > 0 {
      GroupsSpec(entries, n - 1);
    }
  }

  /** No element of `s` occurs twice. */
  predicate NoRepeats<T(==)>(s: seq<T>)
  {
    forall a, b :: 0 <= a < b < |s| ==> s[a] != s[b]
  }

  /** The keys of `groups`, each exactly once, in some order. */
  ghost predicate Enumerates(order: seq<ObjectKey>, groups: map<ObjectKey, seq<nat>>)
  {
    && (forall k :: k in order <==> k in groups)
    && NoRepeats(order)
  }

  /** The issues of the reporting loop when it visits the keys in `order`. */
  function Reports(groups: map<ObjectKey, seq<nat>>, order: seq<ObjectKey>): seq<Issue>
    requires forall k :: k in order ==> k in groups
  {
    if order == [] then []
    else
      var k := order[|order| - 1];
      Reports(groups, order[..|order| - 1])
        + (if |groups[k]| > 1 then [DuplicateIssue(k, groups[k][0])] else [])
  }

  /** The group of the key an issue is about: the issue's entry is the group's first. */
  predicate ReportedGroup(groups: map<ObjectKey, seq<nat>>, k: ObjectKey, iss: Issue)
  {
    k in groups && |groups[k]| > 1 && iss == DuplicateIssue(k, groups[k][0])
  }

  /** An issue is reported exactly for a group of two or more entries. */
  lemma {:induction false} ReportsMembership(groups: map<ObjectKey, seq<nat>>, order: seq<ObjectKey>, iss: Issue)
    requires forall k :: k in order ==> k in groups
    ensures iss in Reports(groups, order) <==> exists k :: k in order && ReportedGroup(groups, k, iss)
  {
    if order != [] {
      var k := order[|order| - 1];
      var front := order[..|order| - 1];
      assert forall j :: j in front ==> j in order;
      ReportsMembership(groups, front, iss);
      if iss in Reports(groups, order) && iss !in Reports(groups, front) {
        assert ReportedGroup(groups, k, iss);
      }
      if exists j :: j in order && ReportedGroup(groups, j, iss) {
        var j :| j in order && ReportedGroup(groups, j, iss);
        if j != k {
          assert j in front;
        }
      }
    }
  }

  /** Groups are disjoint, so the issues of two different keys differ. */
  lemma DistinctKeysDistinctIssues(entries: seq<PackageEntry>, k1: ObjectKey, k2: ObjectKey)
    requires k1 != k2
    requires var g := Groups(entries, |entries|); k1 in g && k2 in g
    ensures var g := Groups(entries, |entries|); |g[k1]| > 0 && |g[k2]| > 0 && g[k1][0] != g[k2][0]
  {
    var n := |entries|;
    GroupsSpec(entries, n);
    PositionsSpec(entries, k1, n);
    PositionsSpec(entries, k2, n);
    assert Positions(entries, k1, n)[0] in Positions(entries, k1, n);
    assert Positions(entries, k2, n)[0] in Positions(entries, k2, n);
  }

  /** Visiting each key once reports no issue twice: one issue per duplicated key. */
  lemma {:induction false} ReportsOncePerKey(entries: seq<PackageEntry>, order: seq<ObjectKey>)
    requires forall k :: k in order ==> k in Groups(entries, |entries|)
    requires NoRepeats(order)
    ensures NoRepeats(Reports(Groups(entries, |entries|), order))
  {
    var g := Groups(entries, |entries|);
    if order != [] {
      var k := order[|order| - 1];
      var front := order[..|order| - 1];
      assert forall j :: j in front ==> j in order;
      ReportsOncePerKey(entries, front);
      var prev := Reports(g, front);
      if |g[k]| > 1 {
        var issue := DuplicateIssue(k, g[k][0]);
        if issue in prev {
          ReportsMembership(g, front, issue);
          var j :| j in front && ReportedGroup(g, j, issue);
          var a :| 0 <= a < |front| && front[a] == j;
          assert order[a] == j && a < |order| - 1;
          assert issue.entry == Some(g[j][0]);
          DistinctKeysDistinctIssues(entries, j, k);
        }
        assert issue !in prev;
        var r := prev + [issue];
        assert Reports(g, order) == r;
        forall a, b | 0 <= a < b < |r|
          ensures r[a] != r[b]
        {
          assert r[a] == prev[a] && prev[a] in prev;
          if b < |prev| {
            assert r[b] == prev[b];
          } else {
            assert r[b] == issue;
          }
        }
      } else {
        assert Reports(g, order) == prev + [];
        assert prev + [] == prev;
      }
    }
  }

  /** A key's group is reported exactly when two or more entries share the key, with
      the first of them. */
  lemma ReportedGroupIsDuplicate(entries: seq<PackageEntry>, k: ObjectKey, iss: Issue)
    ensures ReportedGroup(Groups(entries, |entries|), k, iss) <==>
              |Positions(entries, k, |entries|)| > 1 && iss == DuplicateIssue(k, Positions(entries, k, |entries|)[0])
  {
    GroupsSpec(entries, |entries|);
  }

  /** What the rule reports, whatever order it visits the keys in: exactly one issue for
      each key that two or more entries share, on the first of them, and nothing else. */
  lemma DuplicateReports(entries: seq<PackageEntry>, order: seq<ObjectKey>, iss: Issue)
    requires Enumerates(order, Groups(entries, |entries|))
    ensures NoRepeats(Reports(Groups(entries, |entries|), order))
    ensures iss in Reports(Groups(entries, |entries|), order) <==>
              exists k :: |Positions(entries, k, |entries|)| > 1
                          && iss == DuplicateIssue(k, Positions(entries, k, |entries|)[0])
  {
    var g := Groups(entries, |entries|);
    ReportsOncePerKey(entries, order);
    ReportsMembership(g, order, iss);
    if iss in Reports(g, order) {
      var k :| k in order && ReportedGroup(g, k, iss);
      ReportedGroupIsDuplicate(entries, k, iss);
    }
    if exists k :: |Positions(entries, k, |entries|)| > 1 && iss == DuplicateIssue(k, Positions(entries, k, |entries|)[0]) {
      var k :| |Positions(entries, k, |entries|)| > 1 && iss == DuplicateIssue(k, Positions(entries, k, |entries|)[0]);
      ReportedGroupIsDuplicate(entries, k, iss);
      GroupsSpec(entries, |entries|);
      assert k in order;
    }
  }

  /** `CheckDuplicateObjects`: the grouping loop builds `objects`; the reporting loop
      visits its keys in an order the model does not fix (Go's map iteration order),
      returned as `order`. */
  method CheckDuplicateObjects(ctx: LinterContext, pkg: Package) returns (ghost order: seq<ObjectKey>)
    modifies ctx
    ensures Enumerates(order, Groups(pkg.entries, |pkg.entries|))
    ensures ctx.issues == old(ctx.issues) + Tag(ctx.ruleName, Reports(Groups(pkg.entries, |pkg.entries|), order))
  {
    var objects: map<ObjectKey, seq<nat>> := map[];
    for i := 0 to |pkg.entries|
      invariant objects == Groups(pkg.entries, i)
    {
      var gvkn := ObjectKey(pkg.entries[i].obj.gvk, pkg.entries[i].obj.name);
      if gvkn in objects {
        objects := objects[gvkn := objects[gvkn] + [i]];
      } else {
        objects := objects[gvkn := [i]];
      }
    }
    ghost var start := ctx.issues;
    var keys := objects.Keys;
    order := [];
    while keys != {}
      invariant keys <= objects.Keys
      invariant forall k :: k in order <==> k in objects && k !in keys
      invariant NoRepeats(order)
      invariant ctx.issues == start + Tag(ctx.ruleName, Reports(objects, order))
      decreases keys
    {
      var gvkn :| gvkn in keys;
      var same := objects[gvkn];
      ghost var done := Reports(objects, order);
      ghost var step := if |same| > 1 then [DuplicateIssue(gvkn, same[0])] else [];
      assert (order + [gvkn])[..|order|] == order;
      assert Reports(objects, order + [gvkn]) == done + step;
      TagExtend(ctx.ruleName, start, done, step);
      if |same| > 1 {
        ctx.ReportIssue(Issue("", Some(same[0]), [], "", DuplicateMessage(gvkn)));
      }
      order := order + [gvkn];
      keys := keys - {gvkn};
    }
  }
}
