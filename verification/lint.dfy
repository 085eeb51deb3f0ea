/** Issues and the context a rule reports through (internal/xpkg/lint/interface.go and
    the `linterContext` of internal/xpkg/lint/linter/linter.go). The fan-in of the
    rules' goroutines through a channel is replaced by one issue sequence that each
    report appends to. */
module Lint {
  import opened Wrappers
  import opened JsonPath
  import opened Kube
  import Schema

  /** `lint.Issue`. `entry` is the position of the referenced entry in the package
      (the Go field is a pointer to it); an issue without a path has the empty path,
      which renders as the empty string, as Go's nil path does. */
  datatype Issue = Issue(
    ruleName: string,
    entry: Option<nat>,
    path: JSONPath,
    pathValue: string,
    description: string)

  /** An untagged issue on an entry, as the rules build them. */
  function EntryIssue(entry: nat, path: JSONPath, pathValue: string, description: string): Issue
  {
    Issue("", Some(entry), path, pathValue, description)
  }

  /** Every issue of `s` with its rule name set to `rule`, as `ReportIssue` does one by one. */
  function Tag(rule: string, s: seq<Issue>): (r: seq<Issue>)
    ensures |r| == |s|
  {
    if s == [] then [] else [s[0].(ruleName := rule)] + Tag(rule, s[1..])
  }

  /** Tagging changes the rule name of each issue and nothing else. */
  lemma {:induction false} TagSpec(rule: string, s: seq<Issue>)
    ensures forall k :: 0 <= k < |s| ==> Tag(rule, s)[k] == s[k].(ruleName := rule)
  {
    if s != [] {
      TagSpec(rule, s[1..]);
    }
  }

  /** Tagging distributes over concatenation, so reporting a stream in pieces tags it whole. */
  lemma {:induction false} TagAppend(rule: string, a: seq<Issue>, b: seq<Issue>)
    ensures Tag(rule, a + b) == Tag(rule, a) + Tag(rule, b)
  {
    if a == [] {
      assert a + b == b;
    } else {
      assert (a + b)[0] == a[0];
      assert (a + b)[1..] == a[1..] + b;
      TagAppend(rule, a[1..], b);
    }
  }

  /** Appending the tagged issues of one more step to a stream that holds the tagged
      issues of the steps before. */
  lemma TagExtend(rule: string, prev: seq<Issue>, a: seq<Issue>, b: seq<Issue>)
    ensures prev + Tag(rule, a) + Tag(rule, b) == prev + Tag(rule, a + b)
  {
    TagAppend(rule, a, b);
  }

  /** A loop that has reported the tagged issues `done` since `start`, and whose body
      reports the tagged issues `step`, has reported the tagged `next` after the body. */
  lemma TagStep(rule: string, start: seq<Issue>, before: seq<Issue>, after: seq<Issue>,
                done: seq<Issue>, step: seq<Issue>, next: seq<Issue>)
    requires before == start + Tag(rule, done) && after == before + Tag(rule, step)
    requires next == done + step
    ensures after == start + Tag(rule, next)
  {
    TagExtend(rule, start, done, step);
  }

  /** The issue lists of a loop's steps, one after the other. */
  function Flatten(parts: seq<seq<Issue>>): seq<Issue>
  {
    if parts == [] then [] else Flatten(parts[..|parts| - 1]) + parts[|parts| - 1]
  }

  /** One more step appends its issues. */
  lemma FlattenStep(parts: seq<seq<Issue>>, i: nat)
    requires i < |parts|
    ensures Flatten(parts[..i + 1]) == Flatten(parts[..i]) + parts[i]
  {
    assert parts[..i + 1][..i] == parts[..i];
  }

  /** An issue is among the first `n` steps' issues exactly when one of those steps has it. */
  lemma {:induction false} FlattenMembers(parts: seq<seq<Issue>>, n: nat)
    requires n <= |parts|
    ensures forall x :: x in Flatten(parts[..n]) <==> exists i :: 0 <= i < n && x in parts[i]
  {
    if n > 0 {
      FlattenMembers(parts, n - 1);
      FlattenStep(parts, n - 1);
    }
  }

  /** `linterContext`: the rule's name, the shared schema store and the issues reported so far. */
  class LinterContext {
    const ruleName: string
    const store: Schema.SchemaStore
    var issues: seq<Issue>

    constructor (ruleName: string, store: Schema.SchemaStore)
      ensures this.ruleName == ruleName && this.store == store && issues == []
    {
      this.ruleName := ruleName;
      this.store := store;
      issues := [];
    }

    /** `ReportIssue`: the issue, tagged with this rule's name, joins the stream. */
    method ReportIssue(issue: Issue)
      modifies this
      ensures issues == old(issues) + Tag(ruleName, [issue])
    {
      issues := issues + [issue.(ruleName := ruleName)];
    }

    /** `GetCRDSchema`: the store's lookup. */
    function GetCRDSchema(gvk: GVK): Option<CrdVersion>
      reads store
    {
      store.GetCRDSchema(gvk)
    }
  }
}
