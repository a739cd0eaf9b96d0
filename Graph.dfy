/**
 * The requirement graph: requirement nodes keyed by id, the active node, and
 * an append-only event log, updated by the user-instruction, test-run and
 * code-patch events. A failing run whose output names a failing test moves
 * the node's anchors to that test.
 */
module Graph {
  import opened Strings
  import opened Models

  // ---------------------------------------------------------------------
  // The failing-test recogniser: a leftmost search for
  // `FAILED`, whitespace, `<file>.py`, `::`, `<identifier>`.
  // Character classes are ASCII: whitespace is space, tab, newline,
  // carriage return, vertical tab and form feed; word characters are
  // letters, digits and `_`.
  // ---------------------------------------------------------------------

  predicate IsSpace(c: char) {
    c == ' ' || c == '\t' || c == '\n' || c == '\r' || c == '\U{0B}' || c == '\U{0C}'
  }

  predicate IsIdentStart(c: char) {
    ('a' <= c <= 'z') || ('A' <= c <= 'Z') || c == '_'
  }

  predicate IsWordChar(c: char) {
    IsIdentStart(c) || ('0' <= c <= '9')
  }

  /** The end of the run of whitespace starting at `i`. */
  function SkipSpaces(s: string, i: nat): (j: nat)
    requires i <= |s|
    ensures i <= j <= |s|
    ensures forall k :: i <= k < j ==> IsSpace(s[k])
    ensures j < |s| ==> !IsSpace(s[j])
    decreases |s| - i
  {
    if i < |s| && IsSpace(s[i]) then SkipSpaces(s, i + 1) else i
  }

  /** The end of the run of non-whitespace starting at `i`. */
  function TokenEnd(s: string, i: nat): (j: nat)
    requires i <= |s|
    ensures i <= j <= |s|
    ensures forall k :: i <= k < j ==> !IsSpace(s[k])
    ensures j < |s| ==> IsSpace(s[j])
    decreases |s| - i
  {
    if i < |s| && !IsSpace(s[i]) then TokenEnd(s, i + 1) else i
  }

  /** The longest prefix of word characters: what `\w*` takes. */
  function WordPrefix(t: string): (w: string)
    ensures |w| <= |t| && w == t[..|w|]
    ensures forall k :: 0 <= k < |w| ==> IsWordChar(w[k])
    ensures |w| < |t| ==> !IsWordChar(t[|w|])
  {
    if |t| > 0 && IsWordChar(t[0]) then [t[0]] + WordPrefix(t[1..]) else []
  }

  /** Group 1 may end at `e` in token `t`: at least one character, then `.py`, `::` and an identifier start. */
  predicate PyColonAt(t: string, e: int) {
    4 <= e && e + 3 <= |t| && t[e - 3..e] == ".py" && t[e..e + 2] == "::" && IsIdentStart(t[e + 2])
  }

  /** Greedy `\S+`: the largest end of group 1 not beyond `k`. */
  function GroupEnd(t: string, k: int): (r: Option<nat>)
    ensures r.Some? ==> r.value <= k && PyColonAt(t, r.value) && forall e :: r.value < e <= k ==> !PyColonAt(t, e)
    ensures r.None? ==> forall e :: e <= k ==> !PyColonAt(t, e)
    decreases k
  {
    if k < 4 then None
    else if PyColonAt(t, k) then Some(k)
    else GroupEnd(t, k - 1)
  }

  /** An attempt of the pattern anchored at `i`. */
  function MatchAt(s: string, i: nat): Option<(string, string)>
    requires i <= |s|
  {
    if !OccursAt(s, "FAILED", i) then None
    else
      var j := SkipSpaces(s, i + 6);
      if j == i + 6 then None
      else
        var t := s[j..TokenEnd(s, j)];
        match GroupEnd(t, |t|)
        case None => None
        case Some(k) => Some((t[..k], WordPrefix(t[k + 2..])))
  }

  /** A match at `i` starts with `FAILED`; the file is a non-space token ending in `.py`; the name is an identifier. */
  lemma MatchAtShape(s: string, i: nat)
    requires i <= |s|
    ensures MatchAt(s, i).Some? ==>
      var (f, n) := MatchAt(s, i).value;
      |f| >= 4 && EndsWith(f, ".py") && (forall k :: 0 <= k < |f| ==> !IsSpace(f[k])) &&
      |n| >= 1 && IsIdentStart(n[0]) && (forall k :: 0 <= k < |n| ==> IsWordChar(n[k])) &&
      OccursAt(s, "FAILED", i)
  {
    if MatchAt(s, i).Some? {
      var j := SkipSpaces(s, i + 6);
      var t := s[j..TokenEnd(s, j)];
      var k := GroupEnd(t, |t|).value;
      assert t[..k][k - 3..] == t[k - 3..k];
    }
  }

  /** Python's `re.search`: the attempt at the leftmost position that succeeds. */
  function SearchFrom(s: string, i: nat): Option<(string, string)>
    requires i <= |s|
    decreases |s| - i
  {
    var here := MatchAt(s, i);
    if here.Some? then here
    else if i == |s| then None
    else SearchFrom(s, i + 1)
  }

  /** The first successful attempt from position `i` on, in a list of attempts. */
  function FirstFrom<T>(atts: seq<Option<T>>, i: nat): Option<T>
    requires i < |atts|
    decreases |atts| - i
  {
    if atts[i].Some? then atts[i]
    else if i == |atts| - 1 then None
    else FirstFrom(atts, i + 1)
  }

  lemma {:induction false} FirstFromLeftmost<T>(atts: seq<Option<T>>, i: nat)
    requires i < |atts|
    ensures FirstFrom(atts, i).Some? ==>
      exists p :: i <= p < |atts| && atts[p] == FirstFrom(atts, i) && forall q :: i <= q < p ==> atts[q].None?
    ensures FirstFrom(atts, i).None? ==> forall p :: i <= p < |atts| ==> atts[p].None?
    decreases |atts| - i
  {
    if atts[i].None? && i < |atts| - 1 {
      FirstFromLeftmost(atts, i + 1);
      if FirstFrom(atts, i + 1).Some? {
        var p :| i + 1 <= p < |atts| && atts[p] == FirstFrom(atts, i + 1) &&
          forall q :: i + 1 <= q < p ==> atts[q].None?;
        assert forall q :: i <= q < p ==> atts[q].None?;
      }
    }
  }

  /** The attempts of the pattern at every position of `s`, the end included. */
  function Attempts(s: string): (a: seq<Option<(string, string)>>)
    ensures |a| == |s| + 1
  {
    seq(|s| + 1, q requires 0 <= q <= |s| => MatchAt(s, q))
  }

  lemma {:induction false} SearchFromIsFirst(s: string, i: nat)
    requires i <= |s|
    ensures SearchFrom(s, i) == FirstFrom(Attempts(s), i)
    decreases |s| - i
  {
    var a := Attempts(s);
    assert a[i] == MatchAt(s, i);
    if MatchAt(s, i).None? && i < |s| {
      SearchFromIsFirst(s, i + 1);
    }
  }

  /** The search returns the attempt at the leftmost position where one succeeds, and none if none does. */
  lemma SearchFromLeftmost(s: string, i: nat)
    requires i <= |s|
    ensures SearchFrom(s, i).Some? ==>
      exists p :: i <= p <= |s| && MatchAt(s, p) == SearchFrom(s, i) && forall q :: i <= q < p ==> MatchAt(s, q).None?
    ensures SearchFrom(s, i).None? ==> forall p :: i <= p <= |s| ==> MatchAt(s, p).None?
  {
    var a := Attempts(s);
    SearchFromIsFirst(s, i);
    FirstFromLeftmost(a, i);
    if SearchFrom(s, i).Some? {
      var p :| i <= p < |a| && a[p] == FirstFrom(a, i) && forall q :: i <= q < p ==> a[q].None?;
      assert a[p] == MatchAt(s, p);
      forall q | i <= q < p ensures MatchAt(s, q).None? {
        assert a[q] == MatchAt(s, q);
      }
    } else {
      forall p | i <= p <= |s| ensures MatchAt(s, p).None? {
        assert a[p] == MatchAt(s, p);
      }
    }
  }

  /** The failing test named in `stdout`, as (file, test name), if any. */
  function FindFailedTest(stdout: string): Option<(string, string)> {
    SearchFrom(stdout, 0)
  }

  /** The recogniser on an example line: it takes the file and the whole test name. */
  lemma FindFailedTestExample(s: string)
    requires s == "FAILED a.py::t_1 x"
    ensures MatchAt(s, 0) == Some(("a.py", "t_1"))
  {
    ExampleLine(s);
    var t := s[7..16];
    ExampleToken(t);
    WordPrefixAll(t[6..]);
  }

  /** The example line: `FAILED`, one space, then the token up to position 16. */
  lemma ExampleLine(s: string)
    requires s == "FAILED a.py::t_1 x"
    ensures OccursAt(s, "FAILED", 0) && SkipSpaces(s, 6) == 7 && TokenEnd(s, 7) == 16
    ensures s[7..16] == "a.py::t_1"
  {
    assert forall k :: 0 <= k < 6 ==> s[k] == "FAILED"[k];
    assert s[..6] == "FAILED";
    assert s[6] == ' ' && s[7] == 'a';
    assert forall k :: 7 <= k < 16 ==> !IsSpace(s[k]);
    TokenEndRun(s, 7, 16);
    assert forall k :: 0 <= k < 9 ==> s[7..16][k] == "a.py::t_1"[k];
  }

  /** The example token: group 1 is `a.py`, and the rest after `::` is `t_1`. */
  lemma ExampleToken(t: string)
    requires t == "a.py::t_1"
    ensures GroupEnd(t, |t|) == Some(4) && t[..4] == "a.py" && t[6..] == "t_1"
    ensures forall k :: 0 <= k < 3 ==> IsWordChar(t[6..][k])
  {
    assert t[1..4] == ".py" && t[4..6] == "::";
    assert PyColonAt(t, 4);
    forall e | 4 < e <= |t| ensures !PyColonAt(t, e) {
      if e + 3 <= |t| {
        assert e == 5 || e == 6;
        assert t[e - 1] != 'y';
      }
    }
    GroupEndFinds(t, |t|, 4);
  }

  lemma {:induction false} TokenEndRun(s: string, i: nat, j: nat)
    requires i <= j < |s| && IsSpace(s[j])
    requires forall k :: i <= k < j ==> !IsSpace(s[k])
    ensures TokenEnd(s, i) == j
    decreases j - i
  {
    if i < j {
      TokenEndRun(s, i + 1, j);
    }
  }

  lemma {:induction false} GroupEndFinds(t: string, k: int, e: int)
    requires e <= k && PyColonAt(t, e)
    requires forall x :: e < x <= k ==> !PyColonAt(t, x)
    ensures GroupEnd(t, k) == Some(e)
    decreases k
  {
    if k > e {
      GroupEndFinds(t, k - 1, e);
    }
  }

  lemma {:induction false} WordPrefixAll(w: string)
    requires forall k :: 0 <= k < |w| ==> IsWordChar(w[k])
    ensures WordPrefix(w) == w
    decreases |w|
  {
    if |w| > 0 {
      WordPrefixAll(w[1..]);
      assert w == [w[0]] + w[1..];
    }
  }

  // ---------------------------------------------------------------------
  // Events and snapshots.
  // ---------------------------------------------------------------------

  /** The payload values the events carry. */
  datatype Value = Str(s: string) | Flag(b: bool) | Strs(items: seq<string>) | Dict(entries: map<string, string>)

  /** A log entry; `ts` is the time the caller passes in for the clock. */
  datatype GraphEvent = GraphEvent(ts: real, etype: string, rid: string, payload: map<string, Value>)

  const UserInstruction: string := "USER_INSTRUCTION"
  const RunTests: string := "RUN_TESTS"
  const TaskComplete: string := "TASK_COMPLETE"
  const CodePatch: string := "CODE_PATCH"
  const FixFailingTestGoal: string := "fix_failing_test"

  datatype NodeView = NodeView(
    rid: string, goal: string, state: string, anchors: map<string, string>,
    constraints: seq<string>, evidences: seq<string>)

  datatype EventView = EventView(etype: string, rid: string, payload: map<string, Value>)

  datatype GraphView = GraphView(activeRid: Option<string>, nodes: map<string, NodeView>, events: seq<EventView>)

  /** The evidence kinds of a node, in append order. */
  function EvidenceKinds(evidences: seq<Evidence>): (ks: seq<string>)
    ensures |ks| == |evidences| && forall i :: 0 <= i < |evidences| ==> ks[i] == evidences[i].kind
  {
    seq(|evidences|, i requires 0 <= i < |evidences| => evidences[i].kind)
  }

  /** `node_view`, with the constraints sorted. */
  ghost function NodeViewOf(n: RequirementNode): NodeView {
    NodeView(n.rid, n.goal, StateName(n.state), n.anchors, SortedOf(n.constraints), EvidenceKinds(n.evidences))
  }

  /** The event list of the snapshot: the log without timestamps. */
  function EventViews(events: seq<GraphEvent>): (vs: seq<EventView>)
    ensures |vs| == |events|
    ensures forall i :: 0 <= i < |events| ==>
      vs[i] == EventView(events[i].etype, events[i].rid, events[i].payload)
  {
    seq(|events|, i requires 0 <= i < |events| => EventView(events[i].etype, events[i].rid, events[i].payload))
  }

  // ---------------------------------------------------------------------
  // The node updates of the events, as values.
  // ---------------------------------------------------------------------

  function RunTestsEvidence(ok: bool, stdout: string): Evidence {
    Evidence(if ok then "test_pass" else "test_fail", map["raw" := stdout])
  }

  /** On a failing run naming a test, the anchors move to that test and its file. */
  function AnchorsAfterRun(anchors: map<string, string>, ok: bool, stdout: string): map<string, string> {
    if ok then anchors
    else match FindFailedTest(stdout)
      case None => anchors
      case Some((f, n)) => anchors["test" := f + "::" + n]["path" := f]
  }

  /** The node after `on_run_tests`. */
  function NodeAfterRun(n: RequirementNode, ok: bool, stdout: string): RequirementNode {
    n.(evidences := n.evidences + [RunTestsEvidence(ok, stdout)],
       anchors := AnchorsAfterRun(n.anchors, ok, stdout),
       state := if ok && n.goal == FixFailingTestGoal then Completed else n.state)
  }

  /** The events `on_run_tests` appends. */
  function RunTestsEvents(n: RequirementNode, rid: string, ok: bool, stdout: string, now: real): seq<GraphEvent> {
    var base := map["ok" := Flag(ok), "stdout" := Str(stdout)];
    var payload :=
      if !ok && FindFailedTest(stdout).Some? then base["anchors_update" := Dict(AnchorsAfterRun(n.anchors, ok, stdout))]
      else base;
    [GraphEvent(now, RunTests, rid, payload)] +
      (if ok && n.goal == FixFailingTestGoal then [GraphEvent(now, TaskComplete, rid, map["reason" := Str("tests passed")])] else [])
  }

  /**
   * A test run adds exactly one evidence, `test_pass` iff the run passed;
   * it completes the node iff the run passed and the goal is
   * `fix_failing_test`, and otherwise leaves the state alone, so a completed
   * node stays completed; the log gains `RUN_TESTS`, followed by
   * `TASK_COMPLETE` exactly when the node completes; rid and goal stay.
   */
  lemma RunTestsSpec(n: RequirementNode, rid: string, ok: bool, stdout: string, now: real)
    ensures var n' := NodeAfterRun(n, ok, stdout);
      n'.rid == n.rid && n'.goal == n.goal && n'.constraints == n.constraints &&
      |n'.evidences| == |n.evidences| + 1 && n'.evidences[..|n.evidences|] == n.evidences &&
      (n'.evidences[|n.evidences|].kind == "test_pass" <==> ok)
    ensures var n' := NodeAfterRun(n, ok, stdout);
      (ok && n.goal == FixFailingTestGoal ==> n'.state == Completed) &&
      (!(ok && n.goal == FixFailingTestGoal) ==> n'.state == n.state) &&
      (n.state == Completed ==> n'.state == Completed) &&
      (n'.state == Active ==> n.state == Active)
    ensures var es := RunTestsEvents(n, rid, ok, stdout, now);
      1 <= |es| <= 2 && es[0].etype == RunTests && es[0].rid == rid &&
      (|es| == 2 <==> ok && n.goal == FixFailingTestGoal) &&
      (|es| == 2 ==> es[1].etype == TaskComplete)
  {
    assert (n.evidences + [RunTestsEvidence(ok, stdout)])[..|n.evidences|] == n.evidences;
  }

  /**
   * The anchors move only on a failing run whose output names a test; then
   * `test` is `<file>.py::<name>` and `path` is `<file>.py`, and the other
   * anchors stay.
   */
  lemma AnchorsAfterRunSpec(anchors: map<string, string>, ok: bool, stdout: string)
    ensures ok || FindFailedTest(stdout).None? ==> AnchorsAfterRun(anchors, ok, stdout) == anchors
    ensures !ok && FindFailedTest(stdout).Some? ==>
      var (f, n) := FindFailedTest(stdout).value;
      var a := AnchorsAfterRun(anchors, ok, stdout);
      EndsWith(f, ".py") && a["path"] == f && a["test"] == f + "::" + n &&
      a.Keys == anchors.Keys + {"test", "path"} &&
      forall k :: k in anchors && k != "test" && k != "path" ==> a[k] == anchors[k]
  {
    if !ok && FindFailedTest(stdout).Some? {
      var (f, n) := FindFailedTest(stdout).value;
      FoundFileIsPy(stdout);
      SetTestAndPath(anchors, f + "::" + n, f);
    }
  }

  /** The file of a failing test found in `stdout` ends in `.py`. */
  lemma FoundFileIsPy(stdout: string)
    ensures FindFailedTest(stdout).Some? ==> EndsWith(FindFailedTest(stdout).value.0, ".py")
  {
    SearchFromLeftmost(stdout, 0);
    if FindFailedTest(stdout).Some? {
      var p :| 0 <= p <= |stdout| && MatchAt(stdout, p) == FindFailedTest(stdout)
        && forall q :: 0 <= q < p ==> MatchAt(stdout, q).None?;
      MatchAtShape(stdout, p);
    }
  }

  /** Setting `test` and then `path` changes those two keys and no other. */
  lemma SetTestAndPath(anchors: map<string, string>, t: string, p: string)
    ensures var a := anchors["test" := t]["path" := p];
      a["path"] == p && a["test"] == t && a.Keys == anchors.Keys + {"test", "path"} &&
      forall k :: k in anchors && k != "test" && k != "path" ==> a[k] == anchors[k]
  {
  }

  /** The node after `on_code_patch`: one more `diff` evidence, nothing else changed. */
  function NodeAfterPatch(n: RequirementNode, path: string, diffSummary: string): (n': RequirementNode)
    ensures n'.rid == n.rid && n'.goal == n.goal && n'.anchors == n.anchors &&
      n'.constraints == n.constraints && n'.state == n.state
    ensures |n'.evidences| == |n.evidences| + 1 && n'.evidences[..|n.evidences|] == n.evidences
    ensures n'.evidences[|n.evidences|].kind == "diff"
  {
    var n' := n.(evidences := n.evidences + [Evidence("diff", map["file" := path, "summary" := diffSummary])]);
    assert n'.evidences[..|n.evidences|] == n.evidences;
    n'
  }

  // ---------------------------------------------------------------------
  // RequirementGraph.
  // ---------------------------------------------------------------------

  class RequirementGraph {
    var nodes: map<string, RequirementNode>
    var activeRid: Option<string>
    var events: seq<GraphEvent>

    /** Each node is stored under its own id, and an active id names a stored node. */
    ghost predicate Valid()
      reads this
    {
      (forall k :: k in nodes ==> nodes[k].rid == k) &&
      (activeRid.Some? ==> activeRid.value in nodes)
    }

    constructor()
      ensures Valid()
      ensures nodes == map[] && activeRid == None && events == []
    {
      nodes := map[];
      activeRid := None;
      events := [];
    }

    /** `add_node`: store the node under its id and make it active. */
    method AddNode(node: RequirementNode)
      requires Valid()
      modifies this
      ensures Valid()
      ensures nodes == old(nodes)[node.rid := node] && activeRid == Some(node.rid) && events == old(events)
    {
      nodes := nodes[node.rid := node];
      activeRid := Some(node.rid);
    }

    /**
     * `active_node`: the active node, or `None` where the source raises,
     * namely when no id is set, the id is empty (Python treats `""` as
     * false), or the id names no node.
     */
    function ActiveNode(): (r: Option<RequirementNode>)
      reads this
      ensures r.Some? <==> activeRid.Some? && activeRid.value != "" && activeRid.value in nodes
      ensures r.Some? ==> r.value == nodes[activeRid.value]
      ensures Valid() && r.Some? ==> r.value.rid == activeRid.value
      ensures Valid() && activeRid.Some? && activeRid.value != "" ==> r.Some?
    {
      if activeRid.None? || activeRid.value == "" || activeRid.value !in nodes then None
      else Some(nodes[activeRid.value])
    }

    /** `log`: append one event stamped `now`. */
    method Log(etype: string, rid: string, payload: map<string, Value>, now: real)
      modifies this
      ensures events == old(events) + [GraphEvent(now, etype, rid, payload)]
      ensures nodes == old(nodes) && activeRid == old(activeRid)
    {
      events := events + [GraphEvent(now, etype, rid, payload)];
    }

    /** `on_user_instruction`: create an active node and log the instruction. */
    method OnUserInstruction(rid: string, goal: string, constraints: set<string>, anchors: map<string, string>, now: real)
      returns (node: RequirementNode)
      requires Valid()
      modifies this
      ensures Valid()
      ensures node == NewRequirementNode(rid, goal, anchors, constraints)
      ensures nodes == old(nodes)[rid := node] && activeRid == Some(rid)
      ensures events == old(events) + [GraphEvent(now, UserInstruction, rid,
        map["goal" := Str(goal), "constraints" := Strs(SortedOf(constraints)), "anchors" := Dict(anchors)])]
    {
      node := NewRequirementNode(rid, goal, anchors, constraints);
      AddNode(node);
      var sorted := SortSet(constraints);
      StrictlySortedUnique(sorted, SortedOf(constraints));
      Log(UserInstruction, rid, map["goal" := Str(goal), "constraints" := Strs(sorted), "anchors" := Dict(anchors)], now);
    }

    /** `on_run_tests`: record the run on node `rid` (which must exist) and log it. */
    method OnRunTests(rid: string, ok: bool, stdout: string, now: real)
      requires Valid() && rid in nodes
      modifies this
      ensures Valid()
      ensures nodes == old(nodes)[rid := NodeAfterRun(old(nodes)[rid], ok, stdout)]
      ensures activeRid == old(activeRid)
      ensures events == old(events) + RunTestsEvents(old(nodes)[rid], rid, ok, stdout, now)
    {
      var node := nodes[rid];
      node := node.(evidences := node.evidences + [RunTestsEvidence(ok, stdout)]);
      var payload: map<string, Value> := map["ok" := Flag(ok), "stdout" := Str(stdout)];
      if !ok {
        var m := FindFailedTest(stdout);
        if m.Some? {
          var (testFile, testName) := m.value;
          node := node.(anchors := node.anchors["test" := testFile + "::" + testName]);
          node := node.(anchors := node.anchors["path" := testFile]);
          payload := payload["anchors_update" := Dict(node.anchors)];
        }
      }
      nodes := nodes[rid := node];
      Log(RunTests, rid, payload, now);
      if ok && node.goal == FixFailingTestGoal {
        node := node.(state := Completed);
        nodes := nodes[rid := node];
        Log(TaskComplete, rid, map["reason" := Str("tests passed")], now);
      }
    }

    /** `on_code_patch`: add a `diff` evidence to node `rid` (which must exist) and log the patch. */
    method OnCodePatch(rid: string, path: string, diffSummary: string, now: real)
      requires Valid() && rid in nodes
      modifies this
      ensures Valid()
      ensures nodes == old(nodes)[rid := NodeAfterPatch(old(nodes)[rid], path, diffSummary)]
      ensures activeRid == old(activeRid)
      ensures events == old(events) + [GraphEvent(now, CodePatch, rid, map["path" := Str(path), "diff" := Str(diffSummary)])]
    {
      var node := nodes[rid];
      node := node.(evidences := node.evidences + [Evidence("diff", map["file" := path, "summary" := diffSummary])]);
      nodes := nodes[rid := node];
      Log(CodePatch, rid, map["path" := Str(path), "diff" := Str(diffSummary)], now);
    }

    /** `snapshot`: a view of every node and of the log. */
    method Snapshot() returns (v: GraphView)
      ensures v.activeRid == activeRid
      ensures v.nodes.Keys == nodes.Keys
      ensures forall k :: k in nodes ==> v.nodes[k] == NodeViewOf(nodes[k])
      ensures v.events == EventViews(events)
    {
      var views: map<string, NodeView> := map[];
      var rest := nodes.Keys;
      while rest != {}
        invariant rest <= nodes.Keys
        invariant views.Keys == nodes.Keys - rest
        invariant forall k :: k in views ==> views[k] == NodeViewOf(nodes[k])
        decreases |rest|
      {
        var k :| k in rest;
        var n := nodes[k];
        var sorted := SortSet(n.constraints);
        StrictlySortedUnique(sorted, SortedOf(n.constraints));
        views := views[k := NodeView(n.rid, n.goal, StateName(n.state), n.anchors, sorted, EvidenceKinds(n.evidences))];
        rest := rest - {k};
      }
      v := GraphView(activeRid, views, EventViews(events));
    }
  }
}
