/**
  The behaviour-tree view (api/routes_execution.go): the runtime reports a nested tree per
  tick, and the console gets the flat list of its nodes, each with its depth.
 */
module BehaviorTree {
  import opened Prelude
  import opened Sequences
  import opened Text

  /** A piece of the reported JSON: nothing, null, something that is not a node object, or a node. */
  datatype Raw =
    | Absent
    | Null
    | Malformed
    | Node(
        name: string, kind: string, status: string, durationMs: int, executionId: string, timestamp: string,
        proposal: Option<string>, envelope: string, children: seq<Raw>)

  /** What the console shows of a node, apart from its depth. */
  datatype Info = Info(
    name: string, kind: string, status: string, durationMs: int, executionId: string, timestamp: string,
    proposal: Option<string>, envelope: string)

  datatype Row = Row(depth: nat, info: Info)

  function LowerChar(c: char): char { if 'A' <= c <= 'Z' then c - 'A' + 'a' else c }

  predicate Kept(raw: Raw) { raw.Node? && raw.name != "" }

  function Status(raw: Raw): string
    requires raw.Node?
  {
    if raw.status == "" then "pending" else raw.status
  }

  function Envelope(raw: Raw): string
    requires raw.Node?
  {
    if raw.envelope != "" then raw.envelope
    else if Status(raw) == "violation" then "violated"
    else if Status(raw) == "completed" || Status(raw) == "Success" then "passed"
    else ""
  }

  function InfoOf(raw: Raw): Info
    requires raw.Node?
  {
    Info(raw.name, Lower(LowerChar, raw.kind), Status(raw), raw.durationMs, raw.executionId, raw.timestamp, raw.proposal,
          Envelope(raw))
  }

  /** The rows of one reported node and everything below it; a nameless node hides its whole subtree. */
  function Flatten(raw: Raw, depth: nat): seq<Row>
    decreases raw
  {
    if Kept(raw) then [Row(depth, InfoOf(raw))] + FlattenAll(raw.children, depth + 1) else []
  }

  function FlattenAll(raws: seq<Raw>, depth: nat): seq<Row>
    decreases raws
  {
    if raws == [] then [] else Flatten(raws[0], depth) + FlattenAll(raws[1..], depth)
  }

  // ---------------------------------------------------------------------------------
  // Trees and the reader of the depth column
  // ---------------------------------------------------------------------------------

  datatype Tree = Tree(info: Info, children: seq<Tree>)

  /** The reported tree with every nameless or unreadable node cut off, as a forest of at most one tree. */
  function Prune(raw: Raw): seq<Tree>
    decreases raw
  {
    if Kept(raw) then [Tree(InfoOf(raw), PruneAll(raw.children))] else []
  }

  function PruneAll(raws: seq<Raw>): seq<Tree>
    decreases raws
  {
    if raws == [] then [] else Prune(raws[0]) + PruneAll(raws[1..])
  }

  function Size(trees: seq<Tree>): nat
    decreases trees
  {
    if trees == [] then 0 else 1 + Size(trees[0].children) + Size(trees[1..])
  }

  /** A forest listed in preorder. */
  function Rows(trees: seq<Tree>, depth: nat): seq<Row>
    decreases trees
  {
    if trees == [] then []
    else [Row(depth, trees[0].info)] + Rows(trees[0].children, depth + 1) + Rows(trees[1..], depth)
  }

  /** Reads the trees rooted at `depth` off the front of a list; the second part is what is left. */
  function Rebuild(rows: seq<Row>, depth: nat): (r: (seq<Tree>, seq<Row>))
    ensures |r.1| <= |rows|
    decreases |rows|
  {
    if rows == [] || rows[0].depth != depth then ([], rows)
    else
      var (children, rest) := Rebuild(rows[1..], depth + 1);
      var (siblings, rest') := Rebuild(rest, depth);
      ([Tree(rows[0].info, children)] + siblings, rest')
  }

  // ---------------------------------------------------------------------------------
  // Round trips
  // ---------------------------------------------------------------------------------

  lemma {:induction false} RowsConcat(a: seq<Tree>, b: seq<Tree>, depth: nat)
    ensures Rows(a + b, depth) == Rows(a, depth) + Rows(b, depth)
    decreases |a|
  {
    if a == [] {
      assert a + b == b;
    } else {
      assert (a + b)[1..] == a[1..] + b;
      RowsConcat(a[1..], b, depth);
    }
  }

  lemma {:induction false} FlattenIsRows(raw: Raw, depth: nat)
    ensures Flatten(raw, depth) == Rows(Prune(raw), depth)
    decreases raw
  {
    if Kept(raw) {
      FlattenAllIsRows(raw.children, depth + 1);
      assert Prune(raw)[1..] == [];
    }
  }

  lemma {:induction false} FlattenAllIsRows(raws: seq<Raw>, depth: nat)
    ensures FlattenAll(raws, depth) == Rows(PruneAll(raws), depth)
    decreases raws
  {
    if raws != [] {
      FlattenIsRows(raws[0], depth);
      FlattenAllIsRows(raws[1..], depth);
      RowsConcat(Prune(raws[0]), PruneAll(raws[1..]), depth);
    }
  }

  /** A list that cannot go on with a tree at `depth`. */
  predicate Below(rows: seq<Row>, depth: nat) { rows == [] || rows[0].depth < depth }

  lemma {:induction false} RebuildRows(trees: seq<Tree>, depth: nat, suffix: seq<Row>)
    requires Below(suffix, depth)
    ensures Rebuild(Rows(trees, depth) + suffix, depth) == (trees, suffix)
    decreases trees
  {
    hide Rows, Rebuild;
    if trees == [] {
      RebuildNothing(depth, suffix);
    } else {
      var inner, after := Rows(trees[0].children, depth + 1), Rows(trees[1..], depth);
      RowsUnfold(trees, depth, suffix);
      RowsUnfold(trees[1..], depth, suffix);
      RebuildRows(trees[0].children, depth + 1, after + suffix);
      RebuildRows(trees[1..], depth, suffix);
      RebuildUnfolds(Row(depth, trees[0].info), inner + (after + suffix));
      assert trees == [Tree(trees[0].info, trees[0].children)] + trees[1..];
    }
  }

  lemma RebuildNothing(depth: nat, suffix: seq<Row>)
    requires Below(suffix, depth)
    ensures Rebuild(Rows([], depth) + suffix, depth) == ([], suffix)
  {
    assert Rows([], depth) + suffix == suffix;
  }

  lemma RowsUnfold(trees: seq<Tree>, depth: nat, suffix: seq<Row>)
    requires Below(suffix, depth)
    ensures Below(Rows(trees, depth) + suffix, depth + 1)
    ensures trees != [] ==>
      Rows(trees, depth) + suffix ==
      [Row(depth, trees[0].info)] + (Rows(trees[0].children, depth + 1) + (Rows(trees[1..], depth) + suffix))
  {
  }

  lemma RebuildUnfolds(row: Row, rows: seq<Row>)
    ensures
      var (children, rest) := Rebuild(rows, row.depth + 1);
      var (siblings, rest') := Rebuild(rest, row.depth);
      Rebuild([row] + rows, row.depth) == ([Tree(row.info, children)] + siblings, rest')
  {
    assert ([row] + rows)[1..] == rows;
  }

  /**
    Flattening loses nothing but what it prunes: reading the depth column back recovers the
    pruned tree, shape and labels, and there is one row per node of it.
   */
  lemma FlattenIsReversible(raw: Raw, depth: nat)
    ensures Rebuild(Flatten(raw, depth), depth) == (Prune(raw), [])
    ensures |Flatten(raw, depth)| == Size(Prune(raw))
  {
    FlattenIsRows(raw, depth);
    RebuildRows(Prune(raw), depth, []);
    assert Rows(Prune(raw), depth) + [] == Rows(Prune(raw), depth);
    OneRowPerNode(Prune(raw), depth);
  }

  lemma {:induction false} OneRowPerNode(trees: seq<Tree>, depth: nat)
    ensures |Rows(trees, depth)| == Size(trees)
    decreases trees
  {
    if trees != [] {
      OneRowPerNode(trees[0].children, depth + 1);
      OneRowPerNode(trees[1..], depth);
    }
  }

  // ---------------------------------------------------------------------------------
  // What a row shows
  // ---------------------------------------------------------------------------------

  /** The reported nodes that are shown, in preorder: nothing below a node without a name is. */
  function Shown(raw: Raw): seq<Raw>
    decreases raw
  {
    if raw.Node? && raw.name != "" then [raw] + ShownAll(raw.children) else []
  }

  function ShownAll(raws: seq<Raw>): seq<Raw>
    decreases raws
  {
    if raws == [] then [] else Shown(raws[0]) + ShownAll(raws[1..])
  }

  /** No capital letter, and otherwise the same text. */
  predicate LowerCased(lower: string, s: string) {
    |lower| == |s| && forall i | 0 <= i < |s| ::
      if 'A' <= s[i] <= 'Z' then lower[i] == s[i] + 32 as char else lower[i] == s[i]
  }

  /**
    The row repeats what was reported.  A node without a status is pending.  A reported
    envelope status is kept; otherwise a violation is shown as violated, a success as
    passed, and anything else as nothing.
   */
  predicate ShowsNode(info: Info, raw: Raw) {
    && raw.Node?
    && info.name == raw.name && LowerCased(info.kind, raw.kind) && info.durationMs == raw.durationMs
    && info.executionId == raw.executionId && info.timestamp == raw.timestamp && info.proposal == raw.proposal
    && (raw.status != "" ==> info.status == raw.status) && (raw.status == "" ==> info.status == "pending")
    && (raw.envelope != "" ==> info.envelope == raw.envelope)
    && (raw.envelope == "" ==>
          && (info.envelope == "violated" <==> raw.status == "violation")
          && (info.envelope == "passed" <==> raw.status == "completed" || raw.status == "Success")
          && (info.envelope == "violated" || info.envelope == "passed" || info.envelope == ""))
  }

  lemma {:induction false} LowerIs(s: string)
    ensures LowerCased(Lower(LowerChar, s), s)
  {
    if s != "" { LowerIs(s[1..]); }
  }

  lemma InfoShows(raw: Raw)
    requires raw.Node?
    ensures ShowsNode(InfoOf(raw), raw)
  {
    LowerIs(raw.kind);
    assert |"violated"| == 8 && |"passed"| == 6 && |"pending"| == 7 && |"violation"| == 9;
    assert |"completed"| == 9 && |"Success"| == 7 && "completed"[0] != "violation"[0] && "Success"[0] != "pending"[0];
  }

  /** Row by row, the console's list shows the reported nodes. */
  lemma {:induction false} RowsShowNodes(raw: Raw, depth: nat)
    ensures |Flatten(raw, depth)| == |Shown(raw)|
    ensures forall i | 0 <= i < |Shown(raw)| :: ShowsNode(Flatten(raw, depth)[i].info, Shown(raw)[i])
    decreases raw
  {
    if Kept(raw) {
      hide ShowsNode, InfoOf;
      InfoShows(raw);
      RowsShowAllNodes(raw.children, depth + 1);
    }
  }

  lemma {:induction false} RowsShowAllNodes(raws: seq<Raw>, depth: nat)
    ensures |FlattenAll(raws, depth)| == |ShownAll(raws)|
    ensures forall i | 0 <= i < |ShownAll(raws)| :: ShowsNode(FlattenAll(raws, depth)[i].info, ShownAll(raws)[i])
    decreases raws
  {
    if raws != [] {
      hide ShowsNode;
      RowsShowNodes(raws[0], depth);
      RowsShowAllNodes(raws[1..], depth);
    }
  }

  // ---------------------------------------------------------------------------------
  // The depth column
  // ---------------------------------------------------------------------------------

  /** Every row is at most one deeper than the row before it. */
  ghost predicate Gradual(rows: seq<Row>) {
    forall i :: 0 < i < |rows| ==> rows[i].depth <= rows[i - 1].depth + 1
  }

  /** The first row starts at `depth` and no row is above it. */
  ghost predicate From(rows: seq<Row>, depth: nat) {
    (rows == [] || rows[0].depth == depth) && forall i :: 0 <= i < |rows| ==> rows[i].depth >= depth
  }

  lemma GradualConcat(a: seq<Row>, b: seq<Row>, depth: nat)
    requires Gradual(a) && Gradual(b) && (b != [] && a != [] ==> b[0].depth <= a[|a| - 1].depth + 1)
    ensures Gradual(a + b)
  {
    forall i | 0 < i < |a + b| ensures (a + b)[i].depth <= (a + b)[i - 1].depth + 1 {
      if i > |a| { assert (a + b)[i] == b[i - |a|] && (a + b)[i - 1] == b[i - 1 - |a|]; }
    }
  }

  lemma {:induction false} RowsAreGradual(trees: seq<Tree>, depth: nat)
    ensures Gradual(Rows(trees, depth)) && From(Rows(trees, depth), depth)
    decreases trees
  {
    if trees != [] {
      var head := [Row(depth, trees[0].info)];
      var inner := Rows(trees[0].children, depth + 1);
      var rest := Rows(trees[1..], depth);
      RowsAreGradual(trees[0].children, depth + 1);
      RowsAreGradual(trees[1..], depth);
      GradualConcat(head, inner, depth);
      GradualConcat(head + inner, rest, depth);
    }
  }

  /** What reading off trees consumes is exactly their preorder. */
  lemma {:induction false} RebuildConsumes(rows: seq<Row>, depth: nat)
    ensures rows == Rows(Rebuild(rows, depth).0, depth) + Rebuild(rows, depth).1
    decreases |rows|
  {
    if rows == [] || rows[0].depth != depth {
      assert Rows([], depth) + rows == rows;
    } else {
      var row, tail := rows[0], rows[1..];
      assert rows == [row] + tail;
      RebuildConsumes(tail, depth + 1);
      RebuildConsumes(Rebuild(tail, depth + 1).1, depth);
      ConsumesCons(row, tail);
    }
  }

  lemma ConsumesCons(row: Row, tail: seq<Row>)
    requires
      var (children, rest) := Rebuild(tail, row.depth + 1);
      && tail == Rows(children, row.depth + 1) + rest
      && rest == Rows(Rebuild(rest, row.depth).0, row.depth) + Rebuild(rest, row.depth).1
    ensures
      var (trees, rest) := Rebuild([row] + tail, row.depth);
      [row] + tail == Rows(trees, row.depth) + rest
  {
    hide Rows, Rebuild;
    var (children, rest) := Rebuild(tail, row.depth + 1);
    var (siblings, rest') := Rebuild(rest, row.depth);
    RebuildUnfolds(row, tail);
    RowsCons(Tree(row.info, children), siblings, row.depth);
    Regroup([row], Rows(children, row.depth + 1), Rows(siblings, row.depth), rest');
  }

  lemma RowsCons(tree: Tree, siblings: seq<Tree>, depth: nat)
    ensures Rows([tree] + siblings, depth) ==
            [Row(depth, tree.info)] + Rows(tree.children, depth + 1) + Rows(siblings, depth)
  {
    assert ([tree] + siblings)[1..] == siblings;
  }

  lemma {:induction false} GradualIsConsumed(rows: seq<Row>, depth: nat)
    requires Gradual(rows) && (rows == [] || rows[0].depth <= depth)
    ensures Below(Rebuild(rows, depth).1, depth)
    decreases |rows|
  {
    if rows != [] && rows[0].depth == depth {
      var (children, rest) := Rebuild(rows[1..], depth + 1);
      assert Gradual(rows[1..]) by {
        forall i | 0 < i < |rows[1..]| ensures rows[1..][i].depth <= rows[1..][i - 1].depth + 1 {
          assert rows[1..][i] == rows[i + 1] && rows[1..][i - 1] == rows[i];
        }
      }
      GradualIsConsumed(rows[1..], depth + 1);
      RebuildConsumes(rows[1..], depth + 1);
      GradualSuffix(Rows(children, depth + 1), rest);
      GradualIsConsumed(rest, depth);
    }
  }

  lemma GradualSuffix(a: seq<Row>, b: seq<Row>)
    requires Gradual(a + b)
    ensures Gradual(b)
  {
    forall i | 0 < i < |b| ensures b[i].depth <= b[i - 1].depth + 1 {
      assert (a + b)[|a| + i] == b[i] && (a + b)[|a| + i - 1] == b[i - 1];
    }
  }

  /**
    The lists that are the preorder of some forest are exactly those that start at depth
    zero and never go down by more than one level at a time, and reading them back is the
    inverse.
   */
  lemma PreorderIffGradual(rows: seq<Row>)
    ensures (exists trees :: rows == Rows(trees, 0)) <==> Gradual(rows) && From(rows, 0)
    ensures Gradual(rows) && From(rows, 0) ==> rows == Rows(Rebuild(rows, 0).0, 0)
  {
    if trees :| rows == Rows(trees, 0) {
      RowsAreGradual(trees, 0);
    }
    if Gradual(rows) && From(rows, 0) {
      GradualIsConsumed(rows, 0);
      RebuildConsumes(rows, 0);
      assert rows == Rows(Rebuild(rows, 0).0, 0);
    }
  }

  /** In the console's list the root is the only row at depth zero, and depths grow by at most one. */
  lemma FlattenDepths(raw: Raw)
    ensures Gradual(Flatten(raw, 0)) && From(Flatten(raw, 0), 0)
    ensures forall i :: 0 < i < |Flatten(raw, 0)| ==> Flatten(raw, 0)[i].depth > 0
  {
    FlattenIsRows(raw, 0);
    RowsAreGradual(Prune(raw), 0);
    if Kept(raw) {
      FlattenAllIsRows(raw.children, 1);
      RowsAreGradual(PruneAll(raw.children), 1);
    }
  }

  // ---------------------------------------------------------------------------------
  // The slice that is appended to, and the snapshot
  // ---------------------------------------------------------------------------------

  lemma {:induction false} FlattenAllSnoc(raws: seq<Raw>, raw: Raw, depth: nat)
    ensures FlattenAll(raws + [raw], depth) == FlattenAll(raws, depth) + Flatten(raw, depth)
    decreases |raws|
  {
    if raws == [] {
      assert raws + [raw] == [raw] && [raw][1..] == [];
      assert FlattenAll([raw], depth) == Flatten(raw, depth) + FlattenAll([], depth);
    } else {
      assert (raws + [raw])[1..] == raws[1..] + [raw];
      FlattenAllSnoc(raws[1..], raw, depth);
    }
  }

  /** The fallbacks for a missing status and a missing envelope status. */
  method Describe(raw: Raw) returns (info: Info)
    requires raw.Node?
    ensures info == InfoOf(raw)
  {
    var status := raw.status;
    if status == "" {
      status := "pending";
    }
    var envelope := raw.envelope;
    if envelope == "" && status == "violation" {
      envelope := "violated";
    } else if envelope == "" && (status == "completed" || status == "Success") {
      envelope := "passed";
    }
    info := Info(raw.name, Lower(LowerChar, raw.kind), status, raw.durationMs, raw.executionId, raw.timestamp,
                 raw.proposal, envelope);
  }

  class NodeList {
    var nodes: seq<Row>

    constructor ()
      ensures nodes == []
    {
      nodes := [];
    }

    method FlattenTree(raw: Raw, depth: nat)
      modifies this
      ensures nodes == old(nodes) + Flatten(raw, depth)
      decreases raw
    {
      hide InfoOf;
      if !raw.Node? || raw.name == "" {
        return;
      }
      var info := Describe(raw);
      nodes := nodes + [Row(depth, info)];
      ghost var before := nodes;
      for i := 0 to |raw.children|
        invariant nodes == before + FlattenAll(raw.children[..i], depth + 1)
      {
        TakeSnoc(raw.children, i);
        FlattenAllSnoc(raw.children[..i], raw.children[i], depth + 1);
        FlattenTree(raw.children[i], depth + 1);
      }
      assert raw.children[..|raw.children|] == raw.children;
    }
  }

  datatype Snapshot = Unreadable | Snapshot(tick: int, status: string, tree: Raw)

  datatype View = PassedThrough(snapshot: Snapshot) | View(tick: int, status: string, nodes: seq<Row>, lastUpdated: string)

  /** A snapshot with nothing to show is passed through as it came; otherwise its pruned tree can be read off the view. */
  method EnrichSnapshot(snapshot: Snapshot, updatedAt: string) returns (view: View)
    ensures view.PassedThrough? <==> snapshot.Unreadable? || Prune(snapshot.tree) == []
    ensures view.PassedThrough? ==> view.snapshot == snapshot
    ensures view.View? ==> view.tick == snapshot.tick && view.status == snapshot.status && view.lastUpdated == updatedAt
    ensures view.View? ==> Rebuild(view.nodes, 0) == (Prune(snapshot.tree), [])
    ensures view.View? ==> Gradual(view.nodes) && From(view.nodes, 0)
  {
    if snapshot.Unreadable? {
      return PassedThrough(snapshot);
    }
    var list := new NodeList();
    list.FlattenTree(snapshot.tree, 0);
    FlattenIsReversible(snapshot.tree, 0);
    FlattenDepths(snapshot.tree);
    assert [] + Flatten(snapshot.tree, 0) == Flatten(snapshot.tree, 0);
    if list.nodes == [] {
      return PassedThrough(snapshot);
    }
    return View(snapshot.tick, snapshot.status, list.nodes, updatedAt);
  }
}
