/** The folder tree panel: the nested node objects `getFolderTree` resolves
    to, the set of expanded folder ids collected when they load, the toggle
    that flips one id in that set and in the store, and the rows the panel
    renders (a folder's children only while it is expanded). */
module TreeView {
  import opened Values
  import opened FolderModel
  import opened FolderForest
  import opened FolderStore

  /** A node object: the folder's own fields plus its `children` array. */
  datatype TreeNode = TreeNode(folder: Folder, children: seq<TreeNode>)

  /** The folder ids of a list of nodes, position by position. */
  function NodeIds(ns: seq<TreeNode>): (r: seq<nat>)
    ensures |r| == |ns|
    ensures forall k :: 0 <= k < |ns| ==> r[k] == ns[k].folder.id
  {
    if ns == [] then [] else [ns[0].folder.id] + NodeIds(ns[1..])
  }

  // ---------------------------------------------------------------------
  // From the id-keyed forest to nested node objects
  // ---------------------------------------------------------------------

  /** Every child id under `x` has a node of strictly larger rank. */
  ghost predicate ChildrenAbove(t: Forest, rank: nat -> nat, x: nat)
    requires x in t.children
  {
    forall y :: y in t.children[x] ==> y in t.nodes && rank(x) < rank(y)
  }

  /** Every node holds a folder with its own id, a child list and a rank at
      most `bound`, and every child has a larger rank than its parent. */
  ghost predicate RankedForest(t: Forest, rank: nat -> nat, bound: nat)
  {
    && (forall x :: x in t.nodes ==> t.nodes[x].id == x && x in t.children && rank(x) <= bound)
    && (forall x :: x in t.children ==> ChildrenAbove(t, rank, x))
  }

  lemma NodeIsRanked(list: seq<Folder>, t: Forest, rank: nat -> nat, x: nat)
    requires IsForestOf(list, t) && x in t.nodes
    ensures t.nodes[x].id == x && x in t.children && rank(x) <= MaxRank(list, rank)
  {
    var i := LastIndexOf(list, x);
    assert list[i] in list;
  }

  lemma ChildrenOfNodeRanked(list: seq<Folder>, t: Forest, rank: nat -> nat, x: nat)
    requires IsForestOf(list, t) && Ranked(list, rank) && x in t.children
    ensures ChildrenAbove(t, rank, x)
  {
    forall y | y in t.children[x]
      ensures y in t.nodes && rank(x) < rank(y)
    {
      ChildIsRanked(list, t, rank, x, y);
    }
  }

  lemma ChildIsRanked(list: seq<Folder>, t: Forest, rank: nat -> nat, x: nat, y: nat)
    requires IsForestOf(list, t) && Ranked(list, rank)
    requires x in t.children && y in t.children[x]
    ensures y in t.nodes && rank(x) < rank(y)
  {
    var f := PlacedFrom(list, Some(x), y);
    RecordHasNode(list, t, f);
  }

  lemma RootHasNode(list: seq<Folder>, t: Forest, y: nat)
    requires IsForestOf(list, t) && y in t.roots
    ensures y in t.nodes
  {
    var f := PlacedFrom(list, None, y);
    RecordHasNode(list, t, f);
  }

  lemma NodesAreRanked(list: seq<Folder>, t: Forest, rank: nat -> nat)
    requires IsForestOf(list, t)
    ensures forall x :: x in t.nodes ==> t.nodes[x].id == x && x in t.children && rank(x) <= MaxRank(list, rank)
  {
    forall x | x in t.nodes
      ensures t.nodes[x].id == x && x in t.children && rank(x) <= MaxRank(list, rank)
    {
      NodeIsRanked(list, t, rank, x);
    }
  }

  lemma ChildrenAreRanked(list: seq<Folder>, t: Forest, rank: nat -> nat)
    requires IsForestOf(list, t) && Ranked(list, rank)
    ensures forall x :: x in t.children ==> ChildrenAbove(t, rank, x)
  {
    forall x | x in t.children
      ensures ChildrenAbove(t, rank, x)
    {
      ChildrenOfNodeRanked(list, t, rank, x);
    }
  }

  /** The forest built from ranked folders is ranked, and its roots have nodes. */
  lemma ForestIsRanked(list: seq<Folder>, t: Forest, rank: nat -> nat)
    requires IsForestOf(list, t) && Ranked(list, rank)
    ensures RankedForest(t, rank, MaxRank(list, rank))
    ensures forall y :: y in t.roots ==> y in t.nodes
  {
    NodesAreRanked(list, t, rank);
    ChildrenAreRanked(list, t, rank);
    forall y | y in t.roots
      ensures y in t.nodes
    {
      RootHasNode(list, t, y);
    }
  }

  /** The node object for id `x`: the object `folderMap[x]`, whose children
      are the node objects pushed under it. The recursion ends because every
      child has a larger rank than its parent. */
  function Nest(t: Forest, ghost rank: nat -> nat, ghost bound: nat, x: nat): (n: TreeNode)
    requires RankedForest(t, rank, bound) && x in t.nodes
    ensures n.folder == t.nodes[x]
    ensures |n.children| == |t.children[x]|
    decreases bound + 1 - rank(x), 1, 0
  {
    TreeNode(t.nodes[x], NestAll(t, rank, bound, t.children[x], Some(x)))
  }

  /** The node objects for a list of ids that all lie below `p` (or are
      roots, when `p` is `None`). */
  function NestAll(t: Forest, ghost rank: nat -> nat, ghost bound: nat, ids: seq<nat>, ghost p: Option<nat>)
    : (r: seq<TreeNode>)
    requires RankedForest(t, rank, bound)
    requires p.Some? ==> p.value in t.nodes
    requires forall y :: y in ids ==> y in t.nodes && (p.Some? ==> rank(p.value) < rank(y))
    ensures |r| == |ids|
    ensures forall k :: 0 <= k < |ids| ==> r[k].folder == t.nodes[ids[k]]
    decreases bound + 1 - (if p.Some? then rank(p.value) else -1), 0, |ids|
  {
    if ids == [] then []
    else [Nest(t, rank, bound, ids[0])] + NestAll(t, rank, bound, ids[1..], p)
  }

  /** The array `getFolderTree` resolves to: one node object per root id. */
  function TreeOf(list: seq<Folder>, t: Forest, ghost rank: nat -> nat): (r: seq<TreeNode>)
    requires IsForestOf(list, t) && Ranked(list, rank)
    ensures NodeIds(r) == t.roots
  {
    ForestIsRanked(list, t, rank);
    var r := NestAll(t, rank, MaxRank(list, rank), t.roots, None);
    assert NodeIds(r) == t.roots by {
      forall k | 0 <= k < |r| ensures NodeIds(r)[k] == t.roots[k] {
        assert t.roots[k] in t.roots;
      }
    }
    r
  }

  // ---------------------------------------------------------------------
  // Walking the nested nodes
  // ---------------------------------------------------------------------

  /** Every folder of the nodes, each before its children (preorder). */
  function Flatten(ns: seq<TreeNode>): (r: seq<Folder>)
    ensures |r| >= |ns|
    decreases ns
  {
    if ns == [] then []
    else [ns[0].folder] + Flatten(ns[0].children) + Flatten(ns[1..])
  }

  lemma {:induction false} FlattenConcat(a: seq<TreeNode>, b: seq<TreeNode>)
    ensures Flatten(a + b) == Flatten(a) + Flatten(b)
  {
    if a == [] {
      assert a + b == b;
    } else {
      assert (a + b)[0] == a[0] && (a + b)[1..] == a[1..] + b;
      FlattenConcat(a[1..], b);
    }
  }

  /** Every folder reachable in a nested tree is the node the forest keeps
      for its id, so two nodes with the same id carry the same fields. */
  lemma {:induction false} NestedFoldersAreNodes(t: Forest, rank: nat -> nat, bound: nat, ids: seq<nat>, p: Option<nat>)
    requires RankedForest(t, rank, bound)
    requires p.Some? ==> p.value in t.nodes
    requires forall y :: y in ids ==> y in t.nodes && (p.Some? ==> rank(p.value) < rank(y))
    ensures forall f :: f in Flatten(NestAll(t, rank, bound, ids, p)) ==> f.id in t.nodes && t.nodes[f.id] == f
    decreases bound + 1 - (if p.Some? then rank(p.value) else -1), |ids|
  {
    if ids != [] {
      var x := ids[0];
      var n := Nest(t, rank, bound, x);
      var rest := NestAll(t, rank, bound, ids[1..], p);
      assert NestAll(t, rank, bound, ids, p) == [n] + rest;
      NestedFoldersAreNodes(t, rank, bound, t.children[x], Some(x));
      NestedFoldersAreNodes(t, rank, bound, ids[1..], p);
      assert Flatten([n] + rest) == [n.folder] + Flatten(n.children) + Flatten(rest);
    }
  }

  /** The ids of the folders marked expanded anywhere in the nodes. */
  ghost function ExpandedIds(ns: seq<TreeNode>): set<nat>
  {
    set f | f in Flatten(ns) && f.isExpanded :: f.id
  }

  lemma ExpandedIdsConcat(a: seq<TreeNode>, b: seq<TreeNode>)
    ensures ExpandedIds(a + b) == ExpandedIds(a) + ExpandedIds(b)
  {
    FlattenConcat(a, b);
  }

  lemma ExpandedIdsNode(n: TreeNode)
    ensures ExpandedIds([n]) == (if n.folder.isExpanded then {n.folder.id} else {}) + ExpandedIds(n.children)
  {
    assert [n][1..] == [];
    assert Flatten([n]) == [n.folder] + Flatten(n.children);
  }

  /** One more node adds its own id when it is expanded, and the expanded
      ids below it. */
  lemma ExpandedIdsStep(ns: seq<TreeNode>, i: nat)
    requires i < |ns|
    ensures ExpandedIds(ns[..i + 1])
         == ExpandedIds(ns[..i]) + (if ns[i].folder.isExpanded then {ns[i].folder.id} else {}) + ExpandedIds(ns[i].children)
  {
    ExpandedIdsNode(ns[i]);
    ExpandedIdsConcat(ns[..i], [ns[i]]);
    assert ns[..i + 1] == ns[..i] + [ns[i]];
  }

  /** `addExpandedChildren`: adds the id of every expanded node among
      `children` and, recursively, among their children. */
  method AddExpandedChildren(children: seq<TreeNode>, acc: set<nat>) returns (r: set<nat>)
    ensures r == acc + ExpandedIds(children)
    decreases children
  {
    r := acc;
    var i := 0;
    while i < |children|
      invariant 0 <= i <= |children|
      invariant r == acc + ExpandedIds(children[..i])
    {
      var child := children[i];
      if child.folder.isExpanded {
        r := r + {child.folder.id};
      }
      r := AddExpandedChildren(child.children, r);
      ExpandedIdsStep(children, i);
      i := i + 1;
    }
    assert children[..i] == children;
  }

  /** The set `loadFolders` starts from: the ids of every node, at any depth,
      whose folder is marked expanded. */
  method InitialExpanded(tree: seq<TreeNode>) returns (r: set<nat>)
    ensures r == ExpandedIds(tree)
  {
    r := {};
    var i := 0;
    while i < |tree|
      invariant 0 <= i <= |tree|
      invariant r == ExpandedIds(tree[..i])
    {
      var folder := tree[i];
      if folder.folder.isExpanded {
        r := r + {folder.folder.id};
      }
      r := AddExpandedChildren(folder.children, r);
      ExpandedIdsStep(tree, i);
      i := i + 1;
    }
    assert tree[..i] == tree;
  }

  /** Right after loading, a folder shown anywhere in the tree is in the set
      exactly when its flag says it is expanded. */
  lemma LoadedSetMatchesFlags(list: seq<Folder>, t: Forest, rank: nat -> nat)
    requires IsForestOf(list, t) && Ranked(list, rank)
    ensures forall f :: f in Flatten(TreeOf(list, t, rank)) ==> (f.id in ExpandedIds(TreeOf(list, t, rank)) <==> f.isExpanded)
  {
    ForestIsRanked(list, t, rank);
    var tree := TreeOf(list, t, rank);
    NestedFoldersAreNodes(t, rank, MaxRank(list, rank), t.roots, None);
    forall f | f in Flatten(tree)
      ensures f.id in ExpandedIds(tree) <==> f.isExpanded
    {
      if f.id in ExpandedIds(tree) {
        var g :| g in Flatten(tree) && g.isExpanded && g.id == f.id;
        assert g == t.nodes[f.id] == f;
      }
    }
  }

  // ---------------------------------------------------------------------
  // Toggling
  // ---------------------------------------------------------------------

  /** `toggleFolder`'s new set: the id is removed when present, added
      otherwise. */
  function Flip(s: set<nat>, id: nat): (r: set<nat>)
    ensures id in r <==> id !in s
    ensures forall x :: x != id ==> (x in r <==> x in s)
  {
    if id in s then s - {id} else s + {id}
  }

  /** Toggling the same folder twice restores the set. */
  lemma FlipTwice(s: set<nat>, id: nat)
    ensures Flip(Flip(s, id), id) == s
  {
  }

  /** Every stored folder is in the set exactly when its flag is set. */
  ghost predicate InSync(fs: seq<Folder>, expanded: set<nat>)
  {
    forall f :: f in fs ==> (f.id in expanded <==> f.isExpanded)
  }

  /** With unique ids, a toggle keeps the set and the stored flags in
      agreement, also when no folder has the id (then neither the flags nor,
      for any stored folder, the set changes). */
  lemma ToggleKeepsSync(fs: seq<Folder>, expanded: set<nat>, id: nat, now: nat)
    requires UniqueIds(fs) && InSync(fs, expanded)
    ensures InSync(Toggled(fs, id, now), Flip(expanded, id))
  {
    var i := IndexOf(fs, id);
    var gs := Toggled(fs, id, now);
    forall g | g in gs
      ensures g.id in Flip(expanded, id) <==> g.isExpanded
    {
      var k :| 0 <= k < |gs| && gs[k] == g;
      if i != -1 && k == i {
        assert fs[i] in fs;
      } else {
        assert fs[k] in fs && g == fs[k];
        assert g.id != id;
      }
    }
  }

  // ---------------------------------------------------------------------
  // Rendering
  // ---------------------------------------------------------------------

  /** What `renderFolder` draws for one folder: its id and name, the left
      padding in pixels, the chevron (`None` when it has no children), the
      folder icon, the child-count badge and whether it is highlighted. */
  datatype Row = Row(
    id: nat,
    name: string,
    paddingLeft: nat,
    chevron: Option<string>,
    icon: string,
    badge: Option<nat>,
    selected: bool)

  function RowOf(n: TreeNode, expanded: set<nat>, selectedFolderId: Value, level: nat): (row: Row)
    ensures row.id == n.folder.id && row.paddingLeft == level * 16 + 8
    ensures row.chevron.None? <==> n.children == []
    ensures row.chevron.Some? ==> (row.chevron.value == "ChevronDown" <==> n.folder.id in expanded)
    ensures row.badge.None? <==> n.children == []
    ensures row.badge.Some? ==> row.badge.value == |n.children|
    ensures row.icon == "FolderOpen" <==> n.folder.id in expanded && n.children != []
    ensures row.selected <==> selectedFolderId == Num(n.folder.id)
  {
    var isExpanded := n.folder.id in expanded;
    var hasChildren := |n.children| > 0;
    Row(
      n.folder.id,
      n.folder.name,
      level * 16 + 8,
      if hasChildren then Some(if isExpanded then "ChevronDown" else "ChevronRight") else None,
      if isExpanded && hasChildren then "FolderOpen" else "Folder",
      if hasChildren then Some(|n.children|) else None,
      selectedFolderId == Num(n.folder.id))
  }

  /** The rows of `nodes.map(n => renderFolder(n, level))`: each node's row,
      then, when it is expanded and has children, its children's rows one
      level deeper. */
  function Rows(ns: seq<TreeNode>, expanded: set<nat>, selectedFolderId: Value, level: nat): (r: seq<Row>)
    ensures |r| >= |ns|
    ensures ns != [] ==> r[0] == RowOf(ns[0], expanded, selectedFolderId, level)
    decreases ns
  {
    if ns == [] then []
    else
      var n := ns[0];
      [RowOf(n, expanded, selectedFolderId, level)]
      + (if n.folder.id in expanded && n.children != [] then Rows(n.children, expanded, selectedFolderId, level + 1) else [])
      + Rows(ns[1..], expanded, selectedFolderId, level)
  }

  /** The folder ids of a list of rows, position by position. */
  function RowIds(rows: seq<Row>): (r: seq<nat>)
    ensures |r| == |rows|
    ensures forall k :: 0 <= k < |rows| ==> r[k] == rows[k].id
  {
    if rows == [] then [] else [rows[0].id] + RowIds(rows[1..])
  }

  lemma {:induction false} RowIdsConcat(a: seq<Row>, b: seq<Row>)
    ensures RowIds(a + b) == RowIds(a) + RowIds(b)
  {
    if a == [] {
      assert a + b == b;
    } else {
      assert (a + b)[1..] == a[1..] + b;
      RowIdsConcat(a[1..], b);
    }
  }

  /** With none of the top-level folders expanded, exactly one row per node
      is drawn, in order. */
  lemma {:induction false} CollapsedRows(ns: seq<TreeNode>, expanded: set<nat>, sel: Value, level: nat)
    requires forall k :: 0 <= k < |ns| ==> ns[k].folder.id !in expanded
    ensures RowIds(Rows(ns, expanded, sel, level)) == NodeIds(ns)
  {
    if ns != [] {
      var head := RowOf(ns[0], expanded, sel, level);
      var rest := Rows(ns[1..], expanded, sel, level);
      assert ns[0].folder.id !in expanded;
      assert Rows(ns, expanded, sel, level) == [head] + rest by {
        assert [head] + [] + rest == [head] + rest;
      }
      CollapsedRows(ns[1..], expanded, sel, level);
      RowIdsConcat([head], rest);
      assert NodeIds(ns) == [ns[0].folder.id] + NodeIds(ns[1..]);
    }
  }

  /** ... and all those rows sit at the indentation of their level. */
  lemma {:induction false} CollapsedIndent(ns: seq<TreeNode>, expanded: set<nat>, sel: Value, level: nat)
    requires forall k :: 0 <= k < |ns| ==> ns[k].folder.id !in expanded
    ensures forall k :: 0 <= k < |Rows(ns, expanded, sel, level)| ==> Rows(ns, expanded, sel, level)[k].paddingLeft == level * 16 + 8
  {
    if ns != [] {
      var head := RowOf(ns[0], expanded, sel, level);
      var rest := Rows(ns[1..], expanded, sel, level);
      assert ns[0].folder.id !in expanded;
      assert Rows(ns, expanded, sel, level) == [head] + rest by {
        assert [head] + [] + rest == [head] + rest;
      }
      CollapsedIndent(ns[1..], expanded, sel, level);
    }
  }

  /** At most one row per folder of the tree, and only folders of the tree. */
  lemma {:induction false} RowsWithinTree(ns: seq<TreeNode>, expanded: set<nat>, sel: Value, level: nat)
    ensures |Rows(ns, expanded, sel, level)| <= |Flatten(ns)|
    ensures forall row :: row in Rows(ns, expanded, sel, level) ==> exists f :: f in Flatten(ns) && f.id == row.id
    decreases ns
  {
    if ns != [] {
      var n := ns[0];
      RowsWithinTree(n.children, expanded, sel, level + 1);
      RowsWithinTree(ns[1..], expanded, sel, level);
      var inner := if n.folder.id in expanded && n.children != [] then Rows(n.children, expanded, sel, level + 1) else [];
      var rest := Rows(ns[1..], expanded, sel, level);
      assert Rows(ns, expanded, sel, level) == [RowOf(n, expanded, sel, level)] + inner + rest;
      assert Flatten(ns) == [n.folder] + Flatten(n.children) + Flatten(ns[1..]);
      forall row | row in Rows(ns, expanded, sel, level)
        ensures exists f :: f in Flatten(ns) && f.id == row.id
      {
        if row in inner {
          var f :| f in Flatten(n.children) && f.id == row.id;
          assert f in Flatten(ns);
        } else if row in rest {
          var f :| f in Flatten(ns[1..]) && f.id == row.id;
          assert f in Flatten(ns);
        } else {
          assert n.folder in Flatten(ns);
        }
      }
    }
  }

  /** With every folder of the tree expanded, the rows are the whole tree
      in preorder. */
  lemma {:induction false} ExpandedRows(ns: seq<TreeNode>, expanded: set<nat>, sel: Value, level: nat)
    requires forall f :: f in Flatten(ns) ==> f.id in expanded
    ensures RowIds(Rows(ns, expanded, sel, level)) == IdList(Flatten(ns))
    decreases ns
  {
    if ns != [] {
      var n := ns[0];
      var fc, fr := Flatten(n.children), Flatten(ns[1..]);
      assert Flatten(ns) == [n.folder] + fc + fr;
      assert n.folder in Flatten(ns);
      ExpandedRows(n.children, expanded, sel, level + 1);
      ExpandedRows(ns[1..], expanded, sel, level);
      var head := RowOf(n, expanded, sel, level);
      var inner := Rows(n.children, expanded, sel, level + 1);
      var rest := Rows(ns[1..], expanded, sel, level);
      assert Rows(ns, expanded, sel, level) == [head] + inner + rest by {
        if n.children == [] {
          assert inner == [];
        }
      }
      RowIdsConcat([head] + inner, rest);
      RowIdsConcat([head], inner);
      IdListConcat([n.folder] + fc, fr);
      IdListConcat([n.folder], fc);
    }
  }

  /** Every node of a level is drawn, whatever is expanded. */
  lemma {:induction false} EveryNodeDrawn(ns: seq<TreeNode>, expanded: set<nat>, sel: Value, level: nat, k: nat)
    requires k < |ns|
    ensures RowOf(ns[k], expanded, sel, level) in Rows(ns, expanded, sel, level)
    decreases k
  {
    if k == 0 {
      assert Rows(ns, expanded, sel, level)[0] == RowOf(ns[0], expanded, sel, level);
    } else {
      EveryNodeDrawn(ns[1..], expanded, sel, level, k - 1);
      assert ns[1..][k - 1] == ns[k];
      DrawnAfterFirst(ns, expanded, sel, level, RowOf(ns[k], expanded, sel, level));
    }
  }

  /** A row drawn for the later nodes of a level is drawn for the level. */
  lemma DrawnAfterFirst(ns: seq<TreeNode>, expanded: set<nat>, sel: Value, level: nat, row: Row)
    requires ns != [] && row in Rows(ns[1..], expanded, sel, level)
    ensures row in Rows(ns, expanded, sel, level)
  {
    var n := ns[0];
    var below := if n.folder.id in expanded && n.children != [] then Rows(n.children, expanded, sel, level + 1) else [];
    InRightPart(row, [RowOf(n, expanded, sel, level)] + below, Rows(ns[1..], expanded, sel, level));
  }

  /** Whatever a sequence holds, a longer one ending in it holds too. */
  lemma InRightPart<T>(x: T, a: seq<T>, b: seq<T>)
    requires x in b
    ensures x in a + b
  {
    var j :| 0 <= j < |b| && b[j] == x;
    assert (a + b)[|a| + j] == x;
  }

  /** Below an expanded folder with children every child is drawn, one
      level deeper and so indented 16 pixels further. */
  lemma ChildAtNextLevel(n: TreeNode, expanded: set<nat>, sel: Value, level: nat, k: nat)
    requires n.folder.id in expanded && k < |n.children|
    ensures RowOf(n.children[k], expanded, sel, level + 1) in Rows([n], expanded, sel, level)
    ensures RowOf(n.children[k], expanded, sel, level + 1).paddingLeft == RowOf(n, expanded, sel, level).paddingLeft + 16
  {
    EveryNodeDrawn(n.children, expanded, sel, level + 1, k);
    assert [n][1..] == [];
  }

  /** Expanding more folders never hides a row: the row count grows with
      the expanded set. */
  lemma {:induction false} RowsMonotone(ns: seq<TreeNode>, e1: set<nat>, e2: set<nat>, sel: Value, level: nat)
    requires e1 <= e2
    ensures |Rows(ns, e1, sel, level)| <= |Rows(ns, e2, sel, level)|
    decreases ns
  {
    if ns != [] {
      var n := ns[0];
      RowsMonotone(n.children, e1, e2, sel, level + 1);
      RowsMonotone(ns[1..], e1, e2, sel, level);
    }
  }

  // ---------------------------------------------------------------------
  // The panel's state
  // ---------------------------------------------------------------------

  class FolderTreePanel {
    var folderTree: seq<TreeNode>
    var loading: bool
    var error: Option<string>
    var expandedFolders: set<nat>
    const service: FolderService

    /** The first render: an empty tree, loading, no error, nothing expanded. */
    constructor (service: FolderService)
      ensures this.service == service
      ensures folderTree == [] && loading && error.None? && expandedFolders == {}
    {
      this.service := service;
      folderTree := [];
      loading := true;
      error := None;
      expandedFolders := {};
    }

    /** `loadFolders`: the tree of the stored folders is shown and every
        folder in it marked expanded starts expanded. */
    method LoadFolders(ghost rank: nat -> nat) returns (t: Forest)
      requires Ranked(service.folders, rank)
      modifies this
      ensures IsForestOf(service.folders, t)
      ensures folderTree == TreeOf(service.folders, t, rank)
      ensures expandedFolders == ExpandedIds(folderTree)
      ensures !loading && error == old(error)
    {
      loading := true;
      t := service.GetFolderTree();
      var tree := TreeOf(service.folders, t, rank);
      folderTree := tree;
      expandedFolders := InitialExpanded(tree);
      loading := false;
    }

    /** `toggleFolder`: the set is flipped first; the store's flag is then
        flipped too, or, when no folder has the id, a failure is reported
        and the set stays flipped. */
    method ToggleFolder(folderId: nat, now: nat) returns (failed: bool)
      modifies this, service
      ensures expandedFolders == Flip(old(expandedFolders), folderId)
      ensures service.folders == Toggled(old(service.folders), folderId, now)
      ensures failed <==> IndexOf(old(service.folders), folderId) == -1
      ensures folderTree == old(folderTree) && loading == old(loading) && error == old(error)
    {
      var newExpanded := expandedFolders;
      if folderId in newExpanded {
        newExpanded := newExpanded - {folderId};
      } else {
        newExpanded := newExpanded + {folderId};
      }
      expandedFolders := newExpanded;
      var r := service.ToggleExpanded(folderId, now);
      failed := r.Err?;
    }

    /** The rows below the "All Files" entry. */
    function VisibleRows(selectedFolderId: Value): (r: seq<Row>)
      reads this
      ensures r == Rows(folderTree, expandedFolders, selectedFolderId, 0)
      ensures |r| >= |folderTree|
    {
      Rows(folderTree, expandedFolders, selectedFolderId, 0)
    }
  }
}
