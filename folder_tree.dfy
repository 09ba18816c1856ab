/** `buildFolderTree`: two passes over a flat folder list. The first keys a
    fresh node per id (a later record with the same id replaces an earlier
    one); the second appends each record to the root list when its parent
    is null, or to its parent node's `children` when a node with the parent
    id exists, and drops it otherwise. The shared node objects of the
    source are modelled by id: `nodes` maps an id to its folder, `children`
    maps an id to the ids of its children in input order. */
module FolderForest {
  import opened Values
  import opened FolderModel

  datatype Forest = Forest(nodes: map<nat, Folder>, children: map<nat, seq<nat>>, roots: seq<nat>)

  /** The ids of a list of folders, position by position. */
  function IdList(fs: seq<Folder>): (r: seq<nat>)
    ensures |r| == |fs|
    ensures forall j :: 0 <= j < |fs| ==> r[j] == fs[j].id
  {
    if fs == [] then [] else [fs[0].id] + IdList(fs[1..])
  }

  /** The last position holding a folder with this id, or -1. */
  function LastIndexOf(fs: seq<Folder>, id: nat): (i: int)
    ensures -1 <= i < |fs|
    ensures 0 <= i ==> fs[i].id == id
    ensures forall j :: 0 <= j < |fs| && i < j ==> fs[j].id != id
  {
    if fs == [] then -1
    else if fs[|fs| - 1].id == id then |fs| - 1
    else LastIndexOf(fs[..|fs| - 1], id)
  }

  /** The distinct ids of a list of folders. */
  function IdSet(fs: seq<Folder>): (r: set<nat>)
    ensures |r| <= |fs|
    ensures forall x :: x in r <==> LastIndexOf(fs, x) != -1
  {
    if fs == [] then {}
    else
      var before := IdSet(fs[..|fs| - 1]);
      assert |before + {fs[|fs| - 1].id}| <= |before| + 1;
      before + {fs[|fs| - 1].id}
  }

  /** `t` is what `buildFolderTree(list)` returns: a node for every id,
      holding the last record with that id; under every node the ids of the
      records naming it as parent, in input order; as roots the ids of the
      records whose parent is null, in input order. */
  ghost predicate IsForestOf(list: seq<Folder>, t: Forest)
  {
    && (forall x :: x in t.nodes <==> LastIndexOf(list, x) != -1)
    && (forall x :: x in t.nodes ==> t.nodes[x] == list[LastIndexOf(list, x)])
    && t.children.Keys == t.nodes.Keys
    && (forall x :: x in t.children ==> t.children[x] == IdList(ChildrenOf(list, Some(x))))
    && t.roots == IdList(ChildrenOf(list, None))
  }

  lemma {:induction false} ChildrenOfSnoc(fs: seq<Folder>, f: Folder, pid: Option<nat>)
    ensures ChildrenOf(fs + [f], pid) == ChildrenOf(fs, pid) + (if f.parentId == pid then [f] else [])
  {
    if fs == [] {
      assert fs + [f] == [f];
      assert [f][1..] == [];
    } else {
      assert (fs + [f])[1..] == fs[1..] + [f];
      ChildrenOfSnoc(fs[1..], f, pid);
    }
  }

  lemma IdListConcat(a: seq<Folder>, b: seq<Folder>)
    ensures IdList(a + b) == IdList(a) + IdList(b)
  {
    assert forall j :: 0 <= j < |a + b| ==> IdList(a + b)[j] == (IdList(a) + IdList(b))[j];
  }

  lemma RootsSnoc(prefix: seq<Folder>, f: Folder, whole: seq<Folder>, roots: seq<nat>, after: seq<nat>)
    requires whole == prefix + [f]
    requires roots == IdList(ChildrenOf(prefix, None))
    requires after == if f.parentId.None? then roots + [f.id] else roots
    ensures after == IdList(ChildrenOf(whole, None))
  {
    ChildrenOfSnoc(prefix, f, None);
    IdListConcat(ChildrenOf(prefix, None), if f.parentId.None? then [f] else []);
  }

  /** One record of the second pass, as seen by the root list. */
  lemma RootsStep(list: seq<Folder>, i: nat, roots: seq<nat>, after: seq<nat>)
    requires i < |list|
    requires roots == IdList(ChildrenOf(list[..i], None))
    requires after == if list[i].parentId.None? then roots + [list[i].id] else roots
    ensures after == IdList(ChildrenOf(list[..i + 1], None))
  {
    assert list[..i + 1] == list[..i] + [list[i]];
    RootsSnoc(list[..i], list[i], list[..i + 1], roots, after);
  }

  lemma ChildListSnoc(prefix: seq<Folder>, f: Folder, whole: seq<Folder>, x: nat, before: seq<nat>, after: seq<nat>)
    requires whole == prefix + [f]
    requires before == IdList(ChildrenOf(prefix, Some(x)))
    requires after == if f.parentId == Some(x) then before + [f.id] else before
    ensures after == IdList(ChildrenOf(whole, Some(x)))
  {
    ChildrenOfSnoc(prefix, f, Some(x));
    IdListConcat(ChildrenOf(prefix, Some(x)), if f.parentId == Some(x) then [f] else []);
  }

  lemma ChildListsSnoc(prefix: seq<Folder>, f: Folder, whole: seq<Folder>, children: map<nat, seq<nat>>, after: map<nat, seq<nat>>)
    requires whole == prefix + [f]
    requires forall x :: x in children ==> children[x] == IdList(ChildrenOf(prefix, Some(x)))
    requires f.parentId.Some? && f.parentId.value in children ==>
               after == children[f.parentId.value := children[f.parentId.value] + [f.id]]
    requires !(f.parentId.Some? && f.parentId.value in children) ==> after == children
    ensures after.Keys == children.Keys
    ensures forall x :: x in after ==> after[x] == IdList(ChildrenOf(whole, Some(x)))
  {
    forall x | x in after ensures after[x] == IdList(ChildrenOf(whole, Some(x))) {
      assert after[x] == if f.parentId == Some(x) then children[x] + [f.id] else children[x];
      ChildListSnoc(prefix, f, whole, x, children[x], after[x]);
    }
  }

  /** One record of the second pass, as seen by the children lists. */
  lemma ChildListsStep(list: seq<Folder>, i: nat, children: map<nat, seq<nat>>, after: map<nat, seq<nat>>)
    requires i < |list|
    requires forall x :: x in children ==> children[x] == IdList(ChildrenOf(list[..i], Some(x)))
    requires list[i].parentId.Some? && list[i].parentId.value in children ==>
               after == children[list[i].parentId.value := children[list[i].parentId.value] + [list[i].id]]
    requires !(list[i].parentId.Some? && list[i].parentId.value in children) ==> after == children
    ensures after.Keys == children.Keys
    ensures forall x :: x in after ==> after[x] == IdList(ChildrenOf(list[..i + 1], Some(x)))
  {
    assert list[..i + 1] == list[..i] + [list[i]];
    ChildListsSnoc(list[..i], list[i], list[..i + 1], children, after);
  }

  /** The first pass of `buildFolderTree`: a node with no children per id,
      the last record with that id winning. */
  method IndexNodes(list: seq<Folder>) returns (nodes: map<nat, Folder>, children: map<nat, seq<nat>>)
    ensures forall x :: x in nodes <==> LastIndexOf(list, x) != -1
    ensures forall x :: x in nodes ==> nodes[x] == list[LastIndexOf(list, x)]
    ensures children.Keys == nodes.Keys
    ensures forall x :: x in children ==> children[x] == []
  {
    nodes, children := map[], map[];
    var i := 0;
    while i < |list|
      invariant 0 <= i <= |list|
      invariant forall x :: x in nodes <==> LastIndexOf(list[..i], x) != -1
      invariant forall x :: x in nodes ==> nodes[x] == list[LastIndexOf(list[..i], x)]
      invariant children.Keys == nodes.Keys
      invariant forall x :: x in children ==> children[x] == []
    {
      assert list[..i + 1][..i] == list[..i];
      nodes := nodes[list[i].id := list[i]];
      children := children[list[i].id := []];
      i := i + 1;
    }
    assert (forall x :: x in nodes <==> LastIndexOf(list, x) != -1)
        && (forall x :: x in nodes ==> nodes[x] == list[LastIndexOf(list, x)]) by {
      assert list[..i] == list;
    }
  }

  /** The second pass of `buildFolderTree`: each record goes to the roots
      when its parent is null, under its parent's node when there is one,
      and nowhere otherwise. */
  method LinkNodes(list: seq<Folder>, keys: set<nat>, empty: map<nat, seq<nat>>) returns (children: map<nat, seq<nat>>, roots: seq<nat>)
    requires empty.Keys == keys
    requires forall x :: x in empty ==> empty[x] == []
    ensures children.Keys == keys
    ensures forall x :: x in children ==> children[x] == IdList(ChildrenOf(list, Some(x)))
    ensures roots == IdList(ChildrenOf(list, None))
  {
    children, roots := empty, [];
    var i := 0;
    assert forall x :: x in children ==> children[x] == IdList(ChildrenOf(list[..0], Some(x))) by {
      assert list[..0] == [];
    }
    while i < |list|
      invariant 0 <= i <= |list|
      invariant children.Keys == keys
      invariant forall x :: x in children ==> children[x] == IdList(ChildrenOf(list[..i], Some(x)))
      invariant roots == IdList(ChildrenOf(list[..i], None))
    {
      children, roots := Place(list, i, children, roots);
      i := i + 1;
    }
    assert (forall x :: x in children ==> children[x] == IdList(ChildrenOf(list, Some(x))))
        && roots == IdList(ChildrenOf(list, None)) by {
      assert list[..i] == list;
    }
  }

  /** One record of the second pass. */
  method Place(list: seq<Folder>, i: nat, children: map<nat, seq<nat>>, roots: seq<nat>)
      returns (children': map<nat, seq<nat>>, roots': seq<nat>)
    requires i < |list|
    requires forall x :: x in children ==> children[x] == IdList(ChildrenOf(list[..i], Some(x)))
    requires roots == IdList(ChildrenOf(list[..i], None))
    ensures children'.Keys == children.Keys
    ensures forall x :: x in children' ==> children'[x] == IdList(ChildrenOf(list[..i + 1], Some(x)))
    ensures roots' == IdList(ChildrenOf(list[..i + 1], None))
  {
    var f := list[i];
    children', roots' := children, roots;
    if f.parentId.None? {
      roots' := roots + [f.id];
    } else if f.parentId.value in children {
      var p := f.parentId.value;
      children' := children[p := children[p] + [f.id]];
    }
    RootsStep(list, i, roots, roots');
    ChildListsStep(list, i, children, children');
  }

  /** Both passes of `buildFolderTree`. */
  method BuildFolderTree(list: seq<Folder>) returns (t: Forest)
    ensures IsForestOf(list, t)
  {
    var nodes, empty := IndexNodes(list);
    var children, roots := LinkNodes(list, nodes.Keys, empty);
    t := Forest(nodes, children, roots);
  }

  /** A stored record's id keys a node. */
  lemma RecordHasNode(list: seq<Folder>, t: Forest, f: Folder)
    requires IsForestOf(list, t) && f in list
    ensures f.id in t.nodes
  {
    var k :| 0 <= k < |list| && list[k] == f;
    assert LastIndexOf(list, f.id) != -1;
  }

  /** With unique ids, the node keyed by a stored record's id is that record. */
  lemma PlacedRecord(list: seq<Folder>, t: Forest, f: Folder)
    requires IsForestOf(list, t) && UniqueIds(list) && f in list
    ensures f.id in t.nodes && t.nodes[f.id] == f
  {
    var k :| 0 <= k < |list| && list[k] == f;
    LastIndexOfUnique(list, k);
  }

  /** With unique ids, the last position holding an id is its only one. */
  lemma LastIndexOfUnique(list: seq<Folder>, k: nat)
    requires UniqueIds(list) && k < |list|
    ensures LastIndexOf(list, list[k].id) == k
  {
    var i := LastIndexOf(list, list[k].id);
    assert k <= i;
  }

  /** An id placed under `x` (or among the roots, for `None`) is that of a
      record whose parent is `x`. */
  lemma PlacedFrom(list: seq<Folder>, pid: Option<nat>, y: nat) returns (f: Folder)
    requires y in IdList(ChildrenOf(list, pid))
    ensures f in list && f.id == y && f.parentId == pid
  {
    var cs := ChildrenOf(list, pid);
    var j :| 0 <= j < |cs| && IdList(cs)[j] == y;
    assert cs[j] in cs;
    f := cs[j];
  }

  /** Every child placed under a node is a node naming that node as its parent. */
  lemma ChildNamesParent(list: seq<Folder>, t: Forest, x: nat, y: nat)
    requires IsForestOf(list, t) && UniqueIds(list)
    requires x in t.children && y in t.children[x]
    ensures y in t.nodes && t.nodes[y].parentId == Some(x)
  {
    var f := PlacedFrom(list, Some(x), y);
    PlacedRecord(list, t, f);
  }

  /** Every root is a node with a null parent. */
  lemma RootIsParentless(list: seq<Folder>, t: Forest, y: nat)
    requires IsForestOf(list, t) && UniqueIds(list)
    requires y in t.roots
    ensures y in t.nodes && t.nodes[y].parentId.None?
  {
    var f := PlacedFrom(list, None, y);
    PlacedRecord(list, t, f);
  }

  /** Every record with a null parent is a root; every record whose parent
      id is stored is placed under that parent. */
  lemma EveryResolvedRecordPlaced(list: seq<Folder>, t: Forest, f: Folder)
    requires IsForestOf(list, t) && f in list
    ensures f.parentId.None? ==> f.id in t.roots
    ensures f.parentId.Some? && f.parentId.value in t.nodes ==> f.id in t.children[f.parentId.value]
  {
    var cs := ChildrenOf(list, f.parentId);
    assert f in cs;
    var j :| 0 <= j < |cs| && cs[j] == f;
    assert IdList(cs)[j] == f.id;
  }

  /** A record whose parent id names no stored folder is dropped: with
      unique ids, its id is neither a root nor anyone's child. */
  lemma OrphanDropped(list: seq<Folder>, t: Forest, f: Folder, x: nat)
    requires IsForestOf(list, t) && UniqueIds(list) && f in list
    requires f.parentId.Some? && LastIndexOf(list, f.parentId.value) == -1
    ensures f.id !in t.roots
    ensures x in t.children ==> f.id !in t.children[x]
  {
    PlacedRecord(list, t, f);
    if f.id in t.roots {
      RootIsParentless(list, t, f.id);
    }
    if x in t.children && f.id in t.children[x] {
      ChildNamesParent(list, t, x, f.id);
    }
  }

  /** The forest has at most one node per input record. */
  lemma NodesBounded(list: seq<Folder>, t: Forest)
    requires IsForestOf(list, t)
    ensures t.nodes.Keys == IdSet(list) && |t.nodes.Keys| <= |list|
  {
  }

  /** Everything the forest places, as a root or as a child, is one of its nodes. */
  lemma PlacedAreNodes(list: seq<Folder>, t: Forest, x: nat, y: nat)
    requires IsForestOf(list, t)
    ensures y in t.roots ==> y in t.nodes
    ensures x in t.children && y in t.children[x] ==> y in t.nodes
  {
    if y in t.roots {
      var f := PlacedFrom(list, None, y);
      RecordHasNode(list, t, f);
    }
    if x in t.children && y in t.children[x] {
      var f := PlacedFrom(list, Some(x), y);
      RecordHasNode(list, t, f);
    }
  }

  /** With unique ids no node is placed twice over: an id is the child of at
      most one parent, and a child is never also a root. */
  lemma PlacedOnce(list: seq<Folder>, t: Forest, x1: nat, x2: nat, y: nat)
    requires IsForestOf(list, t) && UniqueIds(list)
    requires x1 in t.children && y in t.children[x1]
    ensures x2 in t.children && y in t.children[x2] ==> x1 == x2
    ensures y !in t.roots
  {
    ChildNamesParent(list, t, x1, y);
    if x2 in t.children && y in t.children[x2] {
      ChildNamesParent(list, t, x2, y);
    }
    if y in t.roots {
      RootIsParentless(list, t, y);
    }
  }
}
