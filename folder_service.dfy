/** The folder store: a flat list of folders changed in place by push
    (create), index assignment (update), field mutation (toggleExpanded)
    and splice (delete, which cascades to every descendant). Ids and
    timestamps, which the source draws from the clock, are parameters. */
module FolderStore {
  import opened Values
  import opened FolderModel
  import opened FolderForest

  /** The fields of a folder an `update` call may carry; `None` means the
      key is absent from `updates`. An `updatedAt` in `updates` is always
      overwritten, so it is not a field here. */
  datatype FolderPatch = FolderPatch(
    id: Option<nat>,
    name: Option<string>,
    parentId: Option<Option<nat>>,
    isExpanded: Option<bool>,
    createdAt: Option<nat>)

  /** `{ ...folder, ...updates, updatedAt: now }`: each key the patch
      carries wins, every other field is kept, and `updatedAt` is `now`. */
  function Patched(f: Folder, p: FolderPatch, now: nat): (g: Folder)
    ensures g.id == (if p.id.Some? then p.id.value else f.id)
    ensures g.name == (if p.name.Some? then p.name.value else f.name)
    ensures g.parentId == (if p.parentId.Some? then p.parentId.value else f.parentId)
    ensures g.isExpanded == (if p.isExpanded.Some? then p.isExpanded.value else f.isExpanded)
    ensures g.createdAt == (if p.createdAt.Some? then p.createdAt.value else f.createdAt)
    ensures g.updatedAt == now
  {
    Folder(
      if p.id.Some? then p.id.value else f.id,
      if p.name.Some? then p.name.value else f.name,
      if p.parentId.Some? then p.parentId.value else f.parentId,
      if p.isExpanded.Some? then p.isExpanded.value else f.isExpanded,
      if p.createdAt.Some? then p.createdAt.value else f.createdAt,
      now)
  }

  /** A patch without `id` leaves the updated folder the first match for
      its id, so a later call with the same id finds it again. */
  lemma PatchKeepsPosition(fs: seq<Folder>, id: nat, p: FolderPatch, now: nat)
    requires IndexOf(fs, id) != -1 && p.id.None?
    ensures var i := IndexOf(fs, id);
            IndexOf(fs[i := Patched(fs[i], p, now)], id) == i
  {
    var i := IndexOf(fs, id);
    var t := fs[i := Patched(fs[i], p, now)];
    assert t[i].id == id;
    assert forall j :: 0 <= j < i ==> t[j] == fs[j];
  }

  /** `parentId: folderData.parentId || null`: a missing parent and the
      falsy id 0 are both stored as null. */
  function StoredParent(parentId: Option<nat>): (p: Option<nat>)
    ensures p.None? <==> parentId.None? || parentId == Some(0)
    ensures p.Some? ==> p == parentId
  {
    if parentId == Some(0) then None else parentId
  }

  /** The store after `toggleExpanded(id)` at time `now`: the first folder
      with that id has its flag flipped and its timestamp refreshed. */
  function Toggled(fs: seq<Folder>, id: nat, now: nat): (r: seq<Folder>)
    ensures |r| == |fs|
    ensures forall j :: 0 <= j < |fs| && j != IndexOf(fs, id) ==> r[j] == fs[j]
    ensures forall j :: 0 <= j < |fs| ==> r[j].id == fs[j].id && r[j].name == fs[j].name && r[j].parentId == fs[j].parentId
    ensures IndexOf(fs, id) != -1 ==>
              var i := IndexOf(fs, id);
              r[i].isExpanded == !fs[i].isExpanded && r[i].updatedAt == now && r[i].createdAt == fs[i].createdAt
  {
    var i := IndexOf(fs, id);
    if i == -1 then fs else fs[i := fs[i].(isExpanded := !fs[i].isExpanded, updatedAt := now)]
  }

  /** Toggling keeps every id in place, so a second toggle finds the same folder. */
  lemma {:induction false} SameIdsSameIndex(fs: seq<Folder>, gs: seq<Folder>, id: nat)
    requires |fs| == |gs| && forall j :: 0 <= j < |fs| ==> fs[j].id == gs[j].id
    ensures IndexOf(fs, id) == IndexOf(gs, id)
  {
    if fs != [] {
      SameIdsSameIndex(fs[1..], gs[1..], id);
    }
  }

  /** Toggling twice restores every folder's expanded flag; only the first
      match's `updatedAt` differs, holding the second call's time. */
  lemma ToggleTwiceRestores(fs: seq<Folder>, id: nat, t1: nat, t2: nat)
    requires IndexOf(fs, id) != -1
    ensures var i := IndexOf(fs, id);
            Toggled(Toggled(fs, id, t1), id, t2) == fs[i := fs[i].(updatedAt := t2)]
  {
    SameIdsSameIndex(fs, Toggled(fs, id, t1), id);
  }

  /** The names on the walk from `f` up through its parents, topmost first.
      The walk stops at a falsy parent (null or 0) or at a parent id no
      folder holds. */
  ghost function Chain(fs: seq<Folder>, rank: nat -> nat, f: Folder): (c: seq<string>)
    requires Ranked(fs, rank) && f in fs
    ensures |c| >= 1 && c[|c| - 1] == f.name
    decreases rank(f.id)
  {
    var up := if f.parentId.Some? && f.parentId.value != 0 then Find(fs, f.parentId.value) else None;
    (if up.Some? then Chain(fs, rank, up.value) else []) + [f.name]
  }

  /** The names on the path to folder `id`; empty when no folder holds it. */
  ghost function PathNames(fs: seq<Folder>, rank: nat -> nat, id: nat): (r: seq<string>)
    requires Ranked(fs, rank)
    ensures r == [] <==> Find(fs, id).None?
    ensures Find(fs, id).Some? ==> r[|r| - 1] == Find(fs, id).value.name
  {
    match Find(fs, id)
    case None => []
    case Some(f) => Chain(fs, rank, f)
  }

  /** The chain of a folder the walk is at; empty once the walk has stopped. */
  ghost function ChainFrom(fs: seq<Folder>, rank: nat -> nat, current: Option<Folder>): seq<string>
    requires Ranked(fs, rank) && (current.Some? ==> current.value in fs)
  {
    if current.Some? then Chain(fs, rank, current.value) else []
  }

  /** One step of the walk: the chain of `f` is the chain of the folder its
      parent id finds, followed by `f`'s own name. */
  lemma ChainUnfold(fs: seq<Folder>, rank: nat -> nat, f: Folder)
    requires Ranked(fs, rank) && f in fs
    ensures var up := if f.parentId.Some? && f.parentId.value != 0 then Find(fs, f.parentId.value) else None;
            && (up.Some? ==> up.value in fs && rank(up.value.id) < rank(f.id))
            && Chain(fs, rank, f) == ChainFrom(fs, rank, up) + [f.name]
  {
  }

  /** The walk's invariant survives moving from `f` to its parent and
      prepending `f`'s name. */
  lemma PathStep(fs: seq<Folder>, rank: nat -> nat, whole: seq<string>, f: Folder, path: seq<string>)
    requires Ranked(fs, rank) && f in fs
    requires whole == ChainFrom(fs, rank, Some(f)) + path
    ensures var up := if f.parentId.Some? && f.parentId.value != 0 then Find(fs, f.parentId.value) else None;
            && (up.Some? ==> up.value in fs && rank(up.value.id) < rank(f.id))
            && whole == ChainFrom(fs, rank, up) + ([f.name] + path)
  {
    ChainUnfold(fs, rank, f);
    var up := if f.parentId.Some? && f.parentId.value != 0 then Find(fs, f.parentId.value) else None;
    var above := ChainFrom(fs, rank, up);
    assert above + [f.name] + path == above + ([f.name] + path);
  }

  /** `parts.join(sep)`. */
  function Join(parts: seq<string>, sep: string): (r: string)
    ensures parts == [] ==> r == ""
    ensures |parts| == 1 ==> r == parts[0]
  {
    if parts == [] then ""
    else if |parts| == 1 then parts[0]
    else parts[0] + sep + Join(parts[1..], sep)
  }

  /** The path of a folder ends with its own name and has at most one name
      per rank level, so the walk is bounded by the ranking. */
  lemma {:induction false} ChainShape(fs: seq<Folder>, rank: nat -> nat, f: Folder)
    requires Ranked(fs, rank) && f in fs
    ensures |Chain(fs, rank, f)| <= rank(f.id) + 1
    ensures Chain(fs, rank, f)[|Chain(fs, rank, f)| - 1] == f.name
    decreases rank(f.id)
  {
    if f.parentId.Some? && f.parentId.value != 0 && Find(fs, f.parentId.value).Some? {
      ChainShape(fs, rank, Find(fs, f.parentId.value).value);
    }
  }

  /** A three-level chain root `a`, child `b`, grandchild `c` prints as "A / B / C". */
  lemma ThreeLevelPath(fs: seq<Folder>, rank: nat -> nat, a: Folder, b: Folder, c: Folder)
    requires Ranked(fs, rank) && UniqueIds(fs)
    requires a in fs && b in fs && c in fs
    requires a.parentId.None? && b.parentId == Some(a.id) && c.parentId == Some(b.id)
    requires a.id != 0 && b.id != 0
    ensures Join(PathNames(fs, rank, c.id), " / ") == a.name + " / " + b.name + " / " + c.name
  {
    ThreeLevelNames(fs, rank, a, b, c);
    JoinThree(a.name, b.name, c.name, " / ");
  }

  lemma ThreeLevelNames(fs: seq<Folder>, rank: nat -> nat, a: Folder, b: Folder, c: Folder)
    requires Ranked(fs, rank) && UniqueIds(fs)
    requires a in fs && b in fs && c in fs
    requires a.parentId.None? && b.parentId == Some(a.id) && c.parentId == Some(b.id)
    requires a.id != 0 && b.id != 0
    ensures PathNames(fs, rank, c.id) == [a.name, b.name, c.name]
  {
    assert Chain(fs, rank, a) == [a.name] by {
      ChainUnfold(fs, rank, a);
    }
    ChainOfChild(fs, rank, a, b);
    assert Chain(fs, rank, b) == [a.name, b.name];
    ChainOfChild(fs, rank, b, c);
    PathNamesOf(fs, rank, c);
  }

  /** The path of a stored folder is its chain. */
  lemma PathNamesOf(fs: seq<Folder>, rank: nat -> nat, f: Folder)
    requires Ranked(fs, rank) && UniqueIds(fs) && f in fs
    ensures PathNames(fs, rank, f.id) == Chain(fs, rank, f)
  {
    FindUnique(fs, f);
  }

  /** The chain of a folder whose parent is a stored folder with a truthy id
      is the parent's chain followed by the folder's name. */
  lemma ChainOfChild(fs: seq<Folder>, rank: nat -> nat, p: Folder, f: Folder)
    requires Ranked(fs, rank) && UniqueIds(fs)
    requires p in fs && f in fs && f.parentId == Some(p.id) && p.id != 0
    ensures Chain(fs, rank, f) == Chain(fs, rank, p) + [f.name]
  {
    FindUnique(fs, p);
    ChainUnfold(fs, rank, f);
  }

  lemma JoinThree(x: string, y: string, z: string, sep: string)
    ensures Join([x, y, z], sep) == x + sep + y + sep + z
  {
    var p := [x, y, z];
    assert p[1..] == [y, z];
    assert p[1..][1..] == [z];
  }

  /** Before the cascade reaches the k-th child of `pid`, the folders
      removed so far are outside that child's subtree, so the child is still
      stored and its descendants are the original ones. */
  lemma CascadeBefore(start: seq<Folder>, rank: nat -> nat, pid: nat, gone: set<nat>, k: nat)
    requires Ranked(start, rank) && UniqueIds(start)
    requires k < |ChildrenOf(start, Some(pid))|
    requires gone == SubtreesOf(start, rank, ChildrenOf(start, Some(pid))[..k])
    ensures var c := ChildrenOf(start, Some(pid))[k];
            && c in start && rank(pid) < rank(c.id)
            && Ranked(Keep(start, gone), rank) && UniqueIds(Keep(start, gone))
            && Desc(Keep(start, gone), rank, c.id) == Desc(start, rank, c.id)
            && c in Keep(start, gone)
  {
    var cs := ChildrenOf(start, Some(pid));
    var c := cs[k];
    assert c in cs;
    SiblingsDisjoint(start, rank, pid, k);
    DescKeep(start, rank, gone, c.id);
    KeepUnique(start, gone);
  }

  /** Once a stored folder's descendants are gone, splicing it out at its
      current position removes exactly its subtree. */
  lemma SpliceAfterDescendants(start: seq<Folder>, rank: nat -> nat, gone: set<nat>, c: Folder)
    requires Ranked(start, rank) && UniqueIds(start)
    requires c in Keep(start, gone)
    ensures var left := Keep(start, gone + Desc(start, rank, c.id));
            var i := IndexOf(left, c.id);
            && Keep(Keep(start, gone), Desc(start, rank, c.id)) == left
            && i != -1
            && left[..i] + left[i + 1..] == Keep(start, gone + Subtree(start, rank, c.id))
  {
    var d := Desc(start, rank, c.id);
    KeepKeep(start, gone, d);
    NotOwnDescendant(start, rank, c.id);
    assert c in start && c.id !in gone + d;
    SpliceSurvivor(start, gone + d, c);
    UnionWithRoot(gone, d, c.id, Subtree(start, rank, c.id));
  }

  lemma UnionWithRoot(gone: set<nat>, d: set<nat>, a: nat, sub: set<nat>)
    requires sub == {a} + d
    ensures gone + d + {a} == gone + sub
  {
  }

  /** Splicing out a folder that survived the removal of `removed`. */
  lemma SpliceSurvivor(start: seq<Folder>, removed: set<nat>, c: Folder)
    requires UniqueIds(start) && c in start && c.id !in removed
    ensures var left := Keep(start, removed);
            var i := IndexOf(left, c.id);
            && i != -1
            && left[..i] + left[i + 1..] == Keep(start, removed + {c.id})
  {
    assert c in Keep(start, removed);
    RemoveInKeep(start, removed, c.id);
  }

  /** After the recursive call for the k-th child of `pid`, the child is
      still stored and splicing it out completes the first k + 1 subtrees. */
  lemma CascadeAfter(start: seq<Folder>, rank: nat -> nat, pid: nat, gone: set<nat>, k: nat, now: seq<Folder>)
    requires Ranked(start, rank) && UniqueIds(start)
    requires k < |ChildrenOf(start, Some(pid))|
    requires gone == SubtreesOf(start, rank, ChildrenOf(start, Some(pid))[..k])
    requires var c := ChildrenOf(start, Some(pid))[k];
             Ranked(Keep(start, gone), rank) &&
             now == Keep(Keep(start, gone), Desc(Keep(start, gone), rank, c.id))
    ensures var c := ChildrenOf(start, Some(pid))[k];
            var i := IndexOf(now, c.id);
            && i != -1
            && now[..i] + now[i + 1..] == Keep(start, gone + Subtree(start, rank, c.id))
            && gone + Subtree(start, rank, c.id) == SubtreesOf(start, rank, ChildrenOf(start, Some(pid))[..k + 1])
  {
    var cs := ChildrenOf(start, Some(pid));
    CascadeBefore(start, rank, pid, gone, k);
    SpliceAfterDescendants(start, rank, gone, cs[k]);
    SubtreesOfStep(start, rank, cs, k);
  }

  /** Once the cascade has removed a stored folder's descendants, the
      folder is still stored, and splicing it out leaves exactly what is
      left after removing its subtree. */
  lemma SpliceAfterCascade(start: seq<Folder>, rank: nat -> nat, target: Folder)
    requires Ranked(start, rank) && UniqueIds(start) && target in start
    ensures var left := Keep(start, Desc(start, rank, target.id));
            var i := IndexOf(left, target.id);
            && i != -1
            && left[..i] + left[i + 1..] == Keep(start, Subtree(start, rank, target.id))
  {
    var d := Desc(start, rank, target.id);
    NotOwnDescendant(start, rank, target.id);
    SpliceSurvivor(start, d, target);
    assert d + {target.id} == Subtree(start, rank, target.id);
  }

  /** The subtrees of the first k + 1 children are those of the first k and the k-th. */
  lemma SubtreesOfStep(start: seq<Folder>, rank: nat -> nat, cs: seq<Folder>, k: nat)
    requires Ranked(start, rank) && k < |cs|
    ensures SubtreesOf(start, rank, cs[..k + 1]) == SubtreesOf(start, rank, cs[..k]) + Subtree(start, rank, cs[k].id)
  {
    assert cs[..k + 1][..k] == cs[..k];
  }

  class FolderService {
    var folders: seq<Folder>

    constructor (initial: seq<Folder>)
      ensures folders == initial
    {
      folders := initial;
    }

    method GetAll() returns (r: seq<Folder>)
      ensures r == folders
    {
      r := folders;
    }

    /** A copy of the first folder with this id, or null. */
    method GetById(id: nat) returns (r: Option<Folder>)
      ensures r.None? <==> forall f :: f in folders ==> f.id != id
      ensures r.Some? ==> r.value == folders[IndexOf(folders, id)]
    {
      FindAtIndex(folders, id);
      r := Find(folders, id);
    }

    /** The folders whose `parentId` is exactly `parentId`, in storage order. */
    method GetByParentId(parentId: Option<nat>) returns (r: seq<Folder>)
      ensures forall f :: f in r <==> f in folders && f.parentId == parentId
      ensures r == ChildrenOf(folders, parentId)
    {
      r := ChildrenOf(folders, parentId);
    }

    /** The folders whose `parentId` is null, in storage order. */
    method GetRootFolders() returns (r: seq<Folder>)
      ensures forall f :: f in r <==> f in folders && f.parentId.None?
      ensures r == ChildrenOf(folders, None)
    {
      r := ChildrenOf(folders, None);
    }

    /** Appends a new collapsed folder. Neither the name nor the parent is checked. */
    method Create(name: string, parentId: Option<nat>, freshId: nat, now: nat) returns (r: Folder)
      modifies this
      ensures r == Folder(freshId, name, StoredParent(parentId), false, now, now)
      ensures folders == old(folders) + [r]
    {
      r := Folder(freshId, name, StoredParent(parentId), false, now, now);
      folders := folders + [r];
    }

    /** Merges `patch` into the first folder with this id; fails with
        "Folder not found" and changes nothing when there is none. */
    method Update(id: nat, patch: FolderPatch, now: nat) returns (r: Result<Folder>)
      modifies this
      ensures old(IndexOf(folders, id)) == -1 ==> r == Err("Folder not found") && folders == old(folders)
      ensures old(IndexOf(folders, id)) != -1 ==>
                var i := old(IndexOf(folders, id));
                && folders == old(folders)[i := Patched(old(folders)[i], patch, now)]
                && r == Ok(folders[i])
    {
      var index := IndexOf(folders, id);
      if index == -1 {
        return Err("Folder not found");
      }
      folders := folders[index := Patched(folders[index], patch, now)];
      r := Ok(folders[index]);
    }

    /** Flips `isExpanded` of the first folder with this id and refreshes
        its `updatedAt`; every other folder is untouched. */
    method ToggleExpanded(id: nat, now: nat) returns (r: Result<Folder>)
      modifies this
      ensures old(IndexOf(folders, id)) == -1 ==> r == Err("Folder not found") && folders == old(folders)
      ensures old(IndexOf(folders, id)) != -1 ==>
                var i := old(IndexOf(folders, id));
                && folders == Toggled(old(folders), id, now)
                && folders[i].isExpanded == !old(folders)[i].isExpanded
                && folders[i].updatedAt == now
                && r == Ok(folders[i])
    {
      var i := IndexOf(folders, id);
      if i == -1 {
        return Err("Folder not found");
      }
      folders := folders[i := folders[i].(isExpanded := !folders[i].isExpanded, updatedAt := now)];
      r := Ok(folders[i]);
    }

    /** The cascade: removes, deepest first, every stored descendant of `pid`.
        Each child found in the snapshot is first emptied of its own
        descendants and then spliced out at its current position. */
    method DeleteChildFolders(pid: nat, ghost rank: nat -> nat, ghost bound: nat)
      requires Ranked(folders, rank) && UniqueIds(folders)
      requires forall f :: f in folders ==> rank(f.id) <= bound
      requires rank(pid) <= bound
      modifies this
      ensures folders == Keep(old(folders), Desc(old(folders), rank, pid))
      decreases bound - rank(pid)
    {
      ghost var start := folders;
      var children := ChildrenOf(folders, Some(pid));
      ghost var gone: set<nat> := {};
      KeepAll(start, gone);
      var k := 0;
      while k < |children|
        invariant 0 <= k <= |children|
        invariant gone == SubtreesOf(start, rank, children[..k])
        invariant folders == Keep(start, gone)
      {
        var child := children[k];
        CascadeBefore(start, rank, pid, gone, k);
        DeleteChildFolders(child.id, rank, bound);
        CascadeAfter(start, rank, pid, gone, k, folders);
        var childIndex := IndexOf(folders, child.id);
        if childIndex != -1 {
          folders := folders[..childIndex] + folders[childIndex + 1..];
        }
        gone := gone + Subtree(start, rank, child.id);
        k := k + 1;
      }
      assert children[..k] == children;
      ChildrenCoverDesc(start, rank, pid);
    }

    /** Deletes folder `id` and all its descendants, leaving the others in
        storage order. Unlike the source, the target's position is looked up
        again after the cascade. */
    method Delete(id: nat, ghost rank: nat -> nat) returns (r: Result<bool>)
      requires Ranked(folders, rank) && UniqueIds(folders)
      modifies this
      ensures old(IndexOf(folders, id)) == -1 ==> r == Err("Folder not found") && folders == old(folders)
      ensures old(IndexOf(folders, id)) != -1 ==>
                r == Ok(true) && folders == Keep(old(folders), Subtree(old(folders), rank, id))
    {
      var index := IndexOf(folders, id);
      if index == -1 {
        return Err("Folder not found");
      }
      ghost var start := folders;
      ghost var target := folders[index];
      assert target in folders;
      DeleteChildFolders(id, rank, MaxRank(folders, rank));
      SpliceAfterCascade(start, rank, target);
      index := IndexOf(folders, id);
      folders := folders[..index] + folders[index + 1..];
      r := Ok(true);
    }

    /** `getFolderTree`: the forest built from the stored folders. */
    method GetFolderTree() returns (t: Forest)
      ensures IsForestOf(folders, t)
    {
      t := BuildFolderTree(folders);
    }

    /** The names from the topmost ancestor down to folder `folderId`,
        joined by " / "; empty when no folder holds that id. */
    method GetFolderPath(folderId: nat, ghost rank: nat -> nat) returns (r: string)
      requires Ranked(folders, rank)
      ensures r == Join(PathNames(folders, rank, folderId), " / ")
    {
      var fs := folders;
      var path: seq<string> := [];
      var current := Find(fs, folderId);
      assert ChainFrom(fs, rank, current) + path == ChainFrom(fs, rank, current);
      while current.Some?
        invariant current.Some? ==> current.value in fs
        invariant PathNames(fs, rank, folderId) == ChainFrom(fs, rank, current) + path
        decreases if current.Some? then rank(current.value.id) + 1 else 0
      {
        var f := current.value;
        current := if f.parentId.Some? && f.parentId.value != 0 then Find(fs, f.parentId.value) else None;
        PathStep(fs, rank, PathNames(fs, rank, folderId), f, path);
        path := [f.name] + path;
      }
      assert [] + path == path;
      r := Join(path, " / ");
    }
  }

  /** The source's `delete`: the target's index is taken before the
      cascade and spliced after it, when earlier entries may have moved. */
  ghost function DeleteAsWritten(fs: seq<Folder>, rank: nat -> nat, id: nat): (r: Result<seq<Folder>>)
    requires Ranked(fs, rank)
    ensures r.Err? <==> IndexOf(fs, id) == -1
    ensures r.Ok? ==> forall f :: f in r.value ==> f in fs && f.id !in Desc(fs, rank, id)
    ensures r.Ok? ==> |r.value| >= |Keep(fs, Desc(fs, rank, id))| - 1
  {
    var index := IndexOf(fs, id);
    if index == -1 then Err("Folder not found")
    else
      var rest := Keep(fs, Desc(fs, rank, id));
      Ok(if index < |rest| then rest[..index] + rest[index + 1..] else rest)
  }

  /** The ranking used by the counterexample: B (id 2) sits one level below A and C. */
  function CounterRank(x: nat): (r: nat)
    ensures r == 1 <==> x == 2
  {
    if x == 2 then 1 else 0
  }

  /** In the store [B, A, C] with B a child of A, the only descendant of A is B. */
  lemma CounterDesc(fs: seq<Folder>)
    requires fs == [Folder(2, "B", Some(1), false, 0, 0), Folder(1, "A", None, false, 0, 0), Folder(3, "C", None, false, 0, 0)]
    ensures Ranked(fs, CounterRank)
    ensures Desc(fs, CounterRank, 1) == {2}
  {
    assert forall f :: f in fs ==> f == fs[0] || f == fs[1] || f == fs[2];
    assert Find(fs, 2) == Some(fs[0]);
    assert Find(fs, 1) == Some(fs[1]);
    assert Find(fs, 3) == Some(fs[2]);
    assert Reaches(fs, CounterRank, 2, 1);
    assert !Reaches(fs, CounterRank, 1, 1);
    assert !Reaches(fs, CounterRank, 3, 1);
    forall y | y in Desc(fs, CounterRank, 1) ensures y == 2 {
      var f :| f in fs && Reaches(fs, CounterRank, f.id, 1) && y == f.id;
    }
    assert fs[0] in fs;
  }

  /** With child B stored before its parent A and an unrelated root C
      after, deleting A removes B, then splices the stale index 1: C goes
      and A stays. The corrected delete removes A and B and keeps C. */
  lemma StaleIndexCounterexample(fs: seq<Folder>)
    requires fs == [Folder(2, "B", Some(1), false, 0, 0), Folder(1, "A", None, false, 0, 0), Folder(3, "C", None, false, 0, 0)]
    ensures Ranked(fs, CounterRank)
    ensures DeleteAsWritten(fs, CounterRank, 1) == Ok([fs[1]])
    ensures Keep(fs, Subtree(fs, CounterRank, 1)) == [fs[2]]
  {
    CounterDesc(fs);
    assert IndexOf(fs, 1) == 1;
    assert fs[1..] == [fs[1], fs[2]];
    assert fs[1..][1..] == [fs[2]];
    assert [fs[2]][1..] == [];
    var rest := Keep(fs, {2});
    assert Keep([fs[2]], {2}) == [fs[2]];
    assert Keep([fs[1], fs[2]], {2}) == [fs[1], fs[2]];
    assert rest == [fs[1], fs[2]];
    assert rest[..1] + rest[2..] == [fs[1]];
    assert Subtree(fs, CounterRank, 1) == {1, 2};
    assert Keep([fs[2]], {1, 2}) == [fs[2]];
    assert Keep([fs[1], fs[2]], {1, 2}) == [fs[2]];
  }

  /** `IndexOf` skips a prefix that holds no folder with the id. */
  lemma {:induction false} IndexOfAfterPrefix(p: seq<Folder>, q: seq<Folder>, id: nat)
    requires forall f :: f in p ==> f.id != id
    requires q != [] && q[0].id == id
    ensures IndexOf(p + q, id) == |p|
  {
    if p == [] {
      assert p + q == q;
    } else {
      assert (p + q)[1..] == p[1..] + q;
      assert p[0] in p;
      IndexOfAfterPrefix(p[1..], q, id);
    }
  }

  /** A filter that removes nothing before the first folder with `id`, nor
      that folder, leaves it at the same position. */
  lemma {:induction false} IndexOfKeepStable(fs: seq<Folder>, gone: set<nat>, id: nat)
    requires IndexOf(fs, id) != -1 && id !in gone
    requires forall j :: 0 <= j < IndexOf(fs, id) ==> fs[j].id !in gone
    ensures IndexOf(Keep(fs, gone), id) == IndexOf(fs, id)
  {
    var t := fs[1..];
    if fs[0].id != id {
      assert fs[0].id !in gone;
      assert Keep(fs, gone) == [fs[0]] + Keep(t, gone);
      assert IndexOf(t, id) == IndexOf(fs, id) - 1;
      forall j | 0 <= j < IndexOf(t, id) ensures t[j].id !in gone {
        assert t[j] == fs[j + 1];
      }
      IndexOfKeepStable(t, gone, id);
      IndexOfCons(fs[0], Keep(t, gone), id);
    }
  }

  /** Splicing at the index taken before the filter is right when the
      filter removed nothing in front of the target. */
  lemma SpliceAtStaleIndex(fs: seq<Folder>, gone: set<nat>, id: nat)
    requires UniqueIds(fs) && IndexOf(fs, id) != -1 && id !in gone
    requires forall j :: 0 <= j < IndexOf(fs, id) ==> fs[j].id !in gone
    ensures var rest := Keep(fs, gone);
            var i := IndexOf(fs, id);
            i < |rest| && rest[..i] + rest[i + 1..] == Keep(fs, gone + {id})
  {
    var rest := Keep(fs, gone);
    var i := IndexOf(fs, id);
    assert IndexOf(rest, id) == i by {
      IndexOfKeepStable(fs, gone, id);
    }
    assert rest[..i] + rest[i + 1..] == Keep(fs, gone + {id}) by {
      RemoveInKeep(fs, gone, id);
    }
  }

  /** When no descendant of the target is stored before it, the stale index
      still points at the target and the source's delete is correct. */
  lemma StaleIndexHarmlessWhenTargetFirst(fs: seq<Folder>, rank: nat -> nat, id: nat)
    requires Ranked(fs, rank) && UniqueIds(fs)
    requires IndexOf(fs, id) != -1
    requires forall j :: 0 <= j < IndexOf(fs, id) ==> fs[j].id !in Desc(fs, rank, id)
    ensures DeleteAsWritten(fs, rank, id) == Ok(Keep(fs, Subtree(fs, rank, id)))
  {
    var gone := Desc(fs, rank, id);
    var i := IndexOf(fs, id);
    var rest := Keep(fs, gone);
    var removed := gone + {id};
    assert removed == Subtree(fs, rank, id);
    assert i < |rest| && rest[..i] + rest[i + 1..] == Keep(fs, removed) by {
      NotOwnDescendant(fs, rank, id);
      SpliceAtStaleIndex(fs, gone, id);
    }
    assert DeleteAsWritten(fs, rank, id) == Ok(rest[..i] + rest[i + 1..]);
  }

  /** After a delete no remaining folder names a removed folder as its parent. */
  lemma DeleteLeavesNoDangling(fs: seq<Folder>, rank: nat -> nat, id: nat)
    requires Ranked(fs, rank) && UniqueIds(fs)
    ensures forall f :: f in Keep(fs, Subtree(fs, rank, id)) && f.parentId.Some? ==>
                        f.parentId.value !in Subtree(fs, rank, id)
  {
    forall f | f in Keep(fs, Subtree(fs, rank, id)) && f.parentId.Some?
      ensures f.parentId.value !in Subtree(fs, rank, id)
    {
      if f.parentId.value in Subtree(fs, rank, id) {
        ParentInSubtree(fs, rank, id, f);
      }
    }
  }
}
