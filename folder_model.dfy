/** Folder records and the parent-link hierarchy they form.

    The store keeps a flat list of folders linked by `parentId`. Nothing in
    the source rejects a cycle, yet the cascading delete and the path walk
    only terminate when the links are acyclic. The model states acyclicity
    with a ranking: `Ranked(fs, rank)` says every folder ranks strictly above
    its parent, so following parent links strictly lowers the rank. */
module FolderModel {
  import opened Values

  datatype Folder = Folder(
    id: nat,
    name: string,
    parentId: Option<nat>,   // None is `null`: a root folder
    isExpanded: bool,
    createdAt: nat,
    updatedAt: nat)

  /** `findIndex(f => f.id === id)`: the first position holding `id`, or -1. */
  function IndexOf(fs: seq<Folder>, id: nat): (i: int)
    ensures -1 <= i < |fs|
    ensures 0 <= i ==> fs[i].id == id
    ensures forall j :: 0 <= j < |fs| && (i == -1 || j < i) ==> fs[j].id != id
  {
    if fs == [] then -1
    else if fs[0].id == id then 0
    else
      var k := IndexOf(fs[1..], id);
      if k == -1 then -1 else k + 1
  }

  /** `find(f => f.id === id)`: the first folder holding `id`. */
  function Find(fs: seq<Folder>, id: nat): (r: Option<Folder>)
    ensures r.None? <==> forall f :: f in fs ==> f.id != id
    ensures r.Some? ==> r.value in fs && r.value.id == id
  {
    if fs == [] then None
    else if fs[0].id == id then Some(fs[0])
    else Find(fs[1..], id)
  }

  /** `find` and `findIndex` agree on the first match. */
  lemma {:induction false} FindAtIndex(fs: seq<Folder>, id: nat)
    ensures IndexOf(fs, id) == -1 ==> Find(fs, id) == None
    ensures IndexOf(fs, id) != -1 ==> Find(fs, id) == Some(fs[IndexOf(fs, id)])
  {
    if fs != [] && fs[0].id != id {
      FindAtIndex(fs[1..], id);
    }
  }

  /** No two stored folders share an id. */
  ghost predicate UniqueIds(fs: seq<Folder>)
  {
    forall i, j :: 0 <= i < j < |fs| ==> fs[i].id != fs[j].id
  }

  /** The parent links are acyclic, witnessed by `rank`. */
  ghost predicate Ranked(fs: seq<Folder>, rank: nat -> nat)
  {
    forall f :: f in fs && f.parentId.Some? ==> rank(f.parentId.value) < rank(f.id)
  }

  /** The folders whose `parentId` is exactly `Some(pid)`, in storage order
      (`filter(f => f.parentId === pid)`). */
  function ChildrenOf(fs: seq<Folder>, pid: Option<nat>): (r: seq<Folder>)
    ensures |r| <= |fs|
    ensures forall f :: f in r <==> f in fs && f.parentId == pid
  {
    if fs == [] then []
    else if fs[0].parentId == pid then [fs[0]] + ChildrenOf(fs[1..], pid)
    else ChildrenOf(fs[1..], pid)
  }

  /** The folders whose id is not in `gone`, in storage order: what is left
      after every folder in `gone` has been spliced out. */
  function Keep(fs: seq<Folder>, gone: set<nat>): (r: seq<Folder>)
    ensures |r| <= |fs|
    ensures forall f :: f in r <==> f in fs && f.id !in gone
  {
    if fs == [] then []
    else if fs[0].id in gone then Keep(fs[1..], gone)
    else [fs[0]] + Keep(fs[1..], gone)
  }

  /** The largest rank of a stored folder. */
  ghost function MaxRank(fs: seq<Folder>, rank: nat -> nat): (m: nat)
    ensures forall f :: f in fs ==> rank(f.id) <= m
  {
    if fs == [] then 0
    else
      var m := MaxRank(fs[1..], rank);
      if rank(fs[0].id) > m then rank(fs[0].id) else m
  }

  // ----- uniqueness and filtering -----

  lemma UniqueHead(fs: seq<Folder>)
    requires UniqueIds(fs) && fs != []
    ensures UniqueIds(fs[1..])
    ensures forall f :: f in fs[1..] ==> f.id != fs[0].id
  {
    forall f | f in fs[1..] ensures f.id != fs[0].id {
      var m :| 0 <= m < |fs[1..]| && fs[1..][m] == f;
      assert fs[m + 1] == f;
    }
  }

  lemma UniqueCons(h: Folder, rest: seq<Folder>)
    requires UniqueIds(rest)
    requires forall f :: f in rest ==> f.id != h.id
    ensures UniqueIds([h] + rest)
  {
    var s := [h] + rest;
    forall i, j | 0 <= i < j < |s| ensures s[i].id != s[j].id {
      assert s[j] == rest[j - 1];
      if i > 0 {
        assert s[i] == rest[i - 1];
      }
    }
  }

  /** With unique ids, a stored folder is the one `find` returns for its id. */
  lemma {:induction false} FindUnique(fs: seq<Folder>, f: Folder)
    requires UniqueIds(fs) && f in fs
    ensures Find(fs, f.id) == Some(f)
  {
    if fs[0] != f {
      assert f in fs[1..];
      UniqueHead(fs);
      FindUnique(fs[1..], f);
    }
  }

  lemma {:induction false} KeepUnique(fs: seq<Folder>, gone: set<nat>)
    requires UniqueIds(fs)
    ensures UniqueIds(Keep(fs, gone))
  {
    if fs != [] {
      UniqueHead(fs);
      KeepUnique(fs[1..], gone);
      if fs[0].id !in gone {
        UniqueCons(fs[0], Keep(fs[1..], gone));
      }
    }
  }

  lemma {:induction false} ChildrenUnique(fs: seq<Folder>, pid: Option<nat>)
    requires UniqueIds(fs)
    ensures UniqueIds(ChildrenOf(fs, pid))
  {
    if fs != [] {
      UniqueHead(fs);
      ChildrenUnique(fs[1..], pid);
      if fs[0].parentId == pid {
        UniqueCons(fs[0], ChildrenOf(fs[1..], pid));
      }
    }
  }

  lemma {:induction false} KeepConcat(a: seq<Folder>, b: seq<Folder>, gone: set<nat>)
    ensures Keep(a + b, gone) == Keep(a, gone) + Keep(b, gone)
  {
    if a == [] {
      assert a + b == b;
    } else {
      assert (a + b)[1..] == a[1..] + b;
      KeepConcat(a[1..], b, gone);
    }
  }

  lemma {:induction false} KeepAll(fs: seq<Folder>, gone: set<nat>)
    requires forall f :: f in fs ==> f.id !in gone
    ensures Keep(fs, gone) == fs
  {
    if fs != [] {
      assert fs[0] in fs;
      KeepAll(fs[1..], gone);
    }
  }

  lemma {:induction false} KeepKeep(fs: seq<Folder>, a: set<nat>, b: set<nat>)
    ensures Keep(Keep(fs, a), b) == Keep(fs, a + b)
  {
    if fs != [] {
      KeepKeep(fs[1..], a, b);
      if fs[0].id !in a {
        assert Keep(fs, a)[1..] == Keep(fs[1..], a);
      }
    }
  }

  lemma {:induction false} FindKeep(fs: seq<Folder>, gone: set<nat>, y: nat)
    ensures Find(Keep(fs, gone), y) == if y in gone then None else Find(fs, y)
  {
    if fs != [] {
      FindKeep(fs[1..], gone, y);
      if fs[0].id !in gone {
        assert Keep(fs, gone)[1..] == Keep(fs[1..], gone);
      }
    }
  }

  /** `findIndex` on a list whose head does not match. */
  lemma IndexOfCons(h: Folder, k: seq<Folder>, x: nat)
    requires h.id != x
    ensures IndexOf([h] + k, x) == if IndexOf(k, x) == -1 then -1 else IndexOf(k, x) + 1
  {
    assert ([h] + k)[1..] == k;
  }

  /** Splicing out the first folder with id `x` from what is left after
      removing `gone` leaves what is left after removing `gone` and `x`. */
  lemma {:induction false} RemoveInKeep(fs: seq<Folder>, gone: set<nat>, x: nat)
    requires UniqueIds(fs)
    requires IndexOf(Keep(fs, gone), x) != -1
    ensures var k := Keep(fs, gone);
            var i := IndexOf(k, x);
            k[..i] + k[i + 1..] == Keep(fs, gone + {x})
    decreases |fs|, 1
  {
    assert fs != [];
    if fs[0].id in gone {
      RemoveInKeepPastGone(fs, gone, x);
    } else if fs[0].id == x {
      RemoveHeadInKeep(fs, gone, x);
    } else {
      RemoveInKeepPastKept(fs, gone, x);
    }
  }

  /** `RemoveInKeep` when the first folder was already removed. */
  lemma {:induction false} RemoveInKeepPastGone(fs: seq<Folder>, gone: set<nat>, x: nat)
    requires UniqueIds(fs) && fs != [] && fs[0].id in gone
    requires IndexOf(Keep(fs, gone), x) != -1
    ensures var k := Keep(fs, gone);
            var i := IndexOf(k, x);
            k[..i] + k[i + 1..] == Keep(fs, gone + {x})
    decreases |fs|, 0
  {
    var t := fs[1..];
    assert UniqueIds(t) by { UniqueHead(fs); }
    KeepSkip(fs, gone, x);
    RemoveInKeep(t, gone, x);
    RemoveInKeepSkip(fs, gone, x);
  }

  /** `RemoveInKeep` when the first folder is kept and is not `x`. */
  lemma {:induction false} RemoveInKeepPastKept(fs: seq<Folder>, gone: set<nat>, x: nat)
    requires UniqueIds(fs) && fs != [] && fs[0].id !in gone && fs[0].id != x
    requires IndexOf(Keep(fs, gone), x) != -1
    ensures var k := Keep(fs, gone);
            var i := IndexOf(k, x);
            k[..i] + k[i + 1..] == Keep(fs, gone + {x})
    decreases |fs|, 0
  {
    var t := fs[1..];
    assert UniqueIds(t) by { UniqueHead(fs); }
    KeepCons(fs, gone, x);
    IndexOfCons(fs[0], Keep(t, gone), x);
    RemoveInKeep(t, gone, x);
    RemoveInKeepCons(fs, gone, x);
  }

  /** The step of `RemoveInKeep` past a folder already removed. */
  lemma RemoveInKeepSkip(fs: seq<Folder>, gone: set<nat>, x: nat)
    requires fs != [] && fs[0].id in gone
    requires var k1 := Keep(fs[1..], gone);
             var i := IndexOf(k1, x);
             i != -1 && k1[..i] + k1[i + 1..] == Keep(fs[1..], gone + {x})
    ensures var k := Keep(fs, gone);
            var i := IndexOf(k, x);
            k[..i] + k[i + 1..] == Keep(fs, gone + {x})
  {
    KeepSkip(fs, gone, x);
  }

  lemma KeepSkip(fs: seq<Folder>, gone: set<nat>, x: nat)
    requires fs != [] && fs[0].id in gone
    ensures Keep(fs, gone) == Keep(fs[1..], gone)
    ensures Keep(fs, gone + {x}) == Keep(fs[1..], gone + {x})
  {
  }

  lemma KeepCons(fs: seq<Folder>, gone: set<nat>, x: nat)
    requires fs != [] && fs[0].id !in gone && fs[0].id != x
    ensures Keep(fs, gone) == [fs[0]] + Keep(fs[1..], gone)
    ensures Keep(fs, gone + {x}) == [fs[0]] + Keep(fs[1..], gone + {x})
  {
  }

  /** The step of `RemoveInKeep` past a kept folder that is not `x`. */
  lemma RemoveInKeepCons(fs: seq<Folder>, gone: set<nat>, x: nat)
    requires fs != [] && fs[0].id !in gone && fs[0].id != x
    requires IndexOf(Keep(fs[1..], gone), x) != -1
    requires var k1 := Keep(fs[1..], gone);
             var i := IndexOf(k1, x);
             k1[..i] + k1[i + 1..] == Keep(fs[1..], gone + {x})
    ensures var k := Keep(fs, gone);
            var i := IndexOf(k, x);
            k[..i] + k[i + 1..] == Keep(fs, gone + {x})
  {
    var k1 := Keep(fs[1..], gone);
    KeepCons(fs, gone, x);
    IndexOfCons(fs[0], k1, x);
    SpliceCons(fs[0], k1, IndexOf(k1, x));
  }

  lemma SpliceCons(h: Folder, k: seq<Folder>, i: nat)
    requires i < |k|
    ensures var s := [h] + k; s[..i + 1] + s[i + 2..] == [h] + (k[..i] + k[i + 1..])
  {
  }

  lemma RemoveHeadInKeep(fs: seq<Folder>, gone: set<nat>, x: nat)
    requires UniqueIds(fs) && fs != [] && fs[0].id == x && x !in gone
    ensures var k := Keep(fs, gone); IndexOf(k, x) == 0 && k[1..] == Keep(fs, gone + {x})
    ensures var k := Keep(fs, gone);
            var i := IndexOf(k, x);
            k[..i] + k[i + 1..] == Keep(fs, gone + {x})
  {
    var t := fs[1..];
    UniqueHead(fs);
    assert Keep(fs, gone) == [fs[0]] + Keep(t, gone);
    KeepKeep(t, gone, {x});
    KeepAll(Keep(t, gone), {x});
  }

  // ----- ancestry -----

  /** `a` is a strict ancestor of `y`: following parent links from the
      folder `find` returns for `y` reaches `a`. */
  ghost predicate Reaches(fs: seq<Folder>, rank: nat -> nat, y: nat, a: nat)
    requires Ranked(fs, rank)
    decreases rank(y)
  {
    match Find(fs, y)
    case None => false
    case Some(f) =>
      f.parentId.Some? && (f.parentId.value == a || Reaches(fs, rank, f.parentId.value, a))
  }

  /** The ids of the stored strict descendants of `a`. */
  ghost function Desc(fs: seq<Folder>, rank: nat -> nat, a: nat): set<nat>
    requires Ranked(fs, rank)
  {
    set f | f in fs && Reaches(fs, rank, f.id, a) :: f.id
  }

  /** `a` together with its descendants. */
  ghost function Subtree(fs: seq<Folder>, rank: nat -> nat, a: nat): set<nat>
    requires Ranked(fs, rank)
  {
    {a} + Desc(fs, rank, a)
  }

  /** The union of the subtrees rooted at the ids of `cs`. */
  ghost function SubtreesOf(fs: seq<Folder>, rank: nat -> nat, cs: seq<Folder>): set<nat>
    requires Ranked(fs, rank)
    decreases |cs|
  {
    if cs == [] then {}
    else SubtreesOf(fs, rank, cs[..|cs| - 1]) + Subtree(fs, rank, cs[|cs| - 1].id)
  }

  /** An ancestor ranks strictly below its descendants; in particular no
      folder is its own ancestor. */
  lemma {:induction false} ReachesRank(fs: seq<Folder>, rank: nat -> nat, y: nat, a: nat)
    requires Ranked(fs, rank) && Reaches(fs, rank, y, a)
    ensures rank(a) < rank(y)
    decreases rank(y)
  {
    var p := Find(fs, y).value.parentId.value;
    if p != a {
      ReachesRank(fs, rank, p, a);
    }
  }

  lemma {:induction false} ReachesTrans(fs: seq<Folder>, rank: nat -> nat, y: nat, b: nat, a: nat)
    requires Ranked(fs, rank) && Reaches(fs, rank, y, b) && Reaches(fs, rank, b, a)
    ensures Reaches(fs, rank, y, a)
    decreases rank(y)
  {
    var p := Find(fs, y).value.parentId.value;
    if p != b {
      ReachesTrans(fs, rank, p, b, a);
    }
  }

  /** Two ancestors of one folder lie on one chain. */
  lemma {:induction false} ReachesFunnel(fs: seq<Folder>, rank: nat -> nat, y: nat, a: nat, b: nat)
    requires Ranked(fs, rank) && Reaches(fs, rank, y, a) && Reaches(fs, rank, y, b)
    ensures a == b || Reaches(fs, rank, a, b) || Reaches(fs, rank, b, a)
    decreases rank(y)
  {
    var p := Find(fs, y).value.parentId.value;
    if p != a && p != b {
      ReachesFunnel(fs, rank, p, a, b);
    }
  }

  /** Neither of two children of one parent is an ancestor of the other. */
  lemma SiblingNoReach(fs: seq<Folder>, rank: nat -> nat, pid: nat, a: nat, b: nat)
    requires Ranked(fs, rank)
    requires Find(fs, a).Some? && Find(fs, a).value.parentId == Some(pid)
    requires Find(fs, b).Some? && Find(fs, b).value.parentId == Some(pid)
    ensures !Reaches(fs, rank, a, b)
  {
    if Reaches(fs, rank, a, b) {
      assert rank(pid) < rank(b);
      if pid != b {
        ReachesRank(fs, rank, pid, b);
      }
      assert false;
    }
  }

  /** Removing folders that are not descendants of `a` keeps every
      ancestry towards `a` and invents none. */
  lemma {:induction false} ReachesKeepDown(fs: seq<Folder>, rank: nat -> nat, gone: set<nat>, y: nat, a: nat)
    requires Ranked(fs, rank) && Ranked(Keep(fs, gone), rank)
    requires Reaches(Keep(fs, gone), rank, y, a)
    ensures Reaches(fs, rank, y, a)
    decreases rank(y)
  {
    FindKeep(fs, gone, y);
    var p := Find(fs, y).value.parentId.value;
    if p != a {
      ReachesKeepDown(fs, rank, gone, p, a);
    }
  }

  lemma {:induction false} ReachesKeepUp(fs: seq<Folder>, rank: nat -> nat, gone: set<nat>, y: nat, a: nat)
    requires Ranked(fs, rank) && Ranked(Keep(fs, gone), rank)
    requires forall z :: z in gone ==> !Reaches(fs, rank, z, a)
    requires y !in gone && Reaches(fs, rank, y, a)
    ensures Reaches(Keep(fs, gone), rank, y, a)
    decreases rank(y)
  {
    FindKeep(fs, gone, y);
    var p := Find(fs, y).value.parentId.value;
    if p != a {
      ReachesKeepUp(fs, rank, gone, p, a);
    }
  }

  /** The descendants of `a` are the same before and after removing folders
      none of which is a descendant of `a`. */
  lemma DescKeep(fs: seq<Folder>, rank: nat -> nat, gone: set<nat>, a: nat)
    requires Ranked(fs, rank)
    requires forall z :: z in gone ==> !Reaches(fs, rank, z, a)
    ensures Ranked(Keep(fs, gone), rank)
    ensures Desc(Keep(fs, gone), rank, a) == Desc(fs, rank, a)
  {
    var k := Keep(fs, gone);
    forall y | y in Desc(k, rank, a) ensures y in Desc(fs, rank, a) {
      var f :| f in k && Reaches(k, rank, f.id, a) && f.id == y;
      ReachesKeepDown(fs, rank, gone, y, a);
    }
    forall y | y in Desc(fs, rank, a) ensures y in Desc(k, rank, a) {
      var f :| f in fs && Reaches(fs, rank, f.id, a) && f.id == y;
      ReachesKeepUp(fs, rank, gone, y, a);
      assert f in k;
    }
  }

  lemma {:induction false} SubtreesOfWitness(fs: seq<Folder>, rank: nat -> nat, cs: seq<Folder>, y: nat)
    returns (k: nat)
    requires Ranked(fs, rank) && y in SubtreesOf(fs, rank, cs)
    ensures k < |cs| && y in Subtree(fs, rank, cs[k].id)
    decreases |cs|
  {
    var n := |cs| - 1;
    if y in Subtree(fs, rank, cs[n].id) {
      k := n;
    } else {
      k := SubtreesOfWitness(fs, rank, cs[..n], y);
      assert cs[..n][k] == cs[k];
    }
  }

  lemma {:induction false} SubtreesOfIntro(fs: seq<Folder>, rank: nat -> nat, cs: seq<Folder>, k: nat, y: nat)
    requires Ranked(fs, rank) && k < |cs| && y in Subtree(fs, rank, cs[k].id)
    ensures y in SubtreesOf(fs, rank, cs)
    decreases |cs|
  {
    var n := |cs| - 1;
    if k < n {
      assert cs[..n][k] == cs[k];
      SubtreesOfIntro(fs, rank, cs[..n], k, y);
    }
  }

  /** Every strict descendant of `pid` is a child of `pid` or below one. */
  lemma {:induction false} ReachesViaChild(fs: seq<Folder>, rank: nat -> nat, pid: nat, y: nat)
    requires Ranked(fs, rank) && Reaches(fs, rank, y, pid)
    ensures exists c :: c in ChildrenOf(fs, Some(pid)) && (y == c.id || Reaches(fs, rank, y, c.id))
    decreases rank(y)
  {
    var g := Find(fs, y).value;
    var p := g.parentId.value;
    if p == pid {
      assert g in ChildrenOf(fs, Some(pid));
    } else {
      ReachesViaChild(fs, rank, pid, p);
      var c :| c in ChildrenOf(fs, Some(pid)) && (p == c.id || Reaches(fs, rank, p, c.id));
      assert Reaches(fs, rank, y, c.id);
    }
  }

  lemma ChildSubtreeInDesc(fs: seq<Folder>, rank: nat -> nat, pid: nat, c: Folder, y: nat)
    requires Ranked(fs, rank) && UniqueIds(fs)
    requires c in ChildrenOf(fs, Some(pid)) && y in Subtree(fs, rank, c.id)
    ensures y in Desc(fs, rank, pid)
  {
    FindUnique(fs, c);
    assert Reaches(fs, rank, c.id, pid);
    if y == c.id {
      assert c in fs && Reaches(fs, rank, c.id, pid);
    } else {
      var f :| f in fs && Reaches(fs, rank, f.id, c.id) && f.id == y;
      ReachesTrans(fs, rank, y, c.id, pid);
      assert f in fs && Reaches(fs, rank, f.id, pid);
    }
  }

  lemma DescInChildSubtrees(fs: seq<Folder>, rank: nat -> nat, pid: nat, y: nat)
    requires Ranked(fs, rank) && y in Desc(fs, rank, pid)
    ensures y in SubtreesOf(fs, rank, ChildrenOf(fs, Some(pid)))
  {
    var cs := ChildrenOf(fs, Some(pid));
    var f :| f in fs && Reaches(fs, rank, f.id, pid) && f.id == y;
    ReachesViaChild(fs, rank, pid, y);
    var c :| c in cs && (y == c.id || Reaches(fs, rank, y, c.id));
    var k :| 0 <= k < |cs| && cs[k] == c;
    if y != c.id {
      assert f in fs && Reaches(fs, rank, f.id, c.id);
    }
    assert y in Subtree(fs, rank, cs[k].id);
    SubtreesOfIntro(fs, rank, cs, k, y);
  }

  /** The subtrees of the children of `pid` make up exactly the descendants of `pid`. */
  lemma ChildrenCoverDesc(fs: seq<Folder>, rank: nat -> nat, pid: nat)
    requires Ranked(fs, rank) && UniqueIds(fs)
    ensures SubtreesOf(fs, rank, ChildrenOf(fs, Some(pid))) == Desc(fs, rank, pid)
  {
    var cs := ChildrenOf(fs, Some(pid));
    forall y | y in SubtreesOf(fs, rank, cs) ensures y in Desc(fs, rank, pid) {
      var k := SubtreesOfWitness(fs, rank, cs, y);
      assert cs[k] in cs;
      ChildSubtreeInDesc(fs, rank, pid, cs[k], y);
    }
    forall y | y in Desc(fs, rank, pid) ensures y in SubtreesOf(fs, rank, cs) {
      DescInChildSubtrees(fs, rank, pid, y);
    }
  }

  /** The subtree of one child of `pid` holds no other child of `pid`
      and no descendant of one. */
  lemma SiblingSubtreeApart(fs: seq<Folder>, rank: nat -> nat, pid: nat, a: nat, b: nat, z: nat)
    requires Ranked(fs, rank) && a != b
    requires Find(fs, a).Some? && Find(fs, a).value.parentId == Some(pid)
    requires Find(fs, b).Some? && Find(fs, b).value.parentId == Some(pid)
    requires z in Subtree(fs, rank, a)
    ensures z != b && !Reaches(fs, rank, z, b)
  {
    SiblingNoReach(fs, rank, pid, a, b);
    SiblingNoReach(fs, rank, pid, b, a);
    if z != a {
      var f :| f in fs && Reaches(fs, rank, f.id, a) && f.id == z;
      if Reaches(fs, rank, z, b) {
        ReachesFunnel(fs, rank, z, a, b);
        assert false;
      }
    }
  }

  /** The subtrees of earlier children of `pid` neither contain a later
      child nor any descendant of it. */
  lemma SiblingsDisjoint(fs: seq<Folder>, rank: nat -> nat, pid: nat, k: nat)
    requires Ranked(fs, rank) && UniqueIds(fs)
    requires k < |ChildrenOf(fs, Some(pid))|
    ensures var cs := ChildrenOf(fs, Some(pid));
            forall z :: z in SubtreesOf(fs, rank, cs[..k]) ==> z != cs[k].id && !Reaches(fs, rank, z, cs[k].id)
  {
    var cs := ChildrenOf(fs, Some(pid));
    ChildrenUnique(fs, Some(pid));
    var ck := cs[k];
    assert ck in cs;
    FindUnique(fs, ck);
    forall z | z in SubtreesOf(fs, rank, cs[..k]) ensures z != ck.id && !Reaches(fs, rank, z, ck.id) {
      var j := SubtreesOfWitness(fs, rank, cs[..k], z);
      var cj := cs[j];
      assert cs[..k][j] == cj;
      assert cj in cs;
      FindUnique(fs, cj);
      SiblingSubtreeApart(fs, rank, pid, cj.id, ck.id, z);
    }
  }

  /** No folder is its own descendant. */
  lemma NotOwnDescendant(fs: seq<Folder>, rank: nat -> nat, a: nat)
    requires Ranked(fs, rank)
    ensures a !in Desc(fs, rank, a)
  {
    if Reaches(fs, rank, a, a) {
      ReachesRank(fs, rank, a, a);
    }
  }

  /** A folder whose parent lies in the subtree of `a` lies in it too. */
  lemma ParentInSubtree(fs: seq<Folder>, rank: nat -> nat, a: nat, f: Folder)
    requires Ranked(fs, rank) && UniqueIds(fs) && f in fs
    requires f.parentId.Some? && f.parentId.value in Subtree(fs, rank, a)
    ensures f.id in Subtree(fs, rank, a)
  {
    FindUnique(fs, f);
    var p := f.parentId.value;
    if p != a {
      var g :| g in fs && Reaches(fs, rank, g.id, a) && g.id == p;
    }
    assert Reaches(fs, rank, f.id, a);
  }
}
