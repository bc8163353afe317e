/** Directory trees: the value, and the disk that is changed one system call at a time. */
module FileTrees {
  import opened Paths

  newtype byte = x: int | 0 <= x < 256
  type Content = seq<byte>

  /** What `os.Lstat` finds. */
  datatype Node = File(content: Content) | Dir | Symlink

  /** A directory tree below some root; the root itself is not an entry. */
  type Tree = map<Path, Node>

  function Parent(p: Path): Path
    requires p != []
  {
    p[..|p| - 1]
  }

  /** Entries have clean paths and everything above an entry is a directory. */
  ghost predicate TreeOk(t: Tree) {
    && (forall p | p in t :: p != [] && IsClean(p))
    && (forall p, k | p in t && 0 < k < |p| :: p[..k] in t && t[p[..k]].Dir?)
  }

  predicate DirAt(t: Tree, p: Path) {
    p == [] || (p in t && t[p].Dir?)
  }

  lemma ParentIsDir(t: Tree, p: Path)
    requires TreeOk(t) && p in t
    ensures DirAt(t, Parent(p))
  {
    if |p| > 1 {
      assert p[..|p| - 1] in t;
    }
  }

  lemma PutOk(t: Tree, p: Path, n: Node)
    requires TreeOk(t) && p != [] && IsClean(p) && DirAt(t, Parent(p))
    requires p in t && t[p].Dir? ==> n.Dir?
    ensures TreeOk(t[p := n])
  {
    var t' := t[p := n];
    forall q, k | q in t' && 0 < k < |q| ensures q[..k] in t' && t'[q[..k]].Dir? {
      if q == p && k < |p| - 1 {
        assert q[..k] == Parent(p)[..k];
      }
    }
  }

  lemma RemoveOk(t: Tree, p: Path)
    requires TreeOk(t) && p in t
    requires forall q | q in t && p <= q :: q == p
    ensures TreeOk(t - {p})
  {
    var t' := t - {p};
    forall q, k | q in t' && 0 < k < |q| ensures q[..k] in t' && t'[q[..k]].Dir? {
      assert q[..k] in t;
      assert q[..k] != p;
    }
  }

  // ---------------------------------------------------------------- MkdirAll

  function Prefixes(p: Path): set<Path> {
    set k | 0 < k <= |p| :: p[..k]
  }

  /** `os.MkdirAll` meets nothing but directories and missing entries. */
  ghost predicate CanMkdir(t: Tree, p: Path) {
    forall k | 0 < k <= |p| :: p[..k] in t ==> t[p[..k]].Dir?
  }

  function PutDirs(t: Tree, p: Path): Tree {
    t + map q | q in Prefixes(p) && q !in t :: Dir
  }

  lemma PrefixesStep(p: Path, k: nat)
    requires k < |p|
    ensures Prefixes(p[..k + 1]) == Prefixes(p[..k]) + {p[..k + 1]}
    ensures p[..k + 1] !in Prefixes(p[..k])
  {
    var a, b := p[..k + 1], p[..k];
    forall q ensures q in Prefixes(a) <==> q in Prefixes(b) + {a} {
      if q in Prefixes(a) {
        var j :| 0 < j <= |a| && q == a[..j];
        assert j <= k ==> q == b[..j];
      }
      if q in Prefixes(b) {
        var j :| 0 < j <= |b| && q == b[..j];
        assert q == a[..j];
      }
      if q == a {
        assert q == a[..k + 1];
      }
    }
  }

  lemma PutDirsStep(t: Tree, p: Path, k: nat)
    requires k < |p|
    ensures PutDirs(t, p[..k + 1]) ==
            if p[..k + 1] in t then PutDirs(t, p[..k]) else PutDirs(t, p[..k])[p[..k + 1] := Dir]
  {
    PrefixesStep(p, k);
  }

  lemma CanMkdirStep(t: Tree, p: Path, k: nat)
    requires k < |p|
    ensures CanMkdir(t, p[..k + 1]) <==> CanMkdir(t, p[..k]) && (p[..k + 1] in t ==> t[p[..k + 1]].Dir?)
  {
    var a, b := p[..k + 1], p[..k];
    assert forall j | 0 < j <= k :: a[..j] == b[..j];
    assert a[..k + 1] == a;
  }

  lemma MkdirStart(t: Tree, p: Path)
    ensures CanMkdir(t, p[..0]) && PutDirs(t, p[..0]) == t
  {
  }

  lemma MkdirBlocked(t: Tree, p: Path, k: nat)
    requires k < |p| && p[..k + 1] in t && !t[p[..k + 1]].Dir?
    ensures !CanMkdir(t, p)
  {
  }

  lemma NothingToPut(t: Tree, p: Path, k: nat)
    requires TreeOk(t) && k <= |p|
    requires (k < |p| && p[..k + 1] in t) || k == 0 || p[..k] in t
    ensures PutDirs(t, p[..k]) == t
  {
    forall q | q in Prefixes(p[..k]) ensures q in t {
      var j :| 0 < j <= k && q == p[..k][..j];
      assert q == p[..j];
      if k < |p| && p[..k + 1] in t {
        assert q == p[..k + 1][..j];
      }
    }
  }

  lemma PutDirsAt(t: Tree, p: Path, k: nat)
    requires CanMkdir(t, p) && k <= |p|
    ensures DirAt(PutDirs(t, p), p[..k])
  {
    if k > 0 {
      assert p[..k] in Prefixes(p);
    }
  }

  // ------------------------------------------------------------------- disk

  datatype Stat = Found(node: Node) | NotExist | OtherError

  /** What `os.Lstat` answers: below a file or a link there is no "not exist". */
  function StatOf(t: Tree, p: Path): Stat {
    if p == [] then Found(Dir)
    else if p in t then Found(t[p])
    else if forall k | 0 < k < |p| :: p[..k] in t ==> t[p[..k]].Dir? then NotExist
    else OtherError
  }

  lemma StatOfMade(t: Tree, q: Path)
    requires TreeOk(t) && q != [] && DirAt(t, Parent(q)) && StatOf(t, q) != NotExist
    ensures q in t
  {
    if q !in t {
      forall k | 0 < k < |q| && q[..k] in t ensures t[q[..k]].Dir? {
        assert k < |q| - 1 ==> q[..k] == Parent(q)[..k];
        assert k == |q| - 1 ==> q[..k] == Parent(q);
      }
    }
  }

  function ChildrenOf(t: Tree, p: Path): set<Path> {
    set q | q in t && |q| == |p| + 1 && q[..|p|] == p
  }

  const TEMP_MARK := ".stoker-tmp-"

  /** A path that `os.CreateTemp` may choose beside `p`. */
  ghost predicate TempFor(p: Path, tmp: Path) {
    && p != [] && |tmp| == |p| && Parent(tmp) == Parent(p)
    && HasPrefix(tmp[|p| - 1], p[|p| - 1] + TEMP_MARK)
  }

  datatype CopyResult = Written | Unchanged | Failed

  /** What a copy to `p` may have done when it stopped at an arbitrary point. */
  ghost predicate CopyTrace(before: Tree, now: Tree, p: Path, c: Content) {
    && (forall q | q in before :: q in now && (now[q] == before[q] || (q == p && now[q] == File(c))))
    && (forall q | q in now && q !in before ::
          || (q < p && now[q].Dir?)
          || (q == p && now[q] == File(c))
          || (TempFor(p, q) && now[q].File?))
  }

  /** A record of faults grows only, and on a healthy disk not at all. */
  predicate Steady(before: bool, now: bool, healthy: bool) {
    (before ==> now) && (healthy && now ==> before)
  }

  /** A tree on disk. Unless the disk is `healthy` throughout, every call may fail for reasons
      of its own (an I/O error, the death of the process); `faulted` records that some call
      did. A run that is killed after any number of calls is a run in which all later calls
      fail. */
  class FileTree {
    var nodes: Tree
    ghost var faulted: bool
    const healthy: bool

    ghost predicate Valid()
      reads this
    {
      TreeOk(nodes)
    }

    constructor (t: Tree, healthy: bool)
      requires TreeOk(t)
      ensures nodes == t && !faulted && this.healthy == healthy
    {
      nodes := t;
      faulted := false;
      this.healthy := healthy;
    }

    /** Whether the next call fails on its own account. */
    method Fault() returns (failed: bool)
      modifies this`faulted
      ensures faulted == (old(faulted) || failed) && (failed ==> !healthy)
    {
      failed := *;
      failed := failed && !healthy;
      faulted := faulted || failed;
    }

    /** `os.Lstat`. */
    method Lstat(p: Path) returns (r: Stat)
      modifies this`faulted
      ensures Steady(old(faulted), faulted, healthy)
      ensures !faulted ==> r == StatOf(nodes, p)
      ensures r == OtherError || r == StatOf(nodes, p)
    {
      var failed := Fault();
      r := if failed then OtherError else StatOf(nodes, p);
    }

    /** `os.ReadDir`. */
    method ReadDir(p: Path) returns (ok: bool, entries: set<Path>)
      modifies this`faulted
      ensures Steady(old(faulted), faulted, healthy)
      ensures !faulted ==> ok == DirAt(nodes, p)
      ensures ok ==> DirAt(nodes, p) && entries == ChildrenOf(nodes, p)
    {
      var failed := Fault();
      ok := !failed && DirAt(nodes, p);
      entries := if ok then ChildrenOf(nodes, p) else {};
    }

    /** `os.MkdirAll`. */
    method MkdirAll(p: Path) returns (ok: bool)
      requires Valid() && IsClean(p)
      modifies this
      ensures Valid() && Steady(old(faulted), faulted, healthy)
      ensures !faulted ==> ok == CanMkdir(old(nodes), p)
      ensures ok ==> CanMkdir(old(nodes), p) && nodes == PutDirs(old(nodes), p)
      ensures !ok && !faulted ==> nodes == old(nodes)
      ensures forall q | q in old(nodes) :: q in nodes && nodes[q] == old(nodes)[q]
      ensures forall q | q in nodes && q !in old(nodes) :: q <= p && nodes[q].Dir?
    {
      hide TreeOk, PutDirs, CanMkdir, Prefixes;
      ghost var t := nodes;
      MkdirStart(t, p);
      for k := 0 to |p|
        invariant Valid() && Steady(old(faulted), faulted, healthy)
        invariant CanMkdir(t, p[..k]) && nodes == PutDirs(t, p[..k])
        invariant forall q | q in t :: q in nodes && nodes[q] == t[q]
        invariant forall q | q in nodes && q !in t :: q <= p && nodes[q].Dir?
      {
        var q := p[..k + 1];
        var stat := Lstat(q);
        PutDirsStep(t, p, k);
        CanMkdirStep(t, p, k);
        PutDirsAt(t, p[..k], k);
        assert p[..k][..k] == p[..k] == Parent(q);
        if stat == NotExist {
          var failed := Fault();
          if failed {
            return false;
          }
          PutOk(nodes, q, Dir);
          nodes := nodes[q := Dir];
        } else if stat != Found(Dir) {
          if !faulted {
            StatOfMade(nodes, q);
            NothingToPut(t, p, k);
            MkdirBlocked(t, p, k);
          }
          return false;
        }
      }
      assert p[..|p|] == p;
      return true;
    }

    /** `os.CreateTemp` beside `p`, which draws names until one is free. */
    method CreateTemp(p: Path) returns (ok: bool, tmp: Path)
      requires Valid() && p != [] && IsClean(p) && DirAt(nodes, Parent(p))
      modifies this
      ensures Valid() && Steady(old(faulted), faulted, healthy) && (!faulted ==> ok)
      ensures ok ==> tmp !in old(nodes) && TempFor(p, tmp) && nodes == old(nodes)[tmp := File([])]
      ensures !ok ==> nodes == old(nodes)
    {
      var suffix: string := *;
      if '/' in suffix || Parent(p) + [p[|p| - 1] + TEMP_MARK + suffix] in nodes {
        suffix := FreeSuffix(p, nodes.Keys);
      }
      var name := p[|p| - 1] + TEMP_MARK + suffix;
      tmp := Parent(p) + [name];
      var failed := Fault();
      if failed {
        return false, tmp;
      }
      assert p[|p| - 1] + TEMP_MARK <= name;
      assert TEMP_MARK[0] in name;
      TempNameIsName(p[|p| - 1], suffix);
      PutOk(nodes, tmp, File([]));
      nodes := nodes[tmp := File([])];
      ok := true;
    }

    /** Overwriting a regular file with the bytes of `c`; a fault leaves some first part of them. */
    method WriteFile(tmp: Path, c: Content) returns (ok: bool)
      requires Valid() && tmp in nodes && nodes[tmp].File?
      modifies this
      ensures Valid() && Steady(old(faulted), faulted, healthy) && (!faulted ==> ok)
      ensures tmp in nodes && nodes[tmp].File? && nodes == old(nodes)[tmp := nodes[tmp]]
      ensures ok ==> nodes[tmp] == File(c)
    {
      var failed := Fault();
      var n: int := *;
      var part := if failed && 0 <= n <= |c| then c[..n] else c;
      ParentIsDir(nodes, tmp);
      PutOk(nodes, tmp, File(part));
      nodes := nodes[tmp := File(part)];
      return !failed;
    }

    /** `os.Rename` of a regular file; only a directory at the target refuses it. */
    method Rename(tmp: Path, p: Path) returns (ok: bool)
      requires Valid() && tmp in nodes && nodes[tmp].File? && tmp != p
      requires p != [] && IsClean(p) && DirAt(nodes, Parent(p))
      modifies this
      ensures Valid() && Steady(old(faulted), faulted, healthy)
      ensures !faulted ==> ok == !DirAt(old(nodes), p)
      ensures ok ==> !DirAt(old(nodes), p) && nodes == (old(nodes) - {tmp})[p := old(nodes)[tmp]]
      ensures !ok ==> nodes == old(nodes)
    {
      var failed := Fault();
      if failed || DirAt(nodes, p) {
        return false;
      }
      NothingBelowFile(nodes, tmp);
      RemoveOk(nodes, tmp);
      var n := nodes[tmp];
      PutOk(nodes - {tmp}, p, n);
      nodes := (nodes - {tmp})[p := n];
      return true;
    }

    /** `os.Remove`: a file, a link or an empty directory. */
    method Remove(p: Path) returns (ok: bool)
      requires Valid()
      modifies this
      ensures Valid() && Steady(old(faulted), faulted, healthy)
      ensures !faulted ==> ok == (p in old(nodes) && ChildrenOf(old(nodes), p) == {})
      ensures ok ==> p in old(nodes) && ChildrenOf(old(nodes), p) == {}
      ensures nodes == if ok then old(nodes) - {p} else old(nodes)
    {
      var failed := Fault();
      if failed || p !in nodes || ChildrenOf(nodes, p) != {} {
        return false;
      }
      NothingBelowEmpty(nodes, p);
      RemoveOk(nodes, p);
      nodes := nodes - {p};
      return true;
    }

    /** `os.RemoveAll` of the whole tree; a fault leaves part of it. */
    method RemoveAll() returns (ok: bool)
      requires Valid()
      modifies this
      ensures Valid() && Steady(old(faulted), faulted, healthy) && (!faulted ==> ok)
      ensures ok ==> nodes == map[]
    {
      while nodes != map[]
        invariant Valid() && Steady(old(faulted), faulted, healthy)
        decreases nodes.Keys
      {
        var p := Deepest(nodes);
        var failed := Fault();
        if failed {
          return false;
        }
        RemoveOk(nodes, p);
        nodes := nodes - {p};
      }
      return true;
    }

    /** `filesEqual`: both regular, same bytes. Links are never equal. */
    method FilesEqual(src: Node, p: Path) returns (equal: bool)
      modifies this`faulted
      ensures Steady(old(faulted), faulted, healthy)
      ensures !faulted ==> equal == (src.File? && p in nodes && p != [] && nodes[p] == src)
      ensures equal ==> src.File? && p in nodes && nodes[p] == src
    {
      var stat := Lstat(p);
      var failed := Fault();
      equal := !failed && src.File? && stat == Found(src);
    }

    /** The second half of `copyFile`: temporary file, then rename. */
    method ReplaceViaTemp(src: Node, p: Path) returns (ok: bool)
      requires Valid() && p != [] && IsClean(p) && DirAt(nodes, Parent(p)) && src != Symlink
      modifies this
      ensures Valid() && Steady(old(faulted), faulted, healthy)
      ensures !faulted ==> ok == (src.File? && !DirAt(old(nodes), p))
      ensures ok ==> src.File? && !DirAt(old(nodes), p) && nodes == old(nodes)[p := src]
      ensures !ok && !faulted ==> nodes == old(nodes)
      ensures !ok ==> forall q | q in old(nodes) :: q in nodes && nodes[q] == old(nodes)[q]
      ensures !ok ==> forall q | q in nodes && q !in old(nodes) :: TempFor(p, q) && nodes[q].File?
    {
      hide TempFor, ChildrenOf;
      ghost var made := nodes;
      var tmp: Path;
      ok, tmp := CreateTemp(p);
      if !ok {
        return;
      }
      TempDiffers(p, tmp);
      var content := if src.File? then src.content else [];
      ok := WriteFile(tmp, content);
      if ok {
        var failed := Fault(); // reading a directory, close, chmod
        ok := !failed && src.File?;
      }
      ghost var filled := nodes[tmp];
      assert nodes == made[tmp := filled];
      if ok {
        ok := Rename(tmp, p);
      }
      if ok {
        assert (made[tmp := filled] - {tmp})[p := src] == made[p := src];
      } else {
        FileHasNoChildren(nodes, tmp);
        var removed := Remove(tmp);
        assert made[tmp := filled] - {tmp} == made;
      }
    }

    /** `copyFile`: skip when equal, else a temporary file renamed over the target. */
    method CopyFile(src: Node, p: Path) returns (r: CopyResult)
      requires Valid() && p != [] && IsClean(p)
      modifies this
      ensures Valid() && Steady(old(faulted), faulted, healthy)
      ensures r == Unchanged ==> src.File? && p in old(nodes) && old(nodes)[p] == src && nodes == old(nodes)
      ensures r == Written ==> src.File? && CanMkdir(old(nodes), Parent(p)) && !DirAt(old(nodes), p)
      ensures r == Written ==> nodes == PutDirs(old(nodes), Parent(p))[p := src]
      ensures !faulted ==> r == CopyOutcome(old(nodes), src, p)
      ensures !faulted && r == Failed && src.File? ==> nodes == old(nodes)
      ensures src.File? ==> CopyTrace(old(nodes), nodes, p, src.content)
    {
      ghost var t := nodes;
      var failed := Fault();
      if failed || src == Symlink {
        return Failed;
      }
      var equal := FilesEqual(src, p);
      if equal {
        return Unchanged;
      }
      var ok := MkdirAll(Parent(p));
      if !ok {
        return Failed;
      }
      ghost var made := nodes;
      assert Parent(p)[..|p| - 1] == Parent(p);
      PutDirsAt(t, Parent(p), |p| - 1);
      assert DirAt(made, p) == DirAt(t, p) by {
        assert forall q | q in Prefixes(Parent(p)) :: |q| < |p|;
      }
      ok := ReplaceViaTemp(src, p);
      if !ok && !faulted && src.File? {
        NothingToPutAbove(t, p);
      }
      return if ok then Written else Failed;
    }
  }

  /** The exact outcome of a copy in which nothing faults. */
  ghost function CopyOutcome(t: Tree, src: Node, p: Path): CopyResult
    requires p != []
  {
    if !src.File? then Failed
    else if p in t && t[p] == src then Unchanged
    else if CanMkdir(t, Parent(p)) && !DirAt(t, p) then Written
    else Failed
  }

  lemma TempDiffers(p: Path, tmp: Path)
    requires TempFor(p, tmp)
    ensures tmp != p && !(tmp < p)
  {
    assert |TEMP_MARK| == 12;
    assert |tmp[|p| - 1]| >= |p[|p| - 1]| + 12;
  }

  lemma NothingToPutAbove(t: Tree, p: Path)
    requires TreeOk(t) && p != [] && DirAt(t, p)
    ensures PutDirs(t, Parent(p)) == t
  {
    NothingToPut(t, p, |p| - 1);
    assert p[..|p| - 1 + 1] == p;
  }

  lemma TempNameIsName(base: string, suffix: string)
    requires '/' !in base && '/' !in suffix
    ensures IsName(base + TEMP_MARK + suffix)
  {
    assert |TEMP_MARK| == 12;
  }

  lemma NothingBelowFile(t: Tree, p: Path)
    requires TreeOk(t) && p in t && !t[p].Dir?
    ensures forall q | q in t && p <= q :: q == p
  {
    forall q | q in t && p <= q ensures q == p {
      assert q[..|p|] == p;
    }
  }

  lemma FileHasNoChildren(t: Tree, p: Path)
    requires TreeOk(t) && p in t && !t[p].Dir?
    ensures ChildrenOf(t, p) == {}
  {
    NothingBelowFile(t, p);
  }

  /** The child of `p` that leads to `q`. */
  lemma ChildTowards(t: Tree, p: Path, q: Path)
    requires TreeOk(t) && q in t && p < q
    ensures q[..|p| + 1] in ChildrenOf(t, p)
  {
    var c := q[..|p| + 1];
    assert |p| + 1 == |q| ==> c == q;
    assert c[..|p|] == p;
  }

  lemma NothingBelowEmpty(t: Tree, p: Path)
    requires TreeOk(t) && ChildrenOf(t, p) == {}
    ensures forall q | q in t && p <= q :: q == p
  {
    forall q | q in t && p <= q ensures q == p {
      if q != p {
        ChildTowards(t, p, q);
      }
    }
  }

  /** A suffix longer than any name in use. */
  method FreeSuffix(p: Path, used: set<Path>) returns (suffix: string)
    requires p != []
    ensures '/' !in suffix && Parent(p) + [p[|p| - 1] + TEMP_MARK + suffix] !in used
  {
    suffix := "";
    var left := used;
    while left != {}
      invariant '/' !in suffix && left <= used
      invariant forall q | q in used && q !in left && q != [] :: |q[|q| - 1]| <= |suffix|
      decreases left
    {
      var q :| q in left;
      if q != [] {
        while |suffix| < |q[|q| - 1]|
          invariant '/' !in suffix
          invariant forall r | r in used && r !in left && r != [] :: |r[|r| - 1]| <= |suffix|
        {
          suffix := suffix + "0";
        }
      }
      left := left - {q};
    }
    assert |TEMP_MARK| == 12;
    LastOfJoin(Parent(p), p[|p| - 1] + TEMP_MARK + suffix);
  }

  lemma LastOfJoin(p: Path, name: string)
    ensures p + [name] != [] && (p + [name])[|p + [name]| - 1] == name
  {
  }

  /** An entry with nothing below it. */
  method Deepest(t: Tree) returns (p: Path)
    requires t != map[]
    ensures p in t && forall q | q in t && p <= q :: q == p
  {
    assert t.Keys != {};
    p :| p in t;
    var rest := t.Keys;
    while rest != {}
      invariant p in t && rest <= t.Keys
      invariant forall q | q in t && q !in rest :: |q| <= |p|
    {
      var q :| q in rest;
      if |q| > |p| {
        p := q;
      }
      rest := rest - {q};
    }
  }
}
