/** Creating and pruning the directories above a path: one buffer is cut at each '/', handed to the
    filesystem as a C string and mended again. */
module PathWalk {
  import opened Namespace

  const OBJ_NAME_LEN := 64

  const NUL: char := '\0'

  // ----- C strings and ancestors

  /** The C string that starts a buffer. */
  function CString(buf: seq<char>): string {
    if buf == [] || buf[0] == NUL then [] else [buf[0]] + CString(buf[1..])
  }

  lemma {:induction false} CStringCut(buf: seq<char>, n: nat)
    requires n < |buf| && buf[n] == NUL && NUL !in buf[..n]
    ensures CString(buf) == buf[..n]
    decreases n
  {
    if n > 0 {
      assert buf[0] == buf[..n][0];
      assert buf[1..][..n - 1] == buf[..n][1..];
      CStringCut(buf[1..], n - 1);
    }
  }

  lemma CutString(buf: seq<char>, path: string, p: nat)
    requires p < |path| < |buf| && path <= buf && NUL !in path
    ensures CString(buf[p := NUL]) == path[..p]
  {
    assert buf[p := NUL][..p] == path[..p];
    assert forall i :: 0 <= i < p ==> path[..p][i] == path[i];
    CStringCut(buf[p := NUL], p);
  }

  /** What strlcpy leaves of a path in the buffer. */
  function Clip(path: string): string {
    if |path| < OBJ_NAME_LEN then path else path[..OBJ_NAME_LEN - 1]
  }

  predicate CutAt(path: string, k: int) {
    1 <= k < |path| && path[k] == '/'
  }

  /** The proper ancestors of a path that are shorter than k, shortest first. */
  function AncestorsBelow(path: string, k: nat): seq<string>
    requires k <= |path|
  {
    if k == 0 then [] else AncestorsBelow(path, k - 1) + if CutAt(path, k - 1) then [path[..k - 1]] else []
  }

  function Ancestors(path: string): seq<string> {
    AncestorsBelow(path, |path|)
  }

  function Reversed(s: seq<string>): (r: seq<string>)
    ensures |r| == |s| && forall i :: 0 <= i < |s| ==> r[i] == s[|s| - 1 - i]
  {
    if s == [] then [] else Reversed(s[1..]) + [s[0]]
  }

  /** The walk visits exactly the prefixes that end before a '/', and in order of length. */
  lemma {:induction false} AncestorsAre(path: string, k: nat)
    requires k <= |path|
    ensures forall a :: a in AncestorsBelow(path, k) <==> CutAt(path, |a|) && |a| < k && a == path[..|a|]
    ensures forall i, j :: 0 <= i < j < |AncestorsBelow(path, k)| ==>
      |AncestorsBelow(path, k)[i]| < |AncestorsBelow(path, k)[j]|
    decreases k
  {
    if k > 0 {
      AncestorsAre(path, k - 1);
      var s, r := AncestorsBelow(path, k - 1), AncestorsBelow(path, k);
      forall a
        ensures a in r <==> CutAt(path, |a|) && |a| < k && a == path[..|a|]
      {
        assert a in r <==> a in s || (CutAt(path, k - 1) && a == path[..k - 1]);
      }
      forall i, j | 0 <= i < j < |r|
        ensures |r[i]| < |r[j]|
      {
        assert s[i] in s;
      }
    }
  }

  // ----- the effect of one mkdir or rmdir

  function Parent(p: string): string
  {
    if p == "" then "" else if p[|p| - 1] == '/' then p[..|p| - 1] else Parent(p[..|p| - 1])
  }

  predicate HasParent(t: Tree, p: string) {
    Parent(p) == "" || (Parent(p) in t && t[Parent(p)] == Dir)
  }

  function MkdirEffect(t: Tree, p: string, ok: bool): Tree {
    if ok && p !in t && HasParent(t, p) then t[p := Dir] else t
  }

  function RmdirEffect(t: Tree, p: string, ok: bool): Tree {
    if ok && p in t && t[p] == Dir && Empty(t, p) then t - {p} else t
  }

  class LittleFs {
    var tree: Tree
    var calls: seq<string>
    const healthy: nat -> bool

    constructor (tree: Tree, healthy: nat -> bool)
      ensures this.tree == tree && calls == [] && this.healthy == healthy
    {
      this.tree, calls, this.healthy := tree, [], healthy;
    }

    // The device may refuse the k-th call; the caller of mkdirs and rmdirs never looks at the result.
    method Mkdir(name: string) returns (r: int)
      modifies this
      ensures calls == old(calls) + [name]
      ensures tree == MkdirEffect(old(tree), name, healthy(old(|calls|)))
      ensures r == 0 || r == -1
    {
      var ok := healthy(|calls|) && name !in tree && HasParent(tree, name);
      if ok {
        tree := tree[name := Dir];
      }
      calls := calls + [name];
      r := if ok then 0 else -1;
    }

    method Rmdir(name: string) returns (r: int)
      modifies this
      ensures calls == old(calls) + [name]
      ensures tree == RmdirEffect(old(tree), name, healthy(old(|calls|)))
      ensures r == 0 || r == -1
    {
      var ok := healthy(|calls|);
      calls := calls + [name];
      if name !in tree {
        return -1;
      }
      if tree[name] != Dir {
        return -1;
      }
      if !ok || !Empty(tree, name) {
        return -1;
      }
      tree := tree - {name};
      r := 0;
    }
  }

  // ----- the two walks

  function MkdirRun(t: Tree, names: seq<string>, h: nat -> bool, n: nat): Tree {
    if names == [] then t
    else MkdirEffect(MkdirRun(t, names[..|names| - 1], h, n), names[|names| - 1], h(n + |names| - 1))
  }

  function RmdirRun(t: Tree, names: seq<string>, h: nat -> bool, n: nat): Tree
    decreases |names|
  {
    if names == [] then t else RmdirRun(RmdirEffect(t, names[0], h(n)), names[1..], h, n + 1)
  }

  lemma MkdirRunSnoc(t: Tree, names: seq<string>, a: string, h: nat -> bool, n: nat)
    ensures MkdirRun(t, names + [a], h, n) == MkdirEffect(MkdirRun(t, names, h, n), a, h(n + |names|))
  {
    assert (names + [a])[..|names|] == names;
  }

  lemma RmdirRunCons(t: Tree, a: string, names: seq<string>, h: nat -> bool, n: nat)
    ensures RmdirRun(t, [a] + names, h, n) == RmdirRun(RmdirEffect(t, a, h(n)), names, h, n + 1)
    ensures RmdirRun(t, [], h, n) == t
  {
    assert ([a] + names)[1..] == names;
  }

  method Strlcpy(tmp: array<char>, path: string) returns (n: nat)
    requires tmp.Length == OBJ_NAME_LEN
    modifies tmp
    ensures n == |Clip(path)| < tmp.Length && Clip(path) <= tmp[..] && tmp[n] == NUL
  {
    n := if |path| < OBJ_NAME_LEN then |path| else OBJ_NAME_LEN - 1;
    forall i | 0 <= i < n {
      tmp[i] := path[i];
    }
    tmp[n] := NUL;
  }

  lemma AncestorsStep(path: string, p: nat)
    requires p < |path|
    ensures CutAt(path, p) ==> path[p] == '/' && p >= 1
    ensures AncestorsBelow(path, p + 1) == AncestorsBelow(path, p) + if CutAt(path, p) then [path[..p]] else []
    ensures !CutAt(path, p) ==> AncestorsBelow(path, p + 1) == AncestorsBelow(path, p)
  {
  }

  // Cuts the buffer at p, calls mkdir on what is before, and mends the cut.
  method MkdirAt(fs: LittleFs, tmp: array<char>, p: nat, ghost path: string)
    requires p < |path| < tmp.Length && path <= tmp[..] && NUL !in path && tmp[p] == '/'
    modifies fs, tmp
    ensures tmp[..] == old(tmp[..])
    ensures fs.calls == old(fs.calls) + [path[..p]]
    ensures fs.tree == MkdirEffect(old(fs.tree), path[..p], fs.healthy(old(|fs.calls|)))
  {
    CutString(tmp[..], path, p);
    tmp[p] := NUL;
    assert tmp[..] == old(tmp[..])[p := NUL];
    var r := fs.Mkdir(CString(tmp[..]));
    tmp[p] := '/';
  }

  method RmdirAt(fs: LittleFs, tmp: array<char>, p: nat, ghost path: string)
    requires p < |path| < tmp.Length && path <= tmp[..] && NUL !in path && tmp[p] == '/'
    modifies fs, tmp
    ensures tmp[..] == old(tmp[..])
    ensures fs.calls == old(fs.calls) + [path[..p]]
    ensures fs.tree == RmdirEffect(old(fs.tree), path[..p], fs.healthy(old(|fs.calls|)))
  {
    CutString(tmp[..], path, p);
    tmp[p] := NUL;
    assert tmp[..] == old(tmp[..])[p := NUL];
    var r := fs.Rmdir(CString(tmp[..]));
    tmp[p] := '/';
  }

  // One step of the walk: done are the ancestors visited so far, since the tree was t0 after n0 calls.
  method MkdirStep(fs: LittleFs, tmp: array<char>, p: nat, ghost path: string,
                   ghost done: seq<string>, ghost t0: Tree, ghost n0: nat)
    returns (ghost now: seq<string>)
    requires p < |path| < tmp.Length && path <= tmp[..] && NUL !in path
    requires done == AncestorsBelow(path, p) && |fs.calls| == n0 + |done|
    requires fs.tree == MkdirRun(t0, done, fs.healthy, n0)
    modifies fs, tmp
    ensures tmp[..] == old(tmp[..])
    ensures now == AncestorsBelow(path, p + 1) && done <= now && fs.calls == old(fs.calls) + now[|done|..]
    ensures fs.tree == MkdirRun(t0, now, fs.healthy, n0)
  {
    hide AncestorsBelow, MkdirRun, MkdirEffect, CString;
    AncestorsStep(path, p);
    now := done;
    assert tmp[..][p] == path[p];
    if tmp[p] == '/' && p > 0 {
      MkdirAt(fs, tmp, p, path);
      MkdirRunSnoc(t0, done, path[..p], fs.healthy, n0);
      now := done + [path[..p]];
    }
  }

  /** Issues mkdir on every proper ancestor of the clipped path, shortest first; on a device that refuses
      nothing the ancestors of the path then exist as MkdirsDone says. The path is a non-empty C string. */
  method Mkdirs(fs: LittleFs, dir: string)
    requires dir != [] && NUL !in dir
    modifies fs
    ensures fs.calls == old(fs.calls) + Ancestors(Clip(dir))
    ensures fs.tree == MkdirRun(old(fs.tree), Ancestors(Clip(dir)), fs.healthy, old(|fs.calls|))
    ensures Healthy(fs.healthy, old(|fs.calls|)) ==> MkdirsDone(old(fs.tree), dir, fs.tree)
  {
    var tmp := new char[OBJ_NAME_LEN];
    var n := Strlcpy(tmp, dir);
    ghost var path, whole := Clip(dir), tmp[..];
    ghost var s := AncestorsBelow(path, 1);
    AncestorsStep(path, 0);
    assert fs.tree == MkdirRun(fs.tree, s, fs.healthy, |fs.calls|);
    hide AncestorsBelow, MkdirEffect, MkdirRun, CString, Clip, MkdirsDone, Healthy;
    var p := 1;
    while tmp[p] != NUL
      invariant 1 <= p <= n && tmp[..] == whole
      invariant s == AncestorsBelow(path, p) && fs.calls == old(fs.calls) + s
      invariant fs.tree == MkdirRun(old(fs.tree), s, fs.healthy, old(|fs.calls|))
      decreases n - p
    {
      s := MkdirStep(fs, tmp, p, path, s, old(fs.tree), old(|fs.calls|));
      p := p + 1;
    }
    if Healthy(fs.healthy, old(|fs.calls|)) {
      MkdirsOnPath(old(fs.tree), dir, fs.healthy, old(|fs.calls|));
    }
  }

  lemma {:induction false} ReversedSnoc(s: seq<string>, a: string)
    ensures Reversed(s + [a]) == [a] + Reversed(s)
    decreases |s|
  {
    if s != [] {
      assert (s + [a])[1..] == s[1..] + [a];
      ReversedSnoc(s[1..], a);
    } else {
      assert [a][1..] == [];
    }
  }

  // One step of the walk: todo are the ancestors still to be visited.
  method RmdirStep(fs: LittleFs, tmp: array<char>, p: nat, ghost path: string, ghost todo: seq<string>)
    returns (ghost rest: seq<string>)
    requires 0 < p < |path| < tmp.Length && path <= tmp[..] && NUL !in path
    requires todo == Reversed(AncestorsBelow(path, p + 1))
    modifies fs, tmp
    ensures tmp[..] == old(tmp[..])
    ensures rest == Reversed(AncestorsBelow(path, p)) && fs.calls + rest == old(fs.calls) + todo
    ensures RmdirRun(fs.tree, rest, fs.healthy, |fs.calls|) == old(RmdirRun(fs.tree, todo, fs.healthy, |fs.calls|))
  {
    hide AncestorsBelow, Reversed, RmdirEffect, RmdirRun, CString;
    AncestorsStep(path, p);
    rest := Reversed(AncestorsBelow(path, p));
    assert tmp[..][p] == path[p];
    if tmp[p] == '/' {
      ReversedSnoc(AncestorsBelow(path, p), path[..p]);
      RmdirRunCons(fs.tree, path[..p], rest, fs.healthy, |fs.calls|);
      RmdirAt(fs, tmp, p, path);
    }
  }

  /** Issues rmdir on every proper ancestor of the clipped path, longest first; on a device that refuses
      nothing the ancestors of the path are then pruned as RmdirsDone says. */
  method Rmdirs(fs: LittleFs, dir: string)
    requires dir != [] && NUL !in dir
    modifies fs
    ensures fs.calls == old(fs.calls) + Reversed(Ancestors(Clip(dir)))
    ensures fs.tree == RmdirRun(old(fs.tree), Reversed(Ancestors(Clip(dir))), fs.healthy, old(|fs.calls|))
    ensures Healthy(fs.healthy, old(|fs.calls|)) ==> RmdirsDone(old(fs.tree), dir, fs.tree)
  {
    var tmp := new char[OBJ_NAME_LEN];
    var n := Strlcpy(tmp, dir);
    ghost var path, whole := Clip(dir), tmp[..];
    ghost var todo := Reversed(Ancestors(path));
    hide AncestorsBelow, Reversed, RmdirEffect, RmdirRun, CString, Clip, RmdirsDone, Healthy;
    var p := n - 1;
    while p != 0
      invariant 0 <= p < n && tmp[..] == whole
      invariant todo == Reversed(AncestorsBelow(path, p + 1))
      invariant fs.calls + todo == old(fs.calls) + Reversed(Ancestors(path))
      invariant RmdirRun(fs.tree, todo, fs.healthy, |fs.calls|)
             == RmdirRun(old(fs.tree), Reversed(Ancestors(path)), fs.healthy, old(|fs.calls|))
    {
      todo := RmdirStep(fs, tmp, p, path, todo);
      p := p - 1;
    }
    NothingBelow(path);
    RmdirRunCons(fs.tree, path, [], fs.healthy, |fs.calls|);
    if Healthy(fs.healthy, old(|fs.calls|)) {
      RmdirsOnPath(old(fs.tree), dir, fs.healthy, old(|fs.calls|));
    }
  }

  lemma NothingBelow(path: string)
    requires path != []
    ensures Reversed(AncestorsBelow(path, 1)) == []
  {
    AncestorsStep(path, 0);
  }

  // ----- what the walks achieve on a device that refuses nothing

  ghost predicate Healthy(h: nat -> bool, n: nat) {
    forall i: nat :: n <= i ==> h(i)
  }

  lemma {:induction false} ParentIsAncestor(path: string, k: nat)
    requires k < |path|
    ensures Parent(path[..k]) == "" || Parent(path[..k]) in AncestorsBelow(path, k)
    decreases k
  {
    if k > 0 {
      assert path[..k][..k - 1] == path[..k - 1];
      ParentIsAncestor(path, k - 1);
    }
  }

  predicate AllDirs(t: Tree, names: seq<string>) {
    forall a :: a in names ==> a in t && t[a] == Dir
  }

  predicate NoFile(t: Tree, names: seq<string>) {
    forall a :: a in names && a in t ==> t[a] == Dir
  }

  /** r is t with directories added at some of names only; every name is a directory in r exactly when
      none was a regular file in t. */
  ghost predicate Reached(t: Tree, names: seq<string>, r: Tree) {
    && (AllDirs(r, names) <==> NoFile(t, names))
    && (forall p :: p in t ==> p in r && r[p] == t[p])
    && (forall p :: p in r && p !in t ==> p in names && r[p] == Dir)
  }

  lemma ReachedStep(t: Tree, s: seq<string>, q: Tree, a: string)
    requires Reached(t, s, q) && (Parent(a) == "" || Parent(a) in s)
    ensures Reached(t, s + [a], MkdirEffect(q, a, true))
  {
    var r := MkdirEffect(q, a, true);
    assert a in s + [a] && forall x :: x in s ==> x in s + [a];
    assert AllDirs(r, s + [a]) <==> AllDirs(q, s) && a in r && r[a] == Dir;
    assert NoFile(t, s + [a]) <==> NoFile(t, s) && (a in t ==> t[a] == Dir);
  }

  /** mkdirs adds directories at ancestors only and changes nothing else; afterwards every ancestor
      exists as a directory, unless one of them was a regular file. */
  lemma {:induction false} MkdirsReach(t: Tree, path: string, k: nat, h: nat -> bool, n: nat)
    requires k <= |path| && Healthy(h, n)
    ensures Reached(t, AncestorsBelow(path, k), MkdirRun(t, AncestorsBelow(path, k), h, n))
    decreases k
  {
    hide *;
    if k == 0 {
      ReachedNone(t, path, h, n);
    } else {
      var s := AncestorsBelow(path, k - 1);
      AncestorsStep(path, k - 1);
      MkdirsReach(t, path, k - 1, h, n);
      if CutAt(path, k - 1) {
        HealthyAt(h, n, n + |s|);
        MkdirRunSnoc(t, s, path[..k - 1], h, n);
        ParentIsAncestor(path, k - 1);
        ReachedStep(t, s, MkdirRun(t, s, h, n), path[..k - 1]);
      }
    }
  }

  lemma HealthyAt(h: nat -> bool, n: nat, i: nat)
    requires Healthy(h, n) && n <= i
    ensures h(i)
  {
  }

  lemma ReachedNone(t: Tree, path: string, h: nat -> bool, n: nat)
    ensures Reached(t, AncestorsBelow(path, 0), MkdirRun(t, AncestorsBelow(path, 0), h, n))
  {
  }

  predicate IsAncestor(path: string, p: string) {
    CutAt(path, |p|) && p == path[..|p|]
  }

  /** Below q there are only directories on the way to path. */
  predicate OnlyChain(t: Tree, path: string, q: string) {
    forall p :: p in t && Under(p, q) ==> IsAncestor(path, p) && t[p] == Dir
  }

  predicate Goes(t: Tree, path: string, k: nat, p: string)
    requires p in t
  {
    IsAncestor(path, p) && |p| >= k && t[p] == Dir && OnlyChain(t, path, p)
  }

  /** The tree without the ancestor directories of length k or more that hold nothing of use. */
  function Pruned(t: Tree, path: string, k: nat): Tree {
    map p | p in t && !Goes(t, path, k, p) :: t[p]
  }

  lemma EmptyIffOnlyChain(t: Tree, path: string, k: nat)
    requires CutAt(path, k) && path[..k] in t
    ensures Empty(Pruned(t, path, k + 1), path[..k]) <==> OnlyChain(t, path, path[..k])
  {
    var q, r := path[..k], Pruned(t, path, k + 1);
    if OnlyChain(t, path, q) {
      forall p | p in t && Under(p, q)
        ensures p !in r
      {
        forall x | x in t && Under(x, p)
          ensures IsAncestor(path, x) && t[x] == Dir
        {
          UnderTransitive(x, p, q);
        }
        assert Goes(t, path, k + 1, p);
      }
    }
    if Empty(r, q) {
      forall p | p in t && Under(p, q)
        ensures IsAncestor(path, p) && t[p] == Dir
      {
        assert p !in r;
      }
    }
  }

  lemma PruneStep(t: Tree, path: string, k: nat)
    requires k < |path|
    ensures Pruned(t, path, k)
         == if CutAt(path, k) then RmdirEffect(Pruned(t, path, k + 1), path[..k], true) else Pruned(t, path, k + 1)
  {
    if CutAt(path, k) && path[..k] in t {
      EmptyIffOnlyChain(t, path, k);
    }
    hide OnlyChain, Empty;
    forall p | p in t && p != path[..k]
      ensures Goes(t, path, k, p) <==> Goes(t, path, k + 1, p)
    {
    }
    if CutAt(path, k) && path[..k] in t {
      assert !Goes(t, path, k + 1, path[..k]);
    }
  }

  lemma {:induction false} PruneFrom(t: Tree, path: string, k: nat, h: nat -> bool, n: nat)
    requires k <= |path| && Healthy(h, n)
    ensures RmdirRun(Pruned(t, path, k), Reversed(AncestorsBelow(path, k)), h, n) == Pruned(t, path, 0)
    decreases k
  {
    hide Pruned, RmdirEffect;
    if k > 0 {
      PruneStep(t, path, k - 1);
      AncestorsStep(path, k - 1);
      if CutAt(path, k - 1) {
        ReversedSnoc(AncestorsBelow(path, k - 1), path[..k - 1]);
        PruneFrom(t, path, k - 1, h, n + 1);
      } else {
        PruneFrom(t, path, k - 1, h, n);
      }
    }
  }

  /** rmdirs removes exactly the ancestor directories below which there is nothing but ancestor
      directories, so that no ancestor is left behind as an empty directory. */
  lemma RmdirsPrune(t: Tree, path: string, h: nat -> bool, n: nat)
    requires Healthy(h, n)
    ensures var r := RmdirRun(t, Reversed(Ancestors(path)), h, n);
      && r == Pruned(t, path, 0)
      && forall a :: a in r && a in Ancestors(path) && r[a] == Dir ==> !Empty(r, a)
  {
    assert Pruned(t, path, |path|) == t;
    PruneFrom(t, path, |path|, h, n);
    var r := Pruned(t, path, 0);
    forall a | a in r && a in Ancestors(path) && r[a] == Dir
      ensures !Empty(r, a)
    {
      AncestorsAre(path, |path|);
      var p :| p in t && Under(p, a) && !(IsAncestor(path, p) && t[p] == Dir);
      assert p in r;
    }
  }

  // ----- the path as the caller wrote it

  /** No ancestor of the path is too long for the buffer. */
  predicate Short(path: string) {
    forall k :: 63 <= k < |path| ==> path[k] != '/'
  }

  lemma {:induction false} AncestorsOfPrefix(path: string, n: nat, k: nat)
    requires k <= n <= |path|
    ensures AncestorsBelow(path[..n], k) == AncestorsBelow(path, k)
    decreases k
  {
    if k > 0 {
      AncestorsOfPrefix(path, n, k - 1);
      assert path[..n][..k - 1] == path[..k - 1];
    }
  }

  lemma {:induction false} NoMoreAncestors(path: string, n: nat, k: nat)
    requires 1 <= n <= k <= |path| && forall j :: n <= j < k ==> path[j] != '/'
    ensures AncestorsBelow(path, k) == AncestorsBelow(path, n)
    decreases k
  {
    if n < k {
      NoMoreAncestors(path, n, k - 1);
    }
  }

  /** The clipped walk visits every ancestor of the real path exactly when none is too long. */
  lemma ClipReaches(path: string)
    ensures Ancestors(Clip(path)) == Ancestors(path) <==> Short(path)
  {
    var n := OBJ_NAME_LEN - 1;
    if |path| > n {
      AncestorsOfPrefix(path, n, n);
      if Short(path) {
        NoMoreAncestors(path, n, |path|);
      } else {
        var k :| n <= k < |path| && path[k] == '/';
        AncestorsAre(path, |path|);
        AncestorsAre(path, n);
        assert path[..k] in Ancestors(path) && path[..k] !in AncestorsBelow(path, n);
      }
    }
  }

  /** An ancestor of the path that the clipped walk does not come to. */
  predicate Missed(path: string, a: string) {
    63 <= |a| && IsAncestor(path, a)
  }

  lemma AncestorsSplit(path: string, a: string)
    ensures a in Ancestors(path) <==> a in Ancestors(Clip(path)) || Missed(path, a)
    ensures a in Ancestors(Clip(path)) <==> IsAncestor(Clip(path), a)
    ensures !(a in Ancestors(Clip(path)) && Missed(path, a))
  {
    AncestorsAre(path, |path|);
    AncestorsAre(Clip(path), |Clip(path)|);
    if |a| < |Clip(path)| {
      assert Clip(path)[..|a|] == path[..|a|];
    }
  }

  /** What mkdirs achieves for a path: it only adds directories at ancestors, and every ancestor is a
      directory afterwards exactly when no ancestor it comes to was a file and those it does not come to
      were directories already. */
  ghost predicate MkdirsDone(t: Tree, path: string, r: Tree) {
    && Reached(t, Ancestors(Clip(path)), r)
    && (AllDirs(r, Ancestors(path)) <==>
          NoFile(t, Ancestors(Clip(path))) && forall a :: Missed(path, a) ==> a in t && t[a] == Dir)
    && (Short(path) ==> (AllDirs(r, Ancestors(path)) <==> NoFile(t, Ancestors(path))))
  }

  lemma MkdirsOnPath(t: Tree, path: string, h: nat -> bool, n: nat)
    requires Healthy(h, n)
    ensures MkdirsDone(t, path, MkdirRun(t, Ancestors(Clip(path)), h, n))
  {
    var names, r := Ancestors(Clip(path)), MkdirRun(t, Ancestors(Clip(path)), h, n);
    MkdirsReach(t, Clip(path), |Clip(path)|, h, n);
    ClipReaches(path);
    hide Ancestors, AncestorsBelow, MkdirRun, Clip, Missed;
    forall a
      ensures a in Ancestors(path) <==> a in names || Missed(path, a)
      ensures Missed(path, a) ==> a !in names
    {
      AncestorsSplit(path, a);
    }
    assert AllDirs(r, Ancestors(path)) <==> AllDirs(r, names) && forall a :: Missed(path, a) ==> a in t && t[a] == Dir;
    if Short(path) {
      assert Ancestors(path) == names;
    }
  }

  /** What rmdirs achieves for a path: exactly the useless ancestors it comes to are removed, and no
      ancestor is left as an empty directory exactly when none of those it does not come to was one. */
  ghost predicate RmdirsDone(t: Tree, path: string, r: Tree) {
    && r == Pruned(t, Clip(path), 0)
    && ((forall a :: a in Ancestors(path) && a in r && r[a] == Dir ==> !Empty(r, a)) <==>
        (forall a :: Missed(path, a) && a in t && t[a] == Dir ==> !Empty(t, a)))
    && (Short(path) ==> forall a :: a in Ancestors(path) && a in r && r[a] == Dir ==> !Empty(r, a))
  }

  lemma MissedStays(t: Tree, path: string, a: string)
    requires Missed(path, a)
    ensures var r := Pruned(t, Clip(path), 0);
      (a in r <==> a in t) && (a in t ==> r[a] == t[a]) && (Empty(r, a) <==> Empty(t, a))
  {
    var r := Pruned(t, Clip(path), 0);
    forall p | p in t && (p == a || Under(p, a))
      ensures p in r && r[p] == t[p]
    {
      assert |p| >= |a|;
      assert !IsAncestor(Clip(path), p);
    }
  }

  lemma RmdirsOnPath(t: Tree, path: string, h: nat -> bool, n: nat)
    requires Healthy(h, n)
    ensures RmdirsDone(t, path, RmdirRun(t, Reversed(Ancestors(Clip(path))), h, n))
  {
    var r := RmdirRun(t, Reversed(Ancestors(Clip(path))), h, n);
    RmdirsPrune(t, Clip(path), h, n);
    assert Short(path) ==> forall a :: !Missed(path, a);
    hide Ancestors, RmdirRun, Reversed, Clip, Missed, Pruned, Empty;
    forall a
      ensures a in Ancestors(path) <==> a in Ancestors(Clip(path)) || Missed(path, a)
    {
      AncestorsSplit(path, a);
    }
    forall a | Missed(path, a)
      ensures (a in r <==> a in t) && (a in t ==> r[a] == t[a]) && (Empty(r, a) <==> Empty(t, a))
    {
      MissedStays(t, path, a);
    }
  }
}
