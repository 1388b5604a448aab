/** The LittleFS VFS descriptor table: every open file is a node of a linked list and an entry of an
    array indexed by descriptor; fdCount counts them. */
module FdTable {
  import opened Namespace

  const UINT16_MAX := 65535
  const MIN_SIZE := 4

  class OpenFile {
    var hash: nat
    var path: string
    var next: OpenFile?

    constructor ()
      ensures hash == 0 && path == "" && next == null
    {
      hash, path, next := 0, "", null;
    }
  }

  // ----- the two views of the open files as sequences

  /** The list and the array hold the same files, each once. */
  ghost predicate Agree(list: seq<OpenFile>, slots: seq<OpenFile?>) {
    && (forall i, j :: 0 <= i < j < |list| ==> list[i] != list[j])
    && (forall i, j :: 0 <= i < j < |slots| && slots[i] != null ==> slots[i] != slots[j])
    && (forall i {:trigger Has(list, slots[i])} :: 0 <= i < |slots| && slots[i] != null ==> Has(list, slots[i]))
    && (forall i {:trigger Has(slots, list[i])} :: 0 <= i < |list| ==> Has(slots, list[i]))
  }

  // Membership under a name of its own, so that each direction of Agree is used only on request.
  ghost predicate Has(files: seq<OpenFile?>, f: OpenFile?) {
    f in files
  }

  ghost function Count(slots: seq<OpenFile?>): nat {
    if slots == [] then 0 else Count(slots[..|slots| - 1]) + if slots[|slots| - 1] == null then 0 else 1
  }

  function Nulls(n: nat): (s: seq<OpenFile?>)
    ensures |s| == n && forall i :: 0 <= i < n ==> s[i] == null
  {
    seq(n, _ => null)
  }

  /** The node at position i, or null past the end. */
  ghost function At(list: seq<OpenFile>, i: nat): OpenFile? {
    if i < |list| then list[i] else null
  }

  ghost function Without(list: seq<OpenFile>, k: nat): seq<OpenFile>
    requires k < |list|
  {
    list[..k] + list[k + 1..]
  }

  lemma AgreeRemove(list: seq<OpenFile>, slots: seq<OpenFile?>, k: nat, i: nat)
    requires Agree(list, slots) && k < |list| && i < |slots| && slots[i] == list[k]
    ensures Agree(Without(list, k), slots[i := null])
  {
    var l, s := Without(list, k), slots[i := null];
    forall j | 0 <= j < |l|
      ensures Has(s, l[j])
    {
      assert Has(slots, list[if j < k then j else j + 1]);
      var x: nat :| x < |slots| && slots[x] == l[j];
      assert s[x] == l[j];
    }
    forall j | 0 <= j < |s| && s[j] != null
      ensures Has(l, s[j])
    {
      assert Has(list, slots[j]);
      var x: nat :| x < |list| && list[x] == slots[j];
      assert x != k;
      assert l[if x < k then x else x - 1] == s[j];
    }
  }

  lemma AgreeAdd(list: seq<OpenFile>, slots: seq<OpenFile?>, f: OpenFile, i: nat)
    requires Agree(list, slots) && f !in list && i < |slots| && slots[i] == null
    ensures Agree([f] + list, slots[i := f])
  {
    var l, s := [f] + list, slots[i := f];
    forall j | 0 <= j < |l|
      ensures Has(s, l[j])
    {
      if j == 0 {
        assert s[i] == f;
      } else {
        assert Has(slots, list[j - 1]);
        var x: nat :| x < |slots| && slots[x] == l[j];
        assert s[x] == l[j];
      }
    }
    forall j | 0 <= j < |s| && s[j] != null
      ensures Has(l, s[j])
    {
      if j == i {
        assert l[0] == f;
      } else {
        assert Has(list, slots[j]);
      }
    }
    forall j | 0 <= j < |slots| && slots[j] != null
      ensures slots[j] != f
    {
      assert Has(list, slots[j]);
    }
  }

  lemma AgreeGrow(list: seq<OpenFile>, slots: seq<OpenFile?>, n: nat)
    requires Agree(list, slots)
    ensures Agree(list, slots + Nulls(n))
  {
    var s := slots + Nulls(n);
    forall j | 0 <= j < |list|
      ensures Has(s, list[j])
    {
      assert Has(slots, list[j]);
    }
    forall j | 0 <= j < |s| && s[j] != null
      ensures Has(list, s[j])
    {
      assert Has(list, slots[j]);
    }
  }

  lemma {:induction false} CountClear(slots: seq<OpenFile?>, i: nat)
    requires i < |slots| && slots[i] != null
    ensures Count(slots[i := null]) == Count(slots) - 1
    decreases |slots|
  {
    var n := |slots| - 1;
    if i < n {
      assert slots[i := null][..n] == slots[..n][i := null];
      CountClear(slots[..n], i);
    } else {
      assert slots[i := null][..n] == slots[..n];
    }
  }

  lemma {:induction false} CountNone(slots: seq<OpenFile?>)
    requires forall i :: 0 <= i < |slots| ==> slots[i] == null
    ensures Count(slots) == 0
  {
    if slots != [] {
      CountNone(slots[..|slots| - 1]);
    }
  }

  /** The counter the early exits rely on: list length and occupied slots agree. */
  lemma {:induction false} CountIsLength(list: seq<OpenFile>, slots: seq<OpenFile?>)
    requires Agree(list, slots)
    ensures Count(slots) == |list|
    decreases |list|
  {
    if list == [] {
      forall i | 0 <= i < |slots|
        ensures slots[i] == null
      {
        assert slots[i] != null ==> Has(list, slots[i]);
      }
      CountNone(slots);
    } else {
      assert Has(slots, list[0]);
      var i: nat :| i < |slots| && slots[i] == list[0];
      AgreeRemove(list, slots, 0, i);
      CountClear(slots, i);
      CountIsLength(Without(list, 0), slots[i := null]);
    }
  }

  lemma {:induction false} CountPrefix(slots: seq<OpenFile?>, i: nat)
    requires i <= |slots|
    ensures Count(slots[..i]) <= Count(slots)
    ensures Count(slots[..i]) == Count(slots) ==> forall j :: i <= j < |slots| ==> slots[j] == null
    decreases |slots|
  {
    var n := |slots| - 1;
    if i <= n {
      assert slots[..n][..i] == slots[..i];
      CountPrefix(slots[..n], i);
    } else {
      assert slots[..i] == slots;
    }
  }

  lemma {:induction false} CountFull(slots: seq<OpenFile?>)
    requires forall i :: 0 <= i < |slots| ==> slots[i] != null
    ensures Count(slots) == |slots|
  {
    if slots != [] {
      CountFull(slots[..|slots| - 1]);
    }
  }

  lemma {:induction false} CountBound(slots: seq<OpenFile?>)
    ensures Count(slots) <= |slots|
  {
    if slots != [] {
      CountBound(slots[..|slots| - 1]);
    }
  }

  lemma {:induction false} CountMissing(slots: seq<OpenFile?>, i: nat)
    requires i < |slots| && slots[i] == null
    ensures Count(slots) < |slots|
  {
    CountBound(slots[..|slots| - 1]);
    if i < |slots| - 1 {
      CountMissing(slots[..|slots| - 1], i);
    }
  }

  /** Pigeonhole: fewer files than slots leaves a slot free. */
  lemma FreeSlotExists(list: seq<OpenFile>, slots: seq<OpenFile?>)
    requires Agree(list, slots) && |list| < |slots|
    ensures exists i :: 0 <= i < |slots| && slots[i] == null
  {
    CountIsLength(list, slots);
    if forall i :: 0 <= i < |slots| ==> slots[i] != null {
      CountFull(slots);
    }
  }

  /** The array after the growth step at the head of an allocation. */
  function Resized(slots: seq<OpenFile?>, count: nat, reallocOk: bool): (r: seq<OpenFile?>)
    requires |slots| <= UINT16_MAX
    ensures slots <= r
  {
    var size := if 2 * |slots| < UINT16_MAX then 2 * |slots| else UINT16_MAX;
    if count + 1 > |slots| && reallocOk then slots + Nulls(size - |slots|) else slots
  }

  // ----- path hashing

  /** The 32-bit DJB2 hash. */
  function Hash(path: string): (h: nat)
    ensures h < 0x1_0000_0000
  {
    if path == "" then 5381 else (Hash(path[..|path| - 1]) * 33 + path[|path| - 1] as int) % 0x1_0000_0000
  }

  lemma HashStep(h: nat, c: nat)
    ensures ((h * 32) % 0x1_0000_0000 + h + c) % 0x1_0000_0000 == (h * 33 + c) % 0x1_0000_0000
  {
    var q := (h * 32) / 0x1_0000_0000;
    assert h * 33 + c == (h * 32) % 0x1_0000_0000 + h + c + q * 0x1_0000_0000;
  }

  /** The same hash without wrap-around: 5381 and the characters as digits to the base 33. */
  function WideHash(path: string): nat {
    if path == "" then 5381 else WideHash(path[..|path| - 1]) * 33 + path[|path| - 1] as int
  }

  lemma WrapStep(a: nat, c: nat)
    ensures (a % 0x1_0000_0000 * 33 + c) % 0x1_0000_0000 == (a * 33 + c) % 0x1_0000_0000
  {
    var q := a / 0x1_0000_0000;
    assert a * 33 + c == a % 0x1_0000_0000 * 33 + c + 33 * q * 0x1_0000_0000;
  }

  /** Wrapping at every step is wrapping once at the end. */
  lemma {:induction false} HashWrapsOnce(path: string)
    ensures Hash(path) == WideHash(path) % 0x1_0000_0000
  {
    if path != "" {
      HashWrapsOnce(path[..|path| - 1]);
      WrapStep(WideHash(path[..|path| - 1]), path[|path| - 1] as int);
    }
  }

  method ComputeHash(path: string) returns (hash: nat)
    ensures hash == Hash(path)
  {
    hash := 5381;
    for i := 0 to |path|
      invariant hash == Hash(path[..i])
    {
      assert path[..i + 1][..i] == path[..i];
      HashStep(hash, path[i] as int);
      hash := ((hash * 32) % 0x1_0000_0000 + hash + path[i] as int) % 0x1_0000_0000;
    }
    assert path[..|path|] == path;
  }

  ghost predicate AllNamed(files: seq<OpenFile>)
    reads files`hash, files`path
  {
    forall i :: 0 <= i < |files| ==> files[i].hash == Hash(files[i].path)
  }

  ghost predicate AllExist(files: seq<OpenFile>, t: Tree)
    reads files`path
  {
    forall i :: 0 <= i < |files| ==> files[i].path in t && t[files[i].path] == Reg
  }

  /** A rename lets an open file's path survive, file by file, exactly when it is not below the source. */
  lemma RenameKeepsFiles(files: seq<OpenFile>, t: Tree, src: string, dst: string)
    requires CanRename(t, src, dst) && src != dst
    requires forall i :: 0 <= i < |files| ==> files[i].path != src && files[i].path != dst
    ensures forall i :: 0 <= i < |files| && files[i].path in t ==>
      var r := Renamed(t, src, dst);
      && (files[i].path in r <==> !Under(files[i].path, src))
      && (files[i].path in r ==> r[files[i].path] == t[files[i].path])
    ensures AllExist(files, t) ==>
      (AllExist(files, Renamed(t, src, dst)) <==> forall i :: 0 <= i < |files| ==> !Under(files[i].path, src))
  {
    var r := Renamed(t, src, dst);
    forall i | 0 <= i < |files| && files[i].path in t
      ensures files[i].path in r <==> !Under(files[i].path, src)
      ensures files[i].path in r ==> r[files[i].path] == t[files[i].path]
    {
      RenameKeepsPath(t, src, dst, files[i].path);
    }
  }

  lemma RemovalKeepsFiles(files: seq<OpenFile>, t: Tree, path: string)
    requires forall i :: 0 <= i < |files| ==> files[i].path != path
    ensures AllExist(files, t - {path}) <==> AllExist(files, t)
  {
  }

  /** Whether the namespace lets path be opened with these flags. */
  predicate Opens(t: Tree, path: string, create: bool, exclusive: bool) {
    if path in t then t[path] == Reg && !(create && exclusive) else create
  }

  /** What a close comes to: a return value, or an access the table does not cover: a slot past its end,
      or a file behind an empty slot. */
  datatype Closing = Returned(r: int) | OutsideTable | NullFile

  // ----- the table

  class Efs {
    var file: OpenFile?
    var cache: array<OpenFile?>
    var cacheSize: nat
    var fdCount: nat
    var tree: Tree
    ghost var list: seq<OpenFile>

    ghost predicate Chained()
      reads this`file, this`list, list`next
    {
      && file == At(list, 0)
      && forall i :: 0 <= i < |list| ==> list[i].next == At(list, i + 1)
    }

    ghost predicate Valid()
      reads this`file, this`cache, this`cacheSize, this`fdCount, this`list, cache, list`next
    {
      && cacheSize == cache.Length <= UINT16_MAX
      && fdCount == |list|
      && Chained()
      && Agree(list, cache[..])
    }

    /** Mount: an empty table of the minimum size. Nothing checks that the array could be allocated; if
        it could not, the size still says four and there are no slots behind it. */
    constructor (tree: Tree, callocOk: bool)
      ensures fresh(cache) && list == [] && this.tree == tree && cacheSize == 4
      ensures Valid() <==> callocOk
      ensures cache[..] == if callocOk then Nulls(MIN_SIZE) else []
    {
      file, cacheSize, fdCount := null, MIN_SIZE, 0;
      cache := new OpenFile?[if callocOk then MIN_SIZE else 0](_ => null);
      this.tree, list := tree, [];
      new;
      assert cache[..] == if callocOk then Nulls(MIN_SIZE) else [];
    }

    method GrowIfFull(reallocOk: bool) returns (ok: bool)
      requires Valid()
      modifies this
      ensures Valid() && list == old(list) && tree == old(tree)
      ensures cache == old(cache) || fresh(cache)
      ensures cache[..] == Resized(old(cache[..]), fdCount, reallocOk)
      ensures ok <==> old(fdCount + 1 > cacheSize) ==> reallocOk
      ensures old(fdCount == cacheSize) && reallocOk && old(cacheSize) <= 32767 ==> cacheSize == 2 * old(cacheSize)
      ensures old(fdCount == cacheSize) && reallocOk && old(cacheSize) >= 32768 ==> cacheSize == 65535
      ensures old(fdCount < cacheSize) || !reallocOk ==> cacheSize == old(cacheSize)
    {
      hide Agree;
      ok := true;
      if fdCount + 1 > cacheSize {
        var newSize := if 2 * cacheSize < UINT16_MAX then 2 * cacheSize else UINT16_MAX;
        if !reallocOk {
          return false;
        }
        var was := cache;
        var newCache := new OpenFile?[newSize](i reads was => if 0 <= i < was.Length then was[i] else null);
        AgreeGrow(list, cache[..], newSize - cacheSize);
        assert newCache[..] == cache[..] + Nulls(newSize - cacheSize);
        cache, cacheSize := newCache, newSize;
      }
    }

    method FirstFree() returns (fd: nat)
      requires Valid()
      ensures fd <= cacheSize && forall k :: 0 <= k < fd ==> cache[k] != null
      ensures fd < cacheSize ==> cache[fd] == null
      ensures fd < cacheSize <==> fdCount < cacheSize
    {
      CountIsLength(list, cache[..]);
      fd := 0;
      while fd < cacheSize
        invariant fd <= cacheSize
        invariant forall k :: 0 <= k < fd ==> cache[k] != null
      {
        if cache[fd] == null {
          CountMissing(cache[..], fd);
          return;
        }
        fd := fd + 1;
      }
      CountFull(cache[..]);
    }

    // Stores f in the first free slot and at the head of the list.
    method Insert(f: OpenFile) returns (fd: nat)
      requires Valid() && f !in list
      modifies this, cache, f`next
      ensures tree == old(tree) && cache == old(cache) && cacheSize == old(cacheSize)
      ensures list == [f] + old(list)
      ensures old(fdCount) < cacheSize ==>
        && Valid() && fd < cacheSize && cache[..] == old(cache[..])[fd := f]
        && old(cache[fd]) == null && forall k :: 0 <= k < fd ==> old(cache[k]) != null
      ensures old(fdCount) == cacheSize ==> fd == cacheSize && cache[..] == old(cache[..]) && !Valid()
    {
      ghost var l := list;
      fd := FirstFree();
      if fd < cacheSize {
        AgreeAdd(list, cache[..], f, fd);
        cache[fd] := f;
        assert cache[..] == old(cache[..])[fd := f];
      }
      f.next := file;
      file := f;
      list := [f] + list;
      fdCount := fdCount + 1;
      forall j | 0 <= j < |list|
        ensures list[j].next == At(list, j + 1)
      {
        if j > 0 {
          assert list[j] == l[j - 1] && l[j - 1] != f;
          assert At(list, j + 1) == At(l, j);
        }
      }
      if fd == cacheSize && Valid() {
        CountIsLength(list, cache[..]);
        CountBound(cache[..]);
      }
    }

    method AllocateFd(reallocOk: bool, callocOk: bool) returns (fd: int, f: OpenFile?)
      requires Valid() && fdCount < UINT16_MAX && cacheSize < UINT16_MAX
      modifies this, cache
      ensures tree == old(tree) && (cache == old(cache) || fresh(cache))
      ensures fd == -1 <==> f == null
      ensures f == null <==> !callocOk || (old(fdCount + 1 > cacheSize) && !reallocOk)
      ensures f == null ==> Valid() && list == old(list)
      ensures f == null ==> cache[..] == Resized(old(cache[..]), old(fdCount), reallocOk)
      ensures f != null ==> fresh(f) && f.path == "" && list == [f] + old(list)
      ensures f != null ==> var slots := Resized(old(cache[..]), old(fdCount), reallocOk);
        if slots == [] then fd == 0 && !Valid()
        else && Valid()
             && 0 <= fd < |slots| && cache[..] == slots[fd := f]
             && slots[fd] == null && forall k :: 0 <= k < fd ==> slots[k] != null
    {
      CountIsLength(list, cache[..]);
      CountBound(cache[..]);
      var ok := GrowIfFull(reallocOk);
      if !ok {
        return -1, null;
      }
      if !callocOk {
        return -1, null;
      }
      ghost var slots := cache[..];
      assert cacheSize == 0 || fdCount < cacheSize;
      f := new OpenFile();
      fd := Insert(f);
    }

    // Finds the node before f, which is not the head.
    method FindPrevious(f: OpenFile) returns (head: OpenFile, ghost k: nat)
      requires Valid() && f in list && f != file
      ensures 0 < k < |list| && list[k] == f && head == list[k - 1]
    {
      ghost var m: nat :| m < |list| && list[m] == f;
      var h := file;
      k := 1;
      while h != null && h.next != f
        invariant 0 < k <= m && h == list[k - 1]
        decreases m - k
      {
        h := h.next;
        k := k + 1;
      }
      head := h;
    }

    // Takes f out of the list; fdCount and the array still have it.
    method UnlinkNode(f: OpenFile) returns (ghost k: nat)
      requires Valid() && f in list
      modifies this`file, this`list, list`next
      ensures Chained() && k < |old(list)| && old(list)[k] == f && list == Without(old(list), k)
    {
      ghost var l := list;
      k := 0;
      if f == file {
        file := file.next;
      } else {
        var head;
        head, k := FindPrevious(f);
        head.next := f.next;
      }
      list := Without(l, k);
      forall j | 0 <= j < |list|
        ensures list[j].next == At(list, j + 1)
      {
        if j < k {
          assert list[j] == l[j];
        } else {
          assert list[j] == l[j + 1];
        }
      }
    }

    method FreeFd(fd: int) returns (r: int, ghost k: nat)
      requires Valid()
      requires 0 <= fd < cacheSize ==> cache[fd] != null
      modifies this, cache, list`next
      ensures Valid() && cache == old(cache) && tree == old(tree)
      ensures r == if 0 <= fd < cacheSize then 0 else -1
      ensures r == -1 ==> list == old(list) && cache[..] == old(cache[..])
      ensures r == 0 ==> k < |old(list)| && old(list)[k] == old(cache[fd])
      ensures r == 0 ==> list == Without(old(list), k) && cache[..] == old(cache[..])[fd := null]
    {
      k := 0;
      if fd < 0 || fd >= cacheSize {
        return -1, 0;
      }
      assert Has(list, cache[..][fd]);
      k := UnlinkNode(cache[fd]);
      AgreeRemove(old(list), old(cache[..]), k, fd);
      cache[fd] := null;
      assert cache[..] == old(cache[..])[fd := null];
      fdCount := fdCount - 1;
      r := 0;
    }

    /** Unmount: every node is released once, in list order, and the table is left without slots. */
    method FreeFds() returns (ghost freed: seq<OpenFile>)
      requires Valid()
      modifies this
      ensures freed == old(list)
      ensures Valid() && list == [] && file == null && cacheSize == 0 && tree == old(tree)
    {
      hide Count, Hash, Resized, Has;
      freed := [];
      ghost var l := list;
      while file != null
        invariant 0 <= |freed| <= |l| && freed == l[..|freed|] && file == At(l, |freed|)
        invariant tree == old(tree)
        decreases |l| - |freed|
      {
        var next := file.next;
        freed := freed + [file];
        file := next;
      }
      assert l[..|l|] == l;
      cache := new OpenFile?[0];
      cacheSize, fdCount := 0, 0;
      list := [];
    }

    ghost predicate Named()
      reads this`list, list`hash, list`path
    {
      AllNamed(list)
    }

    /** The descriptor of an open file by path: stopping early and comparing hashes first changes
        nothing against a full scan that compares paths alone. */
    method GetFdByName(path: string) returns (fd: int)
      requires Valid() && Named()
      ensures fd >= 0 ==> fd < cacheSize && cache[fd] != null && cache[fd].path == path
      ensures fd >= 0 ==> forall k :: 0 <= k < fd && cache[k] != null ==> cache[k].path != path
      ensures fd < 0 ==> fd == -1
      ensures fd < 0 ==> forall k :: 0 <= k < cacheSize && cache[k] != null ==> cache[k].path != path
    {
      CountIsLength(list, cache[..]);
      var hash := ComputeHash(path);
      var i, j := 0, 0;
      while i < cacheSize && j < fdCount
        invariant 0 <= i <= cacheSize
        invariant j == Count(cache[..i])
        invariant forall k :: 0 <= k < i && cache[k] != null ==> cache[k].path != path
      {
        assert cache[..i + 1][..i] == cache[..i];
        if cache[i] != null {
          assert Has(list, cache[..][i]);
          j := j + 1;
          if cache[i].hash == hash && cache[i].path == path {
            return i;
          }
        }
        i := i + 1;
      }
      assert cache[..][..i] == cache[..i];
      CountPrefix(cache[..], i);
      fd := -1;
    }

    // ----- the VFS calls that use the table

    /** Every open descriptor names an existing regular file. */
    ghost predicate OpenExist()
      reads this`list, this`tree, list`path
    {
      AllExist(list, tree)
    }

    /** Opens path in a mounted filesystem; lfsOk is the outcome of lfs_file_opencfg where the
        namespace does not decide it. */
    method Open(path: string, create: bool, exclusive: bool, reallocOk: bool, callocOk: bool, lfsOk: bool)
      returns (fd: int)
      requires Valid() && Named()
      requires 0 < cacheSize < UINT16_MAX && fdCount < UINT16_MAX
      modifies this, cache, list`next
      ensures Valid() && Named() && (old(OpenExist()) ==> OpenExist())
      ensures fd >= 0 <==>
        && callocOk && (old(fdCount) < old(cacheSize) || reallocOk)
        && lfsOk && (if path in old(tree) then old(tree)[path] == Reg && (!create || !exclusive) else create)
      ensures fd < 0 ==> fd == -22 && list == old(list) && tree == old(tree)
      ensures fd >= 0 ==> fd < cacheSize && fresh(cache[fd]) && cache[fd].path == path
      ensures fd >= 0 ==> list == [cache[fd]] + old(list)
      ensures fd >= 0 ==> tree == if path in old(tree) then old(tree) else old(tree)[path := Reg]
      ensures old(cacheSize) <= cacheSize
      ensures forall k :: 0 <= k < old(cacheSize) && k != fd ==> cache[k] == old(cache[k])
      ensures 0 <= fd < old(cacheSize) ==> old(cache[fd]) == null
    {
      hide Resized, Hash, Count, AllExist;
      var f;
      fd, f := AllocateFd(reallocOk, callocOk);
      if fd < 0 {
        return -22;
      }
      fd := FinishOpen(fd, f, path, create, exclusive, lfsOk, old(list));
    }

    // The second half of an open: lfs_file_opencfg, then the name, or the descriptor is given back.
    method FinishOpen(at: nat, f: OpenFile, path: string, create: bool, exclusive: bool, lfsOk: bool,
                      ghost others: seq<OpenFile>)
      returns (fd: int)
      requires Valid() && at < cacheSize && cache[at] == f && list == [f] + others
      requires AllNamed(others)
      modifies this, cache, list`next, f
      ensures Valid() && Named() && cache == old(cache)
      ensures old(AllExist(others, tree)) ==> OpenExist()
      ensures fd >= 0 <==> lfsOk && Opens(old(tree), path, create, exclusive)
      ensures fd < 0 ==> fd == -22
      ensures fd < 0 ==> list == others && tree == old(tree) && cache[..] == old(cache[..])[at := null]
      ensures fd >= 0 ==> fd == at && f.path == path && list == old(list) && cache[..] == old(cache[..])
      ensures fd >= 0 ==> tree == if path in old(tree) then old(tree) else old(tree)[path := Reg]
    {
      var ok := LfsOpen(path, create, exclusive, lfsOk);
      if !ok {
        GiveBack(at, f, others);
        return -22;
      }
      NameFile(f, path, others);
      fd := at;
    }

    // Releases the descriptor that was allocated last.
    method GiveBack(at: nat, f: OpenFile, ghost others: seq<OpenFile>)
      requires Valid() && at < cacheSize && cache[at] == f && list == [f] + others
      modifies this, cache, list`next
      ensures Valid() && cache == old(cache) && tree == old(tree)
      ensures list == others && cache[..] == old(cache[..])[at := null]
    {
      var r, k := FreeFd(at);
      assert old(list)[0] == old(list)[k];
      assert k == 0;
    }

    method LfsOpen(path: string, create: bool, exclusive: bool, lfsOk: bool) returns (ok: bool)
      requires Valid()
      modifies this`tree
      ensures Valid()
      ensures ok <==> lfsOk && Opens(old(tree), path, create, exclusive)
      ensures !ok ==> tree == old(tree)
      ensures ok ==> tree == if path in old(tree) then old(tree) else old(tree)[path := Reg]
      ensures ok ==> path in tree && tree[path] == Reg
    {
      ok := lfsOk && Opens(tree, path, create, exclusive);
      if ok && path !in tree {
        tree := tree[path := Reg];
      }
    }

    method NameFile(f: OpenFile, path: string, ghost others: seq<OpenFile>)
      requires Valid() && list == [f] + others && AllNamed(others)
      requires path in tree && tree[path] == Reg
      modifies f`hash, f`path
      ensures Valid() && Named() && f.path == path
      ensures old(AllExist(others, tree)) ==> OpenExist()
    {
      assert forall i :: 0 <= i < |others| ==> others[i] == list[i + 1];
      f.hash := ComputeHash(path);
      f.path := path;
      forall i | 0 <= i < |list|
        ensures list[i].hash == Hash(list[i].path)
        ensures old(AllExist(others, tree)) ==> list[i].path in tree && tree[list[i].path] == Reg
      {
        assert i > 0 ==> list[i] == others[i - 1];
      }
    }

    /** Closes a descriptor, any descriptor: the guard lets the array size itself through, and nothing
        looks whether the slot is occupied. */
    method Close(fd: int, closeOk: bool) returns (o: Closing)
      requires Valid() && Named()
      modifies this, cache, list`next
      ensures Valid() && Named() && tree == old(tree) && cache == old(cache)
      ensures old(OpenExist()) ==> OpenExist()
      ensures o == OutsideTable <==> fd == cacheSize
      ensures o == NullFile <==> 0 <= fd < cacheSize && old(cache[fd]) == null
      ensures o == Returned(0) <==> 0 <= fd < cacheSize && old(cache[fd]) != null && closeOk
      ensures o.Returned? ==> o.r == 0 || o.r == -1
      ensures cacheSize == old(cacheSize)
      ensures cache[..] == if o == Returned(0) then old(cache[..])[fd := null] else old(cache[..])
    {
      if fd < 0 || fd > cacheSize {
        return Returned(-1);
      }
      if fd == cacheSize {
        return OutsideTable;
      }
      if cache[fd] == null {
        return NullFile;
      }
      if !closeOk {
        return Returned(-1);
      }
      var r := Release(fd);
      return Returned(r);
    }

    // Frees an occupied slot; the other open files are as they were.
    method Release(fd: int) returns (r: int)
      requires Valid() && Named() && 0 <= fd < cacheSize && cache[fd] != null
      modifies this, cache, list`next
      ensures Valid() && Named() && tree == old(tree) && cache == old(cache)
      ensures old(OpenExist()) ==> OpenExist()
      ensures r == 0 && cacheSize == old(cacheSize) && cache[..] == old(cache[..])[fd := null]
    {
      ghost var k;
      r, k := FreeFd(fd);
      forall i | 0 <= i < |list|
        ensures list[i].hash == Hash(list[i].path)
        ensures old(OpenExist()) ==> list[i].path in tree && tree[list[i].path] == Reg
      {
        assert list[i] == old(list)[if i < k then i else i + 1];
      }
    }

    ghost predicate IsOpen(path: string)
      reads this`list, list`path
    {
      exists i :: 0 <= i < |list| && list[i].path == path
    }

    lemma FoundIffOpen(path: string, fd: int)
      requires Valid()
      requires fd >= 0 ==> fd < cacheSize && cache[fd] != null && cache[fd].path == path
      requires fd < 0 ==> forall k :: 0 <= k < cacheSize && cache[k] != null ==> cache[k].path != path
      ensures fd >= 0 <==> IsOpen(path)
    {
      if fd >= 0 {
        assert Has(list, cache[..][fd]);
      } else {
        forall i | 0 <= i < |list|
          ensures list[i].path != path
        {
          assert Has(cache[..], list[i]);
        }
      }
    }

    method PathIsOpen(path: string) returns (isOpen: bool)
      requires Valid() && Named()
      ensures isOpen <==> IsOpen(path)
    {
      var fd := GetFdByName(path);
      FoundIffOpen(path, fd);
      isOpen := fd >= 0;
    }

    method Unlink(path: string, statOk: bool, removeOk: bool) returns (r: int)
      requires Valid() && Named()
      modifies this`tree
      ensures Valid() && Named() && (OpenExist() <==> old(OpenExist()))
      ensures r == 0 <==> statOk && removeOk && path in old(tree) && old(tree)[path] == Reg && !IsOpen(path)
      ensures r != 0 ==> r == -1
      ensures tree == if r == 0 then old(tree) - {path} else old(tree)
    {
      hide AllExist, Hash;
      if !statOk || path !in tree {
        return -1;
      }
      var isOpen := PathIsOpen(path);
      if isOpen {
        return -1;
      }
      if tree[path] == Dir {
        return -1;
      }
      if !removeOk {
        return -1;
      }
      RemovalKeepsFiles(list, tree, path);
      tree := tree - {path};
      r := 0;
    }

    /** Renaming keeps the path of every open file that has one, except of those below a renamed
        directory: the open-file guard compares whole paths only. */
    method Rename(src: string, dst: string, renameOk: bool) returns (r: int)
      requires Valid() && Named()
      modifies this`tree
      ensures Valid() && Named()
      ensures r == 0 <==> renameOk && CanRename(old(tree), src, dst) && !IsOpen(src) && !IsOpen(dst)
      ensures r != 0 ==> r == -1 && tree == old(tree)
      ensures r == 0 ==> tree == Renamed(old(tree), src, dst)
      ensures forall i :: 0 <= i < |list| && list[i].path in old(tree) ==>
        && (list[i].path in tree <==> r != 0 || src == dst || !Under(list[i].path, src))
        && (list[i].path in tree ==> tree[list[i].path] == old(tree)[list[i].path])
      ensures old(OpenExist()) ==>
        (OpenExist() <==> r != 0 || src == dst || forall i :: 0 <= i < |list| ==> !Under(list[i].path, src))
    {
      hide CanRename, Renamed, Hash;
      var isOpen := PathIsOpen(src);
      if isOpen {
        return -1;
      }
      isOpen := PathIsOpen(dst);
      if isOpen {
        return -1;
      }
      var ok := LfsRename(src, dst, renameOk);
      r := if ok then 0 else -1;
    }

    method LfsRename(src: string, dst: string, renameOk: bool) returns (ok: bool)
      requires !IsOpen(src) && !IsOpen(dst)
      modifies this`tree
      ensures ok <==> renameOk && CanRename(old(tree), src, dst)
      ensures tree == if ok then Renamed(old(tree), src, dst) else old(tree)
      ensures forall i :: 0 <= i < |list| && list[i].path in old(tree) ==>
        && (list[i].path in tree <==> !ok || src == dst || !Under(list[i].path, src))
        && (list[i].path in tree ==> tree[list[i].path] == old(tree)[list[i].path])
      ensures old(OpenExist()) ==>
        (OpenExist() <==> !ok || src == dst || forall i :: 0 <= i < |list| ==> !Under(list[i].path, src))
    {
      ok := renameOk && CanRename(tree, src, dst);
      if ok {
        if src != dst {
          RenameKeepsFiles(list, tree, src, dst);
        }
        tree := Renamed(tree, src, dst);
      }
    }
  }
}
