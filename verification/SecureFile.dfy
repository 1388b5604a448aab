/** The secure store: a file with a checksummed header, written beside its path and renamed over it. */
module SecureFile {
  import opened EspErr
  import opened Options
  import opened Folds

  type Byte = n: nat | n < 256

  type Bytes = seq<Byte>

  type Word = n: nat | n < 0x1_0000_0000

  /** What a 32-bit size can describe. */
  type Payload = d: Bytes | |d| < 0x1_0000_0000

  /** The part of the file system a caller can observe: paths and contents. */
  type Files = map<string, Bytes>

  type Checksum = Bytes -> Word

  const MAGIC: Word := 0xA55A5343
  const HEADER := 32
  const NAME_SIZE := 128

  function Get(files: Files, name: string): Option<Bytes> {
    if name in files then Some(files[name]) else None
  }

  // ----- the file format

  function Low(w: nat): Byte {
    w % 256
  }

  function Le(w: Word): (b: Bytes)
    ensures |b| == 4
  {
    [Low(w), Low(w / 256), Low(w / 256 / 256), Low(w / 256 / 256 / 256)]
  }

  function Join(low: Byte, high: nat): nat {
    low + 256 * high
  }

  function UnLe(b: Bytes): Word
    requires |b| == 4
  {
    Join(b[0], Join(b[1], Join(b[2], b[3])))
  }

  lemma JoinLow(w: nat)
    ensures Join(Low(w), w / 256) == w
    ensures w < 256 ==> Low(w) == w
  {
  }

  lemma WordRoundTrip(w: Word)
    ensures UnLe(Le(w)) == w
  {
    JoinLow(w);
    JoinLow(w / 256);
    JoinLow(w / 256 / 256);
    JoinLow(w / 256 / 256 / 256);
    hide Join, Low;
  }

  function Zeros(): (b: Bytes)
    ensures |b| == 16
  {
    seq(16, _ => 0)
  }

  function Header(version: Word, crc: Word, len: Word): (b: Bytes)
    ensures |b| == HEADER
  {
    Le(MAGIC) + Le(version) + Le(crc) + Le(len) + Zeros()
  }

  function Image(crc: Checksum, data: Payload, version: Word): Bytes
  {
    Header(version, crc(data), |data|) + data
  }

  function Field(c: Bytes, at: nat): Word
    requires at + 4 <= |c|
  {
    UnLe(c[at..at + 4])
  }

  lemma HeaderFields(c: Bytes, version: Word, crc: Word, len: Word)
    requires |c| >= HEADER && c[..HEADER] == Header(version, crc, len)
    ensures Field(c, 0) == MAGIC && Field(c, 4) == version && Field(c, 8) == crc && Field(c, 12) == len
  {
    var h := Header(version, crc, len);
    assert c[0..4] == h[0..4] == Le(MAGIC);
    assert c[4..8] == h[4..8] == Le(version);
    assert c[8..12] == h[8..12] == Le(crc);
    assert c[12..16] == h[12..16] == Le(len);
    hide Le, UnLe;
    WordRoundTrip(MAGIC);
    WordRoundTrip(version);
    WordRoundTrip(crc);
    WordRoundTrip(len);
  }

  /** Four bytes as a number, low byte first. */
  function LowFirst(a: int, b: int, c: int, d: int): int {
    a + 256 * b + 65536 * c + 16777216 * d
  }

  lemma FieldIsLowFirst(c: Bytes, at: nat)
    requires at + 4 <= |c|
    ensures Field(c, at) == LowFirst(c[at], c[at + 1], c[at + 2], c[at + 3])
  {
  }

  lemma MagicBytes()
    ensures Le(MAGIC) == [0x43, 0x53, 0x5a, 0xa5]
  {
  }

  /** The bytes of an image: the magic number, the version, the checksum and the length, each with its low
      byte first, sixteen zero bytes, and the data. */
  lemma ImageLayout(crc: Checksum, data: Payload, version: Word)
    ensures var c := Image(crc, data, version);
      && |c| == 32 + |data|
      && c[0] == 0x43 && c[1] == 0x53 && c[2] == 0x5a && c[3] == 0xa5
      && LowFirst(c[4], c[5], c[6], c[7]) == version
      && LowFirst(c[8], c[9], c[10], c[11]) == crc(data)
      && LowFirst(c[12], c[13], c[14], c[15]) == |data|
      && (forall i :: 16 <= i < 32 ==> c[i] == 0)
      && c[32..] == data
  {
    var c := Image(crc, data, version);
    assert c[..HEADER] == Header(version, crc(data), |data|);
    assert c[0..4] == Header(version, crc(data), |data|)[0..4] == Le(MAGIC);
    assert forall i :: 16 <= i < 32 ==> c[i] == Zeros()[i - 16];
    assert c[HEADER..] == data;
    MagicBytes();
    assert c[0] == c[0..4][0] && c[1] == c[0..4][1] && c[2] == c[0..4][2] && c[3] == c[0..4][3];
    HeaderFields(c, version, crc(data), |data|);
    hide Le, Image, Field, LowFirst;
    FieldIsLowFirst(c, 4);
    FieldIsLowFirst(c, 8);
    FieldIsLowFirst(c, 12);
  }

  // ----- loading

  datatype LoadResult = Loaded(data: Bytes) | Refused(err: Err)

  /** What a load makes of the contents at a path; memory is the outcome of the allocation. */
  function Parse(crc: Checksum, c: Option<Bytes>, memory: bool): LoadResult {
    if c.None? then Refused(NotFound)
    else if |c.value| < HEADER then Refused(InvalidSize)
    else if Field(c.value, 0) != MAGIC then Refused(Fail)
    else if !memory then Refused(NoMem)
    else
      var len := Field(c.value, 12);
      if |c.value| - HEADER < len then Refused(Fail)
      else if crc(c.value[HEADER..HEADER + len]) != Field(c.value, 8) then Refused(InvalidCrc)
      else Loaded(c.value[HEADER..HEADER + len])
  }

  /** A load succeeds with d exactly when the file carries the magic, the length of d, d itself behind
      the header, and the checksum of d. */
  lemma LoadExact(crc: Checksum, c: Bytes, memory: bool, d: Bytes)
    ensures Parse(crc, Some(c), memory) == Loaded(d) <==>
      && memory
      && |c| >= HEADER + |d|
      && Field(c, 0) == MAGIC
      && Field(c, 12) == |d|
      && Field(c, 8) == crc(d)
      && c[HEADER..HEADER + |d|] == d
  {
  }

  /** A complete image loads back as exactly the saved bytes, whatever their length. */
  lemma RoundTrip(crc: Checksum, data: Payload, version: Word)
    ensures Parse(crc, Some(Image(crc, data, version)), true) == Loaded(data)
  {
    var c := Image(crc, data, version);
    assert c[..HEADER] == Header(version, crc(data), |data|);
    HeaderFields(c, version, crc(data), |data|);
    assert c[HEADER..HEADER + |data|] == data;
  }

  /** Of all the prefixes of an image only the whole image loads, so a truncated file is never taken
      for data. */
  lemma TruncationRefused(crc: Checksum, data: Payload, version: Word, c: Bytes)
    requires c <= Image(crc, data, version)
    ensures Parse(crc, Some(c), true).Loaded? <==> c == Image(crc, data, version)
  {
    RoundTrip(crc, data, version);
    if |c| >= HEADER {
      assert c[..HEADER] == Image(crc, data, version)[..HEADER] == Header(version, crc(data), |data|);
      HeaderFields(c, version, crc(data), |data|);
    }
  }

  // ----- the temporary name

  function Clip(name: string): string {
    if |name| < NAME_SIZE then name else name[..NAME_SIZE - 1]
  }

  function Tmp(path: string): string {
    Clip(path + ".tmp")
  }

  /** The temporary file is another file exactly when the path does not fill the name buffer. */
  lemma TmpIsPath(path: string)
    ensures Tmp(path) == path <==> |path| == NAME_SIZE - 1
  {
    if |path| == NAME_SIZE - 1 {
      assert (path + ".tmp")[..NAME_SIZE - 1] == path;
    }
  }

  /** Two paths share a temporary file exactly when both names reach the end of the buffer and agree on
      all of it; a name of 127 characters fits uncut and can still be shared with a longer one. */
  lemma TmpShared(p: string, q: string)
    requires p != q
    ensures Tmp(p) == Tmp(q) <==>
      |p| >= 123 && |q| >= 123 && (p + ".tmp")[..NAME_SIZE - 1] == (q + ".tmp")[..NAME_SIZE - 1]
  {
    var n, m := p + ".tmp", q + ".tmp";
    assert n[..|p|] == p && m[..|q|] == q;
    assert |n| == NAME_SIZE - 1 ==> n[..NAME_SIZE - 1] == n;
    assert |m| == NAME_SIZE - 1 ==> m[..NAME_SIZE - 1] == m;
  }

  /** The file carries the magic and at least as many bytes behind the header as the header says. */
  predicate Whole(c: Bytes) {
    |c| >= 32 && Field(c, 0) == 0xA55A5343 && |c| - 32 >= Field(c, 12)
  }

  // ----- saving

  /** One stdio call on the open temporary file: its reported success, the contents the medium passes
      through meanwhile, and what the medium holds afterwards. */
  datatype Stage = Stage(ok: bool, during: seq<Bytes>, left: Bytes)

  /** What the final flush leaves: the stream as written, or something else. Its result is not checked. */
  datatype Flush = Synced | Torn(left: Bytes)

  datatype Io = Io(open: bool, header: Stage, body: Stage, during: seq<Bytes>, flush: Flush, rename: bool, unlink: bool)

  /** At every moment the medium holds a prefix of the stream handed to it so far. */
  predicate Streams(image: Bytes, io: Io)
    requires |image| >= HEADER
  {
    && (forall i :: 0 <= i < |io.header.during| ==> io.header.during[i] <= image[..HEADER])
    && io.header.left <= image[..HEADER]
    && (forall i :: 0 <= i < |io.body.during| ==> io.body.during[i] <= image)
    && io.body.left <= image
    && (forall i :: 0 <= i < |io.during| ==> io.during[i] <= image)
    && Flushed(image, io) <= image
  }

  /** Every check of the save passes. */
  predicate Done(io: Io) {
    io.open && io.header.ok && io.body.ok && io.rename
  }

  function Flushed(image: Bytes, io: Io): Bytes {
    if io.flush.Synced? then image else io.flush.left
  }

  function States(files: Files, name: string, contents: seq<Bytes>): (s: seq<Files>)
    ensures |s| == |contents| && forall i :: 0 <= i < |s| ==> s[i] == files[name := contents[i]]
  {
    seq(|contents|, i requires 0 <= i < |contents| => files[name := contents[i]])
  }

  lemma StatesAppend(files: Files, name: string, x: Bytes, a: seq<Bytes>, b: seq<Bytes>)
    ensures States(files, name, a) + States(files[name := x], name, b) == States(files, name, a + b)
  {
    var l, r := States(files, name, a) + States(files[name := x], name, b), States(files, name, a + b);
    forall i | 0 <= i < |r|
      ensures l[i] == r[i]
    {
      if i >= |a| {
        assert l[i] == files[name := x][name := b[i - |a|]] == files[name := b[i - |a|]];
      }
    }
  }

  function Unlinked(files: Files, name: string, ok: bool): Files {
    if ok then files - {name} else files
  }

  /** The contents of the file during one call. */
  function Passing(s: Stage): seq<Bytes> {
    s.during + [s.left]
  }

  /** The contents the temporary file passes through before it is renamed or removed. */
  function Drafts(image: Bytes, io: Io): seq<Bytes> {
    if !io.open then []
    else
      var first := [[]] + Passing(io.header);
      if !io.header.ok then first
      else if !io.body.ok then first + Passing(io.body)
      else first + Passing(io.body) + (io.during + [Flushed(image, io)])
  }

  function Final(files: Files, path: string, image: Bytes, io: Io): Files {
    if !io.open then files
    else if Done(io) then (files - {Tmp(path)})[path := Flushed(image, io)]
    else
      var drafts := Drafts(image, io);
      Unlinked(files[Tmp(path) := drafts[|drafts| - 1]], Tmp(path), io.unlink)
  }

  /** Every state the file system passes through during a save, in order. */
  function Passes(files: Files, path: string, image: Bytes, io: Io): seq<Files> {
    if io.open then States(files, Tmp(path), Drafts(image, io)) + [Final(files, path, image, io)] else []
  }

  /** A disk as a value. */
  datatype Medium = Medium(files: Files, seen: seq<Files>)

  class Disk {
    var files: Files
    /** Every state of the medium so far: a power loss can leave any of them. */
    ghost var seen: seq<Files>

    constructor (files: Files)
      ensures this.files == files && seen == [files]
    {
      this.files := files;
      seen := [files];
    }

    method Create(name: string)
      modifies this
      ensures files == old(files)[name := []] && seen == old(seen) + [files]
    {
      files := files[name := []];
      seen := seen + [files];
    }

    /** One call on the open file: start and drafts are what the medium held before and since the open. */
    method Write(name: string, during: seq<Bytes>, left: Bytes, ghost start: Medium, ghost drafts: seq<Bytes>)
      requires Drafted(name, start, drafts)
      modifies this
      ensures Drafted(name, start, drafts + (during + [left]))
    {
      StatesAppend(start.files, name, drafts[|drafts| - 1], drafts, during + [left]);
      seen := seen + States(files, name, during + [left]);
      files := files[name := left];
    }

    ghost predicate Drafted(name: string, start: Medium, drafts: seq<Bytes>)
      reads this
    {
      && drafts != []
      && files == start.files[name := drafts[|drafts| - 1]]
      && seen == start.seen + States(start.files, name, drafts)
    }

    method Unlink(name: string, ok: bool)
      modifies this
      ensures files == Unlinked(old(files), name, ok) && seen == old(seen) + [files]
    {
      files := if ok then files - {name} else files;
      seen := seen + [files];
    }

    method Rename(from: string, to: string, ok: bool) returns (renamed: bool)
      requires from in files
      modifies this
      ensures renamed == ok
      ensures files == if ok then (old(files) - {from})[to := old(files)[from]] else old(files)
      ensures seen == old(seen) + if ok then [files] else []
    {
      if ok {
        files := (files - {from})[to := files[from]];
        seen := seen + [files];
      }
      renamed := ok;
    }

    method WriteTmp(crc: Checksum, tmp: string, data: Payload, version: Word, io: Io) returns (ok: bool)
      requires io.open
      modifies this
      ensures ok == (io.header.ok && io.body.ok)
      ensures Drafted(tmp, old(Medium(files, seen)), Drafts(Image(crc, data, version), io))
    {
      ghost var start, drafts := Medium(files, seen), [[]];
      Create(tmp);
      assert States(start.files, tmp, drafts) == [files];
      var stream := Header(version, crc(data), |data|);
      Write(tmp, io.header.during, io.header.left, start, drafts);
      drafts := drafts + Passing(io.header);
      if !io.header.ok {
        return false;
      }
      stream := stream + data;
      Write(tmp, io.body.during, io.body.left, start, drafts);
      drafts := drafts + Passing(io.body);
      if !io.body.ok {
        return false;
      }
      Write(tmp, io.during, if io.flush.Synced? then stream else io.flush.left, start, drafts);
      return true;
    }

    method Save(crc: Checksum, path: string, data: Payload, version: Word, io: Io) returns (err: Err)
      modifies this
      ensures err == if Done(io) then Ok else Fail
      ensures err == Ok <==> io.open && io.header.ok && io.body.ok && io.rename
      ensures err == Ok && io.flush.Synced? ==>
        path in files && files[path] == Header(version, crc(data), |data|) + data
      ensures files == Final(old(files), path, Image(crc, data, version), io)
      ensures seen == old(seen) + Passes(old(files), path, Image(crc, data, version), io)
    {
      var tmp := Clip(path + ".tmp");
      if !io.open {
        return Fail;
      }
      var written := WriteTmp(crc, tmp, data, version, io);
      if !written {
        Unlink(tmp, io.unlink);
        return Fail;
      }
      ghost var drafted := files;
      var renamed := Rename(tmp, path, io.rename);
      if !renamed {
        Unlink(tmp, io.unlink);
        return Fail;
      }
      assert drafted - {tmp} == old(files) - {tmp};
      return Ok;
    }

    method Load(crc: Checksum, path: string, expected: Word, memory: bool) returns (err: Err, data: Option<Bytes>)
      ensures match Parse(crc, Get(files, path), memory)
        case Loaded(d) => err == Ok && data == Some(d)
        case Refused(e) => err == e && err != Ok && data == None
      ensures err == NotFound <==> path !in files
      ensures err == InvalidSize <==> path in files && |files[path]| < 32
      ensures err == Fail <==>
        && path in files && |files[path]| >= 32
        && (Field(files[path], 0) != 0xA55A5343 || (memory && |files[path]| - 32 < Field(files[path], 12)))
      ensures err == NoMem <==> path in files && |files[path]| >= 32 && Field(files[path], 0) == 0xA55A5343 && !memory
      ensures err == InvalidCrc <==>
        && path in files && Whole(files[path]) && memory
        && crc(files[path][32..32 + Field(files[path], 12)]) != Field(files[path], 8)
      ensures err == Ok <==>
        && path in files && Whole(files[path]) && memory
        && crc(files[path][32..32 + Field(files[path], 12)]) == Field(files[path], 8)
      ensures data == if err == Ok then Some(files[path][32..32 + Field(files[path], 12)]) else None
    {
      if path !in files {
        return NotFound, None;
      }
      var c := files[path];
      if |c| < HEADER {
        return InvalidSize, None;
      }
      if Field(c, 0) != MAGIC {
        return Fail, None;
      }
      if !memory {
        return NoMem, None;
      }
      var len := Field(c, 12);
      if |c| - HEADER < len {
        return Fail, None;
      }
      var d := c[HEADER..HEADER + len];
      if crc(d) != Field(c, 8) {
        return InvalidCrc, None;
      }
      return Ok, Some(d);
    }
  }

  /** What is saved is what is loaded, whatever happened before and whatever version is asked for. */
  method SaveThenLoad(disk: Disk, crc: Checksum, path: string, data: Payload, version: Word, io: Io, expected: Word)
    returns (saved: Err, loaded: Err, back: Option<Bytes>)
    requires io.flush.Synced?
    modifies disk
    ensures saved == Ok ==> loaded == Ok && back == Some(data)
  {
    saved := disk.Save(crc, path, data, version, io);
    loaded, back := disk.Load(crc, path, expected, true);
    RoundTrip(crc, data, version);
  }

  // ----- what a save can leave behind

  /** The file system after at most k steps of a save. */
  function Reached(files: Files, path: string, image: Bytes, io: Io, k: nat): Files {
    var passes := Passes(files, path, image, io);
    if k == 0 then files else if k <= |passes| then passes[k - 1] else Final(files, path, image, io)
  }

  /** The save ran through its rename. */
  predicate Replaces(image: Bytes, io: Io, k: nat) {
    Done(io) && k > |Drafts(image, io)|
  }

  /** At every moment of a save, a file other than the temporary one is as it was before, except that
      the saved path has the new contents once the rename is done. */
  lemma OthersUntouched(files: Files, path: string, image: Bytes, io: Io, k: nat, name: string)
    requires name != Tmp(path)
    ensures Get(Reached(files, path, image, io, k), name)
         == if name == path && Replaces(image, io, k) then Some(Flushed(image, io)) else Get(files, name)
  {
    hide Tmp, Drafts;
  }

  ghost predicate Atomic(files: Files, path: string, image: Bytes)
    requires |image| >= HEADER
  {
    forall io: Io, k: nat :: io.flush.Synced? && Streams(image, io) ==>
      Get(Reached(files, path, image, io, k), path) in {Get(files, path), Some(image)}
  }

  /** A power loss at any step leaves the old contents or the complete new image, never anything else,
      exactly when the path does not have the one length at which the clipped temporary name is the
      path itself. */
  lemma CrashAtomic(files: Files, path: string, image: Bytes)
    requires |image| >= HEADER
    ensures Atomic(files, path, image) <==> |path| != 127
  {
    TmpIsPath(path);
    if Tmp(path) != path {
      forall io: Io, k: nat
        ensures Get(Reached(files, path, image, io, k), path) in {Get(files, path), Some(image)}
          || !io.flush.Synced?
      {
        OthersUntouched(files, path, image, io, k, path);
      }
    } else {
      var io, k := CrashInPlace(files, path, image);
    }
  }

  /** With the temporary name equal to the path, power can fail right after the open has emptied the file
      or, if it was empty before, after the first byte of the header: the old contents are gone, the new
      ones are not there, and a load finds a file that is too short. */
  lemma CrashInPlace(files: Files, path: string, image: Bytes) returns (io: Io, k: nat)
    requires |image| >= HEADER && Tmp(path) == path
    ensures io.flush.Synced? && Streams(image, io)
    ensures var c := Get(Reached(files, path, image, io, k), path);
      c.Some? && c != Get(files, path) && c.value < image && |c.value| < HEADER
  {
    var byte := image[..1];
    assert byte == image[..HEADER][..1];
    io := Io(true, Stage(true, [], byte), Stage(true, [], []), [], Synced, true, true);
    var drafts := Drafts(image, io);
    assert drafts[0] == [] && drafts[1] == byte;
    k := if Get(files, path) == Some([]) then 2 else 1;
    assert Get(Reached(files, path, image, io, k), path) == Some(drafts[k - 1]);
  }

  /** A save that reports success, with the flush having kept at most a prefix of the stream, loads back
      exactly when the flush kept everything; the flush's own result is never looked at. */
  lemma SuccessLoadsIffFlushed(crc: Checksum, files: Files, path: string, data: Payload, version: Word, io: Io)
    requires Done(io)
    requires io.flush.Torn? ==> io.flush.left <= Image(crc, data, version)
    ensures var image := Image(crc, data, version);
      var loaded := Parse(crc, Get(Final(files, path, image, io), path), true);
      && (loaded.Loaded? <==> Flushed(image, io) == image)
      && (loaded.Loaded? ==> loaded == Loaded(data))
  {
    var image := Image(crc, data, version);
    TruncationRefused(crc, data, version, Flushed(image, io));
    RoundTrip(crc, data, version);
    hide Tmp;
  }

  // ----- whole histories of saves and power losses

  /** A save of which at most stop steps took place. */
  datatype Job = Job(path: string, data: Payload, version: Word, io: Io, stop: nat)

  function Step(crc: Checksum): (Files, Job) -> Files {
    (files, j: Job) => Reached(files, j.path, Image(crc, j.data, j.version), j.io, j.stop)
  }

  function Run(crc: Checksum, files: Files, jobs: seq<Job>): Files {
    Fold(Step(crc), files, jobs)
  }

  lemma RunSnoc(crc: Checksum, files: Files, jobs: seq<Job>, j: Job)
    ensures Run(crc, files, jobs + [j])
         == Reached(Run(crc, files, jobs), j.path, Image(crc, j.data, j.version), j.io, j.stop)
  {
    Snoc(Step(crc), files, jobs, j);
    hide Reached, Image;
  }

  /** The last save of a path that ran through its rename. */
  function LastSave(crc: Checksum, jobs: seq<Job>, path: string): Option<Job> {
    if jobs == [] then None
    else
      var j := jobs[|jobs| - 1];
      if j.path == path && Replaces(Image(crc, j.data, j.version), j.io, j.stop) then Some(j)
      else LastSave(crc, jobs[..|jobs| - 1], path)
  }

  lemma LastSaveSnoc(crc: Checksum, jobs: seq<Job>, j: Job, path: string)
    ensures LastSave(crc, jobs + [j], path)
         == if j.path == path && Replaces(Image(crc, j.data, j.version), j.io, j.stop) then Some(j)
            else LastSave(crc, jobs, path)
  {
    assert (jobs + [j])[..|jobs|] == jobs;
  }

  /** No save uses path as its temporary file. */
  predicate Apart(jobs: seq<Job>, path: string) {
    forall i :: 0 <= i < |jobs| ==> Tmp(jobs[i].path) != path
  }

  lemma {:induction false} HistoryKeepsLast(crc: Checksum, files: Files, jobs: seq<Job>, path: string)
    requires Apart(jobs, path)
    ensures Get(Run(crc, files, jobs), path)
         == match LastSave(crc, jobs, path)
            case None => Get(files, path)
            case Some(j) => Some(Flushed(Image(crc, j.data, j.version), j.io))
    decreases |jobs|
  {
    if jobs != [] {
      hide Reached, Image, Flushed, Tmp, Replaces, Run, Get, LastSave;
      var n := |jobs| - 1;
      var j := jobs[n];
      assert jobs == jobs[..n] + [j];
      HistoryKeepsLast(crc, files, jobs[..n], path);
      RunSnoc(crc, files, jobs[..n], j);
      LastSaveSnoc(crc, jobs[..n], j, path);
      OthersUntouched(Run(crc, files, jobs[..n]), j.path, Image(crc, j.data, j.version), j.io, j.stop, path);
    }
  }

  /** After any history of saves, failed saves and power losses, with synced flushes, a load returns the
      data of the last save that got through its rename, or whatever the path held at the start. */
  lemma HistoryLoadsLast(crc: Checksum, files: Files, jobs: seq<Job>, path: string)
    requires Apart(jobs, path)
    requires forall i :: 0 <= i < |jobs| ==> jobs[i].io.flush.Synced?
    ensures Parse(crc, Get(Run(crc, files, jobs), path), true)
         == match LastSave(crc, jobs, path)
            case None => Parse(crc, Get(files, path), true)
            case Some(j) => Loaded(j.data)
  {
    HistoryKeepsLast(crc, files, jobs, path);
    LastSaveIsAJob(crc, jobs, path);
    var j := LastSave(crc, jobs, path);
    if j.Some? {
      RoundTrip(crc, j.value.data, j.value.version);
    }
    hide Parse, Image;
  }

  lemma {:induction false} LastSaveIsAJob(crc: Checksum, jobs: seq<Job>, path: string)
    ensures LastSave(crc, jobs, path).Some? ==> LastSave(crc, jobs, path).value in jobs
    decreases |jobs|
  {
    if jobs != [] {
      LastSaveIsAJob(crc, jobs[..|jobs| - 1], path);
    }
  }
}
