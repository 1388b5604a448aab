/** The two-slot store of the touch calibration: records with a generation and a checksum, and what a
    save that is cut short leaves behind. */
module TouchStore {
  import opened EspErr
  import opened Options
  import opened Affine

  const MAGIC := 0x5443414c
  const VERSION := 1
  const MAX_GENERATION := 0xffff_ffff

  datatype Record = Record(magic: nat, transform: Transform, version: nat, generation: nat, crc: nat)

  /** The checksum over every field but the checksum itself. */
  type Checksum = (nat, Transform, nat, nat) -> nat

  /** What reading one slot yields before it is checked. */
  datatype Blob = Missing | Unreadable | Stored(r: Record)

  datatype Slot = SlotA | SlotB

  // ----- reading

  function Sum(crc: Checksum, r: Record): nat {
    crc(r.magic, r.transform, r.version, r.generation)
  }

  function Read(crc: Checksum, b: Blob): Option<Record> {
    if b.Stored? && b.r.magic == MAGIC && b.r.version == VERSION && b.r.crc == Sum(crc, b.r) then Some(b.r) else None
  }

  /** What makes a stored record count: the magic number 'TCAL', version 1, and a checksum that matches
      everything before it. */
  lemma ReadMeans(crc: Checksum, b: Blob, r: Record)
    ensures Read(crc, b) == Some(r) <==>
      && b == Stored(r)
      && r.magic == 0x5443414c && r.version == 1
      && r.crc == crc(r.magic, r.transform, r.version, r.generation)
  {
  }

  function Winner(a: Option<Record>, b: Option<Record>): Option<Record> {
    if a.Some? && b.Some? then (if a.value.generation >= b.value.generation then a else b)
    else if a.Some? then a
    else b
  }

  function WinnerSlot(a: Option<Record>, b: Option<Record>): Slot
    requires Winner(a, b).Some?
  {
    if a.Some? && (b.None? || a.value.generation >= b.value.generation) then SlotA else SlotB
  }

  datatype LoadResult = Loaded(r: Record) | Absent | Rejected

  function LoadOf(w: Option<Record>): LoadResult {
    if w.None? then Absent else if Validate(w.value.transform) then Loaded(w.value) else Rejected
  }

  // ----- planning a save

  /** The successor of a 32-bit generation. */
  function Succ(g: nat): nat {
    if g == MAX_GENERATION then 0 else g + 1
  }

  function NextGeneration(a: Option<Record>, b: Option<Record>): nat {
    var next := if a.Some? then Succ(a.value.generation) else 1;
    if b.Some? && b.value.generation >= next then Succ(b.value.generation) else next
  }

  function Target(a: Option<Record>, b: Option<Record>): Slot {
    if a.None? || (b.Some? && b.value.generation < a.value.generation) then SlotB else SlotA
  }

  datatype Orientation = Orientation(swapXy: bool, mirrorX: bool, mirrorY: bool)

  function Oriented(tf: Transform, legacy: Option<Orientation>): Transform {
    if !tf.swapXy && !tf.mirrorX && !tf.mirrorY && legacy.Some?
    then tf.(swapXy := legacy.value.swapXy, mirrorX := legacy.value.mirrorX, mirrorY := legacy.value.mirrorY)
    else tf
  }

  /** The stored transform takes the coefficients as given; its orientation flags are those given if any
      is set, and otherwise, flag by flag, those of the older orientation record if there is one. */
  lemma OrientedMeans(tf: Transform, legacy: Option<Orientation>)
    ensures var t := Oriented(tf, legacy);
      && t.row1 == tf.row1 && t.row2 == tf.row2
      && var given := tf.swapXy || tf.mirrorX || tf.mirrorY;
         if !given && legacy.Some? then
           t.swapXy == legacy.value.swapXy && t.mirrorX == legacy.value.mirrorX && t.mirrorY == legacy.value.mirrorY
         else t.swapXy == tf.swapXy && t.mirrorX == tf.mirrorX && t.mirrorY == tf.mirrorY
  {
  }

  /** The new generation is one more than the highest there is, or 1 on an empty store, unless the counter
      wraps. */
  lemma GenerationAdvances(a: Option<Record>, b: Option<Record>)
    requires a.Some? ==> a.value.generation < 0xffff_ffff
    requires b.Some? ==> b.value.generation < 0xffff_ffff
    ensures var g := NextGeneration(a, b);
      && g >= 1
      && (a.Some? ==> g > a.value.generation) && (b.Some? ==> g > b.value.generation)
      && (g == 1 || (a.Some? && g == a.value.generation + 1) || (b.Some? && g == b.value.generation + 1))
  {
  }

  function NewRecord(crc: Checksum, a: Option<Record>, b: Option<Record>, tf: Transform): Record {
    var g := NextGeneration(a, b);
    Record(MAGIC, tf, VERSION, g, crc(MAGIC, tf, VERSION, g))
  }

  /** How far the write of the target slot got, by an error or a power loss: not begun, cut short so
      that the slot no longer checks, stored but with a failed commit, or complete. */
  datatype Write = NotBegun | Cut(left: Blob) | Uncommitted | Complete

  predicate Stores(w: Write) {
    w.Uncommitted? || w.Complete?
  }

  /** Whether reading each slot works, this time; an intact slot that cannot be read counts as empty. */
  datatype Reads = Reads(a: bool, b: bool)

  const GOOD: Reads := Reads(true, true)

  /** Opening the namespace for writing: the error, and whether the recovery erased the whole flash. */
  datatype Opening = Opening(err: Err, erased: bool)

  /** What erasing the namespace did: both slots, or an error after any part of it. */
  datatype Wipe = Wiped | WipeFailed(a: bool, b: bool)

  // ----- the store

  /** The store as a value: both slots. */
  datatype State = State(a: Blob, b: Blob)

  function Put(s: State, slot: Slot, blob: Blob): State {
    if slot == SlotA then s.(a := blob) else s.(b := blob)
  }

  function Seen(s: State, rd: Reads): State {
    State(if rd.a then s.a else Unreadable, if rd.b then s.b else Unreadable)
  }

  function AfterOpen(s: State, o: Opening): State {
    if o.erased then State(Missing, Missing) else s
  }

  function TargetOf(crc: Checksum, s: State, rd: Reads): Slot {
    Target(Read(crc, Seen(s, rd).a), Read(crc, Seen(s, rd).b))
  }

  function NewRecordOf(crc: Checksum, s: State, rd: Reads, tf: Transform): Record {
    NewRecord(crc, Read(crc, Seen(s, rd).a), Read(crc, Seen(s, rd).b), tf)
  }

  function WriteTarget(crc: Checksum, s: State, rd: Reads, tf: Transform, w: Write): State {
    match w
    case NotBegun => s
    case Cut(left) => Put(s, TargetOf(crc, s, rd), left)
    case _ => Put(s, TargetOf(crc, s, rd), Stored(NewRecordOf(crc, s, rd, tf)))
  }

  function Erased(s: State, w: Wipe): State {
    State(if w.Wiped? || w.a then Missing else s.a, if w.Wiped? || w.b then Missing else s.b)
  }

  function WinnerOf(crc: Checksum, s: State): Option<Record> {
    Winner(Read(crc, s.a), Read(crc, s.b))
  }

  /** r is in a slot that checks, no slot that checks has a higher generation, and of two equal ones it
      is the one in slot A. */
  predicate Newest(crc: Checksum, s: State, r: Record) {
    var a, b := Read(crc, s.a), Read(crc, s.b);
    && (a == Some(r) || b == Some(r))
    && (a.Some? ==> a.value.generation <= r.generation)
    && (b.Some? ==> b.value.generation <= r.generation)
    && (a.Some? && a.value.generation == r.generation ==> a == Some(r))
  }

  class Nvs {
    var slotA: Blob
    var slotB: Blob
    const crc: Checksum

    function Model(): State
      reads this
    {
      State(slotA, slotB)
    }

    constructor (crc: Checksum)
      ensures Model() == State(Missing, Missing) && this.crc == crc
    {
      slotA, slotB, this.crc := Missing, Missing, crc;
    }

    /** The slot is empty or unreadable, or what it holds fails one of the three checks. */
    predicate Damaged(b: Blob) {
      || !b.Stored? || b.r.magic != 0x5443414c || b.r.version != 1
      || b.r.crc != crc(b.r.magic, b.r.transform, b.r.version, b.r.generation)
    }

    method Load(openErr: Err, rd: Reads) returns (err: Err, r: LoadResult)
      ensures openErr != Ok ==> err == openErr && r == Absent
      ensures openErr == Ok ==> r == LoadOf(WinnerOf(crc, Seen(Model(), rd)))
      ensures openErr == Ok ==> err == match r case Loaded(_) => Ok case Absent => NotFound case Rejected => Err.InvalidState
      ensures var s := Seen(Model(), rd);
        && (openErr == Ok ==> (r == Absent <==> Read(crc, s.a).None? && Read(crc, s.b).None?))
        && (r.Loaded? ==> Newest(crc, s, r.r) && Validate(r.r.transform))
        && (r == Rejected ==> exists x :: Newest(crc, s, x) && !Validate(x.transform))
      // The same without the reading rule: which contents of which slots count.
      ensures err == Ok ==>
        && r.Loaded? && ((rd.a && slotA == Stored(r.r)) || (rd.b && slotB == Stored(r.r)))
        && r.r.magic == 0x5443414c && r.r.version == 1
        && r.r.crc == crc(r.r.magic, r.r.transform, r.r.version, r.r.generation)
      ensures openErr == Ok ==> (r == Absent <==> (!rd.a || Damaged(slotA)) && (!rd.b || Damaged(slotB)))
    {
      hide Validate;
      if openErr != Ok {
        return openErr, Absent;
      }
      var a := if rd.a then Read(crc, slotA) else None;
      var b := if rd.b then Read(crc, slotB) else None;
      var w := Winner(a, b);
      if w.None? {
        return NotFound, Absent;
      }
      if !Validate(w.value.transform) {
        assert Newest(crc, Seen(Model(), rd), w.value);
        return Err.InvalidState, Rejected;
      }
      return Ok, Loaded(w.value);
    }

    method Save(tf: Transform, legacy: Option<Orientation>, opening: Opening, rd: Reads, w: Write) returns (err: Err)
      modifies this
      ensures Model() == Step(crc, old(Model()), Saving(tf, legacy, opening, rd, w))
      ensures err == Ok <==> Validate(tf) && opening.err == Ok && w == Complete
    {
      if !Validate(tf) {
        return Err.InvalidState;
      }
      OpenForWriting(opening);
      if opening.err != Ok {
        return opening.err;
      }
      var a := if rd.a then Read(crc, slotA) else None;
      var b := if rd.b then Read(crc, slotB) else None;
      var nextGen := 1;
      if a.Some? {
        nextGen := Succ(a.value.generation);
      }
      if b.Some? && b.value.generation >= nextGen {
        nextGen := Succ(b.value.generation);
      }
      var target := if a.None? || (b.Some? && b.value.generation < a.value.generation) then SlotB else SlotA;
      var t := Oriented(tf, legacy);
      var toStore := Record(MAGIC, t, VERSION, nextGen, crc(MAGIC, t, VERSION, nextGen));
      match w {
        case NotBegun => err := Fail;
        case Cut(left) =>
          if target == SlotA { slotA := left; } else { slotB := left; }
          err := Fail;
        case _ =>
          if target == SlotA { slotA := Stored(toStore); } else { slotB := Stored(toStore); }
          err := if w == Complete then Ok else Fail;
      }
    }

    method OpenForWriting(opening: Opening)
      modifies this
      ensures Model() == AfterOpen(old(Model()), opening)
    {
      if opening.erased {
        slotA, slotB := Missing, Missing;
      }
    }

    method Clear(opening: Opening, w: Wipe) returns (err: Err)
      modifies this
      ensures Model() == Step(crc, old(Model()), Clearing(opening, w))
      ensures err == Ok <==> opening.err == Ok && w == Wiped
      ensures err == Ok ==> Read(crc, slotA) == Read(crc, slotB) == None
    {
      OpenForWriting(opening);
      if opening.err != Ok {
        return opening.err;
      }
      if w.Wiped? || w.a {
        slotA := Missing;
      }
      if w.Wiped? || w.b {
        slotB := Missing;
      }
      err := if w == Wiped then Ok else Fail;
    }
  }

  /** What a load picks is exactly the newest record. */
  lemma WinnerIsNewest(crc: Checksum, s: State, r: Record)
    ensures WinnerOf(crc, s) == Some(r) <==> Newest(crc, s, r)
  {
  }

  /** A failed clear changes what the next load picks exactly when it erased the slot the load picked,
      unless the other slot is left and holds the same record: it can bring an older calibration back. */
  lemma FailedClear(crc: Checksum, s: State, a: bool, b: bool)
    requires WinnerOf(crc, s).Some?
    ensures var t := Erased(s, WipeFailed(a, b));
      var slot := WinnerSlot(Read(crc, s.a), Read(crc, s.b));
      WinnerOf(crc, t) == WinnerOf(crc, s) <==>
        !(if slot == SlotA then a else b) || (!(a && b) && Read(crc, s.a) == Read(crc, s.b))
  {
  }

  // ----- what a save achieves

  predicate Generations(crc: Checksum, s: State) {
    && (Read(crc, s.a).Some? ==> Read(crc, s.a).value.generation <= MAX_GENERATION)
    && (Read(crc, s.b).Some? ==> Read(crc, s.b).value.generation <= MAX_GENERATION)
  }

  /** Both slots hold a record and one of them carries the last generation number. */
  predicate Exhausted(crc: Checksum, s: State) {
    var a, b := Read(crc, s.a), Read(crc, s.b);
    a.Some? && b.Some? && (a.value.generation == MAX_GENERATION || b.value.generation == MAX_GENERATION)
  }

  /** The record in the slot that a save leaves alone. */
  function Spared(crc: Checksum, s: State, rd: Reads): Option<Record> {
    if TargetOf(crc, s, rd) == SlotA then Read(crc, s.b) else Read(crc, s.a)
  }

  /** The spared slot holds a record that the save could not read. */
  predicate Overlooked(crc: Checksum, s: State, rd: Reads) {
    Spared(crc, s, rd).Some? && !(if TargetOf(crc, s, rd) == SlotA then rd.b else rd.a)
  }

  /** The slot just written wins the next load exactly when the generation counter is not exhausted or,
      if the save overlooked a record, when that record is not newer than the one it chose to write;
      slot A wins ties. Otherwise the next load returns another record. A failed commit makes no
      difference to the store, only to what the save reports. */
  lemma SavedIsLoaded(crc: Checksum, s: State, rd: Reads, tf: Transform, w: Write)
    requires Generations(crc, s) && Stores(w)
    ensures var r := NewRecordOf(crc, s, rd, tf);
      var t := WriteTarget(crc, s, rd, tf, w);
      var saved := if !Overlooked(crc, s, rd) then !Exhausted(crc, s)
                   else if TargetOf(crc, s, rd) == SlotA then Spared(crc, s, rd).value.generation <= r.generation
                   else Spared(crc, s, rd).value.generation < r.generation;
      && WinnerOf(crc, t).Some?
      && (WinnerSlot(Read(crc, t.a), Read(crc, t.b)) == TargetOf(crc, s, rd) <==> saved)
      && WinnerOf(crc, t) == if saved then Some(r) else Spared(crc, s, rd)
  {
    var r := NewRecordOf(crc, s, rd, tf);
    assert Read(crc, Stored(r)) == Some(r);
  }

  /** With both slots readable and generations left, what is saved is what is loaded next. */
  method SaveThenLoad(nvs: Nvs, tf: Transform, legacy: Option<Orientation>)
    returns (saved: Err, loaded: Err, r: LoadResult)
    requires Validate(tf) && Generations(nvs.crc, nvs.Model()) && !Exhausted(nvs.crc, nvs.Model())
    modifies nvs
    ensures saved == Ok && loaded == Ok && r.Loaded? && r.r.transform == Oriented(tf, legacy)
  {
    ghost var s := nvs.Model();
    hide Validate, Oriented;
    saved := nvs.Save(tf, legacy, Opening(Ok, false), GOOD, Complete);
    SavedIsLoaded(nvs.crc, s, GOOD, Oriented(tf, legacy), Complete);
    OrientedValid(tf, legacy);
    loaded, r := nvs.Load(Ok, GOOD);
  }

  /** One read that fails is enough: when the slots hold consecutive generations, the newer one in slot A,
      a save that cannot read slot A writes the generation that is already there, and the old record of
      slot A is loaded again although the save reports success. */
  lemma MissedReadLosesSave(crc: Checksum, s: State, tf: Transform, w: Write)
    requires Generations(crc, s) && Stores(w) && Read(crc, s.a).Some? && Read(crc, s.b).Some?
    requires Read(crc, s.a).value.generation == Read(crc, s.b).value.generation + 1
    ensures WinnerOf(crc, WriteTarget(crc, s, Reads(false, true), tf, w)) == Read(crc, s.a)
  {
    SavedIsLoaded(crc, s, Reads(false, true), tf, w);
  }

  /** With both slots read, the save spares the winner exactly when both are valid with different
      generations. */
  lemma TargetSparesWinner(a: Option<Record>, b: Option<Record>)
    requires Winner(a, b).Some?
    ensures Target(a, b) != WinnerSlot(a, b) <==>
      a.Some? && b.Some? && a.value.generation != b.value.generation
  {
  }

  /** With both slots valid and of different generations, a winner in slot A is overwritten exactly when
      it is the only one that could be read, a winner in slot B exactly when slot A could not be. */
  lemma RedundantSparesWinner(crc: Checksum, s: State, rd: Reads)
    requires Redundant(crc, s)
    ensures var slot := WinnerSlot(Read(crc, s.a), Read(crc, s.b));
      TargetOf(crc, s, rd) != slot <==> if slot == SlotA then rd.b || !rd.a else rd.a
  {
  }

  /** A save cut short keeps the stored record exactly when there was none, or it wrote the other slot, or
      both slots held the same record; with both slots read that is, when there was none, or both were
      valid with different generations, or both held the same record. */
  lemma CutKeepsWinner(crc: Checksum, s: State, rd: Reads, tf: Transform, left: Blob)
    requires Read(crc, left) == None
    ensures var a, b := Read(crc, s.a), Read(crc, s.b);
      var kept := WinnerOf(crc, WriteTarget(crc, s, rd, tf, Cut(left))) == WinnerOf(crc, s);
      && (kept <==> (a.None? && b.None?) || a == b || TargetOf(crc, s, rd) != WinnerSlot(a, b))
      && (rd == GOOD ==>
            (kept <==> (a.None? && b.None?)
                       || (a.Some? && b.Some? && (a.value.generation != b.value.generation || a == b))))
  {
  }

  /** The crash property in one place: whatever becomes of the write, as long as a cut shows and the save
      spares the winner, the next load picks the old record or the new one. With both slots valid, of
      different generations and read, the winner is always spared. */
  lemma OldOrNew(crc: Checksum, s: State, rd: Reads, tf: Transform, w: Write)
    requires Redundant(crc, s) && (w.Cut? ==> Read(crc, w.left) == None)
    ensures TargetOf(crc, s, rd) != WinnerSlot(Read(crc, s.a), Read(crc, s.b)) ==>
      WinnerOf(crc, WriteTarget(crc, s, rd, tf, w)) in {WinnerOf(crc, s), Some(NewRecordOf(crc, s, rd, tf))}
    ensures rd == GOOD ==> TargetOf(crc, s, rd) != WinnerSlot(Read(crc, s.a), Read(crc, s.b))
  {
    var r := NewRecordOf(crc, s, rd, tf);
    assert Read(crc, Stored(r)) == Some(r);
    hide NextGeneration;
  }

  // ----- every state reached from an erased store

  datatype Event =
    | Saving(tf: Transform, legacy: Option<Orientation>, opening: Opening, seen: Reads, w: Write)
    | Clearing(opening: Opening, wipe: Wipe)

  function Step(crc: Checksum, s: State, e: Event): State {
    match e
    case Saving(tf, legacy, opening, rd, w) =>
      if !Validate(tf) then s
      else if opening.err != Ok then AfterOpen(s, opening)
      else WriteTarget(crc, AfterOpen(s, opening), rd, Oriented(tf, legacy), w)
    case Clearing(opening, wipe) =>
      if opening.err != Ok then AfterOpen(s, opening) else Erased(AfterOpen(s, opening), wipe)
  }

  function RunFrom(crc: Checksum, s: State, es: seq<Event>): State {
    if es == [] then s else Step(crc, RunFrom(crc, s, es[..|es| - 1]), es[|es| - 1])
  }

  function Run(crc: Checksum, es: seq<Event>): State {
    RunFrom(crc, State(Missing, Missing), es)
  }

  /** A write cut short leaves a slot that does not check. */
  predicate CutsShow(crc: Checksum, es: seq<Event>) {
    forall i :: 0 <= i < |es| && es[i].Saving? && es[i].w.Cut? ==> Read(crc, es[i].w.left) == None
  }

  lemma OrientedValid(tf: Transform, legacy: Option<Orientation>)
    ensures Validate(Oriented(tf, legacy)) <==> Validate(tf)
  {
    hide ValidRows;
  }

  /** From an erased store slot A never holds a record, whatever is saved, cut short or cleared: a save
      goes to slot B whenever slot A is invalid. Slot B holds only valid transforms. */
  lemma {:induction false} OnlySlotB(crc: Checksum, es: seq<Event>)
    requires CutsShow(crc, es)
    ensures Read(crc, Run(crc, es).a) == None
    ensures var b := Read(crc, Run(crc, es).b); b.Some? ==> Validate(b.value.transform)
    decreases |es|
  {
    if es != [] {
      var n := |es| - 1;
      OnlySlotB(crc, es[..n]);
      if es[n].Saving? {
        OrientedValid(es[n].tf, es[n].legacy);
      }
      hide Validate;
    }
  }

  /** So the second slot never protects anything: in every state reached from an erased store, a cut
      save loses the stored calibration if there is one, and a complete save is loaded back. */
  lemma NoRedundancyFromErased(crc: Checksum, es: seq<Event>, rd: Reads, tf: Transform, left: Blob)
    requires CutsShow(crc, es) && Read(crc, left) == None
    ensures WinnerOf(crc, WriteTarget(crc, Run(crc, es), rd, tf, Cut(left))) == None
    ensures Validate(tf) ==>
      var loaded := LoadOf(WinnerOf(crc, WriteTarget(crc, Run(crc, es), rd, tf, Complete)));
      loaded.Loaded? && loaded.r.transform == tf
  {
    OnlySlotB(crc, es);
    hide Validate;
  }

  // ----- gaining and losing the second slot

  /** At most one slot holds a record. */
  predicate Single(crc: Checksum, s: State) {
    Read(crc, s.a).None? || Read(crc, s.b).None?
  }

  /** Both slots hold records, and the generations tell them apart. */
  predicate Redundant(crc: Checksum, s: State) {
    var a, b := Read(crc, s.a), Read(crc, s.b);
    a.Some? && b.Some? && a.value.generation != b.value.generation
  }

  /** One save keeps a single record single exactly unless it is in slot A, cannot be read, and the new
      one gets stored beside it. */
  lemma SingleStep(crc: Checksum, s: State, rd: Reads, tf: Transform, w: Write)
    requires Single(crc, s) && (w.Cut? ==> Read(crc, w.left) == None)
    ensures Single(crc, WriteTarget(crc, s, rd, tf, w)) <==> !(Read(crc, s.a).Some? && !rd.a && Stores(w))
  {
    var r := NewRecordOf(crc, s, rd, tf);
    assert Read(crc, Stored(r)) == Some(r);
    hide NextGeneration;
  }

  /** Every save of the history can read slot A. */
  predicate SlotARead(es: seq<Event>) {
    forall i :: 0 <= i < |es| && es[i].Saving? ==> es[i].seen.a
  }

  /** Redundancy once lost does not come back, unless a save cannot read slot A: whatever is saved, cut
      short, cleared or erased afterwards, the store rewrites its only record in place. */
  lemma {:induction false} SingleForever(crc: Checksum, s: State, es: seq<Event>)
    requires Single(crc, s) && CutsShow(crc, es) && SlotARead(es)
    ensures Single(crc, RunFrom(crc, s, es))
    decreases |es|
  {
    if es != [] {
      var n := |es| - 1;
      var t := RunFrom(crc, s, es[..n]);
      SingleForever(crc, s, es[..n]);
      if es[n].Saving? {
        SingleStep(crc, AfterOpen(t, es[n].opening), es[n].seen, Oriented(es[n].tf, es[n].legacy), es[n].w);
      }
      hide Validate, Oriented, WriteTarget;
    }
  }

  /** One cut save is enough to lose it. */
  lemma CutLosesRedundancy(crc: Checksum, s: State, rd: Reads, tf: Transform, left: Blob, es: seq<Event>)
    requires Read(crc, left) == None && CutsShow(crc, es) && SlotARead(es)
    ensures Single(crc, RunFrom(crc, WriteTarget(crc, s, rd, tf, Cut(left)), es))
  {
    SingleForever(crc, WriteTarget(crc, s, rd, tf, Cut(left)), es);
  }

  /** The highest generation in a redundant store. */
  function Top(crc: Checksum, s: State): nat
    requires Redundant(crc, s)
  {
    WinnerOf(crc, s).value.generation
  }

  /** A save that can read both slots and whose record gets stored, whether or not its commit then
      fails. */
  predicate Completes(e: Event) {
    e.Saving? && Validate(e.tf) && e.opening == Opening(Ok, false) && e.seen == GOOD && Stores(e.w)
  }

  /** A complete save takes a redundant store to the next generation exactly when it could read the slot
      that was winning. */
  lemma CompleteKeepsRedundancy(crc: Checksum, s: State, rd: Reads, tf: Transform, w: Write)
    requires Redundant(crc, s) && Top(crc, s) < MAX_GENERATION && Stores(w)
    ensures var t := WriteTarget(crc, s, rd, tf, w);
      Redundant(crc, t) && Top(crc, t) == Top(crc, s) + 1 && WinnerOf(crc, t) == Some(NewRecordOf(crc, s, rd, tf))
      <==> if WinnerSlot(Read(crc, s.a), Read(crc, s.b)) == SlotA then rd.a else rd.b
  {
    var r := NewRecordOf(crc, s, rd, tf);
    assert Read(crc, Stored(r)) == Some(r);
  }

  /** As long as every save reads both slots and none is cut short the two slots alternate: a redundant
      store stays redundant until the generations run out, each save is what the next load returns, and a
      save cut short at any point leaves the last complete one. */
  lemma {:induction false} SavesAlternate(crc: Checksum, s: State, es: seq<Event>, tf: Transform, left: Blob)
    requires Redundant(crc, s) && Top(crc, s) + |es| <= MAX_GENERATION
    requires forall i :: 0 <= i < |es| ==> Completes(es[i])
    requires Read(crc, left) == None
    ensures var t := RunFrom(crc, s, es);
      && Redundant(crc, t) && Top(crc, t) == Top(crc, s) + |es|
      && (es != [] ==>
            var e := es[|es| - 1];
            e.Saving? && WinnerOf(crc, t).value.transform == Oriented(e.tf, e.legacy))
      && WinnerOf(crc, WriteTarget(crc, t, GOOD, tf, Cut(left))) == WinnerOf(crc, t)
    decreases |es|
  {
    if es != [] {
      var n := |es| - 1;
      SavesAlternate(crc, s, es[..n], tf, left);
      CompleteKeepsRedundancy(crc, RunFrom(crc, s, es[..n]), GOOD, Oriented(es[n].tf, es[n].legacy), es[n].w);
      hide WriteTarget, Validate, Oriented, Redundant, WinnerOf;
    }
    CutKeepsWinner(crc, RunFrom(crc, s, es), GOOD, tf, left);
    hide WriteTarget;
  }
}
