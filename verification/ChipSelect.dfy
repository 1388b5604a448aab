/** The SD card's chip select: pin 4 of the IO expander, behind a cached level. */
module ChipSelect {
  import opened EspErr
  import opened Folds
  import opened Options
  import IoExpander

  const CS_PIN := 4

  /** level is the cached line level (-1 when unknown), trusted while valid holds. ioFlag and i2cFlag
      record whether the task holds the expander mutex and the bus mutex; ioHeld and i2cHeld are the
      recursion depths of these mutexes. */
  datatype State = State(exp: IoExpander.State, valid: bool, level: int,
                         ioFlag: bool, i2cFlag: bool, ioHeld: int, i2cHeld: int)

  /** What the outside decides during one call. */
  datatype Env = Env(expReady: bool, ioLock: bool, i2cLock: bool, first: IoExpander.Tx, recover: Err, second: IoExpander.Tx)

  function High(s: IoExpander.State): bool {
    IoExpander.Bit(s.reg, CS_PIN)
  }

  function LevelOf(high: bool): int {
    if high then 1 else 0
  }

  function CsEvent(low: bool, tx: IoExpander.Tx): IoExpander.Event {
    if low then IoExpander.ClearBits(IoExpander.Mask(CS_PIN), tx)
    else IoExpander.SetBits(IoExpander.Mask(CS_PIN), tx)
  }

  // ----- the specification of one call

  function LockBus(s: State, env: Env): (State, Err) {
    if !env.expReady then (s, InvalidState)
    else if !s.ioFlag && !env.ioLock then (s, Timeout)
    else
      var t := if s.ioFlag then s else s.(ioFlag := true, ioHeld := s.ioHeld + 1);
      if t.i2cFlag then (t, Ok)
      else if !env.i2cLock then (t.(ioFlag := false, ioHeld := t.ioHeld - 1), Timeout)
      else (t.(i2cFlag := true, i2cHeld := t.i2cHeld + 1), Ok)
  }

  function UnlockBus(s: State): State {
    s.(ioFlag := false, i2cFlag := false,
       ioHeld := if s.ioFlag then s.ioHeld - 1 else s.ioHeld,
       i2cHeld := if s.i2cFlag then s.i2cHeld - 1 else s.i2cHeld)
  }

  function Attempt(s: State, low: bool, tx: IoExpander.Tx): State {
    var t := s.(exp := IoExpander.Step(s.exp, CsEvent(low, tx)));
    if IoExpander.PushErr(s.exp, tx) == Ok
    then t.(valid := true, level := LevelOf(IoExpander.Bit(t.exp.shadow, CS_PIN)))
    else t
  }

  /** Up to two writes with a recovery in between; when they fail the cache is distrusted. */
  function WriteTwice(s: State, low: bool, env: Env): (State, Err) {
    var t1 := Attempt(s, low, env.first);
    var e1 := IoExpander.PushErr(s.exp, env.first);
    if e1 == Ok then (t1, Ok)
    else if env.recover != Ok then (t1.(valid := false, level := -1), e1)
    else
      var t2 := Attempt(t1, low, env.second);
      var e2 := IoExpander.PushErr(t1.exp, env.second);
      if e2 == Ok then (t2, Ok) else (t2.(valid := false, level := -1), e2)
  }

  function SetCsStep(s: State, low: bool, env: Env): (State, Err) {
    var (t, lockErr) := LockBus(s, env);
    if lockErr != Ok then (t, lockErr)
    else if t.valid && t.level == LevelOf(!low) then (UnlockBus(t), Ok)
    else (UnlockBus(WriteTwice(t, low, env).0), WriteTwice(t, low, env).1)
  }

  /** The expander error that the two writes leave behind, if any of them failed: the last failed write,
      or the failed recovery after the first. */
  function WriteFault(s: State, low: bool, env: Env): Option<Err> {
    var e1 := IoExpander.PushErr(s.exp, env.first);
    if e1 == Ok then None
    else if env.recover != Ok then Some(env.recover)
    else
      var e2 := IoExpander.PushErr(Attempt(s, low, env.first).exp, env.second);
      Some(if e2 == Ok then e1 else e2)
  }

  function FaultOf(s: State, low: bool, env: Env): Option<Err> {
    var (t, lockErr) := LockBus(s, env);
    if lockErr != Ok || (t.valid && t.level == LevelOf(!low)) then None else WriteFault(t, low, env)
  }

  // ----- the driver

  class Driver {
    const exp: IoExpander.Expander
    var valid: bool
    var level: int
    var ioFlag: bool
    var i2cFlag: bool
    var ioHeld: int
    var i2cHeld: int
    /** Set once an expander write has failed: the last such error. */
    var fault: Option<Err>

    function Model(): State
      reads this, exp
    {
      State(exp.Model(), valid, level, ioFlag, i2cFlag, ioHeld, i2cHeld)
    }

    constructor (exp: IoExpander.Expander)
      ensures this.exp == exp && !valid && level == -1 && !ioFlag && !i2cFlag && ioHeld == 0 && i2cHeld == 0
      ensures fault == None
    {
      this.exp := exp;
      valid, level, ioFlag, i2cFlag, ioHeld, i2cHeld, fault := false, -1, false, false, 0, 0, None;
    }

    method Lock(env: Env) returns (r: Err)
      modifies this`ioFlag, this`i2cFlag, this`ioHeld, this`i2cHeld
      ensures (Model(), r) == LockBus(old(Model()), env)
    {
      if !env.expReady {
        return InvalidState;
      }
      if !ioFlag {
        if !env.ioLock {
          return Timeout;
        }
        ioHeld := ioHeld + 1;
        ioFlag := true;
      }
      if !i2cFlag {
        if !env.i2cLock {
          ioHeld := ioHeld - 1;
          ioFlag := false;
          return Timeout;
        }
        i2cHeld := i2cHeld + 1;
        i2cFlag := true;
      }
      r := Ok;
    }

    method Unlock()
      modifies this`ioFlag, this`i2cFlag, this`ioHeld, this`i2cHeld
      ensures Model() == UnlockBus(old(Model()))
    {
      if i2cFlag {
        i2cHeld := i2cHeld - 1;
        i2cFlag := false;
      }
      if ioFlag {
        ioHeld := ioHeld - 1;
        ioFlag := false;
      }
    }

    method TryWrite(low: bool, tx: IoExpander.Tx) returns (r: Err)
      modifies this`valid, this`level, exp
      ensures Model() == Attempt(old(Model()), low, tx)
      ensures r == IoExpander.PushErr(old(exp.Model()), tx)
    {
      if low {
        r := exp.ClearBitsLocked(IoExpander.Mask(CS_PIN), tx);
      } else {
        r := exp.SetBitsLocked(IoExpander.Mask(CS_PIN), tx);
      }
      if r == Ok {
        valid := true;
        level := if IoExpander.Bit(exp.shadow, CS_PIN) then 1 else 0;
      }
    }

    // The write loop of SetCs, with both mutexes held.
    method WriteCs(low: bool, env: Env) returns (r: Err)
      modifies this`valid, this`level, this`fault, exp
      ensures (Model(), r) == WriteTwice(old(Model()), low, env)
      ensures fault == var f := WriteFault(old(Model()), low, env); if f.Some? then f else old(fault)
    {
      ghost var start := Model();
      var attemptedRecover := false;
      var attempt := 0;
      while attempt < 2
        invariant 0 <= attempt <= 1
        invariant attempt == 0 ==> Model() == start && !attemptedRecover && fault == old(fault)
        invariant attempt == 1 ==> Model() == Attempt(start, low, env.first) && attemptedRecover
        invariant attempt == 1 ==> IoExpander.PushErr(start.exp, env.first) != Ok && env.recover == Ok
        invariant attempt == 1 ==> fault == Some(IoExpander.PushErr(start.exp, env.first))
      {
        r := TryWrite(low, if attempt == 0 then env.first else env.second);
        if r == Ok {
          return;
        }
        fault := Some(r);
        if attemptedRecover {
          break;
        }
        attemptedRecover := true;
        if env.recover != Ok {
          fault := Some(env.recover);
          break;
        }
        attempt := attempt + 1;
      }
      valid := false;
      level := -1;
    }

    method SetCs(low: bool, env: Env) returns (r: Err)
      modifies this, exp
      ensures (Model(), r) == SetCsStep(old(Model()), low, env)
      ensures fault == var f := FaultOf(old(Model()), low, env); if f.Some? then f else old(fault)
    {
      var want := if low then 0 else 1;
      r := Lock(env);
      if r != Ok {
        return;
      }
      if valid && level == want {
        Unlock();
        return Ok;
      }
      r := WriteCs(low, env);
      Unlock();
    }
  }

  // ----- what holds after every call

  /** A trusted, known level is the level of the real pin, and of the shadow. */
  predicate Sound(s: State) {
    s.valid ==>
      && s.exp.ready
      && (s.level != -1 ==> s.level == LevelOf(High(s.exp)) && IoExpander.Bit(s.exp.shadow, CS_PIN) == High(s.exp))
  }

  lemma CsBitAfter(s: IoExpander.State, low: bool, tx: IoExpander.Tx)
    ensures var t := IoExpander.Step(s, CsEvent(low, tx));
      && t.ready == s.ready
      && IoExpander.Bit(t.shadow, CS_PIN) == !low
      && (IoExpander.PushErr(s, tx) == Ok ==> High(t) == !low)
  {
    hide IoExpander.Bit, IoExpander.Mask, IoExpander.Raise, IoExpander.Lower;
    IoExpander.BitMask(CS_PIN, CS_PIN);
    IoExpander.BitStep(s, CsEvent(low, tx), CS_PIN);
  }

  /** A successful return means the line really is at the level asked for, whether it was written or
      taken from the cache; a return after failed writes leaves the cache distrusted. */
  lemma SetCsMeans(s: State, low: bool, env: Env)
    requires Sound(s)
    ensures var (t, r) := SetCsStep(s, low, env);
      && Sound(t)
      && (r == Ok ==> t.valid && t.level == LevelOf(!low) && High(t.exp) == !low)
      && (r != Ok && LockBus(s, env).1 == Ok ==> !t.valid && t.level == -1)
      && (LockBus(s, env).1 != Ok ==> r == LockBus(s, env).1 && t.exp == s.exp && t.valid == s.valid && t.level == s.level)
  {
    hide IoExpander.Step, IoExpander.Bit;
    var l := LockBus(s, env).0;
    CsBitAfter(l.exp, low, env.first);
    CsBitAfter(IoExpander.Step(l.exp, CsEvent(low, env.first)), low, env.second);
  }

  lemma WriteKeepsLocks(s: State, low: bool, env: Env)
    ensures var t := WriteTwice(s, low, env).0;
      t.ioFlag == s.ioFlag && t.i2cFlag == s.i2cFlag && t.ioHeld == s.ioHeld && t.i2cHeld == s.i2cHeld
  {
    hide IoExpander.Step, IoExpander.Bit, IoExpander.PushErr;
  }

  /** Every return path gives back exactly what it took: the recursion depths beyond the flags never
      change, and both flags are down unless the expander was not even asked for. */
  lemma LocksBalanced(s: State, low: bool, env: Env)
    ensures var t := SetCsStep(s, low, env).0;
      && t.ioHeld - LevelOf(t.ioFlag) == s.ioHeld - LevelOf(s.ioFlag)
      && t.i2cHeld - LevelOf(t.i2cFlag) == s.i2cHeld - LevelOf(s.i2cFlag)
      && (env.expReady && (s.ioFlag || env.ioLock) && (s.i2cFlag || env.i2cLock) ==> !t.ioFlag && !t.i2cFlag)
  {
    WriteKeepsLocks(LockBus(s, env).0, low, env);
    hide WriteTwice;
  }

  /** What a failed transmit comes back as. */
  function TxErr(tx: IoExpander.Tx): Err {
    match tx
    case Delivered => Ok
    case Busy => Timeout
    case Failed(_) => Fail
  }

  /** The result of a call, from the outcomes of its parts alone. It is the refusal of a mutex, if there is
      one; OK straight from a trusted cache; otherwise, on a ready expander, OK exactly when the first
      transmit is delivered or the recovery works and the second one is, and the error of the last
      transmit if not. */
  lemma SetCsResult(s: State, low: bool, env: Env)
    ensures var r := SetCsStep(s, low, env).1;
      if !env.expReady then r == InvalidState
      else if (!s.ioFlag && !env.ioLock) || (!s.i2cFlag && !env.i2cLock) then r == Timeout
      else if s.valid && s.level == (if low then 0 else 1) then r == Ok
      else if !s.exp.ready then r == InvalidState
      else
        && (r == Ok <==> env.first.Delivered? || (env.recover == Ok && env.second.Delivered?))
        && (r != Ok ==> r == TxErr(if env.recover == Ok then env.second else env.first))
  {
    hide IoExpander.Bit, IoExpander.Raise, IoExpander.Lower, IoExpander.Mask;
  }

  /** A call leaves every other pin's requested level alone. */
  lemma OtherPinsKept(s: State, low: bool, env: Env, pin: nat)
    requires pin < 8 && pin != CS_PIN
    ensures IoExpander.Bit(SetCsStep(s, low, env).0.exp.shadow, pin) == IoExpander.Bit(s.exp.shadow, pin)
  {
    var l := LockBus(s, env).0;
    hide IoExpander.Step, IoExpander.Bit, IoExpander.Raise, IoExpander.Lower, IoExpander.Mask, IoExpander.PushErr;
    IoExpander.BitMask(CS_PIN, pin);
    IoExpander.BitStep(l.exp, CsEvent(low, env.first), pin);
    IoExpander.BitStep(IoExpander.Step(l.exp, CsEvent(low, env.first)), CsEvent(low, env.second), pin);
  }

  /** With both mutexes to be had and a bus that delivers, a ready expander takes every call. */
  lemma WillingSucceeds(s: State, low: bool, env: Env)
    ensures var (t, r) := SetCsStep(s, low, env);
      && t.exp.ready == s.exp.ready
      && (s.exp.ready && env.expReady && env.ioLock && env.i2cLock && env.first.Delivered? ==> r == Ok)
  {
    hide IoExpander.Step, IoExpander.Bit;
    var l := LockBus(s, env).0;
    CsBitAfter(l.exp, low, env.first);
    CsBitAfter(IoExpander.Step(l.exp, CsEvent(low, env.first)), low, env.second);
  }

  /** A call that fails with the mutexes in hand leaves an expander error behind. */
  lemma FaultOnFailure(s: State, low: bool, env: Env)
    ensures FaultOf(s, low, env).Some? ==> FaultOf(s, low, env).value != Ok
    ensures SetCsStep(s, low, env).1 != Ok && LockBus(s, env).1 == Ok ==> FaultOf(s, low, env).Some?
  {
    hide Attempt, IoExpander.PushErr;
  }

  datatype Event = Set(low: bool, env: Env) | Other(e: IoExpander.Event) | Forget

  function Step(s: State, e: Event): State {
    match e
    case Set(low, env) => SetCsStep(s, low, env).0
    case Other(x) => s.(exp := IoExpander.Step(s.exp, x))
    case Forget => s.(level := -1)
  }

  /** The calls of other tasks leave pin 4 alone. */
  predicate Spares(e: Event) {
    e.Other? ==> IoExpander.Asks(e.e, CS_PIN).Nothing?
  }

  lemma ReadyStays(s: State, e: Event)
    requires s.exp.ready
    ensures Step(s, e).exp.ready
  {
    if e.Set? {
      WillingSucceeds(s, e.low, e.env);
      hide SetCsStep;
    }
  }

  lemma StepKeepsSound(s: State, e: Event)
    requires Sound(s) && Spares(e)
    ensures Sound(Step(s, e))
  {
    match e
    case Set(low, env) =>
      hide Sound, SetCsStep;
      SetCsMeans(s, low, env);
    case Other(x) =>
      hide IoExpander.Bit;
      IoExpander.BitStep(s.exp, x, CS_PIN);
    case Forget =>
  }

  /** The cache is sound in every state reached by chip-select calls, mounts and other tasks' calls on
      other pins, whatever fails on the way. */
  lemma {:induction false} CacheSound(s: State, es: seq<Event>)
    requires Sound(s) && forall i :: 0 <= i < |es| ==> Spares(es[i])
    ensures Sound(Fold(Step, s, es))
    decreases |es|
  {
    hide Sound, Step;
    if es != [] {
      StepKeepsSound(s, es[0]);
      CacheSound(Step(s, es[0]), es[1..]);
    }
  }

  /** Sparing the pin is needed: once another task's write to pin 4 is delivered, a known level stays
      sound exactly when that task asked for the level already there. */
  lemma OtherTaskOnPin(s: State, x: IoExpander.Event)
    requires Sound(s) && s.valid && s.level != -1
    requires IoExpander.Asks(x, CS_PIN).Level? && IoExpander.Delivers(s.exp, x)
    ensures Sound(Step(s, Other(x))) <==> s.level == LevelOf(IoExpander.Asks(x, CS_PIN).high)
  {
    hide IoExpander.Bit, IoExpander.Raise, IoExpander.Lower, IoExpander.Mask;
    IoExpander.BitStep(s.exp, x, CS_PIN);
  }

  lemma SetAgain(b: bv8, low: bool)
    requires IoExpander.Bit(b, CS_PIN) == !low
    ensures (if low then IoExpander.Lower(b, IoExpander.Mask(CS_PIN)) else IoExpander.Raise(b, IoExpander.Mask(CS_PIN))) == b
  {
    assert IoExpander.Mask(CS_PIN) == 16;
    if low {
      assert b & 16 == 0 ==> b & !16 == b;
    } else {
      assert b & 16 != 0 ==> b | 16 == b;
    }
  }

  /** Returning early from the cache against writing again: the chip select and the cache end up the
      same; the other pins do too exactly when no earlier request is still undelivered. */
  lemma EarlyReturnIsRewrite(s: State, low: bool)
    requires Sound(s) && s.valid && s.level == LevelOf(!low)
    ensures var t := Attempt(s, low, IoExpander.Delivered);
      && High(t.exp) == High(s.exp) && t.valid && t.level == s.level && t.exp.shadow == s.exp.shadow
      && (t == s <==> s.exp.reg == s.exp.shadow)
  {
    SetAgain(s.exp.shadow, low);
    CsBitAfter(s.exp, low, IoExpander.Delivered);
    hide IoExpander.Bit, IoExpander.Mask, IoExpander.Raise, IoExpander.Lower;
  }
}
