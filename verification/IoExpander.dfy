/** The IO expander: a shadow of the output register, changed bit by bit and pushed whole over an
    unreliable bus. */
module IoExpander {
  import opened EspErr
  import opened Folds

  // ----- bits of the register

  function Mask(pin: nat): bv8 {
    if pin < 8 then 1 << pin else 0
  }

  predicate Bit(b: bv8, pin: nat)
    requires pin < 8
  {
    b & Mask(pin) != 0
  }

  function Raise(b: bv8, m: bv8): bv8 {
    b | m
  }

  function Lower(b: bv8, m: bv8): bv8 {
    b & !m
  }

  predicate OneBit(k: bv8) {
    k == 1 || k == 2 || k == 4 || k == 8 || k == 16 || k == 32 || k == 64 || k == 128
  }

  lemma MaskIsOneBit(pin: nat)
    requires pin < 8
    ensures OneBit(Mask(pin))
  {
  }

  lemma RaiseUnder(b: bv8, m: bv8, k: bv8)
    ensures Raise(b, m) & k != 0 <==> b & k != 0 || m & k != 0
  {
  }

  lemma LowerUnder(b: bv8, m: bv8, k: bv8)
    requires OneBit(k)
    ensures Lower(b, m) & k != 0 <==> b & k != 0 && m & k == 0
  {
  }

  lemma BitRaise(b: bv8, m: bv8, pin: nat)
    requires pin < 8
    ensures Bit(Raise(b, m), pin) == (Bit(b, pin) || Bit(m, pin))
  {
    hide Raise, Mask;
    RaiseUnder(b, m, Mask(pin));
  }

  lemma BitLower(b: bv8, m: bv8, pin: nat)
    requires pin < 8
    ensures Bit(Lower(b, m), pin) == (Bit(b, pin) && !Bit(m, pin))
  {
    hide Lower, Mask, OneBit;
    MaskIsOneBit(pin);
    LowerUnder(b, m, Mask(pin));
  }

  lemma BitMask(p: nat, pin: nat)
    requires pin < 8
    ensures Bit(Mask(p), pin) <==> p == pin
  {
  }

  lemma BitOnes(pin: nat)
    requires pin < 8
    ensures Bit(0xff, pin)
  {
  }

  // ----- the driver as a state machine

  /** One attempt to push the shadow: the bus is not free, the transfer succeeds, or it fails with or
      without the device having taken the byte. */
  datatype Tx = Busy | Delivered | Failed(latched: bool)

  /** One attempt to reach the device at start-up: the bus is not free, or the device answers or not. */
  datatype Attempt = Busy | Ack | Nack

  const PROBES := 3

  type Probes = p: seq<Attempt> | |p| == PROBES witness [Attempt.Busy, Attempt.Busy, Attempt.Busy]

  /** The probe loop ends without an error: some attempt was answered, or none ever reached the bus. */
  predicate Passes(p: Probes) {
    Ack in p || forall i :: 0 <= i < PROBES ==> p[i] == Attempt.Busy
  }

  /** shadow is the driver's copy of the output register, reg the register itself. */
  datatype State = State(ready: bool, shadow: bv8, reg: bv8)

  /** Calls made under the expander mutex. Output names the outcome of the mutex and of
      the optional reads that follow a good write; Init that of the mutex, the bus and the device handle,
      and then of the probes. */
  datatype Event =
    | SetBits(mask: bv8, tx: Tx)
    | ClearBits(mask: bv8, tx: Tx)
    | Output(pin: nat, value: nat, locked: bool, tx: Tx, readback: Err)
    | Init(setup: Err, probes: Probes)

  function Push(s: State, tx: Tx): State {
    if s.ready && (tx.Delivered? || (tx.Failed? && tx.latched)) then s.(reg := s.shadow) else s
  }

  function PushErr(s: State, tx: Tx): Err {
    if !s.ready then InvalidState
    else match tx
      case Busy => Timeout
      case Delivered => Ok
      case Failed(_) => Fail
  }

  /** An initialisation that makes a driver that is not ready yet ready. */
  predicate StartsUp(e: Event) {
    e.Init? && e.setup == Ok && Passes(e.probes)
  }

  function Step(s: State, e: Event): State {
    match e
    case SetBits(mask, tx) => Push(s.(shadow := Raise(s.shadow, mask)), tx)
    case ClearBits(mask, tx) => Push(s.(shadow := Lower(s.shadow, mask)), tx)
    case Output(pin, value, locked, tx, _) =>
      if !locked then s
      else if value == 1 then Push(s.(shadow := Raise(s.shadow, Mask(pin))), tx)
      else Push(s.(shadow := Lower(s.shadow, Mask(pin))), tx)
    case Init(_, _) => if s.ready || !StartsUp(e) then s else State(true, 0xff, s.reg)
  }

  class Expander {
    var ready: bool
    var shadow: bv8
    var reg: bv8

    function Model(): State
      reads this
    {
      State(ready, shadow, reg)
    }

    constructor (reg: bv8)
      ensures Model() == State(false, 0xff, reg)
    {
      this.ready, this.shadow, this.reg := false, 0xff, reg;
    }

    method WriteShadow(tx: Tx) returns (r: Err)
      modifies this`reg
      ensures Model() == Push(old(Model()), tx) && r == PushErr(Model(), tx)
      ensures r == Ok <==> ready && tx.Delivered?
      ensures r == InvalidState <==> !ready
      ensures r == Timeout <==> ready && tx.Busy?
      ensures r == Fail <==> ready && tx.Failed?
      ensures r == Ok ==> reg == shadow
    {
      if !ready {
        return InvalidState;
      }
      match tx {
        case Busy => r := Timeout;
        case Delivered => reg := shadow; r := Ok;
        case Failed(latched) =>
          if latched {
            reg := shadow;
          }
          r := Fail;
      }
    }

    method SetBitsLocked(mask: bv8, tx: Tx) returns (r: Err)
      modifies this`shadow, this`reg
      ensures Model() == Step(old(Model()), SetBits(mask, tx)) && r == PushErr(Model(), tx)
    {
      shadow := Raise(shadow, mask);
      r := WriteShadow(tx);
    }

    method ClearBitsLocked(mask: bv8, tx: Tx) returns (r: Err)
      modifies this`shadow, this`reg
      ensures Model() == Step(old(Model()), ClearBits(mask, tx)) && r == PushErr(Model(), tx)
    {
      shadow := Lower(shadow, mask);
      r := WriteShadow(tx);
    }

    method OutputWithReadback(pin: nat, value: nat, locked: bool, tx: Tx, readback: Err) returns (r: Err)
      modifies this`shadow, this`reg
      ensures Model() == Step(old(Model()), Output(pin, value, locked, tx, readback))
      ensures r == if !locked then Timeout else if PushErr(Model(), tx) == Ok then readback else PushErr(Model(), tx)
    {
      if !locked {
        return Timeout;
      }
      if value == 1 {
        shadow := Raise(shadow, Mask(pin));
      } else {
        shadow := Lower(shadow, Mask(pin));
      }
      r := WriteShadow(tx);
      if r == Ok {
        r := readback;
      }
    }

    method Initialize(setup: Err, probes: Probes) returns (r: Err)
      modifies this`ready, this`shadow
      ensures Model() == Step(old(Model()), Init(setup, probes))
      ensures r == Ok <==> ready
      ensures !old(ready) && setup != Ok ==> r == setup
      ensures !old(ready) && setup == Ok ==>
        (ready <==> Ack in probes || probes == [Attempt.Busy, Attempt.Busy, Attempt.Busy])
      ensures ready && !old(ready) ==> shadow == 0xff
      ensures !ready || old(ready) ==> shadow == old(shadow)
    {
      if ready {
        return Ok;
      }
      if setup != Ok {
        return setup;
      }
      var i := 0;
      r := Ok;
      while i < PROBES
        invariant 0 <= i <= PROBES && !ready
        invariant Ack !in probes[..i]
        invariant r == Ok <==> forall k :: 0 <= k < i ==> probes[k] == Attempt.Busy
      {
        if probes[i] == Attempt.Busy {
          i := i + 1;
          continue;
        }
        r := if probes[i] == Ack then Ok else Fail;
        if r == Ok {
          break;
        }
        i := i + 1;
      }
      assert probes[..PROBES] == probes;
      assert Ack !in probes ==> (r == Ok <==> probes == [Attempt.Busy, Attempt.Busy, Attempt.Busy]);
      if r != Ok {
        return;
      }
      shadow, ready := 0xff, true;
    }
  }

  // ----- histories

  function Run(s: State, es: seq<Event>): State {
    Fold(Step, s, es)
  }

  function PowerOn(reg: bv8): State {
    State(false, 0xff, reg)
  }

  predicate Ready(es: seq<Event>) {
    exists i :: 0 <= i < |es| && StartsUp(es[i])
  }

  /** What an event asks for pin: nothing, or a level. */
  datatype Request = Nothing | Level(high: bool)

  function Asks(e: Event, pin: nat): Request
    requires pin < 8
  {
    match e
    case SetBits(mask, _) => if Bit(mask, pin) then Level(true) else Nothing
    case ClearBits(mask, _) => if Bit(mask, pin) then Level(false) else Nothing
    case Output(p, value, locked, _, _) => if locked && p == pin then Level(value == 1) else Nothing
    case Init(_, _) => Nothing
  }

  /** The last level asked for pin since the driver was initialised; high before any request. */
  function LastAsked(es: seq<Event>, pin: nat): bool
    requires pin < 8
  {
    if es == [] then true
    else
      var n := |es| - 1;
      var before := LastAsked(es[..n], pin);
      if Asks(es[n], pin).Level? then Asks(es[n], pin).high
      else if StartsUp(es[n]) && !Ready(es[..n]) then true
      else before
  }

  lemma BitStep(s: State, e: Event, pin: nat)
    requires pin < 8
    ensures Bit(Step(s, e).shadow, pin)
         == if Asks(e, pin).Level? then Asks(e, pin).high
            else if StartsUp(e) && !s.ready then true
            else Bit(s.shadow, pin)
  {
    hide Bit, Raise, Lower, Mask;
    match e
    case SetBits(mask, _) => BitRaise(s.shadow, mask, pin);
    case ClearBits(mask, _) => BitLower(s.shadow, mask, pin);
    case Output(p, value, _, _, _) =>
      BitMask(p, pin);
      BitRaise(s.shadow, Mask(p), pin);
      BitLower(s.shadow, Mask(p), pin);
    case Init(_, _) => BitOnes(pin);
  }

  lemma ReadySnoc(reg: bv8, es: seq<Event>, e: Event)
    ensures Ready(es + [e]) <==> Ready(es) || StartsUp(e)
    ensures Run(PowerOn(reg), es + [e]).ready <==> Run(PowerOn(reg), es).ready || StartsUp(e)
  {
    var t := es + [e];
    Snoc(Step, PowerOn(reg), es, e);
    hide Bit, Raise, Lower, Mask, Fold;
    assert t[|es|] == e && forall i :: 0 <= i < |es| ==> t[i] == es[i];
  }

  /** The driver is ready exactly when some initialisation got everything it needs and had a probe
      answered, or found the bus busy on all three attempts. */
  lemma {:induction false} ReadyIffInit(reg: bv8, es: seq<Event>)
    ensures Run(PowerOn(reg), es).ready <==> Ready(es)
    decreases |es|
  {
    if es != [] {
      var n := |es| - 1;
      assert es == es[..n] + [es[n]];
      ReadyIffInit(reg, es[..n]);
      ReadySnoc(reg, es[..n], es[n]);
      hide StartsUp, Ready, Run;
    }
  }

  /** An answer before the attempts run out makes the driver ready, and without one only a bus that is busy
      all three times does; the shadow is then all ones and the register what it was. */
  lemma InitOutcome(s: State, probes: Probes)
    requires !s.ready
    ensures var t := Step(s, Init(Ok, probes));
      && (t.ready <==> probes[0] == Ack || probes[1] == Ack || probes[2] == Ack
                       || (probes[0] == probes[1] == probes[2] == Attempt.Busy))
      && (t == if t.ready then State(true, 0xff, s.reg) else s)
  {
  }

  /** One initialisation leaves the driver ready without an answer from the device exactly when all
      three attempts find the bus busy; a device that fails to answer once and is then not reached keeps
      the driver down. */
  lemma ReadyUnanswered(reg: bv8, probes: Probes)
    ensures Run(PowerOn(reg), [Init(Ok, probes)]).ready && Ack !in probes
       <==> probes == [Attempt.Busy, Attempt.Busy, Attempt.Busy]
    ensures Nack in probes && Ack !in probes ==> !Run(PowerOn(reg), [Init(Ok, probes)]).ready
  {
    Snoc(Step, PowerOn(reg), [], Init(Ok, probes));
    assert [] + [Init(Ok, probes)] == [Init(Ok, probes)];
  }

  /** Whatever the outcomes on the bus, each shadow bit is the last level asked for its pin. */
  lemma {:induction false} ShadowIsLastAsked(reg: bv8, es: seq<Event>, pin: nat)
    requires pin < 8
    ensures Bit(Run(PowerOn(reg), es).shadow, pin) == LastAsked(es, pin)
    decreases |es|
  {
    hide Bit, Step;
    if es == [] {
      BitOnes(pin);
    } else {
      var n := |es| - 1;
      assert es == es[..n] + [es[n]];
      Snoc(Step, PowerOn(reg), es[..n], es[n]);
      ShadowIsLastAsked(reg, es[..n], pin);
      ReadyIffInit(reg, es[..n]);
      BitStep(Run(PowerOn(reg), es[..n]), es[n], pin);
    }
  }

  /** The event pushed the whole shadow to the device. */
  predicate Delivers(s: State, e: Event) {
    && s.ready
    && match e
       case SetBits(_, tx) => tx.Delivered?
       case ClearBits(_, tx) => tx.Delivered?
       case Output(_, _, locked, tx, _) => locked && tx.Delivered?
       case Init(_, _) => false
  }

  /** After any successful transmit every output pin carries its last requested level, so a request
      whose own transmit failed is delivered by the next one that succeeds. */
  lemma DeliveryCatchesUp(reg: bv8, es: seq<Event>, e: Event, pin: nat)
    requires pin < 8
    requires Delivers(Run(PowerOn(reg), es), e)
    ensures var s := Run(PowerOn(reg), es + [e]);
      s.reg == s.shadow && Bit(s.reg, pin) == LastAsked(es + [e], pin)
  {
    ShadowIsLastAsked(reg, es + [e], pin);
    Snoc(Step, PowerOn(reg), es, e);
  }

  lemma RegisterStep(reg: bv8, es: seq<Event>, e: Event)
    ensures var p, s := Run(PowerOn(reg), es), Run(PowerOn(reg), es + [e]);
      s.reg == p.reg || s.reg == s.shadow
  {
    Snoc(Step, PowerOn(reg), es, e);
    hide Fold;
  }

  /** Between deliveries the device never shows a byte that was not the shadow at some moment. */
  lemma {:induction false} RegisterWasShadow(reg: bv8, es: seq<Event>)
    ensures var s := Run(PowerOn(reg), es);
      s.reg == reg || exists k :: 0 <= k <= |es| && Run(PowerOn(reg), es[..k]).shadow == s.reg
    decreases |es|
  {
    if es != [] {
      var n := |es| - 1;
      assert es == es[..n] + [es[n]];
      var p, s := Run(PowerOn(reg), es[..n]), Run(PowerOn(reg), es);
      RegisterStep(reg, es[..n], es[n]);
      hide Run, Step;
      RegisterWasShadow(reg, es[..n]);
      if s.reg == p.reg && p.reg != reg {
        var k :| 0 <= k <= n && Run(PowerOn(reg), es[..n][..k]).shadow == p.reg;
        assert es[..n][..k] == es[..k];
      } else if s.reg == s.shadow {
        assert es[..|es|] == es;
      }
    }
  }
}
