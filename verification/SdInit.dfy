/** The low-speed initialisation of an SD card in SPI mode: what goes over the wire, whatever the card
    and the bus answer. */
module SdInit {
  import ChipSelect
  import opened EspErr
  import opened Folds
  import IoExpander
  import opened Options
  import opened SdResponse

  const R1_WINDOW := 64
  const CMD0_WINDOW := 64
  const CMD0_RETRIES := 3
  const CMD58_RETRIES := 3
  const INIT_TIMEOUT_US := 1500000
  const CHECK_PATTERN := 0x1aa
  const HCS := 0x4000_0000
  const OCR_HCS := 0x4030_0000

  datatype CardState = Uninitialized | IdleReady | Absent | InitFail | IoextFail

  /** One command attempt. sent tells whether the frame went out, csLow whether the card's real select
      line was low when it did; resp is what the caller finds in its response buffer. */
  datatype Exchange = Exchange(cmd: nat, arg: nat, sent: bool, csLow: bool, err: Err, resp: seq<bv8>)

  /** What the outside decides about one attempt: the SPI handle and the recursive lock, what happens on
      the expander before it, the assertion of the chip select, what other tasks do on the expander then,
      the transfer of the frame, the bytes clocked in afterwards, how many of them the deadline allows,
      the release of the chip select, and how long it all takes. */
  datatype Wire = Wire(handle: bool, lock: bool, before: seq<ChipSelect.Event>, select: ChipSelect.Env,
                       between: seq<ChipSelect.Event>, tx: bool, rx: nat -> Sample, inTime: nat,
                       release: ChipSelect.Env, micros: nat)

  /** Other tasks leave the card's pin alone, and the selected card is not deselected by anyone else. */
  predicate Considerate(w: Wire) {
    && (forall i :: 0 <= i < |w.before| ==> ChipSelect.Spares(w.before[i]))
    && forall i :: 0 <= i < |w.between| ==> ChipSelect.Spares(w.between[i]) && w.between[i].Other?
  }

  /** An attempt that gets no further than the lock. */
  predicate Unreached(w: Wire) {
    w.handle && !w.lock
  }

  /** An attempt whose card is selected and sent its frame without any hindrance. */
  predicate Clear(w: Wire) {
    && w.handle && w.lock && w.before == [] && w.between == [] && w.tx
    && w.select.expReady && w.select.ioLock && w.select.i2cLock && w.select.first.Delivered?
  }

  /** The first accepted byte is number k, within the window and the deadline and before any failed
      transfer, and the bytes from there on are resp. */
  predicate AnswersAt(w: Wire, allowIllegal: bool, k: nat, resp: seq<bv8>) {
    && k < 64 && k < w.inTime
    && (forall i: nat :: i < k ==> !Stops(w.rx(i), true, allowIllegal))
    && (forall i :: 0 <= i < |resp| ==> w.rx(k + i) == Byte(resp[i]))
    && resp != [] && Accepted(resp[0], true, allowIllegal)
  }

  ghost predicate Answers(w: Wire, allowIllegal: bool, resp: seq<bv8>) {
    exists k: nat :: AnswersAt(w, allowIllegal, k, resp)
  }

  /** A clear attempt that is answered by n bytes beginning with r1. */
  ghost predicate Replies(w: Wire, n: nat, allowIllegal: bool, r1: bv8) {
    Clear(w) && exists resp :: |resp| == n && Answers(w, allowIllegal, resp) && resp[0] == r1
  }

  /** A clear attempt that is answered by the voltage range and check pattern of CMD8. */
  ghost predicate RepliesEcho(w: Wire) {
    Clear(w) && Answers(w, true, [IDLE, 0x00, 0x00, 0x01, 0xaa])
  }

  /** n response bytes were read as the wire has them. */
  ghost predicate Received(w: Wire, n: nat, allowIllegal: bool, err: Err, resp: seq<bv8>) {
    && |resp| == n
    && (err == Ok ==> Answers(w, allowIllegal, resp))
    && forall r :: |r| == n && Answers(w, allowIllegal, r) ==> err == Ok && resp == r
  }

  lemma ReplyMeans(w: Wire, n: nat, allowIllegal: bool, err: Err, resp: seq<bv8>)
    requires n > 0 && Received(w, n, allowIllegal, err, resp)
    ensures err == Ok ==> Accepted(resp[0], true, allowIllegal)
    ensures forall r1 :: Replies(w, n, allowIllegal, r1) ==> err == Ok && resp[0] == r1
    ensures n == 5 && allowIllegal && RepliesEcho(w) ==> err == Ok && resp == [IDLE, 0x00, 0x00, 0x01, 0xaa]
  {
  }

  /** The wait for R1 ends where an answer begins. */
  lemma AnswerStart(w: Wire, allowIllegal: bool, r: Wait, k: nat, resp: seq<bv8>)
    requires WaitEnds(w.rx, Min(64, w.inTime), true, allowIllegal, r, k) && Answers(w, allowIllegal, resp)
    ensures r.err == Ok && AnswersAt(w, allowIllegal, k, resp)
  {
    var j: nat :| AnswersAt(w, allowIllegal, j, resp);
    assert w.rx(j + 0) == Byte(resp[0]);
    assert j == k;
  }

  lemma AnswerByte(w: Wire, allowIllegal: bool, r: Wait, k: nat, m: nat, resp: seq<bv8>)
    requires WaitEnds(w.rx, Min(64, w.inTime), true, allowIllegal, r, k)
    requires m < |resp| && Answers(w, allowIllegal, resp)
    ensures r.err == Ok && w.rx(k + m) == Byte(resp[m])
  {
    AnswerStart(w, allowIllegal, r, k, resp);
  }

  lemma ReceivedWhole(w: Wire, n: nat, allowIllegal: bool, r: Wait, k: nat, resp: seq<bv8>)
    requires WaitEnds(w.rx, Min(64, w.inTime), true, allowIllegal, r, k) && |resp| == n
    requires r.err == Ok ==> AnswersAt(w, allowIllegal, k, resp)
    ensures Received(w, n, allowIllegal, r.err, resp)
  {
    forall a | |a| == n && Answers(w, allowIllegal, a)
      ensures r.err == Ok && resp == a
    {
      AnswerStart(w, allowIllegal, r, k, a);
      assert forall i :: 0 <= i < n ==> w.rx(k + i) == Byte(a[i]) && w.rx(k + i) == Byte(resp[i]);
    }
  }

  lemma ReceivedPart(w: Wire, n: nat, allowIllegal: bool, r: Wait, k: nat, m: nat, resp: seq<bv8>)
    requires WaitEnds(w.rx, Min(64, w.inTime), true, allowIllegal, r, k) && |resp| == n && m < n
    requires r.err == Ok ==> w.rx(k + m).BusError?
    ensures Received(w, n, allowIllegal, Fail, resp)
  {
    forall a | |a| == n && Answers(w, allowIllegal, a)
      ensures false
    {
      AnswerByte(w, allowIllegal, r, k, m, a);
    }
  }

  lemma Immediate(w: Wire, n: nat, allowIllegal: bool, r1: bv8)
    requires Clear(w) && w.inTime > 0 && n > 0 && Accepted(r1, true, allowIllegal)
    requires forall i: nat :: w.rx(i) == Byte(r1)
    ensures Replies(w, n, allowIllegal, r1)
  {
    var resp := seq(n, i => r1);
    assert AnswersAt(w, allowIllegal, 0, resp);
  }

  /** Some byte of the CMD0 window, before any failed transfer, is not 0xff. */
  ghost predicate Noisy(rx: nat -> Sample) {
    exists i: nat :: i < 64 && rx(i).Byte? && rx(i).b != 0xff && forall j: nat :: j < i ==> rx(j).Byte?
  }

  /** What a card does in the rounds. Rising: it accepts CMD55 and answers CMD41, busy in that many rounds
      and then ready, and CMD58 after it; legacy tells that it has refused CMD8. Waiting: the time is up
      after that many such busy rounds. The other two have refused CMD8 and answer CMD1, busy that many
      times and then ready. Refusing: after refusing CMD55 in the rounds still to come. Skipping: after as
      many attempts that get no further than the lock. */
  datatype Plan =
    | Rising(busy: nat, legacy: bool)
    | Waiting(busy: nat, legacy: bool)
    | Refusing(more: nat, busy: nat)
    | Skipping(more: nat, busy: nat)

  function Less(plan: Plan): Plan {
    match plan
    case Rising(n, legacy) => Rising(if n > 0 then n - 1 else 0, legacy)
    case Waiting(n, legacy) => Waiting(if n > 0 then n - 1 else 0, legacy)
    case Refusing(n, busy) => Refusing(if n > 0 then n - 1 else 0, busy)
    case Skipping(n, busy) => Skipping(if n > 0 then n - 1 else 0, busy)
  }

  /** A plan without its count of rounds. */
  function Goal(plan: Plan): Plan {
    match plan
    case Rising(_, legacy) => Rising(0, legacy)
    case Waiting(_, legacy) => Waiting(0, legacy)
    case Refusing(_, busy) => Refusing(0, busy)
    case Skipping(_, busy) => Skipping(0, busy)
  }

  function RoundsOf(plan: Plan): nat {
    if plan.Rising? || plan.Waiting? then plan.busy else plan.more
  }

  /** The wire from turn t on goes by the plan, with left microseconds to the deadline; every round begins
      before it. */
  ghost predicate Follows(wire: nat -> Wire, t: nat, plan: Plan, left: int)
    decreases RoundsOf(plan)
  {
    var first, second := wire(t).micros, wire(t + 1).micros;
    match plan
    case Rising(busy, legacy) =>
      && left > 0 && Replies(wire(t), 1, legacy, IDLE)
      && if busy == 0 then Replies(wire(t + 1), 1, false, READY) && Replies(wire(t + 2), 5, false, READY)
         else Replies(wire(t + 1), 1, false, IDLE) && Follows(wire, t + 2, Less(plan), left - first - second - 50000)
    case Waiting(busy, legacy) =>
      if busy == 0 then left <= 0
      else
        && left > 0 && Replies(wire(t), 1, legacy, IDLE) && Replies(wire(t + 1), 1, false, IDLE)
        && Follows(wire, t + 2, Less(plan), left - first - second - 50000)
    case Refusing(more, busy) =>
      if more == 0 then Awakes(wire, t, busy, left)
      else
        && left > 0 && Replies(wire(t), 1, true, ILLEGAL)
        && if more == 1 then Follows(wire, t + 1, Less(plan), left - first)
           else
             && !Answers(wire(t + 1), false, [READY])
             && Follows(wire, t + 2, Less(plan), left - first - second - 50000)
    case Skipping(more, busy) =>
      if more == 0 then Awakes(wire, t, busy, left)
      else
        && left > 0 && Unreached(wire(t))
        && Follows(wire, t + 1, Less(plan), left - first - if more > 1 then 20000 else 0)
  }

  /** From turn t on the card answers CMD1, busy that many times and then ready, each time begun before the
      deadline. */
  ghost predicate Awakes(wire: nat -> Wire, t: nat, busy: nat, left: int)
    decreases busy
  {
    && left > 0
    && if busy == 0 then Replies(wire(t), 1, false, READY)
       else Replies(wire(t), 1, false, IDLE) && Awakes(wire, t + 1, busy - 1, left - wire(t).micros - 50000)
  }

  lemma LastRefusal(wire: nat -> Wire, t: nat, plan: Plan, left: int)
    ensures (plan.Refusing? || plan.Skipping?) && plan.more == 1 && Follows(wire, t, Less(plan), left) ==>
      Awakes(wire, t, plan.busy, left)
  {
  }

  /** One of the attempts from turn start on went out, and its window showed something. */
  ghost predicate Heard(trace: seq<Exchange>, wire: nat -> Wire, start: nat) {
    exists i: nat :: i < |trace| && trace[i].sent && Noisy(wire(start + i).rx)
  }

  lemma HeardStep(trace: seq<Exchange>, x: Exchange, wire: nat -> Wire, start: nat)
    ensures !Heard([], wire, start)
    ensures Heard(trace + [x], wire, start)
       <==> Heard(trace, wire, start) || (x.sent && Noisy(wire(start + |trace|).rx))
  {
    var t := trace + [x];
    hide Noisy;
    assert t[|trace|] == x && forall i :: 0 <= i < |trace| ==> t[i] == trace[i];
    if Heard(trace, wire, start) {
      var i: nat :| i < |trace| && trace[i].sent && Noisy(wire(start + i).rx);
      assert t[i] == trace[i];
    }
  }

  /** A CMD55 frame went out. */
  predicate Spoken(trace: seq<Exchange>) {
    exists i :: 0 <= i < |trace| && trace[i].cmd == 55 && trace[i].sent
  }

  lemma SpokenStep(trace: seq<Exchange>, x: Exchange)
    ensures Spoken(trace + [x]) <==> Spoken(trace) || (x.cmd == 55 && x.sent)
    ensures ProbeEchoed(trace + [x]) <==> ProbeEchoed(trace) || (x.cmd == 8 && Echoes(x))
  {
    var t := trace + [x];
    assert t[|trace|] == x && forall i :: 0 <= i < |trace| ==> t[i] == trace[i];
  }

  // ----- the protocol, as an automaton over the attempts

  predicate Answered(x: Exchange, r1: bv8) {
    x.sent && x.err == Ok && |x.resp| > 0 && x.resp[0] == r1
  }

  /** The card echoed the voltage range and check pattern 0x1AA. */
  predicate Echoes(x: Exchange) {
    Answered(x, IDLE) && |x.resp| == 5 && x.resp[1] == 0 && x.resp[2] == 0 && x.resp[3] == 1 && x.resp[4] == 0xaa
  }

  /** No usable answer to CMD8, the one case in which it is tried again. */
  predicate Silent(x: Exchange) {
    !Answered(x, IDLE) && (x.err == Timeout || (|x.resp| > 0 && x.resp[0] == 0xff))
  }

  predicate RefusalBit(r1: bv8) {
    r1 & 0x04 != 0
  }

  /** Bit 2 of the response byte, which the driver takes for a refusal. The byte may be left over from an
      earlier command, or be the 0xff of a card that is silent. */
  predicate Flagged(x: Exchange) {
    |x.resp| > 0 && RefusalBit(x.resp[0])
  }

  /** What a record of an attempt can look like: a frame goes out only to a selected card, and OK means
      that it went out and was answered by an accepted byte. */
  predicate Honest(x: Exchange) {
    && (x.sent ==> x.csLow)
    && (x.err == Ok ==> x.sent && |x.resp| > 0 && Accepted(x.resp[0], true, true))
  }

  /** Resetting: CMD0 not answered yet. Probing: n CMD8 attempts made, the last one inconclusive.
      Known: CMD8 is settled; echo and illegal tell how, run counts the flagged CMD55 attempts since the
      last one that was not. App: the last attempt was an accepted CMD55. Up: ACMD41 reported ready.
      Done: initialised. */
  datatype Phase =
    | Resetting
    | Probing(n: nat)
    | Known(echo: bool, illegal: bool, run: nat)
    | App(echo: bool, illegal: bool, run: nat)
    | Mmc
    | Up
    | Done
    | Broken

  function OnProbe(n: nat, x: Exchange): Phase {
    if x.arg != CHECK_PATTERN then Broken
    else if Echoes(x) then Known(true, false, 0)
    else if Answered(x, ILLEGAL) then Known(false, true, 0)
    else if n == 0 && Silent(x) then Probing(1)
    else Known(false, false, 0)
  }

  /** A round starts with CMD55, until CMD8 has been refused and two CMD55 attempts in a row were flagged;
      then it is CMD1. */
  function OnRound(echo: bool, illegal: bool, run: nat, x: Exchange): Phase {
    if illegal && run >= 2 then
      if x.cmd != 1 || x.arg != OCR_HCS then Broken else if Answered(x, READY) then Done else Mmc
    else if x.cmd == 55 && x.arg == 0 then
      var flags := if Flagged(x) then run + 1 else 0;
      if Answered(x, IDLE) || Answered(x, READY) || (illegal && Answered(x, ILLEGAL)) then App(echo, illegal, flags)
      else Known(echo, illegal, flags)
    else Broken
  }

  function OnApp(echo: bool, illegal: bool, run: nat, x: Exchange): Phase {
    if !(illegal && run >= 2) && x.cmd == 41 && x.arg == (if echo then HCS else 0) then
      if Answered(x, READY) then Up else Known(echo, illegal, run)
    else OnRound(echo, illegal, run, x)
  }

  function Next(p: Phase, x: Exchange): Phase {
    if !Honest(x) then Broken
    else match p
      case Resetting => if x.cmd != 0 || x.arg != 0 then Broken else if Answered(x, IDLE) then Probing(0) else Resetting
      case Probing(n) => if x.cmd == 8 then OnProbe(n, x) else Broken
      case Known(echo, illegal, run) => OnRound(echo, illegal, run, x)
      case App(echo, illegal, run) => OnApp(echo, illegal, run, x)
      case Mmc => if x.cmd != 1 || x.arg != OCR_HCS then Broken else if Answered(x, READY) then Done else Mmc
      case Up => if x.cmd != 58 || x.arg != 0 then Broken else if Answered(x, READY) then Done else Up
      case Done => Broken
      case Broken => Broken
  }

  function Protocol(trace: seq<Exchange>): Phase {
    Fold(Next, Resetting, trace)
  }

  lemma ProtocolSnoc(trace: seq<Exchange>, x: Exchange)
    ensures Protocol(trace + [x]) == Next(Protocol(trace), x)
  {
    Snoc(Next, Resetting, trace, x);
  }

  /** The last attempt was a CMD41 that reported ready. */
  predicate JustUp(trace: seq<Exchange>) {
    Protocol(trace) == Up && trace != [] && trace[|trace| - 1].cmd == 41
  }

  // ----- the driver

  /** How a round ends: another one follows, the card is up, or CMD55 counts as refused for good. */
  datatype RoundEnd = Again | CardUp | Confirmed

  /** How a CMD0 attempt ends. */
  datatype Cmd0End = NoSelect | Retry | Idle

  class Host {
    var state: CardState
    var finalState: CardState
    var cmd0Seen: bool
    var cmd8Seen: bool
    var acmd41Seen: bool
    var cmd58Seen: bool
    /** The chip-select driver and the expander below it, as values; ChipSelect.Driver computes the same
        steps. */
    var cs: ChipSelect.State
    /** The last expander error since mount, if there was any. */
    var fault: Option<Err>
    var now: nat
    var turn: nat
    ghost var trace: seq<Exchange>
    const wire: nat -> Wire

    ghost predicate Valid()
      reads this`cs, this`fault
    {
      && ChipSelect.Sound(cs)
      && (fault.Some? ==> fault.value != Ok)
      && forall n: nat :: Considerate(wire(n))
    }

    constructor (wire: nat -> Wire, cs: ChipSelect.State)
      requires ChipSelect.Sound(cs) && forall n: nat :: Considerate(wire(n))
      ensures Valid() && trace == [] && this.wire == wire && state == Uninitialized
      ensures this.cs == cs && turn == 0
    {
      state, finalState := Uninitialized, Uninitialized;
      cmd0Seen, cmd8Seen, acmd41Seen, cmd58Seen := false, false, false, false;
      this.cs, fault := cs, None;
      now, turn, trace := 0, 0, [];
      this.wire := wire;
    }

    // Drives the chip select; a failed write leaves its error behind.
    method Select(low: bool, env: ChipSelect.Env) returns (err: Err)
      requires Valid()
      modifies this`cs, this`fault
      ensures Valid()
      ensures err == Ok ==> cs.valid && cs.level == ChipSelect.LevelOf(!low)
      ensures cs.exp.ready == old(cs.exp.ready)
      ensures cs.exp.ready && env.expReady && env.ioLock && env.i2cLock && env.first.Delivered? ==> err == Ok
    {
      hide ChipSelect.SetCsStep, ChipSelect.FaultOf, ChipSelect.Sound;
      ChipSelect.WillingSucceeds(cs, low, env);
      ChipSelect.SetCsMeans(cs, low, env);
      ChipSelect.FaultOnFailure(cs, low, env);
      var f := ChipSelect.FaultOf(cs, low, env);
      var step := ChipSelect.SetCsStep(cs, low, env);
      if f.Some? {
        fault := f;
      }
      cs, err := step.0, step.1;
    }

    // What happens on the expander between two steps of the driver.
    method Meanwhile(es: seq<ChipSelect.Event>)
      requires Valid()
      requires forall i :: 0 <= i < |es| ==> ChipSelect.Spares(es[i])
      modifies this`cs, this`fault
      ensures Valid()
      ensures (forall i :: 0 <= i < |es| ==> es[i].Other?) ==> cs.valid == old(cs.valid) && cs.level == old(cs.level)
      ensures old(cs.exp.ready) ==> cs.exp.ready
    {
      for i := 0 to |es|
        invariant Valid()
        invariant old(cs.exp.ready) ==> cs.exp.ready
        invariant (forall k :: 0 <= k < i ==> es[k].Other?) ==> cs.valid == old(cs.valid) && cs.level == old(cs.level)
      {
        if es[i].Set? {
          var _ := Select(es[i].low, es[i].env);
        } else {
          ChipSelect.StepKeepsSound(cs, es[i]);
          if cs.exp.ready {
            ChipSelect.ReadyStays(cs, es[i]);
          }
          cs := ChipSelect.Step(cs, es[i]);
        }
      }
    }

    // Selects the card for one attempt; on success its real line is low when the frame may go out.
    method Assert(w: Wire) returns (err: Err)
      requires Valid() && Considerate(w)
      modifies this`cs, this`fault
      ensures Valid()
      ensures err == Ok ==> !ChipSelect.High(cs.exp)
      ensures old(cs.exp.ready) ==> cs.exp.ready
      ensures old(cs.exp.ready) && Clear(w) ==> err == Ok
    {
      Meanwhile(w.before);
      err := Select(true, w.select);
      if err == Ok {
        Meanwhile(w.between);
      }
    }

    method Mark(s: CardState)
      modifies this`state, this`finalState
      ensures state == s && finalState == s
    {
      state := s;
      finalState := s;
    }

    method Delay(ms: nat)
      requires ms > 0
      modifies this`now
      ensures now == old(now) + 1000 * ms
    {
      now := now + 1000 * ms;
    }

    method Log(x: Exchange, micros: nat)
      requires Honest(x)
      modifies this`trace, this`turn, this`now
      ensures trace == old(trace) + [x] && now == old(now) + micros && turn == old(turn) + 1
      ensures Protocol(trace) == Next(Protocol(old(trace)), x)
      ensures Spoken(trace) <==> Spoken(old(trace)) || (x.cmd == 55 && x.sent)
      ensures ProbeEchoed(trace) <==> ProbeEchoed(old(trace)) || (x.cmd == 8 && Echoes(x))
    {
      ProtocolSnoc(trace, x);
      SpokenStep(trace, x);
      trace := trace + [x];
      turn := turn + 1;
      now := now + micros;
    }

    /** Sends one command with the init filter on; before is the caller's response buffer. */
    method SendCommand(cmd: nat, arg: nat, before: seq<bv8>, allowIllegal: bool) returns (x: Exchange)
      requires Valid() && before != []
      modifies this`trace, this`turn, this`now, this`state, this`finalState, this`cs, this`fault
      ensures Valid() && now == old(now) + wire(old(turn)).micros && turn == old(turn) + 1
      ensures state == old(state) || (old(state) != IdleReady && old(state) != Absent && state == IoextFail)
      ensures old(state) == IdleReady ==> finalState == old(finalState)
      ensures trace == old(trace) + [x] && Protocol(trace) == Next(Protocol(old(trace)), x) && Honest(x)
      ensures x.cmd == cmd && x.arg == arg && |x.resp| == |before|
      ensures !x.sent ==> x.err != Ok && x.resp == before
      ensures x.err == Ok ==> Accepted(x.resp[0], true, allowIllegal)
      ensures Spoken(trace) <==> Spoken(old(trace)) || (cmd == 55 && x.sent)
      ensures ProbeEchoed(trace) <==> ProbeEchoed(old(trace)) || (cmd == 8 && Echoes(x))
      ensures old(cs.exp.ready) ==> cs.exp.ready
      ensures Unreached(wire(old(turn))) ==> !x.sent
      ensures !wire(old(turn)).handle ==> x.err == InvalidState
      ensures wire(old(turn)).handle && !wire(old(turn)).lock ==> x.err == Timeout
      ensures x.csLow && !x.sent ==> !wire(old(turn)).tx && x.err == Fail
      ensures x.sent ==> Received(wire(old(turn)), |before|, allowIllegal, x.err, x.resp)
      ensures forall r1 :: old(cs.exp.ready) && Replies(wire(old(turn)), |before|, allowIllegal, r1) ==>
        x.sent && x.err == Ok && x.resp[0] == r1
      ensures |before| == 5 && allowIllegal && old(cs.exp.ready) && RepliesEcho(wire(old(turn))) ==>
        x.sent && x.err == Ok && x.resp == [IDLE, 0x00, 0x00, 0x01, 0xaa]
    {
      var w := wire(turn);
      var err, sent, csLow, resp := Ok, false, false, before;
      if !w.handle {
        err := InvalidState;
      } else if !w.lock {
        err := Timeout;
      } else {
        err := Assert(w);
        if err != Ok {
          if state != IdleReady && state != Absent {
            Mark(IoextFail);
          }
        } else {
          csLow := !ChipSelect.High(cs.exp);
          if w.tx {
            sent := true;
            err, resp := Receive(w, before, allowIllegal);
            ReplyMeans(w, |before|, allowIllegal, err, resp);
          } else {
            err := Fail;
          }
          var _ := Select(false, w.release);
        }
      }
      x := Exchange(cmd, arg, sent, csLow, err, resp);
      Log(x, w.micros);
    }

    // The R1 byte, then the remaining response bytes, which are read even after a failed wait.
    method Receive(w: Wire, before: seq<bv8>, allowIllegal: bool) returns (err: Err, resp: seq<bv8>)
      requires before != []
      ensures Received(w, |before|, allowIllegal, err, resp)
    {
      var r := WaitForR1(true, w.rx, w.inTime, R1_WINDOW, true, allowIllegal);
      ghost var k: nat :| WaitEnds(w.rx, Min(64, w.inTime), true, allowIllegal, r, k);
      err := r.err;
      resp := [if r.out.Some? then r.out.value else 0xff];
      var at := r.sampled;
      assert err == Ok ==> at == k + 1 && AnswersAt(w, allowIllegal, k, resp);
      hide WaitEnds, Accepted, Stops, Received, Answers;
      while |resp| < |before|
        invariant 1 <= |resp| <= |before| && err == r.err
        invariant err == Ok ==> at == k + |resp| && AnswersAt(w, allowIllegal, k, resp)
      {
        var s := w.rx(at);
        if s.BusError? {
          err := Fail;
          ghost var m := |resp|;
          resp := resp + before[|resp|..];
          ReceivedPart(w, |before|, allowIllegal, r, k, m, resp);
          return;
        }
        resp := resp + [s.b];
        at := at + 1;
      }
      ReceivedWhole(w, |before|, allowIllegal, r, k, resp);
    }

    // ----- CMD0

    // Reads the response window of CMD0: idle when 0x01 shows up anywhere in it.
    method ReadWindow(rx: nat -> Sample) returns (r1: bv8, idle: bool, data: bool)
      ensures idle <==> r1 == IDLE
      ensures idle ==> data
      ensures idle <==> exists i: nat :: i < 64 && rx(i) == Byte(IDLE) && forall j: nat :: j < i ==> rx(j).Byte?
      ensures data <==> Noisy(rx)
    {
      r1, idle, data := 0xff, false, false;
      var valid := false;
      var i := 0;
      while i < CMD0_WINDOW
        invariant 0 <= i <= CMD0_WINDOW
        invariant idle <==> r1 == IDLE
        invariant idle ==> data
        invariant idle <==> exists k: nat :: k < i && rx(k) == Byte(IDLE)
        invariant forall j: nat :: j < i ==> rx(j).Byte?
        invariant data <==> exists k: nat :: k < i && rx(k).b != 0xff
      {
        var s := rx(i);
        if s.BusError? {
          break;
        }
        assert rx(i) == Byte(s.b);
        i := i + 1;
        if s.b != 0xff {
          data := true;
          if s.b & 0x80 == 0 && !idle && (!valid || s.b == IDLE) {
            valid, r1, idle := true, s.b, s.b == IDLE;
          }
        }
      }
    }

    // One CMD0 attempt: not even selected, answered idle, or to be tried again.
    method TryCmd0(ghost start: nat) returns (err: Err, end: Cmd0End, data: bool)
      requires Valid() && Protocol(trace) == Resetting && turn == start + |trace|
      modifies this`trace, this`turn, this`now, this`cs, this`fault
      ensures Valid() && turn == old(turn) + 1 && now >= old(now)
      ensures err == Ok <==> end.Idle?
      ensures Protocol(trace) == if end.Idle? then Probing(0) else Resetting
      ensures Spoken(trace) == Spoken(old(trace)) && ProbeEchoed(trace) == ProbeEchoed(old(trace))
      ensures old(cs.exp.ready) ==> cs.exp.ready
      ensures old(cs.exp.ready) && Replies(wire(old(turn)), 1, true, IDLE) ==> end.Idle?
      ensures |trace| == |old(trace)| + 1 && (end.NoSelect? <==> !trace[|old(trace)|].csLow)
      ensures Heard(trace, wire, start) <==> Heard(old(trace), wire, start) || data
    {
      hide Spoken, ProbeEchoed, Considerate, ChipSelect.Sound, Noisy, Heard;
      var w := wire(turn);
      ghost var before := trace;
      data := false;
      err := Assert(w);
      if err != Ok {
        var x := Exchange(0, 0, false, false, err, []);
        Log(x, w.micros);
        HeardStep(before, x, wire, start);
        return err, NoSelect, false;
      }
      var csLow := !ChipSelect.High(cs.exp);
      if !w.tx {
        var x := Exchange(0, 0, false, csLow, Fail, []);
        Log(x, w.micros);
        HeardStep(before, x, wire, start);
        var _ := Select(false, w.release);
        return Fail, Retry, false;
      }
      var r1, idle;
      r1, idle, data := ReadWindow(w.rx);
      var _ := Select(false, w.release);
      var x := Exchange(0, 0, true, csLow, if idle then Ok else InvalidResponse, [r1]);
      Log(x, w.micros);
      HeardStep(before, x, wire, start);
      err, end := if idle then Ok else InvalidResponse, if idle then Idle else Retry;
    }

    method ResetAndCmd0() returns (err: Err, cardIdle: bool, sawNonFf: bool)
      requires Valid() && trace == []
      modifies this`trace, this`turn, this`now, this`cs, this`fault
      ensures Valid() && turn == old(turn) + |trace| && now >= old(now)
      ensures cardIdle <==> err == Ok
      ensures Protocol(trace) == if cardIdle then Probing(0) else Resetting
      ensures !Spoken(trace) && !ProbeEchoed(trace) && (old(cs.exp.ready) ==> cs.exp.ready)
      ensures old(cs.exp.ready) && Replies(wire(old(turn)), 1, true, IDLE) ==> cardIdle && turn == old(turn) + 1
      ensures trace == [] <==> !wire(old(turn)).handle || !wire(old(turn)).lock
      ensures !cardIdle ==> (sawNonFf <==> Loud(old(turn)))
      ensures !cardIdle ==> trace == [] || !trace[|trace| - 1].csLow || |trace| == 3
    {
      assert Protocol([]) == Resetting && !Spoken([]) && !ProbeEchoed([]);
      cardIdle, sawNonFf, err := false, false, Timeout;
      if !wire(turn).handle {
        return InvalidState, false, false;
      }
      if !wire(turn).lock {
        return Timeout, false, false;
      }
      ghost var prompt := cs.exp.ready && Replies(wire(turn), 1, true, IDLE);
      assert !Heard(trace, wire, turn);
      hide Spoken, ProbeEchoed, Replies, Considerate, ChipSelect.Sound, Noisy, Protocol, Heard;
      var attempt := 0;
      while attempt < CMD0_RETRIES
        invariant Valid() && err != Ok && Protocol(trace) == Resetting && !cardIdle
        invariant !Spoken(trace) && !ProbeEchoed(trace) && (old(cs.exp.ready) ==> cs.exp.ready)
        invariant |trace| == attempt <= CMD0_RETRIES && turn == old(turn) + attempt && now >= old(now)
        invariant prompt ==> attempt == 0
        invariant trace != [] ==> trace[|trace| - 1].csLow
        invariant sawNonFf <==> Heard(trace, wire, old(turn))
      {
        attempt := attempt + 1;
        var end, data;
        err, end, data := TryCmd0(old(turn));
        if end == NoSelect {
          return err, false, false;
        }
        sawNonFf := sawNonFf || data;
        if end == Idle {
          return Ok, true, sawNonFf;
        }
        if err != Fail {
          err := if sawNonFf then InvalidResponse else Timeout;
        }
        Delay(10);
      }
    }

    // ----- CMD8

    // One CMD8 attempt; again when it was inconclusive.
    method TryCmd8(n: nat) returns (echo: bool, illegal: bool, again: bool)
      requires Valid() && state == IdleReady && Protocol(trace) == Probing(n) && n < 2
      modifies this
      ensures Valid() && state == IdleReady && finalState == old(finalState)
      ensures !(echo && illegal) && (again ==> !echo && !illegal)
      ensures if again && n == 0 then Protocol(trace) == Probing(1) else InRounds(Protocol(trace), echo, illegal, 0)
      ensures Spoken(trace) == Spoken(old(trace)) && ProbeEchoed(trace) == (ProbeEchoed(old(trace)) || echo)
      ensures old(cs.exp.ready) ==> cs.exp.ready
      ensures turn == old(turn) + 1 && now >= old(now)
      ensures old(cs.exp.ready) && Replies(wire(old(turn)), 5, true, ILLEGAL) ==> illegal
      ensures old(cs.exp.ready) && RepliesEcho(wire(old(turn))) ==> echo
    {
      hide Spoken, ProbeEchoed, Unreached, Clear, Replies, RepliesEcho, Received, Considerate, ChipSelect.Sound;
      echo, illegal, again := false, false, false;
      var x := SendCommand(8, CHECK_PATTERN, [0, 0, 0, 0, 0], true);
      if x.err == Ok && x.resp[0] == IDLE {
        PatternIsEcho(x);
        echo := Pattern(x.resp) == 0x0000_01aa;
        cmd8Seen := true;
      } else if x.err == Ok && x.resp[0] & 0x04 != 0 {
        illegal := true;
      } else if x.resp[0] == 0xff || x.err == Timeout {
        again := true;
      }
    }

    method CheckVoltage() returns (echo: bool, illegal: bool)
      requires Valid() && state == IdleReady && Protocol(trace) == Probing(0)
      modifies this
      ensures Valid() && state == IdleReady && finalState == old(finalState)
      ensures InRounds(Protocol(trace), echo, illegal, 0) && !(echo && illegal)
      ensures Spoken(trace) == Spoken(old(trace)) && ProbeEchoed(trace) == (ProbeEchoed(old(trace)) || echo)
      ensures (old(cs.exp.ready) ==> cs.exp.ready) && now >= old(now)
      ensures old(cs.exp.ready) && Replies(wire(old(turn)), 5, true, ILLEGAL) ==>
        illegal && turn == old(turn) + 1
      ensures old(cs.exp.ready) && RepliesEcho(wire(old(turn))) ==>
        echo && turn == old(turn) + 1
    {
      hide Spoken, ProbeEchoed, Unreached, Clear, Replies, RepliesEcho, Received, Considerate, Protocol;
      hide ChipSelect.Sound;
      ghost var settled := cs.exp.ready && (Replies(wire(turn), 5, true, ILLEGAL) || RepliesEcho(wire(turn)));
      echo, illegal := false, false;
      var unstable := false;
      var attempt := 0;
      while attempt < 2
        invariant 0 <= attempt <= 2 && Valid() && state == IdleReady && finalState == old(finalState)
        invariant if attempt < 2 then Protocol(trace) == Probing(attempt)
                  else InRounds(Protocol(trace), false, false, 0)
        invariant !echo && !illegal
        invariant Spoken(trace) == Spoken(old(trace)) && ProbeEchoed(trace) == ProbeEchoed(old(trace))
        invariant (old(cs.exp.ready) ==> cs.exp.ready) && now >= old(now)
        invariant settled ==> attempt == 0 && turn == old(turn)
      {
        var again;
        echo, illegal, again := TryCmd8(attempt);
        attempt := attempt + 1;
        if !again {
          break;
        }
        unstable := true;
        Delay(20);
      }
      if unstable && !illegal {
        Delay(30);
      }
    }

    // ----- ACMD41 rounds, or CMD1 once CMD8 was refused and two CMD55 attempts in a row were flagged

    // The CMD55 of a round; refused when it is the second flagged one in a row. r1 is the response byte,
    // before and after.
    method Prefix(echo: bool, illegal: bool, streak: nat, r1: bv8)
      returns (next: nat, r1': bv8, refused: bool, accepted: bool)
      requires Valid() && state == IdleReady && InRounds(Protocol(trace), echo, illegal, streak)
      requires !(echo && illegal) && (illegal ==> streak < 2)
      modifies this
      ensures Valid() && state == IdleReady && finalState == old(finalState)
      ensures InRounds(Protocol(trace), echo, illegal, next)
      ensures refused <==> illegal && next >= 2
      ensures refused ==> next == 2
      ensures accepted ==> !refused && Protocol(trace) == App(echo, illegal, next)
      ensures now == old(now) + wire(old(turn)).micros && turn == old(turn) + 1
      ensures old(cs.exp.ready) ==> cs.exp.ready
      ensures ProbeEchoed(trace) == ProbeEchoed(old(trace))
      ensures Unreached(wire(old(turn))) && RefusalBit(r1) ==>
        !accepted && next == streak + 1 && r1' == r1 && Spoken(trace) == Spoken(old(trace))
      ensures old(cs.exp.ready) && Replies(wire(old(turn)), 1, illegal, IDLE) ==> accepted && next == 0
      ensures illegal && old(cs.exp.ready) && Replies(wire(old(turn)), 1, true, ILLEGAL) ==>
        next == streak + 1 && (accepted <==> !refused)
    {
      hide Spoken, ProbeEchoed, Unreached, Clear, Replies, RepliesEcho, Received, Considerate, ChipSelect.Sound;
      var x := SendCommand(55, 0, [r1], illegal);
      r1' := x.resp[0];
      next := if RefusalBit(r1') then streak + 1 else 0;
      refused := illegal && next >= 2;
      accepted := !refused && x.err == Ok;
    }

    // The CMD41 of a round.
    method Ask(echo: bool, illegal: bool, streak: nat, r1: bv8) returns (r1': bv8, up: bool)
      requires Valid() && state == IdleReady && Protocol(trace) == App(echo, illegal, streak)
      requires illegal ==> streak < 2
      modifies this
      ensures Valid() && state == IdleReady && finalState == old(finalState)
      ensures if up then JustUp(trace) else InRounds(Protocol(trace), echo, illegal, streak)
      ensures now == old(now) + wire(old(turn)).micros && turn == old(turn) + 1
      ensures old(cs.exp.ready) ==> cs.exp.ready
      ensures ProbeEchoed(trace) == ProbeEchoed(old(trace))
      ensures old(cs.exp.ready) && Replies(wire(old(turn)), 1, false, READY) ==> up
      ensures old(cs.exp.ready) && Replies(wire(old(turn)), 1, false, IDLE) ==> !up
      ensures !Answers(wire(old(turn)), false, [READY]) ==> !up
    {
      hide Spoken, ProbeEchoed, Unreached, Clear, Replies, RepliesEcho, Answers, Considerate, ChipSelect.Sound;
      var x := SendCommand(41, if echo then HCS else 0, [r1], false);
      r1' := x.resp[0];
      up := x.err == Ok && r1' == READY;
      assert up ==> x.resp == [READY];
      if up {
        acmd41Seen := true;
      }
    }

    /** The driver stands where a plan with left microseconds to go can carry on. */
    ghost predicate OnPlan(plan: Plan, illegal: bool, streak: nat, r1: bv8, left: int)
      reads this`cs, this`turn
    {
      && cs.exp.ready && Follows(wire, turn, plan, left)
      && if plan.Rising? || plan.Waiting? then plan.legacy == illegal
         else illegal && plan.more >= 1 && plan.more + streak == 2 && (plan.Skipping? ==> RefusalBit(r1))
    }

    /** The rounds are over for a plan. */
    ghost predicate Arrived(plan: Plan, end: RoundEnd, left: int)
      reads this`cs, this`turn
    {
      && cs.exp.ready
      && match plan
         case Rising(_, _) => end == CardUp && Replies(wire(turn), 5, false, READY)
         case Waiting(_, _) => end == Again && left <= 0
         case Refusing(_, busy) => end == Confirmed && Awakes(wire, turn, busy, left)
         case Skipping(_, busy) => end == Confirmed && Awakes(wire, turn, busy, left)
    }

    // One round: CMD55, and CMD41 if that was accepted.
    method Round(echo: bool, illegal: bool, streak: nat, r1: bv8, ghost plan: Plan, ghost left: int)
      returns (next: nat, r1': bv8, end: RoundEnd)
      requires Valid() && state == IdleReady && InRounds(Protocol(trace), echo, illegal, streak)
      requires !(echo && illegal) && (illegal ==> streak < 2)
      modifies this
      ensures Valid() && state == IdleReady && finalState == old(finalState)
      ensures now >= old(now) && (end.Again? ==> now > old(now))
      ensures if end.CardUp? then JustUp(trace) else InRounds(Protocol(trace), echo, illegal, next)
      ensures end.Again? && illegal ==> next < 2
      ensures end.Confirmed? ==> illegal && next == 2
      ensures ProbeEchoed(trace) == ProbeEchoed(old(trace))
      ensures left > 0 && old(OnPlan(plan, illegal, streak, r1, left)) ==>
        && (plan.Skipping? ==> Spoken(trace) == Spoken(old(trace)))
        && if end.Again? then OnPlan(Less(plan), illegal, next, r1', left - (now - old(now)))
           else Arrived(Goal(plan), end, left - (now - old(now)))
    {
      hide Spoken, ProbeEchoed, Unreached, Replies, Considerate, ChipSelect.Sound, InRounds, Protocol, RefusalBit;
      var refused, accepted;
      next, r1', refused, accepted := Prefix(echo, illegal, streak, r1);
      if refused {
        end := Confirmed;
        LastRefusal(wire, turn, plan, left - (now - old(now)));
        return;
      }
      end := Again;
      if !accepted {
        Delay(20);
        return;
      }
      var up;
      r1', up := Ask(echo, illegal, next, r1');
      if up {
        end := CardUp;
        return;
      }
      Delay(50);
    }

    method AppInit(echo: bool, illegal: bool, deadline: nat, ghost plan: Plan)
      returns (ready: bool, mmc: bool, streak: nat)
      requires Valid() && state == IdleReady && InRounds(Protocol(trace), echo, illegal, 0)
      requires !(echo && illegal)
      modifies this
      ensures Valid() && state == IdleReady && finalState == old(finalState)
      ensures if ready then JustUp(trace) else InRounds(Protocol(trace), echo, illegal, streak)
      ensures mmc ==> illegal && streak == 2 && !ready
      ensures !ready && !mmc ==> now >= deadline
      ensures now >= old(now) && ProbeEchoed(trace) == ProbeEchoed(old(trace))
      ensures old(OnPlan(plan, illegal, 0, 0xff, deadline - now)) ==>
        && (plan.Skipping? ==> Spoken(trace) == Spoken(old(trace)))
        && Arrived(Goal(plan), if ready then CardUp else if mmc then Confirmed else Again, deadline - now)
    {
      hide Spoken, ProbeEchoed, Considerate, ChipSelect.Sound, InRounds, Protocol, JustUp, RefusalBit;
      var r1: bv8 := 0xff;
      ghost var onPlan := OnPlan(plan, illegal, 0, r1, deadline - now);
      ghost var rest := plan;
      streak, ready, mmc := 0, false, false;
      while now < deadline
        invariant Valid() && state == IdleReady && finalState == old(finalState)
        invariant InRounds(Protocol(trace), echo, illegal, streak)
        invariant illegal ==> streak < 2
        invariant now >= old(now) && ProbeEchoed(trace) == ProbeEchoed(old(trace))
        invariant Goal(rest) == Goal(plan)
        invariant onPlan ==> OnPlan(rest, illegal, streak, r1, deadline - now)
        invariant onPlan && plan.Skipping? ==> Spoken(trace) == Spoken(old(trace))
        decreases deadline - now
      {
        var end;
        streak, r1, end := Round(echo, illegal, streak, r1, rest, deadline - now);
        if end == CardUp {
          ready := true;
          return;
        }
        if end == Confirmed {
          mmc := true;
          return;
        }
        rest := Less(rest);
      }
    }

    method TryCmd1(echo: bool, r1: bv8) returns (r1': bv8, ready: bool)
      requires Valid() && state == IdleReady && InMmc(Protocol(trace), echo)
      modifies this
      ensures Valid() && state == IdleReady && finalState == old(finalState)
      ensures if ready then Protocol(trace) == Done else InMmc(Protocol(trace), echo)
      ensures trace != [] && trace[|trace| - 1].cmd == 1 && Spoken(trace) == Spoken(old(trace))
      ensures now == old(now) + wire(old(turn)).micros && turn == old(turn) + 1
      ensures old(cs.exp.ready) ==> cs.exp.ready
      ensures old(cs.exp.ready) && Replies(wire(old(turn)), 1, false, READY) ==> ready
      ensures old(cs.exp.ready) && Replies(wire(old(turn)), 1, false, IDLE) ==> !ready
    {
      hide Spoken, ProbeEchoed, Unreached, Clear, Replies, RepliesEcho, Received, Considerate, ChipSelect.Sound;
      var x := SendCommand(1, OCR_HCS, [r1], false);
      r1' := x.resp[0];
      ready := x.err == Ok && r1' == READY;
    }

    method MmcInit(echo: bool, deadline: nat, ghost busy: nat) returns (ready: bool)
      requires Valid() && state == IdleReady && InRounds(Protocol(trace), echo, true, 2)
      modifies this
      ensures Valid() && state == IdleReady && finalState == old(finalState)
      ensures if ready then Protocol(trace) == Done else InMmc(Protocol(trace), echo)
      ensures ready ==> trace != [] && trace[|trace| - 1].cmd == 1
      ensures !ready ==> now >= deadline
      ensures Spoken(trace) == Spoken(old(trace))
      ensures old(cs.exp.ready && Awakes(wire, turn, busy, deadline - now)) ==> ready
    {
      hide Spoken, Replies, Considerate, ChipSelect.Sound, Protocol;
      ghost var awakes, rest := cs.exp.ready && Awakes(wire, turn, busy, deadline - now), busy;
      var respR1: bv8 := 0xff;
      ready := false;
      while now < deadline
        invariant Valid() && state == IdleReady && finalState == old(finalState)
        invariant InMmc(Protocol(trace), echo) && Spoken(trace) == Spoken(old(trace))
        invariant awakes ==> cs.exp.ready && Awakes(wire, turn, rest, deadline - now)
        decreases deadline - now
      {
        respR1, ready := TryCmd1(echo, respR1);
        if ready {
          return;
        }
        Delay(50);
        rest := if rest > 0 then rest - 1 else 0;
      }
    }

    // ----- CMD58

    method ReadOcr() returns (ok: bool, err: Err)
      requires Valid() && state == IdleReady && JustUp(trace)
      modifies this
      ensures Valid() && state == IdleReady && finalState == old(finalState)
      ensures Protocol(trace) == if ok then Done else Up
      ensures |old(trace)| < |trace| <= |old(trace)| + 3 && trace[..|old(trace)|] == old(trace)
      ensures forall i :: |old(trace)| <= i < |trace| ==>
        trace[i].cmd == 58 && (Answered(trace[i], READY) <==> ok && i == |trace| - 1)
      ensures !ok ==> |trace| == |old(trace)| + 3 && err == trace[|trace| - 1].err
      ensures ProbeEchoed(trace) == ProbeEchoed(old(trace))
      ensures old(cs.exp.ready) && Replies(wire(old(turn)), 5, false, READY) ==> ok
    {
      hide Spoken, ProbeEchoed, Unreached, Clear, Replies, RepliesEcho, Received, Considerate, Protocol;
      hide ChipSelect.Sound;
      ghost var prompt := cs.exp.ready && Replies(wire(turn), 5, false, READY);
      ok, err := false, Ok;
      var attempt := 0;
      while attempt < CMD58_RETRIES
        invariant Valid() && state == IdleReady && finalState == old(finalState)
        invariant Protocol(trace) == Up && ProbeEchoed(trace) == ProbeEchoed(old(trace))
        invariant attempt <= 3 && |trace| == |old(trace)| + attempt && trace[..|old(trace)|] == old(trace)
        invariant forall i :: |old(trace)| <= i < |trace| ==> trace[i].cmd == 58 && !Answered(trace[i], READY)
        invariant attempt > 0 ==> err == trace[|trace| - 1].err
        invariant prompt ==> attempt == 0 && turn == old(turn) && cs.exp.ready
      {
        var x := SendCommand(58, 0, [0, 0, 0, 0, 0], false);
        err := x.err;
        if x.err == Ok && x.resp[0] == READY {
          cmd58Seen := true;
          return true, Ok;
        }
        attempt := attempt + 1;
        Delay(25);
      }
    }

    // CMD58, with the card up.
    method Confirm() returns (err: Err)
      requires Valid() && state == finalState == IdleReady && JustUp(trace)
      modifies this
      ensures Valid() && finalState == state == if err == Ok then IdleReady else InitFail
      ensures Protocol(trace) == if err == Ok then Done else Up
      ensures trace != [] && trace[|trace| - 1].cmd == 58
      ensures err != Ok ==> EndsUnread(err)
      ensures ProbeEchoed(trace) == ProbeEchoed(old(trace))
      ensures err == Ok ==> CardReady(trace) && Args41(trace, ProbeEchoed(trace))
      ensures old(cs.exp.ready) && Replies(wire(old(turn)), 5, false, READY) ==> err == Ok
    {
      hide ProbeEchoed, CardReady, Args41, Replies, Considerate, ChipSelect.Sound, Protocol;
      var ok;
      ok, err := ReadOcr();
      if !ok {
        Mark(InitFail);
        assert trace[|trace| - 4] == trace[..|old(trace)|][|old(trace)| - 1];
        return if err != Ok then err else Timeout;
      }
      CompletedTrace(trace);
      err := Ok;
    }

    /** The whole sequence. On success the wire has seen a complete, legal initialisation; on failure
        it has seen a legal prefix of one, and FailedAt says why. The function succeeds exactly when it
        leaves the card in the ready state, and every loop ends by its count or by the deadline. A card
        that cooperates is initialised, by CMD58 or by CMD1, however long it stays busy, as long as the
        round in which it is ready begins before the deadline; if that passes first, the result is TIMEOUT.
        plan is what the card and the bus do; only the contract uses it. */
    method LowSpeedInit(ghost plan: Plan) returns (err: Err)
      requires Valid()
      modifies this
      ensures Valid() && finalState == state
      ensures err == Ok <==> state == IdleReady
      ensures err == Ok <==> Protocol(trace) == Done
      ensures Protocol(trace) != Broken
      ensures err != Ok ==> FailedAt(err, old(turn), now - old(now))
      ensures old(cs.exp.ready) && Cooperates(wire, old(turn), plan) ==>
        if plan.Waiting? then err == Timeout else err == Ok && GoesBy(trace, plan)
    {
      hide Spoken, ProbeEchoed, Replies, Considerate, ChipSelect.Sound, Protocol;
      hide Unanswered, Unfinished, AfterCmd0, GoesBy;
      trace := [];
      var cardIdle;
      err, cardIdle := WakeCard();
      if !cardIdle {
        return;
      }
      ghost var since := now;
      err := Negotiate(plan);
      if err != Ok {
        StillUnfinished(err, now - since, now - old(now));
      }
    }

    /** Why an initialisation has failed, by how far its trace got. Without an answer to CMD0: an expander
        error, or three attempts in which something was heard, or nothing. Between CMD8 and a ready
        ACMD41 or CMD1: the deadline has passed. After a ready ACMD41: three CMD58 attempts, none of them
        answered ready. */
    ghost predicate FailedAt(err: Err, start: nat, elapsed: int)
      reads this`trace, this`state, this`fault
    {
      if Protocol(trace) == Resetting then Unanswered(err, start) else Unfinished(err, elapsed)
    }

    ghost predicate Unanswered(err: Err, start: nat)
      reads this`trace, this`state, this`fault
    {
      && (trace == [] || !trace[|trace| - 1].csLow || |trace| == 3)
      && if fault.Some? then state == IoextFail
         else if Loud(start) then state == InitFail && err == InvalidResponse
         else state == Absent && err == NotFound
    }

    ghost predicate Unfinished(err: Err, elapsed: int)
      reads this`trace, this`state
    {
      && state == InitFail
      && match Protocol(trace)
         case Up => EndsUnread(err)
         case Known(_, _, _) => err == Timeout && elapsed >= 1500000
         case App(_, _, _) => err == Timeout && elapsed >= 1500000
         case Mmc => err == Timeout && elapsed >= 1500000
         case _ => false
    }

    lemma StillUnfinished(err: Err, elapsed: int, more: int)
      requires Unfinished(err, elapsed) && elapsed <= more
      ensures Unfinished(err, more)
    {
    }

    // Three attempts were made with the card selected, and something was heard.
    ghost predicate Loud(start: nat)
      reads this`trace
    {
      |trace| == 3 && trace[2].csLow && Heard(trace, wire, start)
    }

    // The trace ends in three unanswered CMD58 attempts, and nothing before them is one.
    ghost predicate EndsUnread(err: Err)
      reads this`trace
    {
      && |trace| >= 4 && trace[|trace| - 4].cmd == 41
      && (forall i :: |trace| - 3 <= i < |trace| ==> trace[i].cmd == 58 && !Answered(trace[i], READY))
      && err == (if trace[|trace| - 1].err != Ok then trace[|trace| - 1].err else Timeout)
    }

    // Up to the answer to CMD0.
    method WakeCard() returns (err: Err, cardIdle: bool)
      requires Valid() && trace == []
      modifies this
      ensures Valid() && finalState == state && now >= old(now)
      ensures cardIdle <==> err == Ok
      ensures cardIdle ==> state == IdleReady && Protocol(trace) == Probing(0) && !Spoken(trace) && !ProbeEchoed(trace)
      ensures !cardIdle ==> state != IdleReady && Protocol(trace) == Resetting && Unanswered(err, old(turn))
      ensures old(cs.exp.ready) ==> cs.exp.ready
      ensures old(cs.exp.ready) && Replies(wire(old(turn)), 1, true, IDLE) ==> cardIdle && turn == old(turn) + 1
    {
      hide Spoken, ProbeEchoed, Replies, Considerate, ChipSelect.Sound, Protocol, Loud, Unanswered;
      var sawNonFf;
      err, cardIdle, sawNonFf := ResetAndCmd0();
      if !cardIdle {
        err := NoCard(err, sawNonFf, old(turn));
        return;
      }
      Mark(IdleReady);
      cmd0Seen := true;
    }

    // Sorts out an unanswered CMD0.
    method NoCard(failed: Err, sawNonFf: bool, ghost start: nat) returns (err: Err)
      requires Valid() && (sawNonFf <==> Loud(start))
      requires trace == [] || !trace[|trace| - 1].csLow || |trace| == 3
      modifies this`state, this`finalState
      ensures finalState == state != IdleReady && err != Ok && Unanswered(err, start)
    {
      if fault.Some? {
        Mark(IoextFail);
        return if failed != Ok then failed else fault.value;
      }
      Mark(if sawNonFf then InitFail else Absent);
      return if sawNonFf then InvalidResponse else NotFound;
    }

    // From CMD8 on, with the card idle.
    method Negotiate(ghost plan: Plan) returns (err: Err)
      requires Valid() && state == finalState == IdleReady && Protocol(trace) == Probing(0)
      requires !Spoken(trace) && !ProbeEchoed(trace)
      modifies this
      ensures Valid() && finalState == state
      ensures err == Ok <==> state == IdleReady
      ensures err == Ok <==> Protocol(trace) == Done
      ensures Protocol(trace) != Broken && Protocol(trace) != Resetting
      ensures err != Ok ==> Unfinished(err, now - old(now))
      ensures old(cs.exp.ready) && AfterCmd0(wire, old(turn), plan) ==>
        if plan.Waiting? then err == Timeout else err == Ok && GoesBy(trace, plan)
    {
      hide Spoken, ProbeEchoed, Replies, Unreached, Considerate, ChipSelect.Sound, Follows, RepliesEcho, Protocol;
      hide CardReady, Args41;
      var echo, illegal := CheckVoltage();
      err := Rounds(echo, illegal, plan);
    }

    // From the first round on; the deadline starts to run here.
    method Rounds(echo: bool, illegal: bool, ghost plan: Plan) returns (err: Err)
      requires Valid() && state == finalState == IdleReady
      requires InRounds(Protocol(trace), echo, illegal, 0) && !(echo && illegal)
      modifies this
      ensures Valid() && finalState == state
      ensures err == Ok <==> state == IdleReady
      ensures err == Ok <==> Protocol(trace) == Done
      ensures Protocol(trace) != Broken && Protocol(trace) != Resetting
      ensures err != Ok ==> Unfinished(err, now - old(now))
      ensures old(OnPlan(plan, illegal, 0, 0xff, 1500000)) ==>
        if plan.Waiting? then err == Timeout
        else
          && err == Ok && trace != []
          && if plan.Rising? then
               && trace[|trace| - 1].cmd == 58 && ProbeEchoed(trace) == ProbeEchoed(old(trace))
               && CardReady(trace) && Args41(trace, ProbeEchoed(trace))
             else trace[|trace| - 1].cmd == 1 && (plan.Skipping? ==> Spoken(trace) == Spoken(old(trace)))
    {
      hide Spoken, ProbeEchoed, Replies, Unreached, Considerate, ChipSelect.Sound, Follows, CardReady, Args41;
      hide Protocol, EndsUnread;
      var deadline := now + INIT_TIMEOUT_US;
      var ready, mmc, _ := AppInit(echo, illegal, deadline, plan);
      if mmc {
        ready := MmcInit(echo, deadline, if plan.Refusing? || plan.Skipping? then plan.busy else 0);
      } else if ready {
        err := Confirm();
        return;
      }
      if !ready {
        Mark(InitFail);
        return Timeout;
      }
      err := Ok;
    }
  }

  /** The trace that a plan leaves which is not Waiting: a Rising one ends in CMD58 after a ready CMD41, with
      HCS in every CMD41 unless CMD8 was refused, the others in CMD1, a Skipping one with no CMD55 frame. */
  predicate GoesBy(trace: seq<Exchange>, plan: Plan) {
    && trace != []
    && if plan.Rising? then
         && trace[|trace| - 1].cmd == 58 && (ProbeEchoed(trace) <==> !plan.legacy)
         && CardReady(trace) && Args41(trace, !plan.legacy)
       else trace[|trace| - 1].cmd == 1 && (plan.Skipping? ==> !Spoken(trace))
  }

  /** From turn t: CMD8 is echoed, or refused where the plan says so, and then the plan is followed. */
  ghost predicate AfterCmd0(wire: nat -> Wire, t: nat, plan: Plan) {
    && (if (plan.Rising? || plan.Waiting?) && !plan.legacy then RepliesEcho(wire(t))
        else Replies(wire(t), 5, true, ILLEGAL))
    && (plan.Refusing? || plan.Skipping? ==> plan.more == 2)
    && Follows(wire, t + 1, plan, 1500000)
  }

  ghost predicate Cooperates(wire: nat -> Wire, t: nat, plan: Plan) {
    Replies(wire(t), 1, true, IDLE) && AfterCmd0(wire, t + 1, plan)
  }

  /** A run of the driver that initialises a card by CMD1 without a single CMD55 on the wire: the card
      refuses CMD8, and the lock is busy for the next two attempts. */
  method InitWithoutCmd55() returns (host: Host, err: Err)
    ensures fresh(host) && err == Ok && host.state == IdleReady && !Spoken(host.trace)
    ensures host.trace != [] && host.trace[|host.trace| - 1].cmd == 1
  {
    var good := ChipSelect.Env(true, true, true, IoExpander.Delivered, Ok, IoExpander.Delivered);
    var answer: nat -> bv8 := (n: nat) => if n == 0 then IDLE else if n == 1 then ILLEGAL else READY;
    var wire: nat -> Wire :=
      (n: nat) => Wire(true, n != 2 && n != 3, [], good, [], true, (i: nat) => Byte(answer(n)), 1, good, 0);
    var cs := ChipSelect.State(IoExpander.State(true, 0xff, 0xff), false, -1, false, false, 0, 0);
    host := new Host(wire, cs);
    Immediate(wire(0), 1, true, IDLE);
    Immediate(wire(1), 5, true, ILLEGAL);
    Immediate(wire(4), 1, false, READY);
    assert Follows(wire, 4, Skipping(0, 0), 1480000);
    assert Follows(wire, 3, Skipping(1, 0), 1480000);
    assert Cooperates(host.wire, host.turn, Skipping(2, 0));
    err := host.LowSpeedInit(Skipping(2, 0));
  }

  // The answer, in turn t of its initialisation, of an SDHC card that is busy for n rounds.
  function BusyByte(n: nat, t: nat, i: nat): bv8 {
    if t == 1 && i == 4 then 0xaa
    else if t == 1 && 1 <= i <= 2 then 0x00
    else if t == 2 * n + 3 || t == 2 * n + 4 then READY
    else IDLE
  }

  function BusyTurn(n: nat, t: nat): Wire {
    var good := ChipSelect.Env(true, true, true, IoExpander.Delivered, Ok, IoExpander.Delivered);
    Wire(true, true, [], good, [], true, (i: nat) => Byte(BusyByte(n, t, i)), 1, good, 0)
  }

  lemma BusyReplies(n: nat, t: nat, len: nat, allowIllegal: bool)
    requires t != 1 && len > 0
    ensures Replies(BusyTurn(n, t), len, allowIllegal, BusyByte(n, t, 0))
  {
    var w := BusyTurn(n, t);
    assert forall i: nat :: w.rx(i) == Byte(BusyByte(n, t, 0));
    Immediate(w, len, allowIllegal, BusyByte(n, t, 0));
  }

  lemma BusyEchoes(n: nat)
    ensures RepliesEcho(BusyTurn(n, 1))
  {
    assert AnswersAt(BusyTurn(n, 1), true, 0, [IDLE, 0x00, 0x00, 0x01, 0xaa]);
  }

  // In turn t, with k busy rounds to go: CMD55, CMD41, and CMD58 after a ready CMD41.
  lemma BusyRound(n: nat, t: nat, k: nat)
    requires t + 2 * k == 2 * n + 2 && t >= 2
    ensures Replies(BusyTurn(n, t), 1, false, IDLE)
    ensures Replies(BusyTurn(n, t + 1), 1, false, if k == 0 then READY else IDLE)
    ensures k == 0 ==> Replies(BusyTurn(n, t + 2), 5, false, READY)
    ensures BusyTurn(n, t).micros == BusyTurn(n, t + 1).micros == 0
  {
    hide Replies;
    BusyReplies(n, t, 1, false);
    BusyReplies(n, t + 1, 1, false);
    BusyReplies(n, t + 2, 5, false);
  }

  lemma {:induction false} BusyFollows(wire: nat -> Wire, n: nat, t: nat, k: nat, left: int)
    requires forall u: nat :: wire(u) == BusyTurn(n, u)
    requires t + 2 * k == 2 * n + 2 && t >= 2 && left > 50000 * k
    ensures Follows(wire, t, Rising(k, false), left)
    decreases k
  {
    BusyRound(n, t, k);
    hide Replies, BusyTurn;
    if k > 0 {
      BusyFollows(wire, n, t + 2, k - 1, left - 50000);
    }
  }

  // With r busy rounds to go, the first k of which use up the time.
  lemma {:induction false} BusyOutlasts(wire: nat -> Wire, n: nat, t: nat, r: nat, k: nat, left: int)
    requires forall u: nat :: wire(u) == BusyTurn(n, u)
    requires t + 2 * r == 2 * n + 2 && t >= 2 && k <= r && 50000 * k - 50000 < left <= 50000 * k
    ensures Follows(wire, t, Waiting(k, false), left)
    decreases k
  {
    BusyRound(n, t, r);
    hide Replies, BusyTurn;
    if k > 0 {
      BusyOutlasts(wire, n, t + 2, r - 1, k - 1, left - 50000);
    }
  }

  /** An ordinary SDHC card whose rounds take no longer than their delays: LowSpeedInit initialises it when it
      is busy for fewer than thirty of them, and times out when it is busy for thirty or more. */
  lemma BusyCooperates(wire: nat -> Wire, n: nat)
    requires forall t: nat :: wire(t) == BusyTurn(n, t)
    ensures Cooperates(wire, 0, if n < 30 then Rising(n, false) else Waiting(30, false))
    ensures forall t: nat :: Considerate(wire(t))
  {
    BusyReplies(n, 0, 1, true);
    assert BusyByte(n, 0, 0) == IDLE;
    BusyEchoes(n);
    hide Replies, RepliesEcho, BusyTurn, BusyByte, Follows;
    if n < 30 {
      BusyFollows(wire, n, 2, n, 1500000);
    } else {
      BusyOutlasts(wire, n, 2, n, 30, 1500000);
    }
  }

  /** The 32-bit argument that an R7 response carries. */
  function Pattern(resp: seq<bv8>): bv32
    requires |resp| == 5
  {
    (resp[1] as bv32 << 24) | (resp[2] as bv32 << 16) | (resp[3] as bv32 << 8) | resp[4] as bv32
  }

  lemma PatternIsEcho(x: Exchange)
    requires Answered(x, IDLE) && |x.resp| == 5
    ensures Echoes(x) <==> Pattern(x.resp) == 0x0000_01aa
  {
  }

  /** CMD8 is settled and the rounds have started, with run flagged CMD55 attempts in a row. */
  predicate InRounds(p: Phase, echo: bool, illegal: bool, run: nat) {
    p == Known(echo, illegal, run) || p == App(echo, illegal, run)
  }

  predicate InMmc(p: Phase, echo: bool) {
    InRounds(p, echo, true, 2) || p == Mmc
  }

  // ----- what the automaton says about a trace

  predicate ProbeEchoed(trace: seq<Exchange>) {
    exists i :: 0 <= i < |trace| && trace[i].cmd == 8 && Echoes(trace[i])
  }

  predicate ProbeRefused(trace: seq<Exchange>) {
    exists i :: 0 <= i < |trace| && trace[i].cmd == 8 && Answered(trace[i], ILLEGAL)
  }

  predicate AppPrefix(x: Exchange, refused: bool) {
    x.cmd == 55 && (Answered(x, IDLE) || Answered(x, READY) || (refused && Answered(x, ILLEGAL)))
  }

  function Probes(trace: seq<Exchange>): nat {
    if trace == [] then 0 else Probes(trace[..|trace| - 1]) + if trace[|trace| - 1].cmd == 8 then 1 else 0
  }

  predicate CardReady(trace: seq<Exchange>) {
    exists i :: 0 <= i < |trace| && trace[i].cmd == 41 && Answered(trace[i], READY)
  }

  /** Flagged CMD55 attempts since the last CMD55 attempt that was not. */
  function FlagRun(trace: seq<Exchange>): nat {
    if trace == [] then 0
    else
      var x, before := trace[|trace| - 1], FlagRun(trace[..|trace| - 1]);
      if x.cmd != 55 then before else if Flagged(x) then before + 1 else 0
  }

  /** Every CMD41 so far carries HCS, or none does. */
  predicate Args41(trace: seq<Exchange>, echo: bool) {
    forall i :: 0 <= i < |trace| && trace[i].cmd == 41 ==> trace[i].arg == if echo then HCS else 0
  }

  /** What each phase remembers of the trace. */
  predicate Remembers(trace: seq<Exchange>, p: Phase) {
    match p
    case Resetting => Fresh(trace) && Probes(trace) == 0
    case Probing(n) =>
      && Fresh(trace) && Probes(trace) == n <= 1
      && (n == 1 ==> trace != [] && trace[|trace| - 1].cmd == 8 && Silent(trace[|trace| - 1]))
    case Known(echo, illegal, run) =>
      && echo == ProbeEchoed(trace) && illegal == ProbeRefused(trace) && 1 <= Probes(trace) <= 2
      && run == FlagRun(trace) && Args41(trace, echo)
    case App(echo, illegal, run) =>
      && echo == ProbeEchoed(trace) && illegal == ProbeRefused(trace) && 1 <= Probes(trace) <= 2
      && run == FlagRun(trace) && trace != [] && AppPrefix(trace[|trace| - 1], illegal) && Args41(trace, echo)
    case Mmc => ProbeRefused(trace) && FlagRun(trace) >= 2 && 1 <= Probes(trace) <= 2
    case Up => CardReady(trace) && 1 <= Probes(trace) <= 2 && Args41(trace, ProbeEchoed(trace))
    case Done =>
      && 1 <= Probes(trace) <= 2
      && trace != [] && Answered(trace[|trace| - 1], READY)
      && ((trace[|trace| - 1].cmd == 58 && CardReady(trace) && Args41(trace, ProbeEchoed(trace)))
          || (trace[|trace| - 1].cmd == 1 && ProbeRefused(trace) && FlagRun(trace) >= 2))
    case Broken => true
  }

  /** CMD8 is not settled and no round has begun. */
  predicate Fresh(trace: seq<Exchange>) {
    !ProbeEchoed(trace) && !ProbeRefused(trace) && FlagRun(trace) == 0 && Args41(trace, true) && Args41(trace, false)
  }

  lemma HistoryStep(t: seq<Exchange>, x: Exchange)
    ensures ProbeEchoed(t + [x]) <==> ProbeEchoed(t) || (x.cmd == 8 && Echoes(x))
    ensures ProbeRefused(t + [x]) <==> ProbeRefused(t) || (x.cmd == 8 && Answered(x, ILLEGAL))
    ensures CardReady(t + [x]) <==> CardReady(t) || (x.cmd == 41 && Answered(x, READY))
    ensures Probes(t + [x]) == Probes(t) + if x.cmd == 8 then 1 else 0
    ensures forall echo :: Args41(t + [x], echo) <==>
      Args41(t, echo) && (x.cmd == 41 ==> x.arg == if echo then HCS else 0)
    ensures FlagRun(t + [x]) == if x.cmd != 55 then FlagRun(t) else if Flagged(x) then FlagRun(t) + 1 else 0
  {
    var u := t + [x];
    assert u[..|t|] == t && u[|t|] == x;
    assert forall i :: 0 <= i < |t| ==> u[i] == t[i];
  }

  lemma {:induction false} PhaseRemembers(trace: seq<Exchange>)
    ensures Remembers(trace, Protocol(trace))
    decreases |trace|
  {
    if trace != [] {
      var n := |trace| - 1;
      var t, x := trace[..n], trace[n];
      assert trace == t + [x];
      hide Remembers, Next;
      PhaseRemembers(t);
      ProtocolSnoc(t, x);
      RememberStep(t, x, Protocol(t));
    } else {
      NothingYet();
    }
  }

  lemma NothingYet()
    ensures Remembers([], Resetting)
  {
  }

  lemma RememberStep(t: seq<Exchange>, x: Exchange, p: Phase)
    requires Remembers(t, p)
    ensures Remembers(t + [x], Next(p, x))
  {
    hide Remembers, OnProbe, OnRound, OnApp, Honest, Answered;
    if Honest(x) {
      match p
      case Probing(n) =>
        if x.cmd == 8 {
          RememberProbe(t, x, n);
        } else {
          BrokenRemembers(t + [x]);
        }
      case Known(echo, illegal, run) => RememberRound(t, x, echo, illegal, run);
      case App(echo, illegal, run) => RememberApp(t, x, echo, illegal, run);
      case _ => RememberRest(t, x, p);
    } else {
      BrokenRemembers(t + [x]);
    }
  }

  lemma BrokenRemembers(t: seq<Exchange>)
    ensures Remembers(t, Broken)
  {
  }

  lemma RememberRest(t: seq<Exchange>, x: Exchange, p: Phase)
    requires Remembers(t, p) && (p.Resetting? || p.Mmc? || p.Up? || p.Done? || p.Broken?)
    ensures Remembers(t + [x], Next(p, x))
  {
    HistoryStep(t, x);
    hide ProbeEchoed, ProbeRefused, CardReady, Probes, FlagRun, Flagged, Args41, Echoes;
    assert (t + [x])[|t|] == x;
  }

  lemma RememberProbe(t: seq<Exchange>, x: Exchange, n: nat)
    requires Remembers(t, Probing(n)) && x.cmd == 8
    ensures Remembers(t + [x], OnProbe(n, x))
  {
    HistoryStep(t, x);
    hide ProbeEchoed, ProbeRefused, CardReady, Probes, FlagRun, Args41, Silent;
    assert (t + [x])[|t|] == x;
  }

  lemma RememberRound(t: seq<Exchange>, x: Exchange, echo: bool, illegal: bool, run: nat)
    requires Remembers(t, Known(echo, illegal, run))
    ensures Remembers(t + [x], OnRound(echo, illegal, run, x))
  {
    HistoryStep(t, x);
    hide ProbeEchoed, ProbeRefused, CardReady, Probes, FlagRun, Flagged, Args41, Echoes, Answered;
    assert (t + [x])[|t|] == x;
  }

  lemma RememberApp(t: seq<Exchange>, x: Exchange, echo: bool, illegal: bool, run: nat)
    requires Remembers(t, App(echo, illegal, run))
    ensures Remembers(t + [x], OnApp(echo, illegal, run, x))
  {
    HistoryStep(t, x);
    RememberRound(t, x, echo, illegal, run);
    hide ProbeEchoed, ProbeRefused, CardReady, Probes, FlagRun, Flagged, Args41, Echoes, Answered, OnRound;
  }

  lemma {:induction false} PrefixUnbroken(trace: seq<Exchange>, k: nat)
    requires k <= |trace| && Protocol(trace) != Broken
    ensures Protocol(trace[..k]) != Broken
    ensures k < |trace| ==> Protocol(trace[..k + 1]) == Next(Protocol(trace[..k]), trace[k])
    decreases |trace|
  {
    if k < |trace| {
      var n := |trace| - 1;
      assert trace == trace[..n] + [trace[n]];
      ProtocolSnoc(trace[..n], trace[n]);
      if k < n {
        assert trace[..n][..k] == trace[..k] && trace[..n][..k + 1] == trace[..k + 1];
        PrefixUnbroken(trace[..n], k);
      } else {
        assert trace[..k + 1] == trace;
      }
    } else {
      assert trace[..k] == trace;
    }
  }

  /** In a legal trace every command comes in its place: CMD41 directly after an accepted CMD55, with
      HCS set exactly if CMD8 was echoed; CMD1 only once CMD8 was refused and two CMD55 attempts in a row
      were flagged; CMD58 only once a CMD41 reported ready; nothing but CMD0 before CMD0 is answered; and
      no frame goes out unless the card's real select line is low. */
  lemma CommandsInPlace(trace: seq<Exchange>, i: nat)
    requires Protocol(trace) != Broken && i < |trace|
    ensures trace[i].cmd == 41 ==>
      && i > 0 && AppPrefix(trace[i - 1], ProbeRefused(trace[..i]))
      && trace[i].arg == if ProbeEchoed(trace[..i]) then 0x4000_0000 else 0
    ensures trace[i].cmd == 1 ==> ProbeRefused(trace[..i]) && FlagRun(trace[..i]) >= 2
    ensures trace[i].cmd == 58 ==> CardReady(trace[..i])
    ensures trace[i].cmd == 8 ==> trace[i].arg == 0x1aa && Probes(trace[..i]) <= 1
    ensures trace[i].cmd == 8 && Probes(trace[..i]) == 1 ==> i > 0 && trace[i - 1].cmd == 8 && Silent(trace[i - 1])
    ensures trace[i].cmd == 1 ==> trace[i].arg == 0x4030_0000
    ensures trace[i].cmd in {0, 55, 58} ==> trace[i].arg == 0
    ensures trace[i].cmd in {0, 1, 8, 41, 55, 58}
    ensures trace[i].cmd != 0 <==> exists j :: 0 <= j < i && trace[j].cmd == 0 && Answered(trace[j], IDLE)
    ensures trace[i].sent ==> trace[i].csLow
  {
    PrefixUnbroken(trace, i);
    PrefixUnbroken(trace, i + 1);
    PhaseRemembers(trace[..i]);
    ResetFirst(trace, i);
    hide ProbeEchoed, ProbeRefused, CardReady, Probes, Protocol, FlagRun, Flagged, Args41, Silent;
    assert i > 0 ==> trace[..i][|trace[..i]| - 1] == trace[i - 1];
  }

  /** A CMD8 that stays silent is tried once more before anything else. */
  lemma SilentIsRetried(trace: seq<Exchange>, i: nat)
    requires Protocol(trace) != Broken && i + 1 < |trace|
    requires trace[i].cmd == 8 && Silent(trace[i]) && Probes(trace[..i]) == 0
    ensures trace[i + 1].cmd == 8
  {
    PrefixUnbroken(trace, i);
    PrefixUnbroken(trace, i + 1);
    PrefixUnbroken(trace, i + 2);
    PhaseRemembers(trace[..i]);
    hide Protocol, Probes, ProbeEchoed, ProbeRefused, CardReady, FlagRun, Args41;
  }

  /** A flagged CMD55 attempt is a refusal by the card exactly when the attempt returned OK, which the
      driver's flag does not ask for. */
  lemma FlaggedIsRefusal(trace: seq<Exchange>, i: nat)
    requires Protocol(trace) != Broken && i < |trace| && Flagged(trace[i])
    ensures Answered(trace[i], ILLEGAL) <==> trace[i].err == Ok
  {
    PrefixUnbroken(trace, i);
    PrefixUnbroken(trace, i + 1);
    if trace[i].err == Ok {
      AcceptedFlag(trace[i].resp[0]);
    }
  }

  lemma AcceptedFlag(b: bv8)
    requires Accepted(b, true, true)
    ensures b & 0x04 != 0 <==> b == ILLEGAL
  {
  }

  /** So a card can be initialised with CMD1 without having refused a single CMD55: it refuses CMD8, and
      then two CMD55 attempts fail, unanswered or never sent, with 0xff in the response buffer. */
  lemma SilentToMmc(cmd0: Exchange, cmd8: Exchange, first: Exchange, second: Exchange, cmd1: Exchange)
    requires Honest(cmd0) && Honest(cmd8) && Honest(first) && Honest(second) && Honest(cmd1)
    requires cmd0.cmd == 0 && cmd0.arg == 0 && Answered(cmd0, IDLE)
    requires cmd8.cmd == 8 && cmd8.arg == CHECK_PATTERN && Answered(cmd8, ILLEGAL)
    requires first.cmd == second.cmd == 55 && first.arg == second.arg == 0 && first.err != Ok && second.err != Ok
    requires first.resp == second.resp == [0xff]
    requires cmd1.cmd == 1 && cmd1.arg == 0x4030_0000 && Answered(cmd1, READY)
    ensures Protocol([cmd0, cmd8, first, second, cmd1]) == Done
  {
    ProtocolSnoc([], cmd0);
    ProtocolSnoc([cmd0], cmd8);
    ProtocolSnoc([cmd0, cmd8], first);
    ProtocolSnoc([cmd0, cmd8, first], second);
    ProtocolSnoc([cmd0, cmd8, first, second], cmd1);
    assert [] + [cmd0] == [cmd0];
    assert [cmd0] + [cmd8] == [cmd0, cmd8];
    assert [cmd0, cmd8] + [first] == [cmd0, cmd8, first];
    assert [cmd0, cmd8, first] + [second] == [cmd0, cmd8, first, second];
    assert [cmd0, cmd8, first, second] + [cmd1] == [cmd0, cmd8, first, second, cmd1];
    assert (0xff as bv8) & 0x04 != 0;
  }

  lemma {:induction false} ResetFirst(trace: seq<Exchange>, i: nat)
    requires Protocol(trace) != Broken && i <= |trace|
    ensures Protocol(trace[..i]) != Resetting
       <==> exists j :: 0 <= j < i && trace[j].cmd == 0 && Answered(trace[j], IDLE)
    decreases i
  {
    if i > 0 {
      PrefixUnbroken(trace, i - 1);
      PrefixUnbroken(trace, i);
      ResetFirst(trace, i - 1);
      hide Protocol;
    }
  }

  /** A completed initialisation: CMD0 was answered idle, CMD8 was tried once or twice, and the last
      exchange is either CMD58 answered ready after an ACMD41 that was, or CMD1 answered ready on a
      card that refused CMD8, after two flagged CMD55 attempts in a row. */
  lemma CompletedTrace(trace: seq<Exchange>)
    requires Protocol(trace) == Done
    ensures trace != [] && Answered(trace[|trace| - 1], READY)
    ensures (trace[|trace| - 1].cmd == 58 && CardReady(trace) && Args41(trace, ProbeEchoed(trace)))
      || (trace[|trace| - 1].cmd == 1 && ProbeRefused(trace) && FlagRun(trace) >= 2)
    ensures 1 <= Probes(trace) <= 2
    ensures exists j :: 0 <= j < |trace| && trace[j].cmd == 0 && Answered(trace[j], IDLE)
  {
    PhaseRemembers(trace);
    ResetFirst(trace, |trace|);
    assert trace[..|trace|] == trace;
  }
}
