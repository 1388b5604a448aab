/** Waiting for an R1 response on the SPI bus and sending one SD command. */
module SdResponse {
  import opened EspErr
  import opened Options

  /** One byte clocked in, or a failed transfer. */
  datatype Sample = Byte(b: bv8) | BusError

  const IDLE: bv8 := 0x01
  const READY: bv8 := 0x00
  const ILLEGAL: bv8 := 0x05

  /** What the wait returns: the error, the byte left for the caller if any, how many bytes it
      sampled, and the 1-based place of the accepted byte (-1 for none). */
  datatype Wait = Wait(err: Err, out: Option<bv8>, sampled: nat, index: int)

  function OneIf(b: bool): nat {
    if b then 1 else 0
  }

  function Popcount(b: bv8): nat {
    OneIf(b & 1 != 0) + OneIf(b & 2 != 0) + OneIf(b & 4 != 0) + OneIf(b & 8 != 0)
    + OneIf(b & 16 != 0) + OneIf(b & 32 != 0) + OneIf(b & 64 != 0) + OneIf(b & 128 != 0)
  }

  function Min(a: nat, b: nat): nat {
    if a < b then a else b
  }

  // ----- the simple scan

  predicate Accepted(b: bv8, initFilter: bool, allowIllegal: bool) {
    if initFilter then b == READY || b == IDLE || (allowIllegal && b == ILLEGAL) else b & 0x80 == 0
  }

  predicate Stops(s: Sample, initFilter: bool, allowIllegal: bool) {
    s.BusError? || Accepted(s.b, initFilter, allowIllegal)
  }

  /** k is where the scan of the first limit samples ends: at the first failed transfer or accepted
      byte, or at limit. */
  ghost predicate EndsAt(bus: nat -> Sample, limit: nat, initFilter: bool, allowIllegal: bool, k: nat) {
    && k <= limit
    && (forall i: nat :: i < k ==> !Stops(bus(i), initFilter, allowIllegal))
    && (k < limit ==> Stops(bus(k), initFilter, allowIllegal))
  }

  ghost predicate AllIdle(bus: nat -> Sample, n: nat) {
    forall i: nat :: i < n ==> bus(i) == Byte(0xff)
  }

  /** The result that belongs to a scan ending at k. */
  ghost predicate WaitEnds(bus: nat -> Sample, limit: nat, initFilter: bool, allowIllegal: bool, w: Wait, k: nat) {
    && EndsAt(bus, limit, initFilter, allowIllegal, k)
    && if k == limit then
         && w.err == (if AllIdle(bus, limit) then Timeout else InvalidResponse)
         && w.out == Some(if limit == 0 then 0xff else bus(limit - 1).b)
         && w.index == -1 && w.sampled == limit
       else if bus(k).BusError? then
         w == Wait(Fail, None, k, -1)
       else
         w == Wait(Ok, Some(bus(k).b), k + 1, k + 1)
  }

  // ----- the loop

  /** The verdict of the popcount and noise rules on a byte with bit 7 clear. */
  datatype Verdict = Accept | Ignore | Noise

  method Filter(rx: bv8, allowIllegal: bool) returns (v: Verdict)
    requires rx & 0x80 == 0
    ensures v == if Accepted(rx, true, allowIllegal) then Accept else Noise
  {
    var isIdle, isReady, isIllegal := rx == IDLE, rx == READY, rx == ILLEGAL;
    var errorBits := rx & 0x7e;
    var errorCount := Popcount(errorBits);
    var fatalNoise := rx == 0x5f || errorCount >= 3 || errorBits & 0x60 != 0;
    SmallBytes(rx);
    if fatalNoise {
      return Noise;
    }
    if !isIdle && !isReady && !(allowIllegal && isIllegal) {
      if errorBits != 0 {
        return Noise;
      }
      return Ignore;
    }
    return Accept;
  }

  lemma SmallBytes(rx: bv8)
    requires rx & 0x80 == 0
    ensures rx & 0x7e == 0 <==> rx == IDLE || rx == READY
    ensures rx == IDLE || rx == READY || rx == ILLEGAL ==> Popcount(rx & 0x7e) <= 1 && (rx & 0x7e) & 0x60 == 0
  {
    NoErrorBits(rx);
    if rx == ILLEGAL {
      assert rx & 0x7e == 0x04;
      assert Popcount(0x04) == 1;
    }
    assert Popcount(0) == 0;
  }

  lemma NoErrorBits(rx: bv8)
    requires rx & 0x80 == 0
    ensures rx & 0x7e == 0 <==> rx == 0x01 || rx == 0x00
  {
  }

  /** The wait succeeds exactly when such a byte comes in time and before any failed transfer: with the
      filter 0x00, 0x01 and, where it is allowed, 0x05; without it any byte with bit 7 clear. */
  lemma WaitMeans(bus: nat -> Sample, limit: nat, initFilter: bool, allowIllegal: bool, w: Wait, k: nat)
    requires WaitEnds(bus, limit, initFilter, allowIllegal, w, k)
    ensures w.err == Ok
       <==> exists i: nat :: i < limit && bus(i).Byte? && (forall j: nat :: j < i ==> bus(j).Byte?)
              && var b := bus(i).b;
                 if initFilter then b == 0x00 || b == 0x01 || (allowIllegal && b == 0x05) else b & 0x80 == 0
  {
    if w.err == Ok {
      assert !bus(k).BusError?;
    }
  }

  /** Waits for an R1 byte among at most maxBytes samples; inTime is the number of samples the
      deadline allows. With the init filter on, the noise rules amount to accepting the first byte of
      a small set and reporting whether anything but idle bytes was seen. */
  method WaitForR1(handle: bool, bus: nat -> Sample, inTime: nat, maxBytes: nat, initFilter: bool, allowIllegal: bool)
    returns (w: Wait)
    ensures !handle ==> w == Wait(InvalidState, None, 0, -1)
    ensures handle ==>
      exists k: nat :: WaitEnds(bus, Min(maxBytes, inTime), initFilter, allowIllegal, w, k)
  {
    if !handle {
      return Wait(InvalidState, None, 0, -1);
    }
    ghost var limit := Min(maxBytes, inTime);
    var lastSeen: bv8 := 0xff;
    var invalidSeen := false;
    var sampled := 0;
    while sampled < maxBytes && sampled < inTime
      invariant sampled <= limit
      invariant forall i: nat :: i < sampled ==> !Stops(bus(i), initFilter, allowIllegal)
      invariant invalidSeen <==> !AllIdle(bus, sampled)
      invariant lastSeen == if sampled == 0 then 0xff else bus(sampled - 1).b
    {
      var s := bus(sampled);
      if s.BusError? {
        w := Wait(Fail, None, sampled, -1);
        assert WaitEnds(bus, limit, initFilter, allowIllegal, w, sampled);
        return;
      }
      var rx := s.b;
      lastSeen := rx;
      sampled := sampled + 1;
      assert bus(sampled - 1) == Byte(rx);
      if rx == 0xff {
        continue;
      }
      if rx & 0x80 != 0 {
        assert !Accepted(rx, initFilter, allowIllegal);
        invalidSeen := true;
        continue;
      }
      if initFilter {
        var v := Filter(rx, allowIllegal);
        if v == Noise {
          invalidSeen := true;
          continue;
        }
        if v == Ignore {
          continue;
        }
      }
      w := Wait(Ok, Some(rx), sampled, sampled);
      assert WaitEnds(bus, limit, initFilter, allowIllegal, w, sampled - 1);
      return;
    }
    w := Wait(if invalidSeen then InvalidResponse else Timeout, Some(lastSeen), sampled, -1);
    assert WaitEnds(bus, limit, initFilter, allowIllegal, w, limit);
  }
}
