/** ESP-IDF error codes that the modelled functions return. */
module EspErr {
  datatype Err =
    | Ok | Fail | NoMem | InvalidArg | InvalidState | InvalidSize | NotFound | Timeout
    | InvalidResponse | InvalidCrc
}

module Options {
  datatype Option<+T> = None | Some(value: T)
}

module Powers {
  function Pow2(k: nat): nat {
    if k == 0 then 1 else 2 * Pow2(k - 1)
  }

  lemma {:induction false} Pow2Positive(k: nat)
    ensures Pow2(k) >= 1
  {
    if k > 0 {
      Pow2Positive(k - 1);
    }
  }
}
