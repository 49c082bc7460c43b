/** The budget one request shares between all its provider calls. Each method is
    one lock region, so any interleaving of workers is a sequence of calls. */
module WorkBudget {
  import opened Options

  /** Why work was refused; never empty. */
  type Reason = s: string | s != "" witness "deadline"

  datatype Reservation = Reservation(inputBytes: nat, outputTokens: nat)

  function InputBytes(log: seq<Reservation>): nat {
    if log == [] then 0 else InputBytes(log[..|log| - 1]) + log[|log| - 1].inputBytes
  }

  function OutputTokens(log: seq<Reservation>): nat {
    if log == [] then 0 else OutputTokens(log[..|log| - 1]) + log[|log| - 1].outputTokens
  }

  datatype Admission = Admitted | Refused(reason: Reason) | Rejected

  class Budget {
    const maxAttempts: nat
    const maxInputBytes: nat
    const maxOutputTokens: nat
    const deadline: int
    var attempts: nat
    var inputBytes: nat
    var outputTokens: nat
    var cancelReason: Option<Reason>
    /** Every reservation granted so far. */
    ghost var granted: seq<Reservation>

    /** The counters are exactly what was granted, and never exceed their caps. */
    ghost predicate Valid()
      reads this
    {
      && attempts == |granted| <= maxAttempts
      && inputBytes == InputBytes(granted) <= maxInputBytes
      && outputTokens == OutputTokens(granted) <= maxOutputTokens
    }

    constructor (maxAttempts: nat, maxInputBytes: nat, maxOutputTokens: nat, deadline: int)
      ensures Valid() && granted == [] && cancelReason == None
      ensures this.maxAttempts == maxAttempts && this.maxInputBytes == maxInputBytes
      ensures this.maxOutputTokens == maxOutputTokens && this.deadline == deadline
    {
      this.maxAttempts, this.maxInputBytes := maxAttempts, maxInputBytes;
      this.maxOutputTokens, this.deadline := maxOutputTokens, deadline;
      attempts, inputBytes, outputTokens := 0, 0, 0;
      cancelReason, granted := None, [];
    }

    /** Only the first reason is kept; an empty one is a caller's error. */
    method Cancel(reason: string) returns (accepted: bool)
      requires Valid()
      modifies this`cancelReason
      ensures Valid()
      ensures accepted <==> reason != ""
      ensures cancelReason ==
              if old(cancelReason).None? && accepted then Some(reason) else old(cancelReason)
    {
      if reason == "" { return false; }
      if cancelReason.None? { cancelReason := Some(reason); }
      accepted := true;
    }

    /** Why new work is forbidden at time `now`, whatever its size. */
    ghost function Closed(now: int): Option<Reason>
      reads this
    {
      if cancelReason.Some? then cancelReason
      else if now >= deadline then Some("deadline")
      else None
    }

    method EnsureActive(now: int) returns (r: Admission)
      requires Valid()
      ensures r == if cancelReason.Some? then Refused(cancelReason.value)
                   else if now >= deadline then Refused("deadline")
                   else Admitted
    {
      if cancelReason.Some? { return Refused(cancelReason.value); }
      if now >= deadline { return Refused("deadline"); }
      r := Admitted;
    }

    /** One provider call is reserved, or nothing changes. */
    method ReserveAttempt(bytes: nat, tokens: int, now: int) returns (r: Admission)
      requires Valid()
      modifies this`attempts, this`inputBytes, this`outputTokens, this`granted
      ensures Valid()
      ensures r == Rejected <==> tokens <= 0
      ensures r == Admitted <==>
              && tokens > 0
              && old(cancelReason) == None && now < deadline
              && old(attempts) < maxAttempts
              && old(inputBytes) + bytes <= maxInputBytes
              && old(outputTokens) + tokens <= maxOutputTokens
      ensures r == Admitted ==>
                && granted == old(granted) + [Reservation(bytes, tokens)] && attempts == old(attempts) + 1
                && inputBytes == old(inputBytes) + bytes && outputTokens == old(outputTokens) + tokens
      ensures r != Admitted ==>
                && granted == old(granted) && attempts == old(attempts)
                && inputBytes == old(inputBytes) && outputTokens == old(outputTokens)
      ensures tokens > 0 && old(cancelReason).Some? ==> r == Refused(old(cancelReason).value)
      ensures tokens > 0 && old(cancelReason).None? && now >= deadline ==> r == Refused("deadline")
      ensures r.Refused? && old(cancelReason) == None && now < deadline ==>
                r.reason == if old(attempts) >= maxAttempts then "attempts"
                            else if old(inputBytes) + bytes > maxInputBytes then "input_bytes"
                            else "output_tokens"
    {
      if tokens <= 0 { return Rejected; }
      if cancelReason.Some? { return Refused(cancelReason.value); }
      if now >= deadline { return Refused("deadline"); }
      if attempts + 1 > maxAttempts { return Refused("attempts"); }
      if inputBytes + bytes > maxInputBytes { return Refused("input_bytes"); }
      if outputTokens + tokens > maxOutputTokens { return Refused("output_tokens"); }
      attempts := attempts + 1;
      inputBytes := inputBytes + bytes;
      outputTokens := outputTokens + tokens;
      granted := granted + [Reservation(bytes, tokens)];
      r := Admitted;
    }
  }
}
