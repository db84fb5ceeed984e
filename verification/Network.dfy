/**
 The transport as the worker meets it: every send and every backoff sleep is one
 await, whose outcome the environment decides, and during which an armed
 shutdown deadline may expire.
 */
module Network {
  import opened Bytes

  datatype SendResult = Ok | Failed | Cancelled

  datatype Attempt = Attempt(frame: seq<byte>, result: SendResult)

  class Net {
    /** Whether the collector accepts the frame of the i-th await. */
    const accepts: nat -> bool

    /** Whether a deadline, if armed, expires during the i-th await. */
    const expires: nat -> bool

    var awaits: nat
    ghost var attempts: seq<Attempt>

    constructor (accepts: nat -> bool, expires: nat -> bool)
      ensures this.accepts == accepts && this.expires == expires && attempts == []
    {
      this.accepts := accepts;
      this.expires := expires;
      awaits := 0;
      attempts := [];
    }

    method Send(frame: seq<byte>, armed: bool) returns (r: SendResult)
      modifies this
      ensures attempts == old(attempts) + [Attempt(frame, r)]
      ensures r.Cancelled? ==> armed
    {
      r := if armed && expires(awaits) then Cancelled else if accepts(awaits) then Ok else Failed;
      awaits := awaits + 1;
      attempts := attempts + [Attempt(frame, r)];
    }

    method Sleep(armed: bool) returns (cut: bool)
      modifies this`awaits
      ensures cut ==> armed
    {
      cut := armed && expires(awaits);
      awaits := awaits + 1;
    }
  }
}
