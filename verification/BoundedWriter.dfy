/** The codecs' output buffer: whole slices or nothing, under a maximum, growing by clipped doubling. */
module BoundedWriter {
  import opened Bytes

  /** The capacity after growing from `capacity` for `required` bytes. */
  function Grown(capacity: nat, required: nat, maximum: nat): nat {
    Min(Max(Max(2 * capacity, required), 64), maximum)
  }

  datatype Op = Op(slice: seq<byte>, allocates: bool)

  /** Contents, capacity, and the bytes moved by all regrowths so far. */
  datatype Buffer = Buffer(bytes: seq<byte>, capacity: nat, moved: nat)

  /** `allocates` is the allocator's answer, if it is asked. */
  predicate Accepts(maximum: nat, b: Buffer, op: Op) {
    |b.bytes| + |op.slice| <= maximum && (|b.bytes| + |op.slice| <= b.capacity || op.allocates)
  }

  function Written(maximum: nat, b: Buffer, op: Op): Buffer {
    if !Accepts(maximum, b, op) then b
    else
      var required := |b.bytes| + |op.slice|;
      if required > b.capacity
      then Buffer(b.bytes + op.slice, Grown(b.capacity, required, maximum), b.moved + |b.bytes|)
      else Buffer(b.bytes + op.slice, b.capacity, b.moved)
  }

  /**
   The contents fit the capacity and the capacity the maximum. Until growth is clipped the capacity pays for all
   past moves; and the contents always do, twice over.
   */
  predicate Sound(maximum: nat, b: Buffer) {
    && |b.bytes| <= b.capacity <= maximum
    && (b.capacity < maximum ==> b.moved <= b.capacity)
    && (b.moved == 0 || b.moved < 2 * |b.bytes|)
  }

  class Writer {
    var bytes: seq<byte>
    var capacity: nat
    const maximum: nat
    ghost var moved: nat

    ghost function State(): Buffer
      reads this
    {
      Buffer(bytes, capacity, moved)
    }

    constructor (maximum: nat)
      ensures State() == Buffer([], 0, 0) && this.maximum == maximum
    {
      this.maximum := maximum;
      bytes, capacity := [], 0;
      moved := 0;
    }

    /** Appends the whole slice and reports success, or changes nothing. */
    method Write(slice: seq<byte>, allocates: bool) returns (ok: bool)
      requires Sound(maximum, State())
      modifies this
      ensures ok <==> Accepts(maximum, old(State()), Op(slice, allocates))
      ensures State() == Written(maximum, old(State()), Op(slice, allocates))
      ensures Sound(maximum, State())
    {
      var required := |bytes| + |slice|;
      if required > maximum { return false; }
      if required > capacity {
        var grown := Min(Max(Max(2 * capacity, required), 64), maximum);
        if !allocates { return false; }
        moved := moved + |bytes|;
        capacity := grown;
      }
      bytes := bytes + slice;
      ok := true;
    }
  }

  // ---- any sequence of writes ----

  function Run(maximum: nat, b: Buffer, ops: seq<Op>): Buffer
    decreases |ops|
  {
    if ops == [] then b else Run(maximum, Written(maximum, b, ops[0]), ops[1..])
  }

  /** The slices of `ops` that are accepted, in order, one after the other. */
  function AcceptedBytes(maximum: nat, b: Buffer, ops: seq<Op>): seq<byte>
    decreases |ops|
  {
    if ops == [] then []
    else
      (if Accepts(maximum, b, ops[0]) then ops[0].slice else [])
      + AcceptedBytes(maximum, Written(maximum, b, ops[0]), ops[1..])
  }

  lemma WrittenIsSound(maximum: nat, b: Buffer, op: Op)
    requires Sound(maximum, b)
    ensures Sound(maximum, Written(maximum, b, op))
  {
  }

  /** After any sequence of writes: exactly the accepted bytes, within the maximum, moved fewer than twice their number. */
  lemma {:induction false} RunHoldsWhatItAccepted(maximum: nat, b: Buffer, ops: seq<Op>)
    requires Sound(maximum, b)
    ensures var e := Run(maximum, b, ops);
      && e.bytes == b.bytes + AcceptedBytes(maximum, b, ops)
      && |e.bytes| <= e.capacity <= maximum
      && (e.moved == 0 || e.moved < 2 * |e.bytes|)
      && Sound(maximum, e)
    decreases |ops|
  {
    if ops == [] {
    } else {
      WrittenIsSound(maximum, b, ops[0]);
      RunHoldsWhatItAccepted(maximum, Written(maximum, b, ops[0]), ops[1..]);
    }
  }
}
