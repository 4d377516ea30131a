/** `stack_trace_t`: a fixed-capacity stack of 64-bit frame values with a
    32-bit length and a truncation flag, the packing of a synthetic
    (line, symbol id) frame, and the key derived from a stack by `hash_stack`. */
module StackTraces {

  import Builtins

  const MAX_STACK_DEPTH: nat := 127

  /** The C `u32` of the `len` field. */
  newtype u32 = x: int | 0 <= x < 0x1_0000_0000

  /** A 64-bit stack key. Keys are only hashed out and compared, never
      taken apart, so they are kept as integers rather than bit-vectors. */
  newtype u64 = x: int | 0 <= x < 0x1_0000_0000_0000_0000

  /** A `stack_trace_t` by value, as a map stores it. */
  datatype StackTraceValue = StackTraceValue(len: u32, truncated: bool, addresses: seq<bv64>)
  {
    /** The layout of the C struct: exactly MAX_STACK_DEPTH address slots. */
    predicate Layout()
    {
      |addresses| == MAX_STACK_DEPTH
    }

    /** The bound every filled stack keeps: `0 <= len <= MAX_STACK_DEPTH`. */
    predicate WithinCapacity()
    {
      len as nat <= MAX_STACK_DEPTH
    }

    /** The entries below `len`; the only ones a consumer may read. */
    function Frames(): (frames: seq<bv64>)
      requires len as nat <= |addresses|
    {
      addresses[..len as nat]
    }
  }

  /** A stack after `memset(&stack, 0, sizeof(stack_trace_t))`. */
  function ZeroStack(): (s: StackTraceValue)
    ensures s.Layout() && s.WithinCapacity()
    ensures s.len == 0 && !s.truncated
    ensures forall i :: 0 <= i < |s.addresses| ==> s.addresses[i] == 0
  {
    StackTraceValue(0, false, seq(MAX_STACK_DEPTH, _ => 0))
  }

  /** The in-place `stack_trace_t` of an unwinder state. */
  class StackTrace {
    var len: u32
    var truncated: bool
    const addresses: array<bv64>

    ghost predicate Valid()
      reads this
    {
      addresses.Length == MAX_STACK_DEPTH
    }

    /** The struct's current contents as a value. */
    function Value(): (v: StackTraceValue)
      reads this, addresses
    {
      StackTraceValue(len, truncated, addresses[..])
    }

    /** A freshly allocated buffer: its contents are unspecified, as those of
        uninitialised memory are. */
    constructor ()
      ensures Valid() && fresh(addresses)
    {
      addresses := new bv64[MAX_STACK_DEPTH];
    }

    /** `__builtin_memset(&stack, 0, sizeof(stack_trace_t))`. */
    method Clear()
      requires Valid()
      modifies this, addresses
      ensures Valid() && Value() == ZeroStack()
    {
      len := 0;
      truncated := false;
      Builtins.Memset(addresses, 0);
    }
  }

  /** A synthetic frame: the line number in the upper 32 bits, or-ed with the
      symbol id, in 64-bit arithmetic (`(lineno << 32) | id`). The line's
      upper 32 bits are shifted out; an id of 2^32 or more spills into the
      line half. */
  function Pack(lineno: bv64, id: bv64): (frame: bv64)
    ensures FrameLine(frame) == (lineno | (id >> 32)) & 0xFFFF_FFFF
    ensures FrameSymbol(frame) == id & 0xFFFF_FFFF
  {
    (lineno << 32) | id
  }

  /** The line half of a packed frame, as a consumer reads it back. */
  function FrameLine(frame: bv64): (line: bv64)
  {
    frame >> 32
  }

  /** The symbol-id half of a packed frame. */
  function FrameSymbol(frame: bv64): (id: bv64)
  {
    frame & 0xFFFF_FFFF
  }

  /** Line and id that both fit in 32 bits come back out of a packed frame. */
  lemma PackRoundTrip(lineno: bv64, id: bv64)
    requires lineno <= 0xFFFF_FFFF && id <= 0xFFFF_FFFF
    ensures FrameLine(Pack(lineno, id)) == lineno
    ensures FrameSymbol(Pack(lineno, id)) == id
  {
  }

  /** Every 64-bit frame is the packing of its two halves. */
  lemma UnpackRoundTrip(frame: bv64)
    ensures FrameLine(frame) <= 0xFFFF_FFFF && FrameSymbol(frame) <= 0xFFFF_FFFF
    ensures Pack(FrameLine(frame), FrameSymbol(frame)) == frame
  {
  }

  /** An id of 2^32 or more does not survive the packing. */
  lemma PackWideIdLost(lineno: bv64, id: bv64)
    requires id > 0xFFFF_FFFF
    ensures FrameSymbol(Pack(lineno, id)) != id
  {
  }

  /** The abstract `hash_stack(stack, discriminant)`: any function of the
      length, the live entries and the discriminant. */
  type StackHasher = (u32, seq<bv64>, bv64) -> u64

  /** `hash_stack(&stack, discriminant)`: reads `len` and `addresses[0..len)`
      and nothing else. */
  function HashStack(s: StackTraceValue, discriminant: bv64, hash: StackHasher): (key: u64)
    requires s.len as nat <= |s.addresses|
    ensures key == hash(s.len, s.addresses[..s.len as nat], discriminant)
  {
    hash(s.len, s.Frames(), discriminant)
  }

  /** Stacks with the same length and the same live entries get the same key
      under the same discriminant, whatever lies past `len` and whatever
      their `truncated` flags say. */
  lemma HashDeterministic(s1: StackTraceValue, s2: StackTraceValue, discriminant: bv64, hash: StackHasher)
    requires s1.len as nat <= |s1.addresses| && s2.len as nat <= |s2.addresses|
    requires s1.len == s2.len
    requires forall i :: 0 <= i < s1.len as nat ==> s1.addresses[i] == s2.addresses[i]
    ensures HashStack(s1, discriminant, hash) == HashStack(s2, discriminant, hash)
  {
    assert s1.Frames() == s2.Frames();
  }
}
