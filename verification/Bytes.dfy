/** Byte strings. Strings of the program are modelled by their UTF-8 bytes. */
module Bytes {
  type byte = b: int | 0 <= b < 256
  type Bytes = seq<byte>

  datatype Option<+T> = None | Some(value: T)

  function Zeros(n: nat): (z: Bytes)
    ensures |z| == n && forall i :: 0 <= i < n ==> z[i] == 0
  {
    seq(n, i => 0)
  }

  /** `s.subarray(from, to)` with its clamping; both bounds are non-negative here. */
  function Sub(s: Bytes, from: nat, to: nat): Bytes {
    var hi := if to < |s| then to else |s|;
    if from <= hi then s[from..hi] else []
  }

  /** First position of `b` at or after `from`, or -1. */
  function IndexOf(s: Bytes, b: byte, from: nat): (i: int)
    ensures i == -1 <==> forall k :: from <= k < |s| ==> s[k] != b
    ensures i != -1 ==> from <= i < |s| && s[i] == b && forall k :: from <= k < i ==> s[k] != b
    decreases |s| - from
  {
    if from >= |s| then -1
    else if s[from] == b then from
    else IndexOf(s, b, from + 1)
  }

  /** `bytes` stored over `s` from `at` on. */
  function Put(s: Bytes, at: nat, bytes: Bytes): (r: Bytes)
    requires at + |bytes| <= |s|
    ensures |r| == |s|
  {
    s[..at] + bytes + s[at + |bytes|..]
  }

  /** `block.set(bytes, at)` */
  method SetBytes(block: array<byte>, at: nat, bytes: Bytes)
    requires at + |bytes| <= block.Length
    modifies block
    ensures block[..] == Put(old(block[..]), at, bytes)
  {
    for i := 0 to |bytes|
      invariant block[..at] == old(block[..at])
      invariant block[at..at + i] == bytes[..i]
      invariant block[at + i..] == old(block[at + i..])
    {
      block[at + i] := bytes[i];
      assert block[at..at + i + 1] == block[at..at + i] + [bytes[i]];
      assert bytes[..i + 1] == bytes[..i] + [bytes[i]];
    }
    assert block[..] == block[..at] + block[at..at + |bytes|] + block[at + |bytes|..];
  }
}
