/** Writing byte strings into fixed-size buffers. */
module Buffers {
  import opened Types

  /** `slice` with `bytes` written from index `at` on. */
  function Patch(slice: seq<u8>, at: nat, bytes: seq<u8>): (r: seq<u8>)
    requires at + |bytes| <= |slice|
    ensures |r| == |slice|
  {
    slice[..at] + bytes + slice[at + |bytes|..]
  }

  /** `copy_from_slice` into `buf[at..at + |bytes|]`. */
  method WriteAt(buf: array<u8>, at: nat, bytes: seq<u8>)
    requires at + |bytes| <= buf.Length
    modifies buf
    ensures buf[..] == Patch(old(buf[..]), at, bytes)
  {
    for i := 0 to |bytes|
      invariant forall j | 0 <= j < buf.Length ::
          buf[j] == if at <= j < at + i then bytes[j - at] else old(buf[j])
    {
      buf[at + i] := bytes[i];
    }
  }
}
