/** `strip_utf_strlcpy` and `malloc_ascii_cstring`: the bounded copy that
    turns Rust strings into NUL-terminated C strings for the frontend's log,
    dropping every byte of a multi-byte UTF-8 sequence. */
module AsciiCopy {
  import opened Common

  /** Whether a byte is 7-bit ASCII (its bit 0x80 is clear). */
  predicate IsAscii(b: u8)
  {
    b < 0x80
  }

  /** The ASCII bytes of `src`, in order. */
  function StripHigh(src: seq<u8>): (r: seq<u8>)
    ensures |r| <= |src|
    ensures forall b :: b in r ==> b in src && IsAscii(b)
  {
    if |src| == 0 then []
    else if IsAscii(src[|src| - 1]) then StripHigh(src[..|src| - 1]) + [src[|src| - 1]]
    else StripHigh(src[..|src| - 1])
  }

  /** Stripping distributes over concatenation. */
  lemma {:induction false} StripHighConcat(a: seq<u8>, b: seq<u8>)
    ensures StripHigh(a + b) == StripHigh(a) + StripHigh(b)
  {
    if |b| > 0 {
      var last := b[|b| - 1];
      assert (a + b)[..|a + b| - 1] == a + b[..|b| - 1];
      StripHighConcat(a, b[..|b| - 1]);
    } else {
      assert a + b == a;
    }
  }

  /** Stripping keeps exactly the bytes with bit 0x80 clear: an ASCII byte
      string is its own stripped form, and a string with none has an empty
      one. */
  lemma {:induction false} StripHighKeepsAscii(src: seq<u8>)
    ensures (forall i :: 0 <= i < |src| ==> IsAscii(src[i])) ==> StripHigh(src) == src
    ensures (forall i :: 0 <= i < |src| ==> !IsAscii(src[i])) ==> StripHigh(src) == []
  {
    if |src| > 0 {
      StripHighKeepsAscii(src[..|src| - 1]);
      assert src[..|src| - 1] + [src[|src| - 1]] == src;
    }
  }

  /** One more source byte adds itself to the stripped prefix if it is
      ASCII, and nothing otherwise. */
  lemma StripStep(src: seq<u8>, j: nat)
    requires j < |src|
    ensures StripHigh(src[..j + 1]) == StripHigh(src[..j]) + if IsAscii(src[j]) then [src[j]] else []
  {
    assert src[..j + 1][..j] == src[..j];
  }

  /** The stripped form of a prefix is a prefix of the stripped form. */
  lemma StripPrefix(src: seq<u8>, j: nat)
    requires j <= |src|
    ensures |StripHigh(src[..j])| <= |StripHigh(src)|
    ensures StripHigh(src[..j]) == StripHigh(src)[..|StripHigh(src[..j])|]
  {
    StripHighConcat(src[..j], src[j..]);
    assert src[..j] + src[j..] == src;
  }

  /** The room left for the copy: the stripped length, cut at `dst_size - 1`. */
  function CopyLength(src: seq<u8>, dstSize: nat): nat
    requires dstSize >= 1
  {
    if |StripHigh(src)| < dstSize - 1 then |StripHigh(src)| else dstSize - 1
  }

  /** `strip_utf_strlcpy(dst, src, dst_size)` with the `dst_size` bytes at
      `dst` given as `dst`: copy the ASCII bytes of `src` while room is left
      for the terminator, then write a NUL. A zero-sized buffer is left
      alone; a one-byte buffer receives only the NUL. */
  method StripUtfStrlcpy(dst: seq<u8>, src: seq<u8>) returns (out: seq<u8>)
    ensures |out| == |dst|
    ensures |dst| == 0 ==> out == dst
    ensures |dst| >= 1 ==>
      var k := CopyLength(src, |dst|);
      out[..k] == StripHigh(src)[..k] && out[k] == 0 && out[k + 1..] == dst[k + 1..]
  {
    if |dst| == 0 {
      return dst;
    }
    if |dst| == 1 {
      return [0];
    }
    var offset;
    out, offset := CopyAscii(dst, src);
    out := out[offset := 0];
  }

  /** The copy loop of `strip_utf_strlcpy` for `dst_size >= 2`: the bytes
      copied and the offset where the terminator goes. */
  method CopyAscii(dst: seq<u8>, src: seq<u8>) returns (out: seq<u8>, offset: nat)
    requires |dst| >= 2
    ensures |out| == |dst| && offset == CopyLength(src, |dst|)
    ensures out[..offset] == StripHigh(src)[..offset]
    ensures out[offset..] == dst[offset..]
  {
    out := dst;
    offset := 0;
    var last := |dst| - 1;
    var j := 0;
    while j < |src|
      invariant 0 <= j <= |src| && 0 <= offset < last && |out| == |dst|
      invariant out[..offset] == StripHigh(src[..j])
      invariant out[offset..] == dst[offset..]
    {
      StripStep(src, j);
      if IsAscii(src[j]) {
        WriteAt(out, dst, offset, src[j]);
        out := out[offset := src[j]];
        offset := offset + 1;
        if offset == last {
          j := j + 1;
          break;
        }
      }
      j := j + 1;
    }
    Terminate(src, j, |dst|, offset);
  }

  /** Writing byte `b` at `offset` extends the written prefix by `b` and
      leaves the rest of the buffer as it was. */
  lemma WriteAt(out: seq<u8>, dst: seq<u8>, offset: nat, b: u8)
    requires |out| == |dst| && offset < |out| && out[offset..] == dst[offset..]
    ensures out[offset := b][..offset + 1] == out[..offset] + [b]
    ensures out[offset := b][offset + 1..] == dst[offset + 1..]
  {
    assert out[offset + 1..] == out[offset..][1..];
  }

  /** Where the loop stops, the copy is the stripped source cut at the
      room left: either the source ran out before the room, or the room ran
      out. */
  lemma Terminate(src: seq<u8>, j: nat, dstSize: nat, offset: nat)
    requires j <= |src| && dstSize >= 2 && offset == |StripHigh(src[..j])|
    requires j == |src| || offset == dstSize - 1
    requires offset <= dstSize - 1
    ensures offset == CopyLength(src, dstSize)
    ensures StripHigh(src[..j]) == StripHigh(src)[..offset]
  {
    StripPrefix(src, j);
    assert j == |src| ==> src[..j] == src;
  }

  /** `malloc_ascii_cstring`: a buffer of `|src| + 1` bytes (the
      uninitialised bytes `malloc` returns are `garbage`) receives the
      stripped copy. */
  method MallocAsciiCString(src: seq<u8>, garbage: seq<u8>) returns (out: seq<u8>)
    requires |garbage| == |src| + 1
    ensures |out| == |src| + 1
    ensures out[..|StripHigh(src)| + 1] == StripHigh(src) + [0]
  {
    out := StripUtfStrlcpy(garbage, src);
  }
}
