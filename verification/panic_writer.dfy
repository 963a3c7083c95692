/** The writer `panic_fmt` formats a panic message into before handing it to
    the frontend's log: a fixed 1024-byte buffer filled from the front. */
module PanicWriter {
  import opened Common

  const PANIC_BUFFER_SIZE: nat := 1024

  datatype Writer = Writer(buffer: seq<u8>, offset: nat)

  /** `core::fmt::Result`; `write` never produces the error. */
  datatype FmtResult = Ok | FormatError

  datatype WriteOutcome =
    | Returned(writer: Writer, result: FmtResult)
      /** `slice_mut` past the end of the buffer, or `copy_memory` into a
          tail too short for the bytes. */
    | Panicked

  /** The writer `panic_fmt` starts with. */
  function NewWriter(): (w: Writer)
    ensures |w.buffer| == PANIC_BUFFER_SIZE && w.offset == 0
    ensures forall i :: 0 <= i < |w.buffer| ==> w.buffer[i] == 0
  {
    Writer(Repeat(0, PANIC_BUFFER_SIZE), 0)
  }

  /** `write(bytes)`: copy the bytes into the tail of the buffer starting
      at the offset and advance the offset past them. */
  function Append(w: Writer, bytes: seq<u8>): (r: WriteOutcome)
    ensures r.Returned? <==> w.offset + |bytes| <= |w.buffer|
    ensures r.Returned? ==>
      var o, n := w.offset, w.offset + |bytes|;
      r.result == Ok && r.writer.offset == n && |r.writer.buffer| == |w.buffer| &&
      r.writer.buffer[..o] == w.buffer[..o] &&
      r.writer.buffer[o..n] == bytes &&
      r.writer.buffer[n..] == w.buffer[n..]
  {
    if w.offset > |w.buffer| then Panicked
    else if |bytes| > |w.buffer| - w.offset then Panicked
    else
      var o := w.offset;
      var buffer := w.buffer[..o] + bytes + w.buffer[o + |bytes|..];
      assert buffer[o..o + |bytes|] == bytes;
      Returned(Writer(buffer, o + |bytes|), Ok)
  }

  /** `write` as the source performs it: take the tail slice, copy the
      bytes into it one by one, advance the offset. */
  method Write(w: Writer, bytes: seq<u8>) returns (r: WriteOutcome)
    ensures r == Append(w, bytes)
  {
    if w.offset > |w.buffer| || |bytes| > |w.buffer| - w.offset {
      return Panicked;
    }
    var buf := new u8[|w.buffer|](i requires 0 <= i < |w.buffer| => w.buffer[i]);
    var k := 0;
    while k < |bytes|
      invariant 0 <= k <= |bytes|
      invariant buf[..] == w.buffer[..w.offset] + bytes[..k] + w.buffer[w.offset + k..]
    {
      buf[w.offset + k] := bytes[k];
      k := k + 1;
    }
    assert bytes[..k] == bytes;
    r := Returned(Writer(buf[..], w.offset + |bytes|), Ok);
  }

  /** All chunks in order. */
  function Concat(chunks: seq<seq<u8>>): seq<u8>
  {
    if |chunks| == 0 then [] else Concat(chunks[..|chunks| - 1]) + chunks[|chunks| - 1]
  }

  /** The `write` calls one formatted message makes, one chunk each,
      stopping at the first panic. */
  function AppendAll(w: Writer, chunks: seq<seq<u8>>): WriteOutcome
  {
    if |chunks| == 0 then Returned(w, Ok)
    else match AppendAll(w, chunks[..|chunks| - 1])
      case Panicked => Panicked
      case Returned(v, _) => Append(v, chunks[|chunks| - 1])
  }

  /** However the message is cut into chunks, the writer holds the whole
      message after the old contents, and panics exactly when the message
      does not fit in the room left. */
  lemma {:induction false} AppendAllIsConcat(w: Writer, chunks: seq<seq<u8>>)
    requires w.offset <= |w.buffer|
    ensures var n := w.offset + |Concat(chunks)|;
      AppendAll(w, chunks).Returned? <==> n <= |w.buffer|
    ensures var n := w.offset + |Concat(chunks)|;
      AppendAll(w, chunks).Returned? ==>
        AppendAll(w, chunks).writer == Writer(w.buffer[..w.offset] + Concat(chunks) + w.buffer[n..], n)
  {
    if |chunks| > 0 {
      var init, last := chunks[..|chunks| - 1], chunks[|chunks| - 1];
      AppendAllIsConcat(w, init);
      var n := w.offset + |Concat(init)|;
      if n <= |w.buffer| {
        AppendToSplice(w.buffer, w.offset, Concat(init), last);
      }
    }
  }

  /** Appending to a writer whose buffer is `base` with `m` spliced in at
      `o` splices `m + last` in instead. */
  lemma AppendToSplice(base: seq<u8>, o: nat, m: seq<u8>, last: seq<u8>)
    requires o + |m| <= |base|
    ensures var v := Writer(base[..o] + m + base[o + |m|..], o + |m|);
      Append(v, last).Returned? <==> o + |m| + |last| <= |base|
    ensures var v := Writer(base[..o] + m + base[o + |m|..], o + |m|);
      var n := o + |m| + |last|;
      n <= |base| ==> Append(v, last) == Returned(Writer(base[..o] + (m + last) + base[n..], n), Ok)
  {
    var v := Writer(base[..o] + m + base[o + |m|..], o + |m|);
    var n := o + |m| + |last|;
    if n <= |base| {
      assert v.buffer[..o + |m|] == base[..o] + m;
      assert v.buffer[n..] == base[n..];
    }
  }

  /** The panic message as `panic_fmt` sees it: a message of at most 1024
      bytes fills the front of the zeroed buffer; a longer one panics
      inside the panic handler. */
  lemma MessageInBuffer(chunks: seq<seq<u8>>)
    ensures AppendAll(NewWriter(), chunks).Returned? <==> |Concat(chunks)| <= PANIC_BUFFER_SIZE
    ensures |Concat(chunks)| <= PANIC_BUFFER_SIZE ==>
      var w := AppendAll(NewWriter(), chunks).writer;
      w.offset == |Concat(chunks)| && |w.buffer| == PANIC_BUFFER_SIZE &&
      w.buffer[..w.offset] == Concat(chunks) &&
      forall i :: w.offset <= i < PANIC_BUFFER_SIZE ==> w.buffer[i] == 0
  {
    AppendAllIsConcat(NewWriter(), chunks);
  }
}
