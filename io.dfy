/**
 * The byte-stream layer of lib/sequoia_openpgp/io.rb: `IOReader` and `IOWriter`
 * wrap a foreign reader or writer handle, and translate the foreign calls'
 * signed results into returned counts, Ruby strings, nil, or raised errors.
 *
 * The foreign reader and writer are modelled as objects holding the bytes they
 * deliver or accept. The assumptions about them: a foreign read of `n` bytes
 * that does not fail delivers the next min(n, remaining) bytes of its input; a
 * failing call delivers or accepts nothing; and a handle that has failed once
 * fails every later call.
 */
module IO {
  import opened Wrappers
  import Errors
  import Status

  /** A mutable Ruby string or StringIO: the caller's `outbuf`, or `read`'s buffer. */
  class Buffer {
    var contents: seq<byte>

    constructor (init: seq<byte>)
      ensures contents == init
    {
      contents := init;
    }

    /** `String#replace` and writing the whole of a string into a fresh StringIO. */
    method Replace(s: seq<byte>)
      modifies this
      ensures contents == s
    {
      contents := s;
    }

    /** `StringIO#write` at the end of the buffer. */
    method Append(s: seq<byte>)
      modifies this
      ensures contents == old(contents) + s
    {
      contents := contents + s;
    }
  }

  /** The foreign reader behind a `reader` handle: the input not yet delivered is
      `data[pos..]`, and `calls` counts the foreign calls made on it so far. Calls
      are numbered from 0; the one numbered `failAt` and every later one fail,
      leaving `error` in the error slot, and a failing call delivers nothing. */
  class ForeignReader {
    var data: seq<byte>
    var pos: nat
    var calls: nat
    const failAt: Option<nat>
    const error: Errors.ErrorPtr

    ghost predicate Valid()
      reads this
    {
      pos <= |data|
    }

    function Remaining(): nat
      reads this
      requires Valid()
    {
      |data| - pos
    }

    /** Whether the call numbered `i` fails. */
    predicate FailsAt(i: nat) {
      failAt.Some? && failAt.value <= i
    }

    constructor (input: seq<byte>, failAt: Option<nat>, error: Errors.ErrorPtr)
      ensures Valid() && data == input && pos == 0 && calls == 0
      ensures this.failAt == failAt && this.error == error
    {
      data, pos, calls := input, 0, 0;
      this.failAt, this.error := failAt, error;
    }

    /** `pgp_reader_read(error, reader, buf, len)`: fills the first `val` cells of
        `buf`, where `val` is min(len, remaining), and returns it; or -1 with the
        error in the error slot. */
    method PgpReaderRead(buf: array<byte>, len: nat) returns (val: int, slot: Errors.ErrorPtr)
      requires Valid() && len <= buf.Length
      modifies this, buf
      ensures Valid() && data == old(data) && calls == old(calls) + 1
      ensures FailsAt(old(calls)) ==> val == -1 && slot == error && pos == old(pos) && buf[..] == old(buf[..])
      ensures !FailsAt(old(calls)) ==>
                && val == Min(len, old(Remaining()))
                && pos == old(pos) + val && slot == Errors.Null
                && buf[..val] == data[old(pos)..pos]
    {
      if FailsAt(calls) {
        val, slot := -1, error;
        calls := calls + 1;
        return;
      }
      calls := calls + 1;
      val := Min(len, |data| - pos);
      var i := 0;
      while i < val
        invariant 0 <= i <= val
        invariant data == old(data) && pos == old(pos) && calls == old(calls) + 1
        invariant forall k :: 0 <= k < i ==> buf[k] == data[pos + k]
      {
        buf[i] := data[pos + i];
        i := i + 1;
      }
      assert buf[..val] == data[pos..pos + val];
      pos := pos + val;
      slot := Errors.Null;
    }

    /** `pgp_reader_discard(error, reader)`: skips the rest of the input and returns
        how many bytes it skipped. */
    method PgpReaderDiscard() returns (val: int, slot: Errors.ErrorPtr)
      requires Valid()
      modifies this
      ensures Valid() && data == old(data) && calls == old(calls) + 1
      ensures FailsAt(old(calls)) ==> val == -1 && slot == error && pos == old(pos)
      ensures !FailsAt(old(calls)) ==> val == old(Remaining()) && pos == |data| && slot == Errors.Null
    {
      if FailsAt(calls) {
        val, slot := -1, error;
      } else {
        val, slot := |data| - pos, Errors.Null;
        pos := |data|;
      }
      calls := calls + 1;
    }
  }

  /** The foreign writer behind a `writer` handle: `written` is what it has accepted
      and `calls` counts the foreign calls made on it. As for a reader, the call
      numbered `failAt` and every later one fail with `error`, accepting nothing. */
  class ForeignWriter {
    var written: seq<byte>
    var calls: nat
    const failAt: Option<nat>
    const error: Errors.ErrorPtr

    /** Whether the call numbered `i` fails. */
    predicate FailsAt(i: nat) {
      failAt.Some? && failAt.value <= i
    }

    constructor (failAt: Option<nat>, error: Errors.ErrorPtr)
      ensures written == [] && calls == 0 && this.failAt == failAt && this.error == error
    {
      written, calls := [], 0;
      this.failAt, this.error := failAt, error;
    }

    /** `pgp_writer_write(error, writer, buf, len)`: a call that does not fail
        accepts all `len` bytes and reports that count. */
    method PgpWriterWrite(bytes: seq<byte>) returns (val: int, slot: Errors.ErrorPtr)
      modifies this
      ensures calls == old(calls) + 1
      ensures FailsAt(old(calls)) ==> val == -1 && slot == error && written == old(written)
      ensures !FailsAt(old(calls)) ==> val == |bytes| && slot == Errors.Null && written == old(written) + bytes
    {
      if FailsAt(calls) {
        val, slot := -1, error;
      } else {
        written := written + bytes;
        val, slot := |bytes|, Errors.Null;
      }
      calls := calls + 1;
    }
  }

  /** `pgp_reader_copy(error, reader, writer, len)`: moves min(len, remaining) bytes
      from the reader to the writer. It counts as one call on each handle, and a
      failing call of either side fails it without moving anything. */
  method PgpReaderCopy(r: ForeignReader, w: ForeignWriter, len: nat) returns (val: int, slot: Errors.ErrorPtr)
    requires r.Valid()
    modifies r, w
    ensures r.Valid() && r.data == old(r.data)
    ensures r.calls == old(r.calls) + 1 && w.calls == old(w.calls) + 1
    ensures r.FailsAt(old(r.calls)) ==>
              val == -1 && slot == r.error && r.pos == old(r.pos) && w.written == old(w.written)
    ensures !r.FailsAt(old(r.calls)) && w.FailsAt(old(w.calls)) ==>
              val == -1 && slot == w.error && r.pos == old(r.pos) && w.written == old(w.written)
    ensures !r.FailsAt(old(r.calls)) && !w.FailsAt(old(w.calls)) ==>
              && val == Min(len, old(r.Remaining())) && slot == Errors.Null
              && r.pos == old(r.pos) + val
              && w.written == old(w.written) + r.data[old(r.pos)..r.pos]
  {
    if r.FailsAt(r.calls) {
      val, slot := -1, r.error;
    } else if w.FailsAt(w.calls) {
      val, slot := -1, w.error;
    } else {
      val := Min(len, |r.data| - r.pos);
      w.written := w.written + r.data[r.pos..r.pos + val];
      r.pos := r.pos + val;
      slot := Errors.Null;
    }
    r.calls, w.calls := r.calls + 1, w.calls + 1;
  }

  /** What `IOReader#read` hands back: a string, nil, or a raised exception. */
  datatype ReadResult = Bytes(bytes: seq<byte>) | Nil | Raise(exception: Errors.Exception)

  /** The size of the chunks in which `read` with no length drains the reader. */
  const ChunkSize: nat := 1024

  class IOReader {
    const ref: ForeignReader

    constructor (reader: ForeignReader)
      ensures ref == reader
    {
      ref := reader;
    }

    /** `copy(writer, length)` (io.rb:104-112): the foreign count, or the error. */
    method Copy(writer: IOWriter, length: nat) returns (r: Errors.Outcome<nat>)
      requires ref.Valid()
      modifies ref, writer.ref
      ensures ref.Valid() && ref.data == old(ref.data)
      ensures ref.calls == old(ref.calls) + 1 && writer.ref.calls == old(writer.ref.calls) + 1
      ensures ref.FailsAt(old(ref.calls)) ==>
                && r == Errors.Raised(Errors.New(ref.error))
                && ref.pos == old(ref.pos) && writer.ref.written == old(writer.ref.written)
      ensures !ref.FailsAt(old(ref.calls)) && writer.ref.FailsAt(old(writer.ref.calls)) ==>
                && r == Errors.Raised(Errors.New(writer.ref.error))
                && ref.pos == old(ref.pos) && writer.ref.written == old(writer.ref.written)
      ensures !ref.FailsAt(old(ref.calls)) && !writer.ref.FailsAt(old(writer.ref.calls)) ==>
                && r == Errors.Returned(ref.pos - old(ref.pos))
                && ref.pos - old(ref.pos) == Min(length, old(ref.Remaining()))
                && writer.ref.written == old(writer.ref.written) + ref.data[old(ref.pos)..ref.pos]
    {
      var val, error := PgpReaderCopy(ref, writer.ref, length);
      if val < 0 {
        r := Errors.Raised(Errors.New(error));
      } else {
        r := Errors.Returned(val);
      }
    }

    /** `discard` (io.rb:114-122): the number of bytes skipped, or the error. */
    method Discard() returns (r: Errors.Outcome<nat>)
      requires ref.Valid()
      modifies ref
      ensures ref.Valid() && ref.data == old(ref.data) && ref.calls == old(ref.calls) + 1
      ensures ref.FailsAt(old(ref.calls)) ==> r == Errors.Raised(Errors.New(ref.error)) && ref.pos == old(ref.pos)
      ensures !ref.FailsAt(old(ref.calls)) ==> r == Errors.Returned(old(ref.Remaining())) && ref.Remaining() == 0
    {
      var val, error := ref.PgpReaderDiscard();
      if val < 0 {
        r := Errors.Raised(Errors.New(error));
      } else {
        r := Errors.Returned(val);
      }
    }

    /** `read(length = nil, outbuf = nil)` (io.rb:124-167), analogous to IO#read:
        - length 0 returns "" without touching the reader;
        - no length reads 1024-byte chunks until one comes back short and returns
          everything that was left, "" at end of input; that takes
          remaining / 1024 + 1 foreign calls, and if one of them fails, read
          raises with the full chunks read before it consumed and lost;
        - a positive length makes one foreign read and returns what it delivered,
          or nil at end of input;
        - a negative length matches no branch and returns nil.
        A given outbuf ends equal to the returned string, and "" when a positive
        length meets end of input; a negative length or a foreign failure leaves
        outbuf as it was. */
    method Read(length: Option<int>, outbuf: Buffer?) returns (r: ReadResult)
      requires ref.Valid()
      modifies ref, outbuf
      ensures ref.Valid() && ref.data == old(ref.data)
      ensures old(ref.pos) <= ref.pos
      ensures r.Raise? ==> r.exception == Errors.New(ref.error)
      ensures r.Raise? && outbuf != null ==> outbuf.contents == old(outbuf.contents)
      // read(0)
      ensures length == Some(0) ==>
                r == Bytes([]) && ref.pos == old(ref.pos) && ref.calls == old(ref.calls)
      // read(n), n > 0
      ensures length.Some? && length.value > 0 ==>
                && ref.calls == old(ref.calls) + 1
                && (r.Raise? <==> ref.FailsAt(old(ref.calls)))
      ensures length.Some? && length.value > 0 && r.Raise? ==> ref.pos == old(ref.pos)
      ensures length.Some? && length.value > 0 && !r.Raise? ==>
                && ref.pos == old(ref.pos) + Min(length.value, old(ref.Remaining()))
                && r == (if old(ref.Remaining()) == 0 then Nil else Bytes(ref.data[old(ref.pos)..ref.pos]))
      // read(): the last of the calls a full drain makes is numbered
      // old(calls) + old(remaining) / 1024, and failures persist
      ensures length.None? ==>
                (r.Raise? <==> ref.FailsAt(old(ref.calls) + old(ref.Remaining()) / ChunkSize))
      ensures length.None? && r.Raise? ==>
                var lost := if ref.failAt.value <= old(ref.calls) then 0 else ref.failAt.value - old(ref.calls);
                && ref.calls == old(ref.calls) + lost + 1
                && ref.pos == old(ref.pos) + lost * ChunkSize
      ensures length.None? && !r.Raise? ==>
                && r == Bytes(ref.data[old(ref.pos)..])
                && ref.Remaining() == 0
                && ref.calls == old(ref.calls) + old(ref.Remaining()) / ChunkSize + 1
      // a negative length
      ensures length.Some? && length.value < 0 ==>
                r == Nil && ref.pos == old(ref.pos) && ref.calls == old(ref.calls)
      // outbuf
      ensures outbuf != null && r.Bytes? ==> outbuf.contents == r.bytes
      ensures outbuf != null && r.Nil? && length.Some? && length.value > 0 ==> outbuf.contents == []
      ensures outbuf != null && length.Some? && length.value < 0 ==> outbuf.contents == old(outbuf.contents)
    {
      if length == Some(0) {
        if outbuf != null {
          outbuf.Replace([]);
        }
        return Bytes([]);
      }

      if length.None? {
        var buf := new Buffer([]);
        var l := ChunkSize;
        ghost var start := ref.pos;
        while true
          invariant ref.Valid() && ref.data == old(ref.data)
          invariant start == old(ref.pos) <= ref.pos
          invariant (ref.pos - start) % ChunkSize == 0
          invariant ref.calls == old(ref.calls) + (ref.pos - start) / ChunkSize
          invariant ref.calls == old(ref.calls) || !ref.FailsAt(ref.calls - 1)
          invariant buf.contents == ref.data[start..ref.pos]
          invariant outbuf != null ==> outbuf.contents == old(outbuf.contents)
          decreases ref.Remaining()
        {
          var val := ReadHelper(l, buf);
          if val.Raised? {
            return Raise(val.exception);
          }
          if val.value < l {
            break;
          }
        }
        var content := buf.contents;
        if outbuf != null {
          outbuf.Replace(content);
        }
        return Bytes(content);
      }

      if length.value > 0 {
        var memBuf := new byte[length.value];
        var val, error := ref.PgpReaderRead(memBuf, length.value);
        if val < 0 {
          return Raise(Errors.New(error));
        } else if val == 0 {
          if outbuf != null {
            outbuf.Replace([]);
          }
          return Nil;
        } else {
          var content := memBuf[..val];
          if outbuf != null {
            outbuf.Replace(content);
          }
          return Bytes(content);
        }
      }
      r := Nil;
    }

    /** `read_helper(length, iowriter)` (io.rb:171-181): one foreign read whose bytes
        are appended to `sink`; the count, or the error. */
    method ReadHelper(length: nat, sink: Buffer) returns (r: Errors.Outcome<nat>)
      requires ref.Valid()
      modifies ref, sink
      ensures ref.Valid() && ref.data == old(ref.data)
      ensures ref.calls == old(ref.calls) + 1
      ensures ref.FailsAt(old(ref.calls)) ==> r == Errors.Raised(Errors.New(ref.error)) && ref.pos == old(ref.pos)
      ensures !ref.FailsAt(old(ref.calls)) ==>
                && r == Errors.Returned(Min(length, old(ref.Remaining())))
                && ref.pos == old(ref.pos) + r.value
                && sink.contents == old(sink.contents) + ref.data[old(ref.pos)..ref.pos]
    {
      var memBuf := new byte[length];
      var val, error := ref.PgpReaderRead(memBuf, length);
      if val < 0 {
        return Errors.Raised(Errors.New(error));
      }
      sink.Append(memBuf[..val]);
      r := Errors.Returned(val);
    }
  }

  class IOWriter {
    const ref: ForeignWriter

    constructor (writer: ForeignWriter)
      ensures ref == writer
    {
      ref := writer;
    }

    /** `write(bytes)` (io.rb:257-264): the foreign count, or the error. */
    method Write(bytes: seq<byte>) returns (r: Errors.Outcome<nat>)
      modifies ref
      ensures ref.calls == old(ref.calls) + 1
      ensures ref.FailsAt(old(ref.calls)) ==> r == Errors.Raised(Errors.New(ref.error)) && ref.written == old(ref.written)
      ensures !ref.FailsAt(old(ref.calls)) ==> r == Errors.Returned(|bytes|) && ref.written == old(ref.written) + bytes
    {
      var val, error := ref.PgpWriterWrite(bytes);
      if val < 0 {
        r := Errors.Raised(Errors.New(error));
      } else {
        r := Errors.Returned(val);
      }
    }
  }
}
