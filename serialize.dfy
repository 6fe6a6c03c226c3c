/**
 * The writer stack of lib/sequoia_openpgp/serialize.rb. A `WriterStack` owns one
 * foreign writer-stack handle, `@ref`; every push hands the current handle to a
 * foreign constructor and, only when that call leaves the error slot null,
 * replaces `@ref` by the handle it returns.
 *
 * The foreign library is the parameter `lib`, a function from each call (with the
 * arguments the Ruby code marshals for it) to what the call reports. A handle is
 * modelled as the sequence of layers pushed onto it, the message sink first; how
 * the layers nest and frame their output is the foreign library's business. What
 * the layers pass on to the sink during a call is part of that call's reply, and
 * reaches the foreign writer behind the sink given to `new_message`.
 */
module Serialize {
  import opened Wrappers
  import Errors
  import Status
  import Keys
  import IO

  /** A C array argument: a null pointer, or a block of pointers in list order. */
  datatype PtrArray<T> = NullPtr | Pointers(elems: seq<T>)

  /** An array argument together with the count passed beside it. */
  datatype Marshalled<T> = Marshalled(ptr: PtrArray<T>, len: nat)

  /** How `encrypt` passes an optional Ruby list (serialize.rb:105-126): a nil or
      empty list becomes a null pointer and 0, any other list all its elements, in
      order, and its length. */
  function Marshal<T>(xs: Option<seq<T>>): (m: Marshalled<T>)
    ensures m.ptr.NullPtr? <==> xs.None? || xs.value == []
    ensures m.ptr.Pointers? ==> m.ptr.elems == xs.value
    ensures m.len == (if xs.Some? then |xs.value| else 0)
  {
    if xs.Some? && |xs.value| > 0 then Marshalled(Pointers(xs.value), |xs.value|)
    else Marshalled(NullPtr, 0)
  }

  /** One layer of a writer stack. */
  datatype Layer =
    | Message
    | Literal
    | Arbitrary(tag: byte)
    | Encryptor(passwords: Marshalled<string>, recipients: Marshalled<Keys.Recipient>, cipher: byte)
    | Signing(signers: seq<Keys.Signer>, hash: byte)
    | DetachedSigning(signers: seq<Keys.Signer>, hash: byte)

  /** A foreign call made through a writer stack, with the handle it was given. */
  datatype Call =
    | LiteralWriterNew(stack: seq<Layer>)
    | ArbitraryWriterNew(stack: seq<Layer>, tag: byte)
    | EncryptorNew(stack: seq<Layer>, passwords: Marshalled<string>, recipients: Marshalled<Keys.Recipient>, cipher: byte)
    | SignerNew(stack: seq<Layer>, signers: seq<Keys.Signer>, signersLen: nat, hash: byte)
    | SignerNewDetached(stack: seq<Layer>, signers: seq<Keys.Signer>, signersLen: nat, hash: byte)
    | StackWrite(stack: seq<Layer>, bytes: seq<byte>)
    | StackWriteAll(stack: seq<Layer>, bytes: seq<byte>)
    | StackFinalize(stack: seq<Layer>)
    | StackFinalizeOne(stack: seq<Layer>)

  /** What a foreign call reports: the error slot it leaves, its integer result
      (a byte count for `pgp_writer_stack_write`) and its status result (for
      `pgp_writer_stack_write_all` and `pgp_writer_stack_finalize`), and the
      bytes it delivers to the message sink. */
  datatype Reply = Reply(error: Errors.ErrorPtr, count: int, status: Status.Code, emitted: seq<byte>)

  type Library = Call -> Reply

  /** The handle a successful `pgp_writer_stack_finalize_one` returns: the stack
      without its innermost layer. */
  function Popped(stack: seq<Layer>): seq<Layer>
  {
    if |stack| == 0 then [] else stack[..|stack| - 1]
  }

  /** Fills a freshly allocated pointer array from a list, as the `each_with_index`
      loops of `encrypt`, `sign` and `sign_detached` do. */
  method FillPointerArray<T(0)>(xs: seq<T>) returns (a: array<T>)
    ensures fresh(a) && a[..] == xs
  {
    a := new T[|xs|];
    var i := 0;
    while i < |xs|
      invariant 0 <= i <= |xs| && a.Length == |xs|
      invariant forall k :: 0 <= k < i ==> a[k] == xs[k]
    {
      a[i] := xs[i];
      i := i + 1;
    }
  }

  const NoSignerMessage: string := "At least one signer is needed to sign a packet."

  class WriterStack {
    /** The current writer-stack handle. */
    var ref: seq<Layer>
    /** The foreign calls made through this stack, oldest first. */
    ghost var calls: seq<Call>
    const lib: Library
    /** The foreign writer behind the message sink. */
    const sink: IO.ForeignWriter

    /** `WriterStack.new_message(writer)` (serialize.rb:52-60). */
    constructor NewMessage(lib: Library, writer: IO.IOWriter)
      ensures ref == [Message] && calls == [] && this.lib == lib && sink == writer.ref
    {
      ref := [Message];
      calls := [];
      this.lib := lib;
      sink := writer.ref;
    }

    /** The common tail of every push: keep the foreign result only when the error
        slot is null, raise otherwise. */
    method Push(c: Call, layer: Layer) returns (r: Errors.Outcome<seq<Layer>>)
      requires c.stack == ref
      modifies this, sink
      ensures sink.calls == old(sink.calls)
      ensures calls == old(calls) + [c] && sink.written == old(sink.written) + lib(c).emitted
      ensures lib(c).error.Null? ==> ref == old(ref) + [layer] && r == Errors.Returned(ref)
      ensures lib(c).error.Handle? ==> ref == old(ref) && r == Errors.Raised(Errors.New(lib(c).error))
    {
      calls := calls + [c];
      var reply := lib(c);
      sink.written := sink.written + reply.emitted;
      var tmp := ref + [layer];
      if !reply.error.Null? {
        return Errors.Raised(Errors.New(reply.error));
      }
      ref := tmp;
      r := Errors.Returned(ref);
    }

    /** `literal` (serialize.rb:85-92). */
    method Literal() returns (r: Errors.Outcome<seq<Layer>>)
      modifies this, sink
      ensures sink.calls == old(sink.calls)
      ensures calls == old(calls) + [LiteralWriterNew(old(ref))]
      ensures sink.written == old(sink.written) + lib(LiteralWriterNew(old(ref))).emitted
      ensures lib(LiteralWriterNew(old(ref))).error.Null? ==> ref == old(ref) + [Layer.Literal] && r == Errors.Returned(ref)
      ensures lib(LiteralWriterNew(old(ref))).error.Handle? ==>
                ref == old(ref) && r == Errors.Raised(Errors.New(lib(LiteralWriterNew(old(ref))).error))
    {
      r := Push(LiteralWriterNew(ref), Layer.Literal);
    }

    /** `arbitrary(tag)` (serialize.rb:94-101). */
    method Arbitrary(tag: byte) returns (r: Errors.Outcome<seq<Layer>>)
      modifies this, sink
      ensures sink.calls == old(sink.calls)
      ensures calls == old(calls) + [ArbitraryWriterNew(old(ref), tag)]
      ensures sink.written == old(sink.written) + lib(ArbitraryWriterNew(old(ref), tag)).emitted
      ensures lib(ArbitraryWriterNew(old(ref), tag)).error.Null? ==>
                ref == old(ref) + [Layer.Arbitrary(tag)] && r == Errors.Returned(ref)
      ensures lib(ArbitraryWriterNew(old(ref), tag)).error.Handle? ==>
                ref == old(ref) && r == Errors.Raised(Errors.New(lib(ArbitraryWriterNew(old(ref), tag)).error))
    {
      r := Push(ArbitraryWriterNew(ref, tag), Layer.Arbitrary(tag));
    }

    /** `encrypt(ps, recipients, cipher)` (serialize.rb:103-133): passwords and
        recipients go to exactly one foreign call as (array, count) pairs, nil or
        empty lists as (null, 0). Having neither is not rejected here. */
    method Encrypt(ps: Option<seq<string>>, recipients: Option<seq<Keys.Recipient>>, cipher: byte)
      returns (r: Errors.Outcome<seq<Layer>>)
      modifies this, sink
      ensures sink.calls == old(sink.calls)
      ensures calls == old(calls) + [EncryptorNew(old(ref), Marshal(ps), Marshal(recipients), cipher)]
      ensures sink.written == old(sink.written) + lib(EncryptorNew(old(ref), Marshal(ps), Marshal(recipients), cipher)).emitted
      ensures var reply := lib(EncryptorNew(old(ref), Marshal(ps), Marshal(recipients), cipher));
              && (reply.error.Null? ==>
                    ref == old(ref) + [Encryptor(Marshal(ps), Marshal(recipients), cipher)] && r == Errors.Returned(ref))
              && (reply.error.Handle? ==> ref == old(ref) && r == Errors.Raised(Errors.New(reply.error)))
    {
      var passwords: Marshalled<string>;
      if ps.Some? && |ps.value| > 0 {
        var a := FillPointerArray(ps.value);
        passwords := Marshalled(Pointers(a[..]), |ps.value|);
      } else {
        passwords := Marshalled(NullPtr, 0);
      }

      var recipientsArg: Marshalled<Keys.Recipient>;
      if recipients.Some? && |recipients.value| > 0 {
        var a := FillPointerArray(recipients.value);
        recipientsArg := Marshalled(Pointers(a[..]), |recipients.value|);
      } else {
        recipientsArg := Marshalled(NullPtr, 0);
      }

      r := Push(EncryptorNew(ref, passwords, recipientsArg, cipher), Encryptor(passwords, recipientsArg, cipher));
    }

    /** `sign(sigs, hash)` (serialize.rb:135-152): a nil or empty signer list raises
        before any foreign call; otherwise every signer, in order, goes to one call. */
    method Sign(sigs: Option<seq<Keys.Signer>>, hash: byte) returns (r: Errors.Outcome<seq<Layer>>)
      modifies this, sink
      ensures sink.calls == old(sink.calls)
      ensures sigs.None? || sigs.value == [] ==>
                && r == Errors.Raised(Errors.Plain(Errors.StandardError, NoSignerMessage))
                && ref == old(ref) && calls == old(calls) && sink.written == old(sink.written)
      ensures sigs.Some? && sigs.value != [] ==>
                var c := SignerNew(old(ref), sigs.value, |sigs.value|, hash);
                && calls == old(calls) + [c] && sink.written == old(sink.written) + lib(c).emitted
                && (lib(c).error.Null? ==> ref == old(ref) + [Signing(sigs.value, hash)] && r == Errors.Returned(ref))
                && (lib(c).error.Handle? ==> ref == old(ref) && r == Errors.Raised(Errors.New(lib(c).error)))
    {
      if sigs.Some? && |sigs.value| > 0 {
        var signers := FillPointerArray(sigs.value);
        var signersLen := |sigs.value|;
        r := Push(SignerNew(ref, signers[..], signersLen, hash), Signing(signers[..], hash));
      } else {
        return Errors.Raised(Errors.Plain(Errors.StandardError, NoSignerMessage));
      }
    }

    /** `sign_detached(sigs, hash)` (serialize.rb:154-171), the same discipline. */
    method SignDetached(sigs: Option<seq<Keys.Signer>>, hash: byte) returns (r: Errors.Outcome<seq<Layer>>)
      modifies this, sink
      ensures sink.calls == old(sink.calls)
      ensures sigs.None? || sigs.value == [] ==>
                && r == Errors.Raised(Errors.Plain(Errors.StandardError, NoSignerMessage))
                && ref == old(ref) && calls == old(calls) && sink.written == old(sink.written)
      ensures sigs.Some? && sigs.value != [] ==>
                var c := SignerNewDetached(old(ref), sigs.value, |sigs.value|, hash);
                && calls == old(calls) + [c] && sink.written == old(sink.written) + lib(c).emitted
                && (lib(c).error.Null? ==> ref == old(ref) + [DetachedSigning(sigs.value, hash)] && r == Errors.Returned(ref))
                && (lib(c).error.Handle? ==> ref == old(ref) && r == Errors.Raised(Errors.New(lib(c).error)))
    {
      if sigs.Some? && |sigs.value| > 0 {
        var signers := FillPointerArray(sigs.value);
        var signersLen := |sigs.value|;
        r := Push(SignerNewDetached(ref, signers[..], signersLen, hash), DetachedSigning(signers[..], hash));
      } else {
        return Errors.Raised(Errors.Plain(Errors.StandardError, NoSignerMessage));
      }
    }

    /** `write(bytes)` (serialize.rb:62-72): the foreign count, raising when it is
        negative. The handle does not change. */
    method Write(bytes: seq<byte>) returns (r: Errors.Outcome<nat>)
      modifies this, sink
      ensures sink.calls == old(sink.calls)
      ensures ref == old(ref) && calls == old(calls) + [StackWrite(ref, bytes)]
      ensures sink.written == old(sink.written) + lib(StackWrite(ref, bytes)).emitted
      ensures var reply := lib(StackWrite(ref, bytes));
              && (reply.count >= 0 ==> r == Errors.Returned(reply.count))
              && (reply.count < 0 ==> r == Errors.Raised(Errors.New(reply.error)))
    {
      calls := calls + [StackWrite(ref, bytes)];
      sink.written := sink.written + lib(StackWrite(ref, bytes)).emitted;
      var written := lib(StackWrite(ref, bytes)).count;
      if written < 0 {
        r := Errors.Raised(Errors.New(lib(StackWrite(ref, bytes)).error));
      } else {
        r := Errors.Returned(written);
      }
    }

    /** `write_all(bytes)` (serialize.rb:74-83): a Status object only when the
        foreign status is SUCCESS. */
    method WriteAll(bytes: seq<byte>) returns (r: Errors.Outcome<Status.StatusObject>)
      modifies this, sink
      ensures sink.calls == old(sink.calls)
      ensures ref == old(ref) && calls == old(calls) + [StackWriteAll(ref, bytes)]
      ensures sink.written == old(sink.written) + lib(StackWriteAll(ref, bytes)).emitted
      ensures var reply := lib(StackWriteAll(ref, bytes));
              && (reply.status == Status.Success ==> r == Errors.Returned(Status.StatusObject(Status.Success)))
              && (reply.status != Status.Success ==> r == Errors.Raised(Errors.New(reply.error)))
    {
      calls := calls + [StackWriteAll(ref, bytes)];
      sink.written := sink.written + lib(StackWriteAll(ref, bytes)).emitted;
      var reply := lib(StackWriteAll(ref, bytes));
      if reply.status != Status.Success {
        return Errors.Raised(Errors.New(reply.error));
      }
      r := Errors.Returned(Status.StatusObject(reply.status));
    }

    /** `finalize` (serialize.rb:173-180): `@ref` is never reassigned; the foreign
        status comes back wrapped, unless the error slot is set. */
    method Finalize() returns (r: Errors.Outcome<Status.StatusObject>)
      modifies this, sink
      ensures sink.calls == old(sink.calls)
      ensures ref == old(ref) && calls == old(calls) + [StackFinalize(ref)]
      ensures sink.written == old(sink.written) + lib(StackFinalize(ref)).emitted
      ensures var reply := lib(StackFinalize(ref));
              && (reply.error.Null? ==> r == Errors.Returned(Status.StatusObject(reply.status)))
              && (reply.error.Handle? ==> r == Errors.Raised(Errors.New(reply.error)))
    {
      calls := calls + [StackFinalize(ref)];
      sink.written := sink.written + lib(StackFinalize(ref)).emitted;
      var reply := lib(StackFinalize(ref));
      if !reply.error.Null? {
        return Errors.Raised(Errors.New(reply.error));
      }
      r := Errors.Returned(Status.StatusObject(reply.status));
    }

    /** `finalize_one` (serialize.rb:182-189): pops the innermost layer, with the
        same error-slot discipline as a push. */
    method FinalizeOne() returns (r: Errors.Outcome<seq<Layer>>)
      modifies this, sink
      ensures sink.calls == old(sink.calls)
      ensures calls == old(calls) + [StackFinalizeOne(old(ref))]
      ensures sink.written == old(sink.written) + lib(StackFinalizeOne(old(ref))).emitted
      ensures lib(StackFinalizeOne(old(ref))).error.Null? ==> ref == Popped(old(ref)) && r == Errors.Returned(ref)
      ensures lib(StackFinalizeOne(old(ref))).error.Handle? ==>
                ref == old(ref) && r == Errors.Raised(Errors.New(lib(StackFinalizeOne(old(ref))).error))
    {
      calls := calls + [StackFinalizeOne(ref)];
      var reply := lib(StackFinalizeOne(ref));
      sink.written := sink.written + reply.emitted;
      var tmp := Popped(ref);
      if !reply.error.Null? {
        return Errors.Raised(Errors.New(reply.error));
      }
      ref := tmp;
      r := Errors.Returned(ref);
    }
  }
}
