/**
 * The streaming verifier and decryptor front end of
 * lib/sequoia_openpgp/parse/stream.rb: the `Callbacks` that the Ruby side hands to
 * the foreign engine (certificate lookup, session-key resolution, structure
 * check), and `Reader` and `DetachedReader`, which build the foreign engine and
 * turn its error slot and null handle into exceptions.
 *
 * A callback is a Ruby block behind an `:int` C function pointer. What such a
 * block hands back to its C caller is a `CbReturn`: an integer status, a Ruby
 * object that is not an integer, or an exception that escapes the block.
 */
module Stream {
  import opened Wrappers
  import Status
  import Errors
  import Keys
  import Pkesk
  import MessageStructure

  datatype CbReturn =
    | ReturnsInt(code: Status.Code)
    | ReturnsObject(obj: Status.StatusObject)
    | Propagates(exception: Errors.Exception)

  /** An out-pointer the C caller passes to a callback; `value` is what has been
      stored through it. */
  class Slot<T> {
    var value: Option<T>

    constructor ()
      ensures value == None
    {
      value := None;
    }
  }

  /** The function pointer stored through `free_cb` (`Stdio::Free.address`). */
  datatype FreeFn = StdioFree

  // ---------------------------------------------------------------------------
  // Conversions between C arrays and Ruby lists
  // ---------------------------------------------------------------------------

  /** `read_array_of_pointer(len).map { |elem| X.new(elem) }` (stream.rb:99-103,
      142-148): the first `len` elements of the C array, in order, each wrapped
      without being copied. The C caller guarantees that `len` elements are there. */
  function FromCArray<T>(ptrs: seq<T>, len: nat): (xs: seq<T>)
    requires len <= |ptrs|
    ensures |xs| == len
    ensures forall i :: 0 <= i < len ==> xs[i] == ptrs[i]
  {
    ptrs[..len]
  }

  /** A fresh foreign reference to each certificate, in order. */
  function ClonedAll(certs: seq<Keys.Cert>): (ps: seq<Keys.CertPtr>)
    ensures |ps| == |certs|
    ensures forall i :: 0 <= i < |certs| ==> ps[i].of == certs[i]
  {
    seq(|certs|, i requires 0 <= i < |certs| => Keys.ClonedCert(certs[i]))
  }

  /** `transform_certs_ruby_to_c` (stream.rb:105-111): a fresh block holding one
      cloned handle per certificate, in resolver order. */
  method TransformCertsRubyToC(certs: seq<Keys.Cert>) returns (a: array<Keys.CertPtr>)
    ensures fresh(a) && a[..] == ClonedAll(certs)
  {
    a := new Keys.CertPtr[|certs|];
    var i := 0;
    while i < |certs|
      invariant 0 <= i <= |certs| && a.Length == |certs|
      invariant forall k :: 0 <= k < i ==> a[k] == Keys.ClonedCert(certs[k])
    {
      a[i] := Keys.ClonedCert(certs[i]);
      i := i + 1;
    }
  }

  // ---------------------------------------------------------------------------
  // Turning what a Ruby block did into what its C caller receives
  // ---------------------------------------------------------------------------

  /** The `rescue SQError => e; e.status` clauses as written (stream.rb:94-95,
      123-124): an SQError becomes its `status`, which is a `Status` object, not an
      Integer; any other exception escapes. */
  function RescueAsWritten(e: Errors.Exception): (r: CbReturn)
    ensures e.SqError? ==> r.ReturnsObject? && r.obj.code == e.status
    ensures e.Plain? ==> r == Propagates(e)
  {
    if e.SqError? then ReturnsObject(Errors.StatusOf(e)) else Propagates(e)
  }

  /** The rescue clauses as intended: an SQError becomes its integer status code. */
  function Rescue(e: Errors.Exception): (r: CbReturn)
    ensures e.SqError? ==> r == ReturnsInt(e.status)
    ensures e.Plain? ==> r == Propagates(e)
  {
    if e.SqError? then ReturnsInt(Errors.StatusOf(e).code) else Propagates(e)
  }

  /** The finding at stream.rb:94-95 and 123-124: as written an SQError never
      reaches the C caller as an integer, while the corrected clause hands over the
      very code the error carries and lets only non-SQError exceptions escape. */
  lemma RescueReturnsStatusCode(e: Errors.Exception)
    ensures e.SqError? ==> !RescueAsWritten(e).ReturnsInt? && RescueAsWritten(e).obj == Status.StatusObject(e.status)
    ensures e.SqError? ==> Rescue(e) == ReturnsInt(e.status)
    ensures !Rescue(e).ReturnsObject?
    ensures Rescue(e).Propagates? <==> e.Plain?
    ensures e.Plain? ==> Rescue(e) == RescueAsWritten(e)
  {
  }

  /** `LocalJumpError` as a `return` inside the block of `FFI::Function.new`
      raises it: the block is a proc whose defining method has already returned. */
  const UnexpectedReturn: Errors.Exception := Errors.Plain(Errors.LocalJumpError, "unexpected return")

  /** The status the certificate callback hands back, as written (stream.rb:82-95).
      For an empty list the guard at :84 executes `return` inside the block. */
  function CertsStatusAsWritten(o: Errors.Outcome<seq<Keys.Cert>>): (r: CbReturn)
    ensures o.Returned? && o.value != [] ==> r == ReturnsInt(Status.Success)
    ensures o == Errors.Returned([]) ==> r == Propagates(UnexpectedReturn)
    ensures o.Raised? ==> r == RescueAsWritten(o.exception)
  {
    match o
    case Returned(certs) => if |certs| > 0 then ReturnsInt(Status.Success) else Propagates(UnexpectedReturn)
    case Raised(e) => RescueAsWritten(e)
  }

  /** The status the certificate callback hands back, as intended: SUCCESS for a
      non-empty list, UNKNOWN_ERROR for an empty one, the error's code for an
      SQError. */
  function CertsStatus(o: Errors.Outcome<seq<Keys.Cert>>): (r: CbReturn)
    ensures o.Returned? && o.value != [] ==> r == ReturnsInt(Status.Success)
    ensures o == Errors.Returned([]) ==> r == ReturnsInt(Status.UnknownError)
    ensures o.Raised? ==> r == Rescue(o.exception)
  {
    match o
    case Returned(certs) => if |certs| > 0 then ReturnsInt(Status.Success) else ReturnsInt(Status.UnknownError)
    case Raised(e) => Rescue(e)
  }

  /** The finding at stream.rb:84: for a resolver that finds no certificate the
      callback as written raises LocalJumpError into its C caller instead of
      returning UNKNOWN_ERROR; in the corrected callback SUCCESS means exactly
      that certificates were found, and no SQError escapes. */
  lemma EmptyCertsReturnUnknownError(o: Errors.Outcome<seq<Keys.Cert>>)
    ensures CertsStatusAsWritten(Errors.Returned([])).Propagates?
    ensures CertsStatusAsWritten(Errors.Returned([])).exception.kind == Errors.LocalJumpError
    ensures CertsStatus(Errors.Returned([])) == ReturnsInt(Status.UnknownError)
    ensures o.Returned? ==> (CertsStatus(o) == ReturnsInt(Status.Success) <==> o.value != [])
    ensures CertsStatus(o).Propagates? <==> o.Raised? && o.exception.Plain?
  {
  }

  /** The status the session-key callback derives from `decrypt_fn`'s result, as
      written (stream.rb:163-168): `if ret` on an Integer, and every Integer is
      true in Ruby. */
  function DecryptStatusAsWritten(ret: Status.Code): (s: Status.Code)
    ensures s == Status.Success
  {
    if Truthy(ret) then Status.Success else Status.UnknownError
  }

  /** Ruby's truth test on what `decrypt_fn` returns through its `:int` return
      type: only nil and false are false, and an Integer is neither. */
  predicate Truthy(ret: Status.Code)
  {
    true
  }

  /** As intended: SUCCESS when `decrypt_fn` succeeded, UNKNOWN_ERROR otherwise. */
  function DecryptStatus(ret: Status.Code): (s: Status.Code)
    ensures s == Status.Success <==> ret == Status.Success
    ensures s != Status.Success ==> s == Status.UnknownError
  {
    if ret == Status.Success then Status.Success else Status.UnknownError
  }

  /** The finding at stream.rb:157 and 163-168: as written a failing `decrypt_fn`
      is reported as SUCCESS; the corrected status reports it. */
  lemma DecryptFailureIsReported(ret: Status.Code)
    ensures ret != Status.Success ==> DecryptStatusAsWritten(ret) == Status.Success
    ensures ret != Status.Success ==> DecryptStatus(ret) == Status.UnknownError
    ensures DecryptStatus(ret) == DecryptStatusAsWritten(ret) <==> ret == Status.Success
  {
  }

  // ---------------------------------------------------------------------------
  // The callbacks
  // ---------------------------------------------------------------------------

  /** The caller's certificate lookup: key IDs to certificates, or an exception. */
  type CertResolver = seq<Keys.KeyId> -> Errors.Outcome<seq<Keys.Cert>>

  /** The block of `get_certs_cb(get_certs)` (stream.rb:68-97), corrected as
      CertsStatus says. The resolver is called once, on exactly the first
      `keyidLen` key IDs in order. On a non-empty result the three out-pointers
      receive the cloned certificates in resolver order, their count and the free
      function; on any other outcome nothing is written. */
  method GetCertsCb(getCerts: CertResolver, keyids: seq<Keys.KeyId>, keyidLen: nat,
                    certsOut: Slot<array<Keys.CertPtr>>, certLenOut: Slot<int>, freeOut: Slot<FreeFn>)
    returns (r: CbReturn)
    requires keyidLen <= |keyids|
    modifies certsOut, certLenOut, freeOut
    ensures r == CertsStatus(getCerts(FromCArray(keyids, keyidLen)))
    ensures var o := getCerts(FromCArray(keyids, keyidLen));
            o.Returned? && o.value != [] ==>
              && certsOut.value.Some? && fresh(certsOut.value.value)
              && certsOut.value.value[..] == ClonedAll(o.value)
              && certLenOut.value == Some(|o.value|)
              && freeOut.value == Some(StdioFree)
    ensures var o := getCerts(FromCArray(keyids, keyidLen));
            !(o.Returned? && o.value != []) ==>
              certsOut.value == old(certsOut.value) && certLenOut.value == old(certLenOut.value)
              && freeOut.value == old(freeOut.value)
  {
    var keyidAry := FromCArray(keyids, keyidLen);
    var certificates := getCerts(keyidAry);
    if certificates.Raised? {
      return Rescue(certificates.exception);
    }
    if |certificates.value| == 0 {
      return ReturnsInt(Status.UnknownError);
    }
    var certs := TransformCertsRubyToC(certificates.value);
    certsOut.value := Some(certs);
    certLenOut.value := Some(|certificates.value|);
    freeOut.value := Some(StdioFree);
    r := ReturnsInt(Status.Success);
  }

  /** The caller's structure check: a status, or an exception. */
  type CheckFn = MessageStructure.Structure -> Errors.Outcome<Status.Code>

  /** The block of `check_cb(check)` (stream.rb:113-126), with the rescue clause
      corrected: the check function's status unchanged, an SQError's code, or the
      escaping exception. */
  function CheckCb(check: CheckFn, ms: MessageStructure.Structure): (r: CbReturn)
    ensures check(ms).Returned? ==> r == ReturnsInt(check(ms).value)
    ensures check(ms).Raised? && check(ms).exception.SqError? ==> r == ReturnsInt(check(ms).exception.status)
    ensures r.Propagates? <==> check(ms).Raised? && check(ms).exception.Plain?
    ensures r.Propagates? ==> r.exception == check(ms).exception
  {
    match check(ms)
    case Returned(code) => ReturnsInt(code)
    case Raised(e) => Rescue(e)
  }

  /** What the caller's session-key lookup returns: `[sk, algo, fingerprint]`,
      where `sk` and `algo` are nil together. */
  datatype SessionKeyReply = SessionKeyReply(key: Option<Pkesk.DecryptedKey>, fingerprint: Option<Keys.Fingerprint>)

  type SessionKeyResolver = (seq<Keys.Pkesk>, seq<Keys.Skesk>) -> Errors.Outcome<SessionKeyReply>

  /** The foreign `decrypt_fn`: tries a session key with a symmetric algorithm. */
  type DecryptFn = (byte, Keys.SessionKey) -> Status.Code

  /** `sk.ref` on a nil session key. */
  const NilSessionKey: Errors.Exception :=
    Errors.Plain(Errors.NoMethodError, "undefined method `ref' for nil:NilClass")

  /** The block of `decrypt_cb(get_session_key)` (stream.rb:128-170), with the
      status corrected as DecryptStatus says. The lookup is called once, on the
      first `pkeskLen` PKESKs and `skeskLen` SKESKs in order; the block has no
      rescue clause, so its exceptions escape. `identityOut` is written exactly
      when the lookup returned a fingerprint; the algorithm hint is not used. */
  method DecryptCb(getSessionKey: SessionKeyResolver,
                   pkesks: seq<Keys.Pkesk>, pkeskLen: nat, skesks: seq<Keys.Skesk>, skeskLen: nat,
                   symAlgoHint: byte, decryptFn: DecryptFn, identityOut: Slot<Keys.FingerprintPtr>)
    returns (r: CbReturn)
    requires pkeskLen <= |pkesks| && skeskLen <= |skesks|
    modifies identityOut
    ensures var reply := getSessionKey(FromCArray(pkesks, pkeskLen), FromCArray(skesks, skeskLen));
            && (reply.Raised? ==> r == Propagates(reply.exception) && identityOut.value == old(identityOut.value))
            && (reply.Returned? && reply.value.key.None? ==>
                  r == Propagates(NilSessionKey) && identityOut.value == old(identityOut.value))
            && (reply.Returned? && reply.value.key.Some? ==>
                  var k := reply.value.key.value;
                  && r == ReturnsInt(DecryptStatus(decryptFn(k.algo, k.sessionKey)))
                  && (reply.value.fingerprint.Some? ==>
                        identityOut.value == Some(Keys.ClonedFingerprint(reply.value.fingerprint.value)))
                  && (reply.value.fingerprint.None? ==> identityOut.value == old(identityOut.value)))
  {
    var pkeskAry := FromCArray(pkesks, pkeskLen);
    var skeskAry := FromCArray(skesks, skeskLen);
    var reply := getSessionKey(pkeskAry, skeskAry);
    if reply.Raised? {
      return Propagates(reply.exception);
    }
    if reply.value.key.None? {
      return Propagates(NilSessionKey);
    }
    var sk := reply.value.key.value;
    var ret := decryptFn(sk.algo, sk.sessionKey);
    if reply.value.fingerprint.Some? {
      identityOut.value := Some(Keys.ClonedFingerprint(reply.value.fingerprint.value));
    }
    r := ReturnsInt(DecryptStatus(ret));
  }

  // ---------------------------------------------------------------------------
  // Building the foreign engine
  // ---------------------------------------------------------------------------

  /** A callback argument of a foreign constructor: null, or the C wrapper built
      around the Ruby callable with the given identity. */
  datatype CallbackArg =
    | NullCallback
    | CertsCallback(getCerts: nat)
    | DecryptCallback(getSessionKey: nat)
    | CheckCallback(check: nat)

  /** The foreign engine calls, with the arguments the Ruby code passes. Policies,
      readers and signatures are handles. */
  datatype EngineCall =
    | VerifierNew(policy: nat, source: nat, getCerts: CallbackArg, check: CallbackArg,
                  inspect: CallbackArg, cookie: CallbackArg, time: int)
    | DecryptorNew(policy: nat, source: nat, getCerts: CallbackArg, decrypt: CallbackArg,
                   check: CallbackArg, inspect: CallbackArg, cookie: CallbackArg, time: int)
    | DetachedVerifierNew(policy: nat, signature: nat, getCerts: CallbackArg, check: CallbackArg,
                          inspect: CallbackArg, cookie: CallbackArg, time: int)
    | DetachedVerify(verifier: nat, reader: nat)

  /** What an engine call reports: its error slot, the handle it returns (None for
      null) and, for `pgp_detached_verifier_verify`, the validity status. */
  datatype EngineReply = EngineReply(error: Errors.ErrorPtr, handle: Option<nat>, validity: Status.Code)

  type Engine = EngineCall -> EngineReply

  /** The common check after building a reader: a set error slot raises the
      error, a null handle raises StandardError with `message`. */
  function Built(reply: EngineReply, message: string): (r: Errors.Outcome<nat>)
    ensures reply.error.Handle? ==> r == Errors.Raised(Errors.New(reply.error))
    ensures reply.error.Null? && reply.handle.None? ==> r == Errors.Raised(Errors.Plain(Errors.StandardError, message))
    ensures reply.error.Null? && reply.handle.Some? ==> r == Errors.Returned(reply.handle.value)
  {
    if reply.error.Handle? then Errors.Raised(Errors.New(reply.error))
    else if reply.handle.None? then Errors.Raised(Errors.Plain(Errors.StandardError, message))
    else Errors.Returned(reply.handle.value)
  }

  const VerifierMessage: string := "Unknown Error occured creating verifier"
  const DecryptorMessage: string := "Unknown Error occured creating decryptor"
  const DetachedMessage: string := "Unknown Error occured creating detached verifier"

  /** `Reader` (stream.rb:173-224): it only stores what it was built with.
      Callables are identified by `nat`s. */
  class Reader {
    const source: nat
    const getCerts: nat
    const check: nat
    const time: int
    const policy: nat

    constructor (source: nat, getCerts: nat, check: nat, time: int, policy: nat)
      ensures this.source == source && this.getCerts == getCerts && this.check == check
      ensures this.time == time && this.policy == policy
    {
      this.source := source;
      this.getCerts := getCerts;
      this.check := check;
      this.time := time;
      this.policy := policy;
    }

    /** The verifier call `verify` makes: the stored callables wrapped, the
        inspect callback and the cookie null. */
    function VerifyCall(): EngineCall
    {
      VerifierNew(policy, source, CertsCallback(getCerts), CheckCallback(check), NullCallback, NullCallback, time)
    }

    /** `verify` (stream.rb:184-202): the plaintext reader's handle, or the error
        slot's error, or StandardError for a null handle. */
    method Verify(engine: Engine) returns (r: Errors.Outcome<nat>)
      ensures engine(VerifyCall()).error.Handle? ==> r == Errors.Raised(Errors.New(engine(VerifyCall()).error))
      ensures engine(VerifyCall()).error.Null? && engine(VerifyCall()).handle.None? ==>
                r == Errors.Raised(Errors.Plain(Errors.StandardError, VerifierMessage))
      ensures engine(VerifyCall()).error.Null? && engine(VerifyCall()).handle.Some? ==>
                r == Errors.Returned(engine(VerifyCall()).handle.value)
    {
      var plaintext := engine(VerifyCall());
      r := Built(plaintext, VerifierMessage);
    }

    /** The decryptor call `decrypt` makes: whatever `inspect` is, a null inspect
        callback is passed. */
    function DecryptCall(getSessionKey: nat): EngineCall
    {
      DecryptorNew(policy, source, CertsCallback(getCerts), DecryptCallback(getSessionKey),
                   CheckCallback(check), NullCallback, NullCallback, time)
    }

    /** `decrypt(get_session_key, inspect)` (stream.rb:204-223). `inspect` is
        ignored. */
    method Decrypt(engine: Engine, getSessionKey: nat, inspect: Option<nat>) returns (r: Errors.Outcome<nat>)
      ensures var reply := engine(DecryptCall(getSessionKey));
              && (reply.error.Handle? ==> r == Errors.Raised(Errors.New(reply.error)))
              && (reply.error.Null? && reply.handle.None? ==>
                    r == Errors.Raised(Errors.Plain(Errors.StandardError, DecryptorMessage)))
              && (reply.error.Null? && reply.handle.Some? ==> r == Errors.Returned(reply.handle.value))
    {
      var plaintext := engine(DecryptCall(getSessionKey));
      r := Built(plaintext, DecryptorMessage);
    }
  }

  /** A `DetachedReader` that was built successfully: its verifier handle. */
  class DetachedReader {
    const ref: nat

    constructor (ref: nat)
      ensures this.ref == ref
    {
      this.ref := ref;
    }

    /** `verify(reader)` (stream.rb:249-256): the validity status wrapped, or the
        error slot's error. */
    method Verify(engine: Engine, reader: nat) returns (r: Errors.Outcome<Status.StatusObject>)
      ensures var reply := engine(DetachedVerify(ref, reader));
              && (reply.error.Handle? ==> r == Errors.Raised(Errors.New(reply.error)))
              && (reply.error.Null? ==> r == Errors.Returned(Status.StatusObject(reply.validity)))
    {
      var reply := engine(DetachedVerify(ref, reader));
      if reply.error.Handle? {
        return Errors.Raised(Errors.New(reply.error));
      }
      r := Errors.Returned(Status.StatusObject(reply.validity));
    }
  }

  /** The detached verifier call the constructor makes. */
  function DetachedCall(signature: nat, getCerts: nat, check: nat, time: int, policy: nat): EngineCall
  {
    DetachedVerifierNew(policy, signature, CertsCallback(getCerts), CheckCallback(check), NullCallback, NullCallback, time)
  }

  /** `DetachedReader.new(signature, get_certs, check, time, policy)`
      (stream.rb:229-247): raises as a reader's construction does; otherwise a
      new reader over the handle the engine returned. */
  method NewDetachedReader(engine: Engine, signature: nat, getCerts: nat, check: nat, time: int, policy: nat)
    returns (r: Errors.Outcome<DetachedReader>)
    ensures var reply := engine(DetachedCall(signature, getCerts, check, time, policy));
            && (reply.error.Handle? ==> r == Errors.Raised(Errors.New(reply.error)))
            && (reply.error.Null? && reply.handle.None? ==>
                  r == Errors.Raised(Errors.Plain(Errors.StandardError, DetachedMessage)))
            && (reply.error.Null? && reply.handle.Some? ==>
                  r.Returned? && fresh(r.value) && r.value.ref == reply.handle.value)
  {
    var reply := engine(DetachedCall(signature, getCerts, check, time, policy));
    match Built(reply, DetachedMessage)
    case Raised(e) =>
      r := Errors.Raised(e);
    case Returned(h) =>
      var reader := new DetachedReader(h);
      r := Errors.Returned(reader);
  }
}
