/**
 * The error boundary of lib/sequoia_openpgp/error.rb: the value a foreign `error`
 * slot holds, the Ruby exception classes of the bindings, and `Error.new`, which
 * turns a foreign error handle into the exception that the caller raises.
 */
module Errors {
  import Status
  import opened Wrappers

  /** What an `error` out-slot holds after a foreign call: null, or a handle to a
      foreign error object whose status `pgp_error_status` reports. */
  datatype ErrorPtr = Null | Handle(status: Status.Code)

  /** The subclasses of `SQError` (error.rb:121-200), one per recognised status. */
  datatype SqClass =
    | Success
    | UnknownError
    | NetworkPolicyViolation
    | IOError
    | InvalidArgument
    | InvalidOperation
    | MalformedPacket
    | UnsupportedPacketType
    | UnsupportedHashAlgorithm
    | UnsupportedPublicKeyAlgorithm
    | UnsupportedEllipticCurve
    | UnsupportedSymmetricAlgorithm
    | UnsupportedAEADAlgorithm
    | UnsupportedCompressionAlgorithm
    | UnsupportedSignatureType
    | InvalidPassword
    | InvalidSessionKey
    | MissingSessionKey
    | MalformedCert
    | MalformedMPI
    | BadSignature
    | ManipulatedMessage
    | MalformedMessage
    | IndexOutOfRange
    | UnsupportedCert
    | Expired
    | NotYetLive

  /** Exception classes raised by Ruby code of the bindings rather than built from a
      foreign error; `MalformedValueError` is the bindings' own (error.rb:202-206). */
  datatype PlainClass =
    | StandardError
    | RuntimeError
    | ArgumentError
    | NameError
    | NoMethodError
    | LocalJumpError
    | TypeError
    | MalformedValueError

  /** A raised Ruby exception: an instance of an SQError subclass wrapping a
      (non-null) foreign error handle whose status is `status`, or a plain exception
      carrying its message. */
  datatype Exception =
    | SqError(cls: SqClass, status: Status.Code)
    | Plain(kind: PlainClass, message: string)

  /** The outcome of a Ruby method: the value it returns, or the exception it raises. */
  datatype Outcome<T> = Returned(value: T) | Raised(exception: Exception)

  /** Every class named above, plus the two abstract classes `Error` and `SQError`,
      so that the inheritance chain can be stated. */
  datatype RubyClass =
    | Base(plain: PlainClass)
    | OpenPgpError
    | SqErrorClass
    | Leaf(sq: SqClass)

  /** The superclass of each class; StandardError is the root of what is modelled. */
  function Superclass(c: RubyClass): Option<RubyClass>
  {
    match c
    case Base(StandardError) => None
    case Base(NoMethodError) => Some(Base(NameError))
    case Base(_) => Some(Base(StandardError))
    case OpenPgpError => Some(Base(StandardError))
    case SqErrorClass => Some(OpenPgpError)
    case Leaf(_) => Some(SqErrorClass)
  }

  /** Distance to StandardError; it strictly decreases along Superclass. */
  function Rank(c: RubyClass): nat
  {
    match c
    case Base(StandardError) => 0
    case Base(NoMethodError) => 2
    case Base(_) => 1
    case OpenPgpError => 1
    case SqErrorClass => 2
    case Leaf(_) => 3
  }

  /** `c <= d` in Ruby: d is c or one of its ancestors. */
  predicate IsA(c: RubyClass, d: RubyClass)
    decreases Rank(c)
  {
    c == d || (Superclass(c).Some? && Rank(Superclass(c).value) < Rank(c) && IsA(Superclass(c).value, d))
  }

  function ClassOf(e: Exception): RubyClass
  {
    match e
    case SqError(k, _) => Leaf(k)
    case Plain(k, _) => Base(k)
  }

  /** The constant of the same name for each SQError subclass (error.rb:39-92 read
      from the class side). */
  function CodeFor(k: SqClass): (c: Status.Code)
    ensures c.Named()
  {
    match k
    case Success => Status.Success
    case UnknownError => Status.UnknownError
    case NetworkPolicyViolation => Status.NetworkPolicyViolation
    case IOError => Status.IoError
    case InvalidArgument => Status.InvalidArgument
    case InvalidOperation => Status.InvalidOperation
    case MalformedPacket => Status.MalformedPacket
    case UnsupportedPacketType => Status.UnsupportedPacketType
    case UnsupportedHashAlgorithm => Status.UnsupportedHashAlgorithm
    case UnsupportedPublicKeyAlgorithm => Status.UnsupportedPublicKeyAlgorithm
    case UnsupportedEllipticCurve => Status.UnsupportedEllipticCurve
    case UnsupportedSymmetricAlgorithm => Status.UnsupportedSymmetricAlgorithm
    case UnsupportedAEADAlgorithm => Status.UnsupportedAeadAlgorithm
    case UnsupportedCompressionAlgorithm => Status.UnsupportedCompressionAlgorithm
    case UnsupportedSignatureType => Status.UnsupportedSignatureType
    case InvalidPassword => Status.InvalidPassword
    case InvalidSessionKey => Status.InvalidSessionKey
    case MissingSessionKey => Status.MissingSessionKey
    case MalformedCert => Status.MalformedCert
    case MalformedMPI => Status.MalformedMpi
    case BadSignature => Status.BadSignature
    case ManipulatedMessage => Status.ManipulatedMessage
    case MalformedMessage => Status.MalformedMessage
    case IndexOutOfRange => Status.IndexOutOfRange
    case UnsupportedCert => Status.UnsupportedCert
    case Expired => Status.Expired
    case NotYetLive => Status.NotYetLive
  }

  /** The `case` of `Error.new` (error.rb:38-95): the class a status code selects, or
      None for the `else` branch. Its result names the class of the code's own name,
      which is what CodeFor checks from the other side. */
  function ClassFor(c: Status.Code): (k: Option<SqClass>)
    ensures k.Some? <==> c.Named()
    ensures k.Some? ==> CodeFor(k.value) == c
  {
    match c
    case Success => Some(Success)
    case UnknownError => Some(UnknownError)
    case NetworkPolicyViolation => Some(NetworkPolicyViolation)
    case IoError => Some(IOError)
    case InvalidArgument => Some(InvalidArgument)
    case InvalidOperation => Some(InvalidOperation)
    case MalformedPacket => Some(MalformedPacket)
    case UnsupportedPacketType => Some(UnsupportedPacketType)
    case UnsupportedHashAlgorithm => Some(UnsupportedHashAlgorithm)
    case UnsupportedPublicKeyAlgorithm => Some(UnsupportedPublicKeyAlgorithm)
    case UnsupportedEllipticCurve => Some(UnsupportedEllipticCurve)
    case UnsupportedSymmetricAlgorithm => Some(UnsupportedSymmetricAlgorithm)
    case UnsupportedAeadAlgorithm => Some(UnsupportedAEADAlgorithm)
    case UnsupportedCompressionAlgorithm => Some(UnsupportedCompressionAlgorithm)
    case UnsupportedSignatureType => Some(UnsupportedSignatureType)
    case InvalidPassword => Some(InvalidPassword)
    case InvalidSessionKey => Some(InvalidSessionKey)
    case MissingSessionKey => Some(MissingSessionKey)
    case MalformedCert => Some(MalformedCert)
    case MalformedMpi => Some(MalformedMPI)
    case BadSignature => Some(BadSignature)
    case ManipulatedMessage => Some(ManipulatedMessage)
    case MalformedMessage => Some(MalformedMessage)
    case IndexOutOfRange => Some(IndexOutOfRange)
    case UnsupportedCert => Some(UnsupportedCert)
    case Expired => Some(Expired)
    case NotYetLive => Some(NotYetLive)
    case Unlisted(_) => None
  }

  const MalformedValue: Exception := Plain(MalformedValueError, "Malformed Value")

  /** `Error.new(error)` as written (error.rb:34-96): the SUCCESS branch names the
      constant `Succes`, which is not defined, so evaluating it raises NameError. */
  function NewAsWritten(ptr: ErrorPtr): (e: Exception)
    ensures ptr.Null? ==> e == MalformedValue
    ensures ptr == Handle(Status.Success) ==> e.Plain? && e.kind == NameError
    ensures ptr.Handle? && ptr.status != Status.Success ==> e == New(ptr)
  {
    if ptr == Handle(Status.Success) then Plain(NameError, "uninitialized constant OpenPGP::Error::Succes")
    else New(ptr)
  }

  /** `Error.new(error)` as intended: a null handle and an unrecognised status give
      MalformedValueError without a foreign handle; every recognised status gives an
      instance of the SQError subclass of the same name holding that handle. */
  function New(ptr: ErrorPtr): (e: Exception)
    ensures ptr.Null? ==> e == MalformedValue
    ensures ptr.Handle? && !ptr.status.Named() ==> e == MalformedValue
    ensures ptr.Handle? && ptr.status.Named() ==>
              e.SqError? && e.status == ptr.status && CodeFor(e.cls) == ptr.status
  {
    match ptr
    case Null => MalformedValue
    case Handle(c) =>
      match ClassFor(c)
      case None => MalformedValue
      case Some(k) => SqError(k, c)
  }

  /** `SQError#status` (error.rb:102-104): the wrapped foreign error's status, as a
      `Status` object. */
  function StatusOf(e: Exception): Status.StatusObject
    requires e.SqError?
  {
    Status.StatusObject(e.status)
  }

  /** What `Error#status` reports of the error New builds is the status it was built
      from, and the class's own code is that status too. */
  lemma StatusRoundTrip(c: Status.Code)
    requires c.Named()
    ensures New(Handle(c)).SqError?
    ensures StatusOf(New(Handle(c))) == Status.StatusObject(c)
    ensures CodeFor(New(Handle(c)).cls) == c
  {
  }

  /** The other direction of the correspondence: the `case` selects every class
      for its own code, so the two tables are inverse bijections between the
      classes and the recognised codes (error.rb:38-92, 121-199). */
  lemma ClassForCodeFor(k: SqClass)
    ensures ClassFor(CodeFor(k)) == Some(k)
  {
  }

  /** Distinct recognised codes give distinct classes (error.rb:38-92). */
  lemma NewInjective(a: Status.Code, b: Status.Code)
    requires a.Named() && b.Named() && a != b
    ensures New(Handle(a)).cls != New(Handle(b)).cls
  {
    assert CodeFor(New(Handle(a)).cls) == a;
  }

  /** Every class `Error.new` dispatches to is an SQError and an OpenPGP::Error;
      MalformedValueError derives from StandardError only (error.rb:113-206). */
  lemma DispatchedAreSqErrors(ptr: ErrorPtr)
    ensures New(ptr).SqError? ==> IsA(ClassOf(New(ptr)), SqErrorClass) && IsA(ClassOf(New(ptr)), OpenPgpError)
    ensures New(ptr).Plain? ==> !IsA(ClassOf(New(ptr)), OpenPgpError) && IsA(ClassOf(New(ptr)), Base(StandardError))
  {
  }

  /** The finding at error.rb:39-40: a handle reporting SUCCESS makes the code as
      written raise NameError instead of building a `Success` error. */
  lemma SuccessBranchRaisesNameError()
    ensures NewAsWritten(Handle(Status.Success)).kind == NameError
    ensures !IsA(ClassOf(NewAsWritten(Handle(Status.Success))), OpenPgpError)
    ensures New(Handle(Status.Success)) == SqError(Success, Status.Success)
  {
  }
}
