/**
 * Status codes returned across the foreign boundary (the PGP_STATUS_* constants).
 *
 * The numeric value of each constant is generated from the foreign C header at build
 * time, so the model names the codes instead of numbering them: one constructor per
 * constant that lib/sequoia_openpgp/error.rb recognises, plus `Unlisted` for every
 * other integer the foreign library may return.
 */
module Status {

  datatype Code =
    | Success
    | UnknownError
    | NetworkPolicyViolation
    | IoError
    | InvalidArgument
    | InvalidOperation
    | MalformedPacket
    | UnsupportedPacketType
    | UnsupportedHashAlgorithm
    | UnsupportedPublicKeyAlgorithm
    | UnsupportedEllipticCurve
    | UnsupportedSymmetricAlgorithm
    | UnsupportedAeadAlgorithm
    | UnsupportedCompressionAlgorithm
    | UnsupportedSignatureType
    | InvalidPassword
    | InvalidSessionKey
    | MissingSessionKey
    | MalformedCert
    | MalformedMpi
    | BadSignature
    | ManipulatedMessage
    | MalformedMessage
    | IndexOutOfRange
    | UnsupportedCert
    | Expired
    | NotYetLive
    | Unlisted(value: int)
  {
    /** True for the codes that have a PGP_STATUS_* constant of their own. */
    predicate Named() { !Unlisted? }
  }

  /** The `Status` wrapper object (`Status.new(val)`), as opposed to a bare integer code. */
  datatype StatusObject = StatusObject(code: Code)
}
