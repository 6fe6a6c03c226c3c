/**
 * The foreign objects that the core passes around without looking inside: key
 * IDs, fingerprints, keys, certificates, signers and encrypted session-key
 * packets. Their parsing, equality and formatting happen in the foreign library;
 * here key IDs and fingerprints are compared by their bytes, as `pgp_keyid_equal`
 * and `pgp_fingerprint_equal` do, and everything else is an opaque identity.
 */
module Keys {
  import opened Wrappers

  datatype KeyId = KeyId(bytes: seq<byte>)

  datatype Fingerprint = Fingerprint(bytes: seq<byte>)

  /** A public or secret key: the handle `id`, and what the foreign library reports
      for `keyid` and `fingerprint`. */
  datatype Key = Key(id: nat, keyid: KeyId, fingerprint: Fingerprint)

  /** A certificate handle. */
  datatype Cert = Cert(id: nat)

  /** A new foreign reference to a certificate, as `cert.clone.ref` makes one. */
  datatype CertPtr = ClonedCert(of: Cert)

  /** A new foreign reference to a fingerprint, as `fingerprint.clone.ref` makes one. */
  datatype FingerprintPtr = ClonedFingerprint(of: Fingerprint)

  /** A signing key pair (`into_key_pair.as_signer`). */
  datatype Signer = Signer(id: nat)

  /** `pgp_recipient_new(keyid, key)`: one PKESK addressee. */
  datatype Recipient = Recipient(keyid: KeyId, key: Key)

  /** `Recipient.new_from_key(key)` (serialize.rb:34-43): the recipient addressed by
      the key's own key ID. */
  function RecipientFromKey(key: Key): Recipient
  {
    Recipient(key.keyid, key)
  }

  /** A public-key encrypted session-key packet, addressed to `recipient`. */
  datatype Pkesk = Pkesk(id: nat, recipient: KeyId)

  /** A symmetric-key (password) encrypted session-key packet. */
  datatype Skesk = Skesk(id: nat)

  /** Session-key bytes as `SessionKey.new_from_bytes` wraps them. */
  datatype SessionKey = SessionKey(bytes: seq<byte>)
}
