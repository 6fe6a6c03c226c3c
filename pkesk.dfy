/**
 * `PKESK#decrypt` and `PKESK#recipient`
 * (lib/sequoia-ruby-ffi/lib/openpgp/packet/pkesk.rb): unwrapping the session key
 * of a public-key encrypted session-key packet with a secret key, through a
 * foreign call that writes into caller-allocated cells and reports the key's real
 * length through an in/out length cell.
 */
module Pkesk {
  import opened Wrappers
  import Keys
  import Status

  /** A status other than SUCCESS. */
  type FailureCode = c: Status.Code | c != Status.Success witness Status.UnknownError

  /** What the foreign library does with a PKESK and a secret key: the session key
      and its symmetric algorithm, or a refusal with its status. */
  datatype Unwrapping = Unwrapped(sessionKey: seq<byte>, algo: byte) | Refused(status: FailureCode)

  type Oracle = (Keys.Pkesk, Keys.Key) -> Unwrapping

  /** The pair `decrypt` returns: the session key and the algorithm byte. */
  datatype DecryptedKey = DecryptedKey(sessionKey: Keys.SessionKey, algo: byte)

  /** The session key, if any, that the oracle yields for this pair. */
  function ExpectedKey(u: Unwrapping): Option<DecryptedKey>
  {
    match u
    case Unwrapped(k, a) => Some(DecryptedKey(Keys.SessionKey(k), a))
    case Refused(_) => None
  }

  /** The first buffer size and in/out length (pkesk.rb:26). */
  const DefaultLength: nat := 1024

  /** `recipient` (pkesk.rb:46-48): the key ID the packet is addressed to. */
  function Recipient(p: Keys.Pkesk): (r: Keys.KeyId)
    ensures p == Keys.Pkesk(p.id, r)
  {
    p.recipient
  }

  /** `pgp_pkesk_decrypt(error, pkesk, key, algo_p, key_p, key_len_p)`, as the core
      relies on it: on success it writes the algorithm, copies the session key only
      when the capacity in `lenCell` suffices, sets `lenCell` to the key's length
      and returns SUCCESS; on failure it returns the status and writes nothing.
      `capacity` is the buffer capacity the call was given in `lenCell`. */
  method PgpPkeskDecrypt(oracle: Oracle, p: Keys.Pkesk, key: Keys.Key,
                         algoCell: array<byte>, sessionKeyBuf: array<byte>, lenCell: array<nat>)
    returns (status: Status.Code, ghost capacity: nat)
    requires algoCell.Length == 1 && lenCell.Length == 1 && algoCell != sessionKeyBuf
    requires lenCell[0] <= sessionKeyBuf.Length
    modifies algoCell, sessionKeyBuf, lenCell
    ensures capacity == old(lenCell[0])
    ensures oracle(p, key).Refused? ==>
              && status == oracle(p, key).status
              && unchanged(algoCell) && unchanged(sessionKeyBuf) && unchanged(lenCell)
    ensures oracle(p, key).Unwrapped? ==>
              var k := oracle(p, key).sessionKey;
              && status == Status.Success
              && algoCell[0] == oracle(p, key).algo
              && lenCell[0] == |k|
              && (|k| <= old(lenCell[0]) ==> sessionKeyBuf[..|k|] == k)
              && (|k| > old(lenCell[0]) ==> unchanged(sessionKeyBuf))
  {
    capacity := lenCell[0];
    match oracle(p, key)
    case Refused(s) =>
      status := s;
    case Unwrapped(k, a) =>
      algoCell[0] := a;
      if |k| <= lenCell[0] {
        forall i | 0 <= i < |k| {
          sessionKeyBuf[i] := k[i];
        }
      }
      lenCell[0] := |k|;
      status := Status.Success;
  }

  /** `decrypt(secret_key)` (pkesk.rb:25-44). `capacities` lists the capacity each
      foreign call was given: the first uses 1024 bytes; a second call happens only
      when the first fails or reports a longer key, and uses a buffer of the
      reported length. The result is exactly the session key and algorithm the
      foreign library yields for this pair, or nil when it refuses. */
  method Decrypt(oracle: Oracle, p: Keys.Pkesk, secretKey: Keys.Key)
    returns (r: Option<DecryptedKey>, ghost capacities: seq<nat>)
    ensures r == ExpectedKey(oracle(p, secretKey))
    ensures 1 <= |capacities| <= 2 && capacities[0] == DefaultLength
    ensures |capacities| == 1 <==>
              oracle(p, secretKey).Unwrapped? && |oracle(p, secretKey).sessionKey| <= DefaultLength
    ensures |capacities| == 2 && oracle(p, secretKey).Unwrapped? ==>
              capacities[1] == |oracle(p, secretKey).sessionKey|
    ensures |capacities| == 2 && oracle(p, secretKey).Refused? ==> capacities[1] == DefaultLength
  {
    var algoCell := new byte[1];
    var sessionKeyBuf := new byte[DefaultLength];
    var lenCell := new nat[1];
    lenCell[0] := DefaultLength;

    var status;
    ghost var capacity;
    status, capacity := PgpPkeskDecrypt(oracle, p, secretKey, algoCell, sessionKeyBuf, lenCell);
    capacities := [capacity];

    var skLength := lenCell[0];
    if status != Status.Success || skLength > DefaultLength {
      sessionKeyBuf := new byte[skLength];
      status, capacity := PgpPkeskDecrypt(oracle, p, secretKey, algoCell, sessionKeyBuf, lenCell);
      capacities := capacities + [capacity];
      if status != Status.Success {
        return None, capacities;
      }
    }

    r := Some(DecryptedKey(Keys.SessionKey(sessionKeyBuf[..skLength]), algoCell[0]));
  }
}
