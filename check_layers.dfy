/**
 * The two `check_layers` functions of the example scripts, which a caller passes
 * as the check callback of a verifier: lib/sequoia-ruby-ffi/examples/
 * stream_verify_signature.rb (an inline-signed message) and
 * stream_verify_detached_signature.rb (a detached signature). Each takes the
 * layers that `message_structure.layers.to_a` yields, runs guard clauses in order
 * and either returns SUCCESS or raises a RuntimeError whose message names the
 * first check that failed.
 */
module CheckLayers {
  import opened Wrappers
  import Status
  import Errors
  import opened MessageStructure

  const LengthMessage: string := "unexpected length of message structure"
  const OrderingMessage: string := "unexpected ordering of message layers"
  const CountMessage: string := "unexpected number of signatures"
  const ChecksumMessage: string := "uncorrect checksum"

  /** `raise "msg"`: a RuntimeError. */
  function Reject(msg: string): Errors.Outcome<Status.Code>
  {
    Errors.Raised(Errors.Plain(Errors.RuntimeError, msg))
  }

  /** `layers.map { |layer| layer.variant }`. */
  function Variants(layers: seq<Layer>): (vs: seq<int>)
    ensures |vs| == |layers|
    ensures forall i :: 0 <= i < |layers| ==> vs[i] == Variant(layers[i])
  {
    seq(|layers|, i requires 0 <= i < |layers| => Variant(layers[i]))
  }

  /** The inline `check_layers` (stream_verify_signature.rb:24-44). */
  function CheckInline(layers: seq<Layer>): (r: Errors.Outcome<Status.Code>)
    ensures r.Returned? ==> r.value == Status.Success
    ensures r.Raised? ==> r.exception.Plain? && r.exception.kind == Errors.RuntimeError
  {
    if |layers| != 2 then Reject(LengthMessage)
    else if Variants(layers) != [CompressionVariant, SignatureGroupVariant] then Reject(OrderingMessage)
    else
      var groups := ToA(SignatureGroupOf(layers[1]));
      if |groups| != 1 then Reject(CountMessage)
      else if !groups[0].good then Reject(ChecksumMessage)
      else Errors.Returned(Status.Success)
  }

  /** The shape an inline-signed message has: a compression layer, then a group of
      exactly one signature whose checksum is good. */
  ghost predicate InlineSigned(layers: seq<Layer>)
  {
    exists algo: byte, v: VerificationResult ::
      layers == [Compression(algo), SignatureGroup([v])] && v.good
  }

  /** The inline check accepts exactly the inline-signed shape. */
  lemma CheckInlineAcceptsExactly(layers: seq<Layer>)
    ensures CheckInline(layers).Returned? <==> InlineSigned(layers)
  {
    if CheckInline(layers).Returned? {
      assert Variants(layers)[0] == CompressionVariant && Variants(layers)[1] == SignatureGroupVariant;
      assert layers[0].Compression? && layers[1].SignatureGroup?;
      assert |layers[1].results| == 1 && layers[1].results[0].good;
      assert layers[1] == SignatureGroup([layers[1].results[0]]);
      assert layers == [Compression(layers[0].algo), SignatureGroup([layers[1].results[0]])];
    }
    if InlineSigned(layers) {
      var algo: byte, v: VerificationResult :| layers == [Compression(algo), SignatureGroup([v])] && v.good;
      assert Variants(layers) == [CompressionVariant, SignatureGroupVariant];
    }
  }

  /** The inline checks run in order and the first one that fails names the error. */
  lemma CheckInlineFirstFailureWins(layers: seq<Layer>)
    ensures |layers| != 2 ==> CheckInline(layers) == Reject(LengthMessage)
    ensures |layers| == 2 && !(layers[0].Compression? && layers[1].SignatureGroup?) ==>
              CheckInline(layers) == Reject(OrderingMessage)
    ensures |layers| == 2 && layers[0].Compression? && layers[1].SignatureGroup? && |layers[1].results| != 1 ==>
              CheckInline(layers) == Reject(CountMessage)
    ensures |layers| == 2 && layers[0].Compression? && layers[1].SignatureGroup? && |layers[1].results| == 1
            && !layers[1].results[0].good ==>
              CheckInline(layers) == Reject(ChecksumMessage)
  {
    if |layers| == 2 && layers[0].Compression? && layers[1].SignatureGroup? {
      assert Variants(layers) == [CompressionVariant, SignatureGroupVariant];
    }
  }

  /** The detached `check_layers` (stream_verify_detached_signature.rb:23-40).
      `groups.any?` is true exactly when the list is non-empty, since every result
      object is truthy. */
  function CheckDetached(layers: seq<Layer>): (r: Errors.Outcome<Status.Code>)
    ensures r.Returned? ==> r.value == Status.Success
    ensures r.Raised? ==> r.exception.Plain? && r.exception.kind == Errors.RuntimeError
  {
    if |layers| != 1 then Reject(LengthMessage)
    else
      var groups := ToA(SignatureGroupOf(layers[0]));
      if |groups| == 0 then Reject(OrderingMessage)
      else if |groups| != 1 then Reject(CountMessage)
      else if !groups[0].good then Reject(ChecksumMessage)
      else Errors.Returned(Status.Success)
  }

  /** The shape a detached signature's structure has: one group of exactly one
      signature whose checksum is good. */
  ghost predicate DetachedSigned(layers: seq<Layer>)
  {
    exists v: VerificationResult :: layers == [SignatureGroup([v])] && v.good
  }

  /** The detached check accepts exactly the detached-signed shape. */
  lemma CheckDetachedAcceptsExactly(layers: seq<Layer>)
    ensures CheckDetached(layers).Returned? <==> DetachedSigned(layers)
  {
    if CheckDetached(layers).Returned? {
      assert layers[0].SignatureGroup? && |layers[0].results| == 1;
      assert layers[0] == SignatureGroup([layers[0].results[0]]);
      assert layers == [SignatureGroup([layers[0].results[0]])];
    }
  }

  /** The detached checks run in order, the first failure naming the error; a
      single layer that is not a signature group counts as having no results, so
      it fails the second check. */
  lemma CheckDetachedFirstFailureWins(layers: seq<Layer>)
    ensures |layers| != 1 ==> CheckDetached(layers) == Reject(LengthMessage)
    ensures |layers| == 1 && !layers[0].SignatureGroup? ==> CheckDetached(layers) == Reject(OrderingMessage)
    ensures |layers| == 1 && layers[0].SignatureGroup? && layers[0].results == [] ==>
              CheckDetached(layers) == Reject(OrderingMessage)
    ensures |layers| == 1 && layers[0].SignatureGroup? && |layers[0].results| > 1 ==>
              CheckDetached(layers) == Reject(CountMessage)
    ensures |layers| == 1 && layers[0].SignatureGroup? && |layers[0].results| == 1 && !layers[0].results[0].good ==>
              CheckDetached(layers) == Reject(ChecksumMessage)
  {
  }
}
