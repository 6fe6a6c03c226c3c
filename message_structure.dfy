/**
 * The message structure a verifier hands to the check callback
 * (lib/sequoia_openpgp/parse/message_structure.rb): a sequence of layers, each a
 * compression layer, an encryption layer or a group of signature verification
 * results, read through a stateful foreign iterator that returns null once it is
 * exhausted.
 */
module MessageStructure {
  import opened Wrappers

  /** One signature's verification result. `good_checksum?` reports `good` and five
      foreign objects (signature, certificate, key, binding signature, revocation
      status) that the core never looks into; they are kept as opaque handles. */
  datatype VerificationResult = VerificationResult(
    good: bool, signature: nat, cert: nat, key: nat, binding: nat, revocation: nat)

  datatype Layer =
    | Compression(algo: byte)
    | Encryption(symAlgo: byte, aeadAlgo: byte)
    | SignatureGroup(results: seq<VerificationResult>)

  /** The PGP_MESSAGE_LAYER_* codes `variant` returns (message_structure.rb:54). */
  const CompressionVariant: int := 1
  const EncryptionVariant: int := 2
  const SignatureGroupVariant: int := 3

  /** `variant` (message_structure.rb:54-57). */
  function Variant(l: Layer): (v: int)
    ensures v == CompressionVariant <==> l.Compression?
    ensures v == EncryptionVariant <==> l.Encryption?
    ensures v == SignatureGroupVariant <==> l.SignatureGroup?
  {
    match l
    case Compression(_) => CompressionVariant
    case Encryption(_, _) => EncryptionVariant
    case SignatureGroup(_) => SignatureGroupVariant
  }

  /** `compression` (message_structure.rb:36-40): the foreign flag and the algorithm
      byte it wrote. The byte cell starts zeroed and the foreign call writes it only
      for a compression layer, so any other layer reports `(false, 0)`. */
  function CompressionOf(l: Layer): (r: (bool, byte))
    ensures r.0 <==> l.Compression?
    ensures r.0 ==> r.1 == l.algo
    ensures !r.0 ==> r.1 == 0
  {
    match l
    case Compression(a) => (true, a)
    case _ => (false, 0)
  }

  /** `encryption` (message_structure.rb:42-44): only the foreign flag; no algorithm
      output is requested. */
  function EncryptionOf(l: Layer): (r: bool)
    ensures r <==> l.Encryption?
  {
    l.Encryption?
  }

  /** `signature_group` (message_structure.rb:46-52): the group's results (what its
      result iterator yields, in order) when the foreign call reports true, nil
      otherwise. */
  function SignatureGroupOf(l: Layer): (r: Option<seq<VerificationResult>>)
    ensures r.Some? <==> l.SignatureGroup?
    ensures r.Some? ==> r.value == l.results
  {
    match l
    case SignatureGroup(rs) => Some(rs)
    case _ => None
  }

  /** Ruby's `to_a` on what `signature_group` returns: `nil.to_a` is `[]`. */
  function ToA<T>(r: Option<seq<T>>): (xs: seq<T>)
    ensures r.None? ==> xs == []
    ensures r.Some? ==> xs == r.value
  {
    match r
    case None => []
    case Some(v) => v
  }

  /** What `pgp_message_structure_iter_next` returns: null or a layer handle. */
  datatype LayerPtr = NullLayer | LayerPtr(layer: Layer)

  /** The layers a drain of `pending` yields: every one before the first null. */
  function TakeUntilNull(pending: seq<LayerPtr>): seq<Layer>
    decreases |pending|
  {
    if pending == [] || pending[0].NullLayer? then []
    else [pending[0].layer] + TakeUntilNull(pending[1..])
  }

  /** TakeUntilNull yields the layers in foreign order, and stops exactly at the
      first null (or at the end). */
  lemma {:induction false} TakeUntilNullStopsAtFirstNull(pending: seq<LayerPtr>)
    ensures |TakeUntilNull(pending)| <= |pending|
    ensures forall i :: 0 <= i < |TakeUntilNull(pending)| ==> pending[i] == LayerPtr(TakeUntilNull(pending)[i])
    ensures |TakeUntilNull(pending)| < |pending| ==> pending[|TakeUntilNull(pending)|].NullLayer?
    decreases |pending|
  {
    if pending == [] || pending[0].NullLayer? {
    } else {
      TakeUntilNullStopsAtFirstNull(pending[1..]);
    }
  }

  /** A structure with no null among its handles yields all of them. */
  lemma {:induction false} TakeUntilNullNoNull(pending: seq<LayerPtr>)
    requires forall i :: 0 <= i < |pending| ==> pending[i].LayerPtr?
    ensures |TakeUntilNull(pending)| == |pending|
    decreases |pending|
  {
    if pending != [] {
      TakeUntilNullNoNull(pending[1..]);
    }
  }

  /** A `MessageStructureIter` over a foreign iterator; `pending` is what the
      foreign iterator will still return, in order. Once it runs out it returns
      null. */
  class MessageStructureIter {
    var pending: seq<LayerPtr>

    constructor (handles: seq<LayerPtr>)
      ensures pending == handles
    {
      pending := handles;
    }

    /** `next_layer` (message_structure.rb:78-81): one foreign call; nil for a null
        handle. */
    method NextLayer() returns (l: Option<Layer>)
      modifies this
      ensures old(pending) == [] ==> l.None? && pending == []
      ensures old(pending) != [] ==> pending == old(pending)[1..]
      ensures old(pending) != [] && old(pending)[0].NullLayer? ==> l.None?
      ensures old(pending) != [] && old(pending)[0].LayerPtr? ==> l == Some(old(pending)[0].layer)
    {
      if pending == [] {
        return None;
      }
      var handle := pending[0];
      pending := pending[1..];
      if handle.NullLayer? {
        l := None;
      } else {
        l := Some(handle.layer);
      }
    }

    /** `each` (message_structure.rb:72-76), collected as `to_a` collects it: the
        layers the iterator yields until the first null. */
    method Each() returns (layers: seq<Layer>)
      modifies this
      ensures layers == TakeUntilNull(old(pending))
    {
      layers := [];
      ghost var start := pending;
      while true
        invariant TakeUntilNull(start) == layers + TakeUntilNull(pending)
        decreases |pending|
      {
        ghost var before := pending;
        var layer := NextLayer();
        if layer.None? {
          assert before == [] || before[0].NullLayer?;
          return;
        }
        layers := layers + [layer.value];
      }
    }
  }

  /** A `MessageStructure` (message_structure.rb:84-103): a foreign structure
      whose iterator will return `handles`. */
  datatype Structure = Structure(handles: seq<LayerPtr>)

  /** `layers` (message_structure.rb:100-102): an iterator over the structure's
      layers, in foreign order. */
  method Layers(s: Structure) returns (it: MessageStructureIter)
    ensures fresh(it) && it.pending == s.handles
  {
    it := new MessageStructureIter(s.handles);
  }
}
