/**
 * The high-level `Sequoia` module of lib/ruby_openpgp/main.rb: the callbacks it
 * gives the decryptor (`load_session_keys`, `load_public_keys`,
 * `check_message`), the recipient lookup `load_recipient_keys`, and the
 * encryption pipeline `do_encrypt`.
 *
 * The secret keys of the decryption certificate (what
 * `@cert.key_amalgamations(@policy, @time).secret_keys` yields, each time in the
 * same order) are the parameter `secretKeys`; certificate parsing and the foreign
 * key filters are the parameter `parse`; armoring is the parameter `armor`.
 */
module Sequoia {
  import opened Wrappers
  import Status
  import Errors
  import Keys
  import Pkesk
  import Serialize
  import IO
  import MessageStructure
  import Stream

  // ---------------------------------------------------------------------------
  // Decryption callbacks
  // ---------------------------------------------------------------------------

  /** `check_message` (main.rb:29-51): its checks are commented out, so every
      structure is accepted. */
  function CheckMessage(message: MessageStructure.Structure): (s: Status.Code)
    ensures s == Status.Success
  {
    Status.Success
  }

  /** `load_public_keys` (main.rb:66-68): the decryption certificate, whatever key
      IDs are asked for. */
  function LoadPublicKeys(cert: Keys.Cert, keyids: seq<Keys.KeyId>): (certs: seq<Keys.Cert>)
    ensures certs == [cert]
  {
    [cert]
  }

  /** A secret key can open a PKESK when its key ID is the packet's recipient. */
  predicate Opens(k: Keys.Key, p: Keys.Pkesk)
  {
    k.keyid == Pkesk.Recipient(p)
  }

  /** The first key, in iteration order, that opens `p`. */
  function FirstKeyFor(p: Keys.Pkesk, keys: seq<Keys.Key>): (j: Option<nat>)
    ensures j.Some? ==> j.value < |keys| && Opens(keys[j.value], p)
    ensures j.Some? ==> forall k :: 0 <= k < j.value ==> !Opens(keys[k], p)
    ensures j.None? ==> forall k :: 0 <= k < |keys| ==> !Opens(keys[k], p)
    decreases |keys|
  {
    if keys == [] then None
    else if Opens(keys[0], p) then Some(0)
    else
      match FirstKeyFor(p, keys[1..])
      case None => None
      case Some(j) => Some(j + 1)
  }

  /** No key opens any of the first `n` PKESKs. */
  ghost predicate NoneOpenedBefore(pkesks: seq<Keys.Pkesk>, keys: seq<Keys.Key>, n: nat)
    requires n <= |pkesks|
  {
    forall i, k :: 0 <= i < n && 0 <= k < |keys| ==> !Opens(keys[k], pkesks[i])
  }

  /** The first (PKESK, key) pair, PKESKs in order and for each the keys in order,
      where the key opens the PKESK. */
  function FirstMatch(pkesks: seq<Keys.Pkesk>, keys: seq<Keys.Key>): (m: Option<(nat, nat)>)
    ensures m.Some? ==> m.value.0 < |pkesks| && m.value.1 < |keys| && Opens(keys[m.value.1], pkesks[m.value.0])
    ensures m.Some? ==> NoneOpenedBefore(pkesks, keys, m.value.0)
    ensures m.Some? ==> forall k :: 0 <= k < m.value.1 ==> !Opens(keys[k], pkesks[m.value.0])
    ensures m.None? ==> NoneOpenedBefore(pkesks, keys, |pkesks|)
    decreases |pkesks|
  {
    if pkesks == [] then None
    else
      match FirstKeyFor(pkesks[0], keys)
      case Some(j) => Some((0, j))
      case None =>
        match FirstMatch(pkesks[1..], keys)
        case None =>
          assert forall i :: 1 <= i < |pkesks| ==> pkesks[i] == pkesks[1..][i - 1];
          None
        case Some(m) =>
          assert forall i :: 1 <= i < |pkesks| ==> pkesks[i] == pkesks[1..][i - 1];
          Some((m.0 + 1, m.1))
  }

  /** The pair a search finds first is FirstMatch: nothing before it matches. */
  lemma FirstMatchIsUnique(pkesks: seq<Keys.Pkesk>, keys: seq<Keys.Key>, i: nat, j: nat)
    requires i < |pkesks| && j < |keys| && Opens(keys[j], pkesks[i])
    requires NoneOpenedBefore(pkesks, keys, i)
    requires forall k :: 0 <= k < j ==> !Opens(keys[k], pkesks[i])
    ensures FirstMatch(pkesks, keys) == Some((i, j))
  {
  }

  const NotRecipientMessage: string := "Not a valid recipient for this message!"

  /** `load_session_keys(pkesks, _skesks)` (main.rb:53-64). The search stops at the
      first pair FirstMatch names and decrypts that PKESK with that key once, even
      when the decryption then yields nil; the reply carries that key's
      fingerprint. With no pair it raises RuntimeError. SKESKs are ignored.
      `attempts` lists the (PKESK, key) pairs handed to `PKESK#decrypt`. */
  method LoadSessionKeys(oracle: Pkesk.Oracle, pkesks: seq<Keys.Pkesk>, skesks: seq<Keys.Skesk>,
                         secretKeys: seq<Keys.Key>)
    returns (r: Errors.Outcome<Stream.SessionKeyReply>, ghost attempts: seq<(Keys.Pkesk, Keys.Key)>)
    ensures FirstMatch(pkesks, secretKeys).None? ==>
              r == Errors.Raised(Errors.Plain(Errors.RuntimeError, NotRecipientMessage))
    ensures FirstMatch(pkesks, secretKeys).Some? ==>
              var p := pkesks[FirstMatch(pkesks, secretKeys).value.0];
              var k := secretKeys[FirstMatch(pkesks, secretKeys).value.1];
              r == Errors.Returned(Stream.SessionKeyReply(Pkesk.ExpectedKey(oracle(p, k)), Some(k.fingerprint)))
    ensures FirstMatch(pkesks, secretKeys).None? ==> attempts == []
    ensures FirstMatch(pkesks, secretKeys).Some? ==>
              attempts == [(pkesks[FirstMatch(pkesks, secretKeys).value.0], secretKeys[FirstMatch(pkesks, secretKeys).value.1])]
  {
    var i := 0;
    while i < |pkesks|
      invariant 0 <= i <= |pkesks|
      invariant NoneOpenedBefore(pkesks, secretKeys, i)
    {
      var pkesk := pkesks[i];
      var j := 0;
      while j < |secretKeys|
        invariant 0 <= j <= |secretKeys|
        invariant forall k :: 0 <= k < j ==> !Opens(secretKeys[k], pkesk)
      {
        var key := secretKeys[j];
        if key.keyid == Pkesk.Recipient(pkesk) {
          FirstMatchIsUnique(pkesks, secretKeys, i, j);
          var sk, _ := Pkesk.Decrypt(oracle, pkesk, key);
          return Errors.Returned(Stream.SessionKeyReply(sk, Some(key.fingerprint))), [(pkesk, key)];
        }
        j := j + 1;
      }
      i := i + 1;
    }
    r := Errors.Raised(Errors.Plain(Errors.RuntimeError, NotRecipientMessage));
    attempts := [];
  }

  // ---------------------------------------------------------------------------
  // Recipients
  // ---------------------------------------------------------------------------

  /** The `keys` argument of `load_recipient_keys`: nil, one certificate's bytes,
      or a list of them. */
  datatype KeysArg = NilKeys | OneCert(bytes: seq<byte>) | CertList(items: seq<seq<byte>>)

  /** `Array(keys)`: `[]` for nil, `[x]` for a single value, the list itself. */
  function ArrayOf(keys: KeysArg): (xs: seq<seq<byte>>)
    ensures keys.NilKeys? ==> xs == []
    ensures keys.OneCert? ==> xs == [keys.bytes]
    ensures keys.CertList? ==> xs == keys.items
  {
    match keys
    case NilKeys => []
    case OneCert(b) => [b]
    case CertList(items) => items
  }

  /** `Cert.new_from_bytes` followed by the foreign transport- and
      storage-encryption key filters: the certificate's keys that qualify, in
      iteration order, or the exception parsing raised. */
  type CertParser = seq<byte> -> Errors.Outcome<seq<Keys.Key>>

  /** `map { |ka| Recipient.new_from_key(ka.key) }` over one certificate's keys. */
  function RecipientsOf(keys: seq<Keys.Key>): (rs: seq<Keys.Recipient>)
    ensures |rs| == |keys|
    ensures forall i :: 0 <= i < |keys| ==> rs[i] == Keys.RecipientFromKey(keys[i])
  {
    seq(|keys|, i requires 0 <= i < |keys| => Keys.RecipientFromKey(keys[i]))
  }

  /** `load_recipient_keys(keys)` (main.rb:70-80) on `Array(keys)`: every
      certificate's recipients, certificate by certificate, flattened; the first
      certificate whose parsing raises aborts the whole lookup. */
  function LoadRecipientKeys(certs: seq<seq<byte>>, parse: CertParser): (r: Errors.Outcome<seq<Keys.Recipient>>)
    ensures r.Returned? ==> forall i :: 0 <= i < |certs| ==> parse(certs[i]).Returned?
    decreases |certs|
  {
    if certs == [] then Errors.Returned([])
    else
      match parse(certs[0])
      case Raised(e) => Errors.Raised(e)
      case Returned(keys) =>
        match LoadRecipientKeys(certs[1..], parse)
        case Raised(e) => Errors.Raised(e)
        case Returned(rest) =>
          assert forall i :: 1 <= i < |certs| ==> certs[i] == certs[1..][i - 1];
          Errors.Returned(RecipientsOf(keys) + rest)
  }

  /** The lookup raises exactly when some certificate fails to parse, and then
      with the exception of the first one that fails. */
  lemma {:induction false} LoadRecipientKeysRaisesFirstFailure(certs: seq<seq<byte>>, parse: CertParser)
    ensures LoadRecipientKeys(certs, parse).Raised? <==> exists i :: 0 <= i < |certs| && parse(certs[i]).Raised?
    ensures LoadRecipientKeys(certs, parse).Raised? ==>
              exists i :: 0 <= i < |certs| && parse(certs[i]).Raised?
                          && parse(certs[i]).exception == LoadRecipientKeys(certs, parse).exception
                          && forall k :: 0 <= k < i ==> parse(certs[k]).Returned?
    decreases |certs|
  {
    if certs != [] && parse(certs[0]).Returned? {
      LoadRecipientKeysRaisesFirstFailure(certs[1..], parse);
      if LoadRecipientKeys(certs, parse).Raised? {
        var i :| 0 <= i < |certs[1..]| && parse(certs[1..][i]).Raised?
                 && parse(certs[1..][i]).exception == LoadRecipientKeys(certs, parse).exception
                 && forall k :: 0 <= k < i ==> parse(certs[1..][k]).Returned?;
        assert parse(certs[i + 1]).Raised?;
        assert forall k :: 1 <= k < i + 1 ==> certs[k] == certs[1..][k - 1];
      } else {
        assert forall i :: 1 <= i < |certs| ==> certs[i] == certs[1..][i - 1];
      }
    }
  }

  /** Concatenation regroups freely; stated once for any element type, so the
      proofs below need not unfold it on their own concrete sequences. */
  lemma AppendAssociative<T>(x: seq<T>, y: seq<T>, z: seq<T>)
    ensures x + (y + z) == (x + y) + z
  {
  }

  /** The lookup over a non-empty list: the first certificate, then the rest. */
  lemma LoadRecipientKeysCons(certs: seq<seq<byte>>, parse: CertParser)
    requires certs != []
    ensures parse(certs[0]).Raised? ==> LoadRecipientKeys(certs, parse) == Errors.Raised(parse(certs[0]).exception)
    ensures parse(certs[0]).Returned? && LoadRecipientKeys(certs[1..], parse).Raised? ==>
              LoadRecipientKeys(certs, parse) == LoadRecipientKeys(certs[1..], parse)
    ensures parse(certs[0]).Returned? && LoadRecipientKeys(certs[1..], parse).Returned? ==>
              LoadRecipientKeys(certs, parse) ==
                Errors.Returned(RecipientsOf(parse(certs[0]).value) + LoadRecipientKeys(certs[1..], parse).value)
  {
  }

  /** Recipients keep certificate order: the lookup over a concatenation of
      certificate lists is the lookup over the first list followed by the lookup
      over the second. */
  lemma {:induction false} LoadRecipientKeysAppend(a: seq<seq<byte>>, b: seq<seq<byte>>, parse: CertParser)
    requires LoadRecipientKeys(a, parse).Returned? && LoadRecipientKeys(b, parse).Returned?
    ensures LoadRecipientKeys(a + b, parse) ==
              Errors.Returned(LoadRecipientKeys(a, parse).value + LoadRecipientKeys(b, parse).value)
    decreases |a|
  {
    if a == [] {
      assert a + b == b;
      assert LoadRecipientKeys(a, parse) == Errors.Returned([]);
      assert [] + LoadRecipientKeys(b, parse).value == LoadRecipientKeys(b, parse).value;
    } else {
      var ab := a + b;
      assert ab[0] == a[0] && ab[1..] == a[1..] + b;
      LoadRecipientKeysCons(a, parse);
      LoadRecipientKeysCons(ab, parse);
      LoadRecipientKeysAppend(a[1..], b, parse);
      var first := parse(a[0]);
      var tail := LoadRecipientKeys(a[1..], parse);
      var rb := LoadRecipientKeys(b, parse);
      var tailB := LoadRecipientKeys(a[1..] + b, parse);
      var head := RecipientsOf(first.value);
      assert tailB == Errors.Returned(tail.value + rb.value);
      assert LoadRecipientKeys(ab, parse) == Errors.Returned(head + (tail.value + rb.value));
      AppendAssociative(head, tail.value, rb.value);
    }
  }

  /** A failure in the first list wins over anything in the second. */
  lemma {:induction false} LoadRecipientKeysAppendFirstFails(a: seq<seq<byte>>, b: seq<seq<byte>>, parse: CertParser)
    requires LoadRecipientKeys(a, parse).Raised?
    ensures LoadRecipientKeys(a + b, parse) == LoadRecipientKeys(a, parse)
    decreases |a|
  {
    assert a != [];
    var ab := a + b;
    assert ab[0] == a[0] && ab[1..] == a[1..] + b;
    LoadRecipientKeysCons(a, parse);
    LoadRecipientKeysCons(ab, parse);
    if parse(a[0]).Returned? {
      LoadRecipientKeysAppendFirstFails(a[1..], b, parse);
    }
  }

  /** When the first list succeeds, a failure in the second is the result. */
  lemma {:induction false} LoadRecipientKeysAppendSecondFails(a: seq<seq<byte>>, b: seq<seq<byte>>, parse: CertParser)
    requires LoadRecipientKeys(a, parse).Returned? && LoadRecipientKeys(b, parse).Raised?
    ensures LoadRecipientKeys(a + b, parse) == LoadRecipientKeys(b, parse)
    decreases |a|
  {
    if a == [] {
      assert a + b == b;
    } else {
      var ab := a + b;
      assert ab[0] == a[0] && ab[1..] == a[1..] + b;
      LoadRecipientKeysCons(a, parse);
      LoadRecipientKeysCons(ab, parse);
      LoadRecipientKeysAppendSecondFails(a[1..], b, parse);
    }
  }

  /** One certificate gives its own qualifying keys' recipients, in order. */
  lemma LoadRecipientKeysOne(c: seq<byte>, parse: CertParser)
    ensures parse(c).Raised? ==> LoadRecipientKeys([c], parse) == Errors.Raised(parse(c).exception)
    ensures parse(c).Returned? ==> LoadRecipientKeys([c], parse) == Errors.Returned(RecipientsOf(parse(c).value))
  {
    assert [c][1..] == [];
    if parse(c).Returned? {
      assert RecipientsOf(parse(c).value) + [] == RecipientsOf(parse(c).value);
    }
  }

  // ---------------------------------------------------------------------------
  // Encryption
  // ---------------------------------------------------------------------------

  /** The `plaintext` argument: a String (its bytes) or any other object. */
  datatype Plaintext = StringValue(bytes: seq<byte>) | OtherValue

  /** PGP_ARMOR_KIND_FILE and PGP_ARMOR_KIND_MESSAGE. */
  datatype ArmorKind = FileKind | MessageKind

  /** The foreign part of the armoring step of `do_encrypt` (main.rb:97-110):
      opening the armored output, encoding the bytes the copy delivered to the
      armor writer and finalizing it; the armored text, or an exception. */
  type Armorer = (ArmorKind, seq<byte>) -> Errors.Outcome<seq<byte>>

  const PlaintextMessage: string := "Plaintext must be a string!"

  /** The passwords `do_encrypt` always adds (main.rb:90). */
  const Passwords: seq<string> := ["p", "f"]

  /** The symmetric algorithm `do_encrypt` asks for (main.rb:92). */
  const Cipher: byte := 9

  /** The writer-stack calls `do_encrypt` makes when each of them succeeds:
      encrypt, literal, write_all, finalize, each on the stack the previous one
      built. */
  function EncryptScript(keys: seq<Keys.Recipient>, plaintext: seq<byte>): (calls: seq<Serialize.Call>)
    ensures |calls| == 4
  {
    var encryptor := Serialize.Encryptor(Serialize.Marshal(Some(Passwords)), Serialize.Marshal(Some(keys)), Cipher);
    var encrypted := [Serialize.Message, encryptor];
    var literal := encrypted + [Serialize.Layer.Literal];
    [ Serialize.EncryptorNew([Serialize.Message], Serialize.Marshal(Some(Passwords)), Serialize.Marshal(Some(keys)), Cipher),
      Serialize.LiteralWriterNew(encrypted),
      Serialize.StackWriteAll(literal, plaintext),
      Serialize.StackFinalize(literal) ]
  }

  /** The bytes a sequence of writer-stack calls delivers to the message sink. */
  function Emitted(lib: Serialize.Library, calls: seq<Serialize.Call>): seq<byte>
  {
    if calls == [] then [] else Emitted(lib, calls[..|calls| - 1]) + lib(calls[|calls| - 1]).emitted
  }

  /** The length of the well-formed UTF-8 character at the start of `s`, or 0 when
      none starts there (a stray continuation byte, an overlong or surrogate form,
      a code point past U+10FFFF, a truncated sequence). */
  function Utf8CharLength(s: seq<byte>): (n: nat)
    ensures n <= |s| && n <= 4
    ensures s != [] && s[0] < 0x80 ==> n == 1
  {
    if |s| == 0 then 0
    else if s[0] < 0x80 then 1
    else if 0xC2 <= s[0] <= 0xDF then
      if |s| >= 2 && 0x80 <= s[1] <= 0xBF then 2 else 0
    else if 0xE0 <= s[0] <= 0xEF then
      var lo := if s[0] == 0xE0 then 0xA0 else 0x80;
      var hi := if s[0] == 0xED then 0x9F else 0xBF;
      if |s| >= 3 && lo <= s[1] <= hi && 0x80 <= s[2] <= 0xBF then 3 else 0
    else if 0xF0 <= s[0] <= 0xF4 then
      var lo := if s[0] == 0xF0 then 0x90 else 0x80;
      var hi := if s[0] == 0xF4 then 0x8F else 0xBF;
      if |s| >= 4 && lo <= s[1] <= hi && 0x80 <= s[2] <= 0xBF && 0x80 <= s[3] <= 0xBF then 4 else 0
    else 0
  }

  /** Ruby's `String#length` of the bytes `s` in a UTF-8 string: each well-formed
      character counts once, and each byte that starts none counts once. */
  function CharCount(s: seq<byte>): (n: nat)
    decreases |s|
  {
    if s == [] then 0
    else
      var c := Utf8CharLength(s);
      if c == 0 then 1 + CharCount(s[1..]) else 1 + CharCount(s[c..])
  }

  /** A string never has more characters than bytes. */
  lemma {:induction false} CharCountAtMostBytes(s: seq<byte>)
    ensures CharCount(s) <= |s|
    decreases |s|
  {
    if s != [] {
      var c := Utf8CharLength(s);
      if c == 0 {
        CharCountAtMostBytes(s[1..]);
      } else {
        CharCountAtMostBytes(s[c..]);
      }
    }
  }

  /** For 7-bit bytes, characters and bytes coincide. */
  lemma {:induction false} CharCountOfAscii(s: seq<byte>)
    requires forall i :: 0 <= i < |s| ==> s[i] < 0x80
    ensures CharCount(s) == |s|
    decreases |s|
  {
    if s != [] {
      assert Utf8CharLength(s) == 1;
      CharCountOfAscii(s[1..]);
    }
  }

  /** The length `do_encrypt` passes to `copy` as written: `buffer.string.length`
      (main.rb:109). The buffer is a StringIO created with Ruby's default external
      encoding, taken here as UTF-8, and the sink appends the encrypted bytes to
      its string without changing that encoding. */
  function CopyLengthAsWritten(buffer: seq<byte>): (n: nat)
    ensures n <= |buffer|
  {
    CharCountAtMostBytes(buffer);
    CharCount(buffer)
  }

  /** As written, an encrypted message holding a well-formed two-byte UTF-8
      sequence is copied short: of the bytes C3 A9, only the first reaches the
      armor writer. */
  lemma CopyLengthAsWrittenTruncates()
    ensures CopyLengthAsWritten([0xC3, 0xA9]) == 1 && CopyLength([0xC3, 0xA9]) == 2
  {
    var s: seq<byte> := [0xC3, 0xA9];
    assert Utf8CharLength(s) == 2;
    assert s[2..] == [];
  }

  /** The armoring of main.rb:106-110 as written: the copy is given
      CopyLengthAsWritten of the buffer, so the armor writer receives only the
      first that many bytes. */
  method ArmorAsWritten(armor: Armorer, kind: ArmorKind, buffer: seq<byte>) returns (r: Errors.Outcome<seq<byte>>)
    ensures r == armor(kind, buffer[..CopyLengthAsWritten(buffer)])
  {
    var source := new IO.ForeignReader(buffer, None, Errors.Null);
    var unarmored := new IO.IOReader(source);
    var armorInput := new IO.ForeignWriter(None, Errors.Null);
    var armorer := new IO.IOWriter(armorInput);
    var copied := unarmored.Copy(armorer, CopyLengthAsWritten(buffer));
    assert armorInput.written == buffer[..CopyLengthAsWritten(buffer)];
    r := armor(kind, armorInput.written);
  }

  /** The finding at main.rb:109 on a concrete message: of the encrypted bytes
      C3 A9, the armor writer receives the strict prefix C3 as written. */
  method ArmorAsWrittenDropsBytes(armor: Armorer, kind: ArmorKind) returns (r: Errors.Outcome<seq<byte>>)
    ensures r == armor(kind, [0xC3])
  {
    var buffer: seq<byte> := [0xC3, 0xA9];
    r := ArmorAsWritten(armor, kind, buffer);
    CopyLengthAsWrittenTruncates();
    assert buffer[..1] == [0xC3];
  }

  /** The length evidently intended, `buffer.string.bytesize`: the whole buffer. */
  function CopyLength(buffer: seq<byte>): nat
  {
    |buffer|
  }

  /** Four calls deliver their bytes one after another. */
  lemma EmittedOfFour(lib: Serialize.Library, calls: seq<Serialize.Call>)
    requires |calls| == 4
    ensures Emitted(lib, calls) == lib(calls[0]).emitted + lib(calls[1]).emitted + lib(calls[2]).emitted + lib(calls[3]).emitted
  {
    assert calls[..|calls| - 1] == calls[..3];
    assert calls[..3][..2] == calls[..2];
    assert calls[..2][..1] == calls[..1];
    assert calls[..1][..0] == [];
    assert Emitted(lib, calls[..1]) == lib(calls[0]).emitted;
    assert Emitted(lib, calls[..2]) == Emitted(lib, calls[..1]) + lib(calls[1]).emitted;
    assert Emitted(lib, calls[..3]) == Emitted(lib, calls[..2]) + lib(calls[2]).emitted;
  }

  /** The armoring of main.rb:97-110: the buffer the sink filled is rewound and
      read back through a callback reader, CopyLength of its bytes are copied
      into the armor writer, and the foreign armoring decides the rest. Neither
      the StringIO reader nor the armor writer's input side fails, so the copy
      delivers the whole buffer. */
  method Armor(armor: Armorer, kind: ArmorKind, buffer: seq<byte>) returns (r: Errors.Outcome<seq<byte>>)
    ensures r == armor(kind, buffer)
  {
    var source := new IO.ForeignReader(buffer, None, Errors.Null);
    var unarmored := new IO.IOReader(source);
    var armorInput := new IO.ForeignWriter(None, Errors.Null);
    var armorer := new IO.IOWriter(armorInput);
    var copied := unarmored.Copy(armorer, CopyLength(buffer));
    assert armorInput.written == buffer;
    r := armor(kind, armorInput.written);
  }

  /** Whether the Ruby wrapper of a writer-stack call returns rather than raises:
      `write_all` needs SUCCESS, the others a null error slot. */
  predicate Succeeds(lib: Serialize.Library, c: Serialize.Call)
  {
    if c.StackWriteAll? then lib(c).status == Status.Success else lib(c).error.Null?
  }

  /** The first `n` calls of `calls` all return. */
  ghost predicate FirstWriterCallsSucceed(lib: Serialize.Library, calls: seq<Serialize.Call>, n: nat)
    requires n <= |calls|
  {
    forall j :: 0 <= j < n ==> Succeeds(lib, calls[j])
  }

  /** The call at `m` is the first that raises: no other call is, and not all of
      them return. */
  lemma FirstFailureDecides(lib: Serialize.Library, calls: seq<Serialize.Call>, m: nat)
    requires m < |calls| && !Succeeds(lib, calls[m]) && FirstWriterCallsSucceed(lib, calls, m)
    ensures forall k :: 0 <= k < |calls| && !Succeeds(lib, calls[k]) && FirstWriterCallsSucceed(lib, calls, k) ==> k == m
    ensures !FirstWriterCallsSucceed(lib, calls, |calls|)
  {
  }

  /** The writer-stack part of `do_encrypt` (main.rb:87-95): a message stack
      over a StringIO sink, then the calls of EncryptScript in order until one
      of them raises. When all four return, the result is what the stack
      delivered to the sink. `calls` lists the writer-stack calls made. */
  method EncryptToBuffer(lib: Serialize.Library, keys: seq<Keys.Recipient>, plaintext: seq<byte>)
    returns (r: Errors.Outcome<seq<byte>>, ghost calls: seq<Serialize.Call>)
    ensures var script := EncryptScript(keys, plaintext);
            forall k :: 0 <= k < |script| && !Succeeds(lib, script[k]) && FirstWriterCallsSucceed(lib, script, k) ==>
              r == Errors.Raised(Errors.New(lib(script[k]).error))
    ensures FirstWriterCallsSucceed(lib, EncryptScript(keys, plaintext), 4) ==>
              r == Errors.Returned(Emitted(lib, EncryptScript(keys, plaintext)))
    ensures var script := EncryptScript(keys, plaintext);
            && 1 <= |calls| <= 4 && calls == script[..|calls|]
            && FirstWriterCallsSucceed(lib, calls, |calls| - 1)
            && (Succeeds(lib, calls[|calls| - 1]) ==> |calls| == 4)
  {
    ghost var script := EncryptScript(keys, plaintext);

    var buffer := new IO.ForeignWriter(None, Errors.Null);
    var sink := new IO.IOWriter(buffer);
    var writer := new Serialize.WriterStack.NewMessage(lib, sink);
    var pushed := writer.Encrypt(Some(Passwords), Some(keys), Cipher);
    assert writer.calls == script[..1];
    assert pushed.Returned? ==> writer.ref == script[1].stack;
    if pushed.Raised? {
      FirstFailureDecides(lib, script, 0);
      return Errors.Raised(pushed.exception), writer.calls;
    }
    assert Succeeds(lib, script[0]);
    assert buffer.written == lib(script[0]).emitted;
    pushed := writer.Literal();
    assert script[..2] == script[..1] + [script[1]];
    assert writer.calls == script[..2];
    if pushed.Raised? {
      FirstFailureDecides(lib, script, 1);
      return Errors.Raised(pushed.exception), writer.calls;
    }
    assert Succeeds(lib, script[1]);
    var written := writer.WriteAll(plaintext);
    assert script[..3] == script[..2] + [script[2]];
    assert writer.calls == script[..3];
    if written.Raised? {
      FirstFailureDecides(lib, script, 2);
      return Errors.Raised(written.exception), writer.calls;
    }
    assert Succeeds(lib, script[2]);
    var finalized := writer.Finalize();
    assert script == script[..3] + [script[3]];
    assert writer.calls == script;
    calls := writer.calls;
    if finalized.Raised? {
      FirstFailureDecides(lib, script, 3);
      return Errors.Raised(finalized.exception), calls;
    }
    assert Succeeds(lib, script[3]);
    assert FirstWriterCallsSucceed(lib, script, 4);
    assert buffer.written == lib(script[0]).emitted + lib(script[1]).emitted + lib(script[2]).emitted + lib(script[3]).emitted;
    EmittedOfFour(lib, script);
    r := Errors.Returned(buffer.written);
  }

  /** `do_encrypt(plaintext, recipients, outfile)` (main.rb:82-115). A non-String
      plaintext raises ArgumentError before anything else happens; then the
      recipients are looked up, and the writer-stack calls of EncryptScript are
      made in order until one of them raises. When all succeed the message is
      armored, as FILE when an output file is given and as MESSAGE otherwise: the
      bytes the stack delivered to the StringIO sink are copied, CopyLength of
      them, from that buffer into the armor writer, and the armored text is
      returned only when there is no output file. `calls` lists the writer-stack
      calls made. */
  method DoEncrypt(lib: Serialize.Library, parse: CertParser, armor: Armorer,
                   plaintext: Plaintext, recipients: KeysArg, outfile: Option<string>)
    returns (r: Errors.Outcome<Option<seq<byte>>>, ghost calls: seq<Serialize.Call>)
    ensures plaintext.OtherValue? ==> r == Errors.Raised(Errors.Plain(Errors.ArgumentError, PlaintextMessage))
    ensures plaintext.StringValue? && LoadRecipientKeys(ArrayOf(recipients), parse).Raised? ==>
              r == Errors.Raised(LoadRecipientKeys(ArrayOf(recipients), parse).exception)
    // the first writer-stack call that raises decides the outcome
    ensures plaintext.StringValue? && LoadRecipientKeys(ArrayOf(recipients), parse).Returned? ==>
              var script := EncryptScript(LoadRecipientKeys(ArrayOf(recipients), parse).value, plaintext.bytes);
              forall k :: 0 <= k < |script| && !Succeeds(lib, script[k]) && FirstWriterCallsSucceed(lib, script, k) ==>
                r == Errors.Raised(Errors.New(lib(script[k]).error))
    // all of them succeed: the armoring of what they delivered decides it
    ensures plaintext.StringValue? && LoadRecipientKeys(ArrayOf(recipients), parse).Returned? &&
            FirstWriterCallsSucceed(lib, EncryptScript(LoadRecipientKeys(ArrayOf(recipients), parse).value, plaintext.bytes), 4) ==>
              var kind := if outfile.Some? then FileKind else MessageKind;
              var ciphertext := Emitted(lib, EncryptScript(LoadRecipientKeys(ArrayOf(recipients), parse).value, plaintext.bytes));
              && (armor(kind, ciphertext).Raised? ==> r == Errors.Raised(armor(kind, ciphertext).exception))
              && (armor(kind, ciphertext).Returned? && outfile.Some? ==> r == Errors.Returned(None))
              && (armor(kind, ciphertext).Returned? && outfile.None? ==> r == Errors.Returned(Some(armor(kind, ciphertext).value)))
    // the calls made: a prefix of the script, up to the first that raises
    ensures plaintext.OtherValue? || LoadRecipientKeys(ArrayOf(recipients), parse).Raised? ==> calls == []
    ensures plaintext.StringValue? && LoadRecipientKeys(ArrayOf(recipients), parse).Returned? ==>
              var script := EncryptScript(LoadRecipientKeys(ArrayOf(recipients), parse).value, plaintext.bytes);
              && 1 <= |calls| <= 4 && calls == script[..|calls|]
              && FirstWriterCallsSucceed(lib, calls, |calls| - 1)
              && (Succeeds(lib, calls[|calls| - 1]) ==> |calls| == 4)
  {
    if plaintext.OtherValue? {
      return Errors.Raised(Errors.Plain(Errors.ArgumentError, PlaintextMessage)), [];
    }

    var keys := LoadRecipientKeys(ArrayOf(recipients), parse);
    if keys.Raised? {
      return Errors.Raised(keys.exception), [];
    }

    var encrypted;
    encrypted, calls := EncryptToBuffer(lib, keys.value, plaintext.bytes);
    if encrypted.Raised? {
      return Errors.Raised(encrypted.exception), calls;
    }

    var kind := if outfile.Some? then FileKind else MessageKind;
    var armored := Armor(armor, kind, encrypted.value);
    if armored.Raised? {
      return Errors.Raised(armored.exception), calls;
    }
    if outfile.Some? {
      r := Errors.Returned(None);
    } else {
      r := Errors.Returned(Some(armored.value));
    }
  }
}
