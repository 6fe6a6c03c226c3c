# ruby_openpgp: a Dafny model of the Ruby-side logic

ruby_openpgp is a set of Ruby FFI bindings over the Sequoia OpenPGP C library,
together with a small high-level `Sequoia` class that encrypts and decrypts
messages. Almost all of the work happens in the foreign library. This project
models the decisions the Ruby code itself takes: what it hands to each foreign
call, what it does with each result, error slot and out-pointer, and which
exception or status code it turns them into. Every foreign `pgp_*` call is an
oracle. It is passed to the model as a function value, or it is a small object
whose behaviour is stated as an assumption.

The model is split by source file:

- `status.dfy` holds the `PGP_STATUS_*` codes. The values are a closed datatype
  of the 27 named codes plus `Unlisted(n)` for any other integer.
- `errors.dfy` models `Error.new` (error.rb). It covers the status-to-class
  dispatch, the exception hierarchy and `Error#status`. It also holds a
  datatype for "returned a value or raised an exception".
- `io.dfy` models `IOReader#read`, `read_helper`, `copy` and `discard`, and
  `IOWriter#write` (io.rb). They are classes over a foreign reader (bytes plus
  a cursor) and a foreign writer (the bytes accepted so far). Both count the
  foreign calls made on them, and each fails from a given call on.
- `serialize.dfy` models `WriterStack` (serialize.rb). It is a class whose
  `ref` field is the current writer-stack handle, modelled as the list of
  layers pushed so far. The pointer arrays are marshalled in a loop. The bytes
  each call delivers go to the foreign writer behind the message sink.
- `message_structure.dfy` models the `MessageLayer` accessors and the draining
  loop of `MessageStructureIter#each` (message_structure.rb).
- `check_layers.dfy` models the two `check_layers` shape validators of the
  example scripts.
- `pkesk.dfy` models `PKESK#decrypt`, which grows its buffer and retries, and
  `PKESK#recipient`.
- `stream.dfy` models the `Callbacks` module, `Reader` and `DetachedReader`
  (parse/stream.rb).
- `sequoia.dfy` models `load_session_keys`, `load_public_keys`,
  `check_message`, `load_recipient_keys` and `do_encrypt` (main.rb).

Assumptions about foreign behaviour, each stated where it is used:

- A foreign read of `n` bytes that does not fail delivers the next
  min(n, remaining) bytes (`IO.ForeignReader.PgpReaderRead`). Discard and copy
  behave the same.
- A foreign write of `len` bytes that does not fail accepts all of them and
  reports `len` (`IO.ForeignWriter.PgpWriterWrite`). A short write is not
  modelled.
- `pgp_pkesk_decrypt` copies the session key only when the capacity in the
  length cell suffices. On success it reports the real length; on failure it
  writes nothing (`Pkesk.PgpPkeskDecrypt`).
- A foreign reader or writer call that fails delivers or accepts nothing. A
  handle that has failed once fails every later call (`IO.ForeignReader`,
  `IO.ForeignWriter`). `pgp_reader_copy` counts as one call on each of its two
  handles (`IO.PgpReaderCopy`).
- What the layers of a writer stack pass to the message sink during a call is
  part of that call's reply (`Serialize.Reply`). The sink in `do_encrypt`, a
  callback into a StringIO, accepts every byte.
- The StringIO buffer of `do_encrypt` has Ruby's default external encoding,
  taken to be UTF-8. Appending the encrypted bytes does not change that
  encoding (`Sequoia.CopyLengthAsWritten`).
- Every oracle is a function, so asking it twice gives the same answer.

Five places in the source do not do what they evidently intend (see
"## Findings"). For each one, the model defines the code as written, proves the
discrepancy, and then defines the corrected behaviour.

## Model

| member | source | states |
|---|---|---|
| Errors.CodeFor | lib/sequoia_openpgp/error.rb:121-199 | each SQError subclass has the status constant of its own name, always a recognised code |
| Errors.ClassFor | lib/sequoia_openpgp/error.rb:38-95 | the `case` selects a class exactly for the recognised codes, and the selected class is the one whose own code is the scrutinised status |
| Errors.ClassForCodeFor | lib/sequoia_openpgp/error.rb:38-92 | the `case` selects every SQError subclass for the constant of its own name, so with CodeFor the two tables are inverse bijections |
| Errors.NewAsWritten | lib/sequoia_openpgp/error.rb:34-96 | as written: a null handle gives MalformedValueError; a SUCCESS handle raises NameError (undefined `Succes`); every other handle behaves as the corrected `New` |
| Errors.New | lib/sequoia_openpgp/error.rb:34-96 | a null handle gives MalformedValueError without asking for its status; an unrecognised status gives MalformedValueError; a recognised status gives the SQError subclass of the same name, holding that status |
| Errors.StatusRoundTrip | lib/sequoia_openpgp/error.rb:102-104 | `status` of the error built from a recognised code reports that code, and the class's own code is that code |
| Errors.NewInjective | lib/sequoia_openpgp/error.rb:38-92 | distinct recognised codes give distinct classes |
| Errors.DispatchedAreSqErrors | lib/sequoia_openpgp/error.rb:113-206 | every dispatched class is an SQError and an OpenPGP::Error; MalformedValueError is a StandardError but not an OpenPGP::Error |
| Errors.SuccessBranchRaisesNameError | lib/sequoia_openpgp/error.rb:39-40 | a SUCCESS handle raises NameError as written, which is not an OpenPGP::Error; the corrected `New` gives `Success` |
| IO.IOReader.Copy | lib/sequoia_openpgp/io.rb:104-112 | one foreign call on each handle; if the reader's call fails, its error is raised, otherwise if the writer's fails, the writer's error; a failing copy moves nothing; otherwise it returns min(length, remaining) and the writer receives exactly those bytes |
| IO.IOReader.Discard | lib/sequoia_openpgp/io.rb:114-122 | one foreign call; a failing one raises its error and skips nothing; otherwise it returns the number of bytes that were left, and the reader is at end of input |
| IO.IOReader.Read | lib/sequoia_openpgp/io.rb:124-167 | read(0) returns "" and makes no call. read(n>0) makes one foreign read; it raises exactly when that call fails, and otherwise returns the min(n, remaining) bytes, or nil at end of input. read() would take remaining/1024+1 foreign reads; it raises exactly when the last of them fails; the full chunks read before the failing call are consumed and lost; otherwise it returns all remaining bytes ("" at end of input). A negative length returns nil and leaves the reader and outbuf alone. A given outbuf ends equal to a returned string, becomes "" when read(n>0) meets end of input, and is untouched when the call raises |
| IO.IOReader.ReadHelper | lib/sequoia_openpgp/io.rb:171-181 | one foreign read; its bytes are appended to the sink and its count returned, or the failing call's error is raised and nothing is consumed |
| IO.IOWriter.Write | lib/sequoia_openpgp/io.rb:257-264 | one foreign call; the foreign count is returned, which under the full-write assumption is the length of the bytes, all of them accepted; or the failing call's error is raised and nothing is written |
| Serialize.Marshal | lib/sequoia_openpgp/serialize.rb:105-126 | a nil or empty list becomes a null pointer and 0; any other list is passed with all its elements, in order, and its length |
| Serialize.FillPointerArray | lib/sequoia_openpgp/serialize.rb:107-124 | the fresh pointer array holds the list's elements in list order |
| Serialize.WriterStack.NewMessage | lib/sequoia_openpgp/serialize.rb:52-60 | a new stack over the given sink writer holds the message layer only, and no call has been made through it |
| Serialize.WriterStack.Literal | lib/sequoia_openpgp/serialize.rb:85-92 | one foreign call on the current handle, whose output reaches the sink; the handle gains a literal layer only when the error slot is null, otherwise it raises and the handle is unchanged |
| Serialize.WriterStack.Arbitrary | lib/sequoia_openpgp/serialize.rb:94-101 | the same discipline, with the tag passed through |
| Serialize.WriterStack.Encrypt | lib/sequoia_openpgp/serialize.rb:103-133 | one foreign call with both lists marshalled; having neither passwords nor recipients is forwarded, not rejected; the same handle discipline |
| Serialize.WriterStack.Sign | lib/sequoia_openpgp/serialize.rb:135-152 | a nil or empty signer list raises before any foreign call and leaves the handle unchanged; otherwise all signers, in order, go to one call, with the same handle discipline |
| Serialize.WriterStack.SignDetached | lib/sequoia_openpgp/serialize.rb:154-171 | the same as `Sign`, for a detached signature |
| Serialize.WriterStack.Write | lib/sequoia_openpgp/serialize.rb:62-72 | returns the foreign byte count and raises when it is negative; the handle is unchanged |
| Serialize.WriterStack.WriteAll | lib/sequoia_openpgp/serialize.rb:74-83 | returns a SUCCESS Status object exactly when the foreign status is SUCCESS, and raises otherwise; the handle is unchanged |
| Serialize.WriterStack.Finalize | lib/sequoia_openpgp/serialize.rb:173-180 | never reassigns the handle; returns the foreign status wrapped, or raises when the error slot is set |
| Serialize.WriterStack.FinalizeOne | lib/sequoia_openpgp/serialize.rb:182-189 | pops the innermost layer only when the error slot is null, otherwise raises and leaves the handle unchanged |
| MessageStructure.Variant | lib/sequoia_openpgp/parse/message_structure.rb:54-57 | 1 exactly for compression, 2 exactly for encryption, 3 exactly for a signature group |
| MessageStructure.CompressionOf | lib/sequoia_openpgp/parse/message_structure.rb:36-40 | the flag holds exactly for a compression layer and comes with its algorithm byte; any other layer gives (false, 0) |
| MessageStructure.EncryptionOf | lib/sequoia_openpgp/parse/message_structure.rb:42-44 | only the flag, true exactly for an encryption layer |
| MessageStructure.SignatureGroupOf | lib/sequoia_openpgp/parse/message_structure.rb:46-52 | the group's results exactly for a signature-group layer, nil otherwise |
| MessageStructure.ToA | lib/sequoia-ruby-ffi/examples/stream_verify_detached_signature.rb:30 | `nil.to_a` is the empty list; a result list is kept as it is |
| MessageStructure.TakeUntilNullStopsAtFirstNull | lib/sequoia_openpgp/parse/message_structure.rb:72-81 | the layers drained are the handles before the first null, in foreign order, and the drain stops exactly at that null (or at the end) |
| MessageStructure.TakeUntilNullNoNull | lib/sequoia_openpgp/parse/message_structure.rb:72-76 | with no null among the handles, every handle is yielded |
| MessageStructure.MessageStructureIter.NextLayer | lib/sequoia_openpgp/parse/message_structure.rb:78-81 | one foreign step; nil for a null handle or an exhausted iterator, the layer otherwise |
| MessageStructure.MessageStructureIter.Each | lib/sequoia_openpgp/parse/message_structure.rb:72-76 | the loop collects exactly the layers before the first null, in order |
| MessageStructure.Layers | lib/sequoia_openpgp/parse/message_structure.rb:100-102 | a new iterator over the structure's handles |
| CheckLayers.Variants | lib/sequoia-ruby-ffi/examples/stream_verify_signature.rb:31 | the variant of each layer, in order |
| CheckLayers.CheckInline | lib/sequoia-ruby-ffi/examples/stream_verify_signature.rb:24-44 | returns only SUCCESS and raises only RuntimeError |
| CheckLayers.CheckInlineAcceptsExactly | lib/sequoia-ruby-ffi/examples/stream_verify_signature.rb:25-43 | accepts exactly the structures made of one compression layer followed by one signature group of a single good signature |
| CheckLayers.CheckInlineFirstFailureWins | lib/sequoia-ruby-ffi/examples/stream_verify_signature.rb:27-41 | length, then ordering, then count, then checksum: the first check that fails names the error |
| CheckLayers.CheckDetached | lib/sequoia-ruby-ffi/examples/stream_verify_detached_signature.rb:23-40 | returns only SUCCESS and raises only RuntimeError |
| CheckLayers.CheckDetachedAcceptsExactly | lib/sequoia-ruby-ffi/examples/stream_verify_detached_signature.rb:24-39 | accepts exactly the structures made of one signature group of a single good signature |
| CheckLayers.CheckDetachedFirstFailureWins | lib/sequoia-ruby-ffi/examples/stream_verify_detached_signature.rb:26-37 | length first; a non-signature layer and an empty group both fail the second check; then count, then checksum |
| Pkesk.Recipient | lib/sequoia-ruby-ffi/lib/openpgp/packet/pkesk.rb:46-48 | the key ID the packet is addressed to |
| Pkesk.Decrypt | lib/sequoia-ruby-ffi/lib/openpgp/packet/pkesk.rb:25-44 | the result is the session key and algorithm the library yields for this packet and key, or nil when it refuses; the capacities are those the foreign calls were given; the first call is given 1024 bytes; there is no second call exactly when the first succeeds with a key of at most 1024 bytes; otherwise there is exactly one retry, sized to the reported length (1024 after a refusal) |
| Stream.FromCArray | lib/sequoia_openpgp/parse/stream.rb:99-103 | exactly the first `len` elements of the C array, in order |
| Stream.ClonedAll | lib/sequoia_openpgp/parse/stream.rb:107-109 | one cloned reference per certificate, in order |
| Stream.TransformCertsRubyToC | lib/sequoia_openpgp/parse/stream.rb:105-111 | the fresh block holds one cloned handle per certificate, in resolver order |
| Stream.RescueAsWritten | lib/sequoia_openpgp/parse/stream.rb:94-95 | as written: an SQError becomes its Status object, which is not an Integer; other exceptions escape |
| Stream.Rescue | lib/sequoia_openpgp/parse/stream.rb:123-124 | corrected: an SQError becomes its integer status code; other exceptions escape |
| Stream.RescueReturnsStatusCode | lib/sequoia_openpgp/parse/stream.rb:94-95 | as written an SQError never reaches C as an integer; corrected it reaches C as its own code, and only non-SQError exceptions escape |
| Stream.CertsStatusAsWritten | lib/sequoia_openpgp/parse/stream.rb:82-95 | as written: an empty certificate list makes the block execute `return`, which raises LocalJumpError |
| Stream.CertsStatus | lib/sequoia_openpgp/parse/stream.rb:82-95 | corrected: SUCCESS for a non-empty list, UNKNOWN_ERROR for an empty one, the corrected rescue for an exception |
| Stream.EmptyCertsReturnUnknownError | lib/sequoia_openpgp/parse/stream.rb:84 | an empty list escapes as LocalJumpError as written and gives UNKNOWN_ERROR corrected; when the resolver returns, SUCCESS means exactly that certificates were found; only non-SQError exceptions escape |
| Stream.DecryptStatusAsWritten | lib/sequoia_openpgp/parse/stream.rb:157-168 | as written: SUCCESS whatever `decrypt_fn` returned, since every Integer is true |
| Stream.DecryptStatus | lib/sequoia_openpgp/parse/stream.rb:163-168 | corrected: SUCCESS exactly when `decrypt_fn` succeeded, UNKNOWN_ERROR otherwise |
| Stream.DecryptFailureIsReported | lib/sequoia_openpgp/parse/stream.rb:157-168 | a failing `decrypt_fn` is reported as SUCCESS as written and as UNKNOWN_ERROR corrected; the two agree exactly on success |
| Stream.GetCertsCb | lib/sequoia_openpgp/parse/stream.rb:68-97 | the resolver is called on exactly the first `keyid_len` key IDs, in order; the status is `CertsStatus`; a non-empty result writes the cloned certificates in order, their count and the free function; any other outcome writes no out-parameter |
| Stream.CheckCb | lib/sequoia_openpgp/parse/stream.rb:113-126 | the check function's status unchanged, an SQError's code, or the escaping exception |
| Stream.DecryptCb | lib/sequoia_openpgp/parse/stream.rb:128-170 | one lookup on exactly the first `pkesk_len` PKESKs and `skesk_len` SKESKs, in order; its exceptions escape; a nil session key raises NoMethodError; otherwise the corrected status of `decrypt_fn`; `identity_out` is written exactly when a fingerprint was returned |
| Stream.Built | lib/sequoia_openpgp/parse/stream.rb:195-201 | a set error slot raises that error, a null handle raises StandardError with the given message, and otherwise the handle is returned |
| Stream.Reader.constructor | lib/sequoia_openpgp/parse/stream.rb:176-182 | stores its five arguments and does nothing else |
| Stream.Reader.Verify | lib/sequoia_openpgp/parse/stream.rb:184-202 | the verifier is built from the stored fields with null inspect and cookie; its error raises, a null handle raises "Unknown Error occured creating verifier", otherwise the plaintext reader is returned |
| Stream.Reader.Decrypt | lib/sequoia_openpgp/parse/stream.rb:204-223 | the same for the decryptor, with the `inspect` argument ignored and a null passed |
| Stream.NewDetachedReader | lib/sequoia_openpgp/parse/stream.rb:229-247 | raises as the readers do; otherwise a new reader over the returned handle |
| Stream.DetachedReader.Verify | lib/sequoia_openpgp/parse/stream.rb:249-256 | the validity status wrapped, or the error slot's error raised |
| Sequoia.CheckMessage | lib/ruby_openpgp/main.rb:29-51 | every structure is accepted with SUCCESS |
| Sequoia.LoadPublicKeys | lib/ruby_openpgp/main.rb:66-68 | the decryption certificate alone, whatever key IDs are asked for |
| Sequoia.FirstKeyFor | lib/ruby_openpgp/main.rb:55-57 | the first key in iteration order whose key ID is the packet's recipient, or none when no key matches |
| Sequoia.FirstMatch | lib/ruby_openpgp/main.rb:54-61 | the first (PKESK, key) pair, PKESKs in order and keys in order for each, whose key ID matches; none exactly when no pair matches |
| Sequoia.FirstMatchIsUnique | lib/ruby_openpgp/main.rb:54-61 | any matching pair with no match before it is the pair FirstMatch names |
| Sequoia.LoadSessionKeys | lib/ruby_openpgp/main.rb:53-64 | the nested loops decrypt only the pair FirstMatch names, once, even when that decryption gives nil, and return its result with that key's fingerprint; with no match they raise RuntimeError without decrypting; SKESKs are ignored |
| Sequoia.ArrayOf | lib/ruby_openpgp/main.rb:71 | `Array(keys)`: [] for nil, [x] for one value, the list itself |
| Sequoia.RecipientsOf | lib/sequoia_openpgp/serialize.rb:34-43 | one recipient per key, in order, each addressed by that key's own key ID |
| Sequoia.LoadRecipientKeys | lib/ruby_openpgp/main.rb:70-80 | a result is returned only when every certificate parsed |
| Sequoia.LoadRecipientKeysRaisesFirstFailure | lib/ruby_openpgp/main.rb:70-80 | the lookup raises exactly when some certificate fails to parse, and then with the first failure's exception |
| Sequoia.LoadRecipientKeysCons | lib/ruby_openpgp/main.rb:71-79 | the lookup over a list is the first certificate's recipients followed by the lookup over the rest, or the first failure |
| Sequoia.LoadRecipientKeysAppend | lib/ruby_openpgp/main.rb:70-80 | recipients keep certificate order: the lookup over a concatenation is the concatenation of the lookups |
| Sequoia.LoadRecipientKeysAppendFirstFails | lib/ruby_openpgp/main.rb:70-80 | a failure in the first part of the list wins over anything after it |
| Sequoia.LoadRecipientKeysAppendSecondFails | lib/ruby_openpgp/main.rb:70-80 | when the first part succeeds, a failure in the second part is the result |
| Sequoia.LoadRecipientKeysOne | lib/ruby_openpgp/main.rb:70-80 | one certificate gives the recipients of its own qualifying keys, in order, or its parse error |
| Sequoia.EncryptScript | lib/ruby_openpgp/main.rb:89-95 | the four writer-stack calls of a successful encryption: encrypt with passwords "p" and "f" and cipher 9, literal, write_all of the plaintext, finalize |
| Sequoia.EncryptToBuffer | lib/ruby_openpgp/main.rb:87-95 | the calls made are a prefix of EncryptScript that stops at the first one that raises, and that call's error is raised; when all four return, the result is exactly the bytes they delivered to the StringIO sink, in call order |
| Sequoia.CopyLengthAsWritten | lib/ruby_openpgp/main.rb:109 | as written: the copy length is the number of UTF-8 characters of the buffer, never more than its bytes |
| Sequoia.CharCountOfAscii | lib/ruby_openpgp/main.rb:109 | for 7-bit bytes the character count is the byte count, so the as-written copy is whole |
| Sequoia.CopyLengthAsWrittenTruncates | lib/ruby_openpgp/main.rb:109 | as written, the buffer C3 A9 gives copy length 1 where it holds 2 bytes |
| Sequoia.ArmorAsWritten | lib/ruby_openpgp/main.rb:106-110 | as written: the armor writer receives only the first CopyLengthAsWritten bytes of the buffer, and the armoring of that prefix is the result |
| Sequoia.ArmorAsWrittenDropsBytes | lib/ruby_openpgp/main.rb:109 | as written, of the encrypted bytes C3 A9 the armorer is given only C3 |
| Sequoia.Armor | lib/ruby_openpgp/main.rb:106-110 | with the corrected copy length, the armor writer receives the whole buffer, and the foreign armoring of exactly those bytes is the result |
| Sequoia.DoEncrypt | lib/ruby_openpgp/main.rb:82-115 | a non-String plaintext raises ArgumentError before anything else; a recipient failure raises before any writer call; then the calls made are a prefix of EncryptScript, and the first one that raises decides the result; after all four succeed, the bytes they delivered to the sink are armored, as FILE with an outfile and as MESSAGE without one; the armored text is returned only without an outfile |

## Left out

- Packet framing, encryption, signing, armor encoding, policy and certificate key filtering are foreign. They appear only as the oracles `Serialize.Library`, `Stream.Engine`, `Pkesk.Oracle`, `Sequoia.CertParser` and `Sequoia.Armorer`.
- lib/sequoia-ruby-ffi/lib/openpgp/packet/skesk.rb is not part of this model. Its retry calls the PKESK function with SKESK arguments and uses an undefined variable, so it has no coherent behaviour to state. SKESKs are opaque handles here.
- lib/sequoia_openpgp/types_generator.rb is build tooling and is not part of this model. The numeric values of the status, armor-kind and layer constants come from the C header, except for the layer variants (1, 2, 3), which the source comments give.
- Memory management is not modelled: finalizers, `release`, `Stdio` malloc and free, and `FFI::MemoryPointer` layout. In particular, the model does not enforce that a handle consumed by a foreign call is not used again.
- The reader and writer constructors backed by bytes, files, file descriptors or callbacks are I/O plumbing and are left out. A reader is built directly from its bytes. The StringIO callbacks of `do_encrypt` (io.rb:44-52 and io.rb:197-204) are a reader over the buffer's bytes and a writer that never fails. The read callback's `nil.length` at end of input is not modelled.
- Errors.New: the corrected definition is used at every raise site outside lib/sequoia_openpgp/error.rb. These are the raising branches of `IO.IOReader.Copy`, `Discard`, `Read` and `ReadHelper`, of `IO.IOWriter.Write`, of every `Serialize.WriterStack` call, of `Stream.Built` and of `Stream.DetachedReader.Verify`. At those sites an error slot whose status is SUCCESS gives the `Success` error, where the code as written raises NameError.
- Stream.GetCertsCb: stream.rb:89 writes the count with `put_int`, a 32-bit store, into a `size_t` out-parameter. The model stores the unbounded count and does not model the width or the untouched upper bytes.
- The CLI entry points, `do_decrypt`, `main` and the other example scripts do file and console I/O and are left out. So does `MessageStructure#to_debug_s`, which only formats text.
- `parse/verification_result.rb` is folded into `MessageStructure.VerificationResult`: the good-checksum flag plus opaque handles.
- Sequoia.DoEncrypt: main.rb:92 passes a fourth argument, 0, which the three-parameter `encrypt` of serialize.rb:103 would reject with ArgumentError. The model follows that three-parameter `encrypt` and drops the 0.
- Sequoia.DoEncrypt: it copies the corrected length, the buffer's byte count (see "## Findings"). Opening the output, creating the `ArmorWriter`, encoding and finalizing are the one oracle `Armorer`, which is given the bytes the copy delivered. A failure while writing into the armor writer is part of that oracle's outcome.
- Stream.RescueAsWritten: it does not model the conversion error the FFI raises when a callback returns a non-Integer. It records only that a Status object is handed back.
- Stream.DecryptCb: the block ignores `sym_algo_hint`, and so does the model. `decrypt_fn`'s cookie argument is folded into the oracle.
- Pkesk.Decrypt: it relies on `Pkesk.PgpPkeskDecrypt`'s assumed copy rule. If the library wrote a key longer than the buffer, the key bytes returned would be undefined, and the model does not cover that case.
- IO.IOReader.Read: it relies on the min(n, remaining) assumption about the foreign read. A reader that delivers short reads in mid-stream would end `read()` early, and that case is not modelled.
- Time, the standard policy and the random choices of the foreign library are parameters or handles. There is no concurrency in the source.

## Findings

| source | as written | input that shows it | evidently intended | confidence | as-written member | corrected member |
|---|---|---|---|---|---|---|
| lib/sequoia_openpgp/parse/stream.rb:84 | `return PGP_STATUS_UNKNOWN_ERROR` inside the `FFI::Function` block is a `return` from a proc whose method has already returned, so it raises LocalJumpError into the C caller | a resolver that returns `[]` | return UNKNOWN_ERROR from the callback | not executed | Stream.CertsStatusAsWritten | Stream.CertsStatus |
| lib/sequoia_openpgp/parse/stream.rb:94-95, 123-124 | `rescue SQError => e; e.status` hands a `Status` object to an `:int` callback | a resolver or check function that raises any SQError | hand over the error's integer status code | not executed | Stream.RescueAsWritten | Stream.Rescue |
| lib/sequoia_openpgp/parse/stream.rb:157, 163-168 | `if ret` tests an Integer, which is always true, so a failing `decrypt_fn` is reported as SUCCESS | a `decrypt_fn` that returns a non-zero status for a wrong session key | SUCCESS only when `decrypt_fn` returned SUCCESS, else UNKNOWN_ERROR | not executed | Stream.DecryptStatusAsWritten | Stream.DecryptStatus |
| lib/sequoia_openpgp/error.rb:39-40 | the SUCCESS branch evaluates the undefined constant `Succes` and raises NameError | an error handle whose status is PGP_STATUS_SUCCESS | build an `OpenPGP::Success` error, the class defined at error.rb:121 | not executed | Errors.NewAsWritten | Errors.New |
| lib/ruby_openpgp/main.rb:109 | `buffer.string.length` counts the characters of a UTF-8 string, so an encrypted message holding multi-byte sequences is copied short into the armor writer | encrypted bytes C3 A9, one two-byte character: 1 byte is copied | copy `buffer.string.bytesize` bytes, the whole message | not executed; assumes UTF-8 as Ruby's default external encoding | Sequoia.ArmorAsWrittenDropsBytes | Sequoia.Armor |
