# firebase_ffi native bridge: a verified model

This project models the native half of `firebase_ffi`: the C++ layer that moves
values between Dart and the Firebase C++ SDK as CBOR (RFC 8949) and answers over
Dart ports. It proves what that layer's codecs, parsers, transaction protocols
and registries do, for all inputs and in all interleavings.

| file | what it holds |
|---|---|
| `Bytes.dfy`, `Cbor.dfy` | octets and numbers; CBOR items, their bytes, and why those are self-delimiting |
| `Cursor.dfy`, `Walk.dfy` | TinyCBOR's reader as a function on the remaining input, and what it does on an item's bytes |
| `WireFormat.dfy` | the wire and its limits in plain numbers |
| `Encoder.dfy` | TinyCBOR's writer over a bounded buffer, with its shortfall count |
| `FirestoreValue.dfy`, `FirestoreDecode.dfy`, `FirestoreMeaning.dfy`, `FirestoreRoundTrip.dfy` | Firestore values, the decoder, what items mean to it, and the round trips |
| `FirestoreEncode.dfy`, `FirestoreDocument.dfy` | the encoder, the doubling buffer, and the three kinds of document read |
| `FirestoreQuery.dfy`, `FirestoreQueryMeaning.dfy`, `FirestoreQueryExact.dfy`, `FirestoreQueryClient.dfy` | the query spec: parser, meaning, well-formedness, and the client's own specs |
| `FirestoreWrites.dfy` | buffered writes of batches and transactions |
| `FirestoreTxn.dfy`, `DatabaseTxn.dfy`, `DatabaseAttempt.dfy` | the two transaction protocols as interleaved steps, and how a Database attempt opens |
| `Variant.dfy`, `VariantDecode.dfy`, `VariantMeaning.dfy`, `VariantEncode.dfy`, `VariantKeys.dfy` | the Variant codec, its normal form, repeated keys, and the size estimate |
| `SnapshotOrder.dfy`, `Framing.dfy`, `Snapshot.dfy`, `SnapshotReader.dfy` | the order payload, the message buffer, the value listener, and the client's reading of an order |
| `DatabaseQuery.dfy`, `DatabaseQueryClient.dfy`, `ListenerRegistry.dfy` | the Database's query spec, the client's own queries, and the listener maps |
| `AppCheck.dfy`, `InFlight.dfy`, `StorageMetadata.dfy`, `StorageReader.dfy` | parked token requests, retained references, storage metadata and the client's reading of it |

How to read it. A decoder exists twice: as a function on a cursor, which lemmas
can speak about, and as the source's own loops, proved to compute that function.
An encoder is a method over a buffer whose contract says that it succeeds exactly
when the bytes fit and then appends exactly them. `Interp` functions say what an
item means without any cursor; the `…OnWire` lemmas say that the decoder does
just that at the item's bytes, with anything behind them. The protocols are
steps over lock, slot, waiter and notify states; `After` runs a sequence of them,
and the lemmas below it hold for every such sequence. The classes `DbTxnState`,
`TxnState`, the registries and `Retained` carry the source's fields, and their
methods are tied to the functions the steps use.

Assumptions. `Valid` bounds lengths by what a C++ process can hold. The SDK is
seen only through what it is handed and what it calls: it runs the attempts of a
transaction one at a time and completes each operation once; `sdk` says which
queries its builder lets through, and every theorem holds for all such answers.
The client answers each posted Database attempt once, and in a Firestore
transaction keeps one request outstanding and ends each attempt with one commit
or abort; `Step` says so in its guards. Whether `malloc` finds memory is an input
everywhere it matters. Hosts are little-endian.

Where the code is not what its own text or a caller would expect, the model
follows the code:

- `packages/firebase_ffi/native/include/firebase_bridge.h:447-449` says that the decoder rejects
  sentinels. It accepts all six; they are what writes are made of.
- The payload of a delete or server timestamp is skipped, not read, and a tag
  stops the skipping short: what is tagged is then read in the sentinel's place, as
  one more element, as a key, or not at all behind a filter's value. `ValueOnWire`
  follows it everywhere; `SentinelExact`, `SentinelLeak`, `LeakedElement`,
  `SkippedForeignTag` and `LeakedQuery` show what comes of it.
- A timestamp or increment of another shape, a reference that is no text and data
  that is no container make the decoder use TinyCBOR outside its documented
  contract. The model answers OutOfContract exactly there, and claims nothing about
  what a release build then does.
- `DecodeMap` asks for a container without asking for a map, so an array of
  alternating keys and values passes for the data of a write: `DocumentOnWire`.
- Clauses, spec values and writes are stepped over by `cbor_value_advance`, which
  gives up below 1024 levels, so a value nested that deep is refused in a query or
  a write although the decoder itself would take it: `SpecComplete`, `ApplyOnWire`.
- A tag on the value of collectionGroup is stepped over alone, so what it tags is
  taken for the next key and everything behind it trades places: `Unwrapped` says
  what the parser sees, and `DisguisedClauses` shows a map that asks for two limits
  it has no entries for.
- The reader counts container items in 32 bits: larger ones, which the encoder
  writes, are refused. `Fits` says which values come back.
- A listener and a transactional read post a document too large to encode as one
  that is not there: `SnapshotPayload`. The one-shot read tells the two apart.
- A buffer without memory is dropped silently. A listener's numbers then have a
  gap (`Gapless`), and a transaction stays parked for good (`LostForever`).
- An App Check error code is narrowed to an int, and one whose low 32 bits are
  zero arrives as success: `LostErrors`.
- `packages/firebase_ffi/native/src/storage_impl.cpp:57-59` defers the cleanup to the next call so
  that no completion unwinds through a destroyed reference. The flag it waits for is
  set before the completion returns, so one may: `OutlivedExactly` says exactly
  when, `BeforeReturn` shows a run.
- The header's two 32-bit lengths truncate longer payloads: `FrameRecovered`.
- A bound's key without its bound, and a path under an ordering that takes none,
  are accepted and ignored by the Database's query spec: `IgnoredEntries` says that
  nothing else is, `IgnoredKey` shows one.

## Model

| member | source | states |
|---|---|---|
| `Cbor.ReadLead` | packages/firebase_ffi/native/third_party/tinycbor/src/cborparser.c:157-252 | the initial byte and argument the writer puts in front of any item are read back as that item's head, whatever follows |
| `Cbor.WireCancel` | packages/firebase_ffi/native/third_party/tinycbor/src/cborencoder.c:301-340 | encodings are self-delimiting: if two items followed by any bytes are the same bytes, the items and the rests are the same, for counted and indefinite containers alike |
| `Cbor.WireInjective` | packages/firebase_ffi/native/third_party/tinycbor/src/cborencoder.c:301-340 | equal encodings are encodings of the same item |
| `WireFormat.ScalarExamples` | packages/firebase_ffi/native/third_party/tinycbor/src/cborencoder.c:230-262 | integers and simple values have the very bytes of RFC 8949, Appendix A |
| `WireFormat.FloatExamples` | packages/firebase_ffi/native/third_party/tinycbor/src/cborencoder.c:301-340 | a float of each width has its initial byte and its bits in network order |
| `WireFormat.TextExamples` | packages/firebase_ffi/native/third_party/tinycbor/src/cborencoder.c:340-444 | strings and tags have the bytes of that appendix |
| `WireFormat.ContainerBytes` | packages/firebase_ffi/native/third_party/tinycbor/src/cborencoder.c:497-596 | a short container of either length form is its initial byte, its items and, when it is open, a break |
| `WireFormat.WideHead` | packages/firebase_ffi/native/third_party/tinycbor/src/cborparser.c:157-252 | an argument in more bytes than it needs is read as the same argument |
| `WireFormat.NoHead` | packages/firebase_ffi/native/third_party/tinycbor/src/cborparser.c:157-252 | a reserved length, an open length of a type without one, a simple value below 32 in two bytes and a cut-off argument are refused |
| `Walk.TagStep` | packages/firebase_ffi/native/third_party/tinycbor/src/cborparser.c:454-461 | advancing from a tag leads to the item it tags, in the tag's own place in the container |
| `Walk.StringStep` | packages/firebase_ffi/native/third_party/tinycbor/src/cborparser.c:1171-1210 | copying a text or byte string yields exactly its contents and moves behind it |
| `Walk.ChunkedStep` | packages/firebase_ffi/native/third_party/tinycbor/src/cborparser.c:981-1065 | a string in chunks yields what they hold together and the cursor moves behind its break |
| `Walk.EnterStep` | packages/firebase_ffi/native/third_party/tinycbor/src/cborparser.c:569-604 | entering a container succeeds exactly when its count fits the 32-bit counter, and then stands before exactly its items |
| `Walk.OverStep` | packages/firebase_ffi/native/third_party/tinycbor/src/cborparser.c:254-291 | past one item stand the remaining items of the container, or its end, for both length forms |
| `Walk.LeaveStep` | packages/firebase_ffi/native/third_party/tinycbor/src/cborparser.c:618-627 | leaving an exhausted container continues right behind it, break byte included |
| `Walk.SkipStep` | packages/firebase_ffi/native/third_party/tinycbor/src/cborparser.c:463-512 | cbor_value_advance moves past exactly one untagged item, or fails exactly when it nests deeper than 1024 levels or has a count the reader cannot hold |
| `WireFormat.StepsOver` | packages/firebase_ffi/native/third_party/tinycbor/src/cborparser.c:463-512 | an untagged item is stepped over exactly when it nests at most 1024 levels and holds no counted array of more than 4294967294 items and no counted map of more than 2147483647 entries |
| `WireFormat.Enters` | packages/firebase_ffi/native/third_party/tinycbor/src/cborparser.c:569-604 | a container is entered exactly when its own count is within those numbers |
| `Encoder.MoveAdds` | packages/firebase_ffi/native/third_party/tinycbor/src/cborencoder.c:249-294 | the shortfall counted after an overflow does not depend on how the bytes were split into appends |
| `Encoder.CborEncoder.Append` | packages/firebase_ffi/native/third_party/tinycbor/src/cborencoder.c:265-294 | all of the bytes are appended or none, and what did not fit is counted exactly |
| `Encoder.CborEncoder.String` | packages/firebase_ffi/native/third_party/tinycbor/src/cborencoder.c:438-444 | head and contents are written together or the shortfall grows by both |
| `Encoder.CborEncoder.Create` | packages/firebase_ffi/native/third_party/tinycbor/src/cborencoder.c:497-521 | the child starts behind the container's head and owes exactly the announced items |
| `Encoder.CborEncoder.Close` | packages/firebase_ffi/native/third_party/tinycbor/src/cborencoder.c:580-596 | the parent continues where the child is, and closing succeeds exactly when there is room and the child owes nothing |
| `Encoder.SerializeText` | packages/firebase_ffi/native/src/functions_impl.cpp:110-119 | a reason measured against no buffer and then encoded into one of that size is exactly its text item, without slack |
| `FirestoreDecode.DecodeValue` | packages/firebase_ffi/native/src/firestore_impl.cpp:329-397 | the decoder's branches and loops compute Value, for every cursor over every input |
| `FirestoreDecode.DecodeElements` | packages/firebase_ffi/native/src/firestore_impl.cpp:306-321 | the loop of arrays and array transforms computes Elements |
| `FirestoreDecode.DecodeMap` | packages/firebase_ffi/native/src/firestore_impl.cpp:213-231 | the map loop computes Document: text keys only, the first of equal keys kept |
| `FirestoreDecode.DecodeTagged` | packages/firebase_ffi/native/src/firestore_impl.cpp:234-327 | the nine branches of the tag dispatch, with their checks in order, compute what TaggedOnWire explains |
| `FirestoreDecode.DecodePair` | packages/firebase_ffi/native/src/firestore_impl.cpp:246-272 | the branch of timestamps and geopoints: two entries read one by one, the container left only at its end |
| `FirestoreDecode.DecodeIncrement` | packages/firebase_ffi/native/src/firestore_impl.cpp:287-305 | the branch of increments: one entry read, the container left only at its end |
| `FirestoreMeaning.ValueOnWire` | packages/firebase_ffi/native/src/firestore_impl.cpp:329-397 | at any item, in any container, before any bytes, the decoder yields exactly what the item means and stops right behind it, or at what a sentinel over a tag leaves in its place; it refuses, or leaves the library's contract, exactly where the item's reading says so |
| `FirestoreMeaning.DocumentOnWire` | packages/firebase_ffi/native/src/firestore_impl.cpp:213-231 | the same for maps, and for an array of alternating keys and values, which passes for one; what a sentinel leaves behind is read as the next key |
| `FirestoreMeaning.TaggedOnWire` | packages/firebase_ffi/native/src/firestore_impl.cpp:234-327 | at any tagged item the dispatch yields exactly what tag and payload mean together, refuses, or leaves the library's contract |
| `FirestoreMeaning.BehindStep` | packages/firebase_ffi/native/src/firestore_impl.cpp:240-245 | behind the value of an item the cursor stands before the rest of the container, headed by what the item left behind if it was a sentinel over a tag |
| `FirestoreMeaning.TimestampOnWire` | packages/firebase_ffi/native/src/firestore_impl.cpp:246-272 | a timestamp is two integers, the second narrowed to 32 bits; any other length or entry leaves the library's contract |
| `FirestoreMeaning.GeoPointOnWire` | packages/firebase_ffi/native/src/firestore_impl.cpp:246-272 | a geopoint is two numbers, of any float width or integers; fewer are refused, more leave the library's contract |
| `WireFormat.TimestampBytes` | packages/firebase_ffi/native/include/firebase_bridge.h:437-470 | a timestamp is tag 40000 over seconds and nanoseconds, in that order |
| `WireFormat.GeoPointBytes` | packages/firebase_ffi/native/include/firebase_bridge.h:437-470 | a geopoint is tag 40001 over latitude and longitude, in that order |
| `WireFormat.ReferenceBytes` | packages/firebase_ffi/native/include/firebase_bridge.h:437-470 | a reference is tag 40002 over its path |
| `WireFormat.SentinelBytes` | packages/firebase_ffi/native/include/firebase_bridge.h:437-470 | delete is tag 40010 and server timestamp 40011, each over null |
| `WireFormat.TransformBytes` | packages/firebase_ffi/native/include/firebase_bridge.h:437-470 | array union is tag 40012 and array remove 40013, each over the list of its values |
| `WireFormat.IncrementBytes` | packages/firebase_ffi/native/include/firebase_bridge.h:437-470 | an integer increment is tag 40014 and a double one 40015, each over a list of one |
| `FirestoreRoundTrip.InterpItemOf` | packages/firebase_ffi/native/src/firestore_impl.cpp:329-397 | the item of any value, sentinels and nested transforms included, means that value; it is refused for its width alone |
| `FirestoreRoundTrip.WriteRoundTrip` | packages/firebase_ffi/native/src/firestore_impl.cpp:234-397 | decoding the wire form of any value before any further bytes gives that value and consumes exactly its bytes |
| `FirestoreRoundTrip.ReadRoundTrip` | packages/firebase_ffi/native/src/firestore_impl.cpp:55-131 | what the encoder writes decodes to the value with its sentinels replaced by null, and exactly its bytes are consumed |
| `FirestoreRoundTrip.DocumentRoundTrip` | packages/firebase_ffi/native/src/firestore_impl.cpp:637-643 | a document survives the wire in every iteration order of its map |
| `FirestoreRoundTrip.FirstWins` | packages/firebase_ffi/native/src/firestore_impl.cpp:213-231 | a map with repeated keys decodes to each key once, with the value of its first occurrence |
| `FirestoreRoundTrip.EncoderTags` | packages/firebase_ffi/native/src/firestore_impl.cpp:85-130 | the encoder writes no tag other than 40000 to 40002, at any depth |
| `FirestoreRoundTrip.NulledExact` | packages/firebase_ffi/native/src/firestore_impl.cpp:124-131 | what is encoded is the value itself exactly when it holds no sentinel at any depth, and a sentinel is encoded as null |
| `FirestoreRoundTrip.GrammarExact` | packages/firebase_ffi/native/src/firestore_impl.cpp:234-397 | at any item, in any container, the decoder answers with a value exactly when the item is in the grammar of the wire (text-keyed maps, the nine tags with their payloads, counts the reader can hold) and what follows can be looked at; it then stands right behind the item unless that is a sentinel over a tag |
| `FirestoreRoundTrip.Breaches` | packages/firebase_ffi/native/src/firestore_impl.cpp:246-303 | exactly which payloads of a timestamp, geopoint, reference or increment leave the library's contract, and which are refused |
| `FirestoreRoundTrip.ForeignRefused` | packages/firebase_ffi/native/src/firestore_impl.cpp:322-326 | a tag outside the nine, at any depth where the decoder reads, keeps it from answering with a value, in any container |
| `FirestoreRoundTrip.SentinelExact` | packages/firebase_ffi/native/src/firestore_impl.cpp:240-245 | the decoder ends behind a delete or server timestamp exactly when its payload is an untagged item it can skip |
| `FirestoreRoundTrip.SentinelLeak` | packages/firebase_ffi/native/src/firestore_impl.cpp:240-245 | below a tagged payload the cursor comes to rest inside the payload instead |
| `FirestoreRoundTrip.LeakedElement` | packages/firebase_ffi/native/src/firestore_impl.cpp:240-245 | so an array of one such delete decodes as the delete and the values read from what it left behind |
| `FirestoreRoundTrip.SkippedForeignTag` | packages/firebase_ffi/native/src/firestore_impl.cpp:240-245 | and an unknown tag inside a delete's payload is accepted |
| `FirestoreEncode.EncodeValue` | packages/firebase_ffi/native/src/firestore_impl.cpp:68-131 | encoding succeeds exactly when the value's bytes fit, and then appends exactly those bytes |
| `FirestoreEncode.EncodeMap` | packages/firebase_ffi/native/src/firestore_impl.cpp:55-66 | the same for maps, entry by entry, in iteration order |
| `FirestoreEncode.EncodeArray` | packages/firebase_ffi/native/src/firestore_impl.cpp:113-123 | the same for arrays |
| `FirestoreEncode.PairWire` | packages/firebase_ffi/native/src/firestore_impl.cpp:85-106 | tag, array head and two scalars written in sequence are the tagged pair's item |
| `FirestoreEncode.MapWire` | packages/firebase_ffi/native/src/firestore_impl.cpp:55-66 | head and entries written in sequence are the map's item |
| `FirestoreDocument.SerializeDocument` | packages/firebase_ffi/native/src/firestore_impl.cpp:137-159 | true exactly when the encoded map has at most 2^24 bytes, leaving precisely that encoding, and otherwise nothing |
| `FirestoreDocument.GetCompletion` | packages/firebase_ffi/native/src/firestore_impl.cpp:1255-1277 | number 1 with an empty payload exactly when the document is absent; too large a document is reported as -2 |
| `FirestoreDocument.SnapshotPayload` | packages/firebase_ffi/native/src/firestore_impl.cpp:1294-1298 | a listener and a transactional read post an empty payload for an absent document, and also for one too large to encode |
| `FirestoreDocument.LargeDocument` | packages/firebase_ffi/native/src/firestore_impl.cpp:137-159 | such a document exists |
| `Variants.NormIdentity` | packages/firebase_ffi/native/src/firebase_impl.cpp:82-134 | the normal form of a value is the value itself exactly when its strings are NUL-free and its maps have distinct string or null keys |
| `Variants.NormClean` | packages/firebase_ffi/native/src/firebase_impl.cpp:82-134 | every normal form is of that kind |
| `Variants.NormIdempotent` | packages/firebase_ffi/native/src/firebase_impl.cpp:82-134 | normalizing twice changes nothing more |
| `VariantDecode.DecodeVariant` | packages/firebase_ffi/native/src/firebase_impl.cpp:259-329 | the decoder computes Value, which never leaves the library's contract on any input |
| `VariantDecode.DecodeVariantArray` | packages/firebase_ffi/native/src/firebase_impl.cpp:245-257 | the array loop computes List |
| `VariantDecode.DecodeVariantMap` | packages/firebase_ffi/native/src/firebase_impl.cpp:229-243 | the map loop computes Dictionary: any key, the first of equal ones kept |
| `VariantDecode.ParseVariantMap` | packages/firebase_ffi/native/src/firebase_impl.cpp:340-352 | only string-keyed maps parse, to their keys as C strings with the first of equal ones kept |
| `VariantKeys.FirstNameWins` | packages/firebase_ffi/native/src/firebase_impl.cpp:340-352 | the string-keyed map has a pair for exactly the entries that no earlier one shares its C-string key with |
| `VariantMeaning.InterpExact` | packages/firebase_ffi/native/src/firebase_impl.cpp:259-329 | an item has a Variant meaning exactly when no tag and no unassigned simple value occurs in it and every count fits |
| `VariantMeaning.ValueOnWire` | packages/firebase_ffi/native/src/firebase_impl.cpp:259-329 | at any item before any bytes the decoder yields exactly its meaning and stops behind it, or refuses |
| `VariantKeys.FirstWins` | packages/firebase_ffi/native/src/firebase_impl.cpp:229-243 | a decoded map has each key once, with the value of its first occurrence |
| `VariantMeaning.NormalForm` | packages/firebase_ffi/native/src/firebase_impl.cpp:82-329 | decoding what was encoded gives the normal form and consumes exactly its bytes, in any container |
| `VariantMeaning.ParseEncoded` | packages/firebase_ffi/native/src/firebase_impl.cpp:331-338 | the same for whole payloads with anything behind them |
| `VariantEncode.EncodeVariant` | packages/firebase_ffi/native/src/firebase_impl.cpp:82-134 | encoding succeeds exactly when the bytes fit, and then appends exactly them |
| `VariantEncode.EncodeMap` | packages/firebase_ffi/native/src/firebase_impl.cpp:111-132 | the same for maps, keys that are no strings written as null |
| `VariantEncode.EstimateVariantBytes` | packages/firebase_ffi/native/src/firebase_impl.cpp:147-169 | the accumulating walk computes Estimate |
| `VariantEncode.EstimateExact` | packages/firebase_ffi/native/src/firebase_impl.cpp:147-169 | the estimate is nine bytes for each value, keys included, and the lengths of all strings and blobs |
| `VariantEncode.EstimateBounds` | packages/firebase_ffi/native/src/firebase_impl.cpp:141-169 | the estimate never under-counts, whatever the value's keys are |
| `VariantEncode.SerializeVariant` | packages/firebase_ffi/native/src/firebase_impl.cpp:171-194 | always true, on the first attempt, with exactly the encoding |
| `SnapshotOrder.EncodeOrder` | packages/firebase_ffi/native/src/firebase_impl.cpp:199-225 | encoding a tree's child order succeeds exactly when its bytes fit, and then appends exactly them |
| `SnapshotOrder.EstimateOrderBytes` | packages/firebase_ffi/native/src/firebase_impl.cpp:355-363 | the walk computes Estimate |
| `SnapshotOrder.EstimateExact` | packages/firebase_ffi/native/src/firebase_impl.cpp:355-363 | the estimate is nine bytes for each list, pair and key, and the lengths of all keys |
| `SnapshotOrder.EstimateBounds` | packages/firebase_ffi/native/src/firebase_impl.cpp:354-363 | the estimate never under-counts |
| `SnapshotOrder.SerializeOrder` | packages/firebase_ffi/native/src/firebase_impl.cpp:365-381 | always true, on the first attempt, with exactly the encoding |
| `SnapshotReader.DecodeOrder` | packages/firebase_ffi/lib/src/variant_codec.dart:122-134 | the client's loop computes Read on any decoded item |
| `SnapshotReader.OrderRead` | packages/firebase_ffi/native/src/firebase_impl.cpp:201-226 | from the order of any proper node the client reads its children's keys in query order, and an order of its own for exactly those children that are nodes with children, at every level |
| `Framing.FrameRecovered` | packages/firebase_ffi/lib/src/variant_codec.dart:33-104 | the reader gets value and order back exactly when their lengths can be told apart in 32 bits: both below 2^32 with a non-empty value, or no order and a value of a multiple of 2^32 bytes |
| `Framing.FrameParts` | packages/firebase_ffi/native/src/firebase_impl.cpp:410-426 | magic, version, number, time and both lengths stand at the offsets where the reader looks for them, value and order behind them |
| `Framing.FrameInjective` | packages/firebase_ffi/native/src/firebase_impl.cpp:403-437 | equal buffers carry the same number, value and order |
| `Framing.Vm.PostSnapshot` | packages/firebase_ffi/native/src/firebase_impl.cpp:403-437 | exactly the framed value and order are posted, or nothing for want of memory |
| `Framing.Vm.PostBufferOwned` | packages/firebase_ffi/native/src/transport.cpp:234-260 | the header is written in front of a payload already in place, and exactly the first len bytes of it are handed over |
| `Framing.Vm.PostBuffer` | packages/firebase_ffi/native/src/transport.cpp:262-271 | exactly the framed copy of the bytes is posted, or nothing for want of memory |
| `Snapshot.HasValue` | packages/firebase_ffi/native/src/firebase_impl.cpp:447-457 | every proper tree has a value of the kind the other results speak of |
| `Snapshot.SameTree` | packages/firebase_ffi/native/src/firebase_impl.cpp:199-225 | equal values and equal orders come from equal trees, at every level |
| `Snapshot.SamePayloads` | packages/firebase_ffi/native/src/firebase_impl.cpp:447-459 | equal value and order payloads come from equal trees, whatever order the two value maps were kept in |
| `Snapshot.Lossless` | packages/firebase_ffi/native/src/firebase_impl.cpp:403-459 | equal posted buffers come from equal trees with equal query orders at every level, and under the same number |
| `Snapshot.Readable` | packages/firebase_ffi/native/src/firebase_impl.cpp:403-459 | the reader recovers value and order of every snapshot whose two payloads are below 2^32 bytes |
| `Snapshot.Gapless` | packages/firebase_ffi/native/src/firebase_impl.cpp:447-459 | the numbers that arrive have no gap exactly when no allocation failed before the last of them |
| `Snapshot.PortValueListener.OnValueChanged` | packages/firebase_ffi/native/src/firebase_impl.cpp:447-459 | no snapshot and no order is ever dropped for its encoding: the posted message is the framed value and order under the next number |
| `Snapshot.PortValueListener.OnCancelled` | packages/firebase_ffi/native/src/firebase_impl.cpp:461-474 | the reason is posted under -1 |
| `DatabaseTxn.DbTxnState.BeginAttempt` | packages/firebase_ffi/native/src/firebase_impl.cpp:1052-1055 | an attempt begins unanswered and under the next number, the rest of the slot untouched |
| `DatabaseTxn.DbTxnState.Apply` | packages/firebase_ffi/native/src/firebase_impl.cpp:1112-1118 | an answer replaces abort flag, null flag and value and marks the slot answered |
| `DatabaseTxn.DbTxnState.Take` | packages/firebase_ffi/native/src/firebase_impl.cpp:1063-1074 | a woken thread makes of the slot what it holds: abandon, store null, or store what parses |
| `DatabaseAttempt.OpenAttempt` | packages/firebase_ffi/native/src/firebase_impl.cpp:1047-1059 | the handler up to its wait: serializing the current value never fails, so the abort for it is never taken, and the value is posted under the new attempt's number |
| `DatabaseAttempt.ValueStored` | packages/firebase_ffi/native/src/firebase_impl.cpp:1063-1074 | an attempt answered with the encoding of a value stores that value's normal form |
| `DatabaseTxn.StepInv` | packages/firebase_ffi/native/src/firebase_impl.cpp:1045-1121 | every step of either side keeps the invariant, in every interleaving the locks allow |
| `DatabaseTxn.RightAnswer` | packages/firebase_ffi/native/src/firebase_impl.cpp:1045-1121 | in every run attempt n ends with what the answer given for n meant, and with no other answer |
| `DatabaseTxn.AnswersStored` | packages/firebase_ffi/native/src/firebase_impl.cpp:1063-1074 | an attempt answered with an abort, or with bytes that do not decode, is abandoned; one answered without bytes stores null, and one with bytes stores what they decode to |
| `DatabaseTxn.NeverRefused` | packages/firebase_ffi/native/src/firebase_impl.cpp:1103-1111 | an answer to a posted attempt always finds its transaction |
| `DatabaseTxn.NoLostWakeup` | packages/firebase_ffi/native/src/firebase_impl.cpp:1061-1062 | a thread blocked although its answer is set has a notify still to come, and that wakes it |
| `DatabaseTxn.Trace` | packages/firebase_ffi/native/src/firebase_impl.cpp:1052-1097 | the attempts posted are 1 to k without a gap; a terminal event follows exactly when the run completed the transaction with memory for it, only one, only at the end, with that completion's number |
| `DatabaseTxn.TerminalIsLast` | packages/firebase_ffi/native/src/firebase_impl.cpp:1076-1097 | nothing is posted after the end |
| `DatabaseTxn.LostForever` | packages/firebase_ffi/native/src/firebase_impl.cpp:1057-1062 | if an attempt's buffer finds no memory the thread stays parked and the transaction never posts again |
| `DatabaseTxn.NoDeadlock` | packages/firebase_ffi/native/src/firebase_impl.cpp:1045-1121 | otherwise some step other than a spurious wakeup is possible until the transaction is over |
| `FirestoreTxn.TxnState.Get` | packages/firebase_ffi/native/src/firestore_impl.cpp:1204-1217 | a get fills path, port and kind of the slot |
| `FirestoreTxn.TxnState.Commit` | packages/firebase_ffi/native/src/firestore_impl.cpp:1219-1230 | a commit replaces the write buffer and sets the kind |
| `FirestoreTxn.TxnState.Abort` | packages/firebase_ffi/native/src/firestore_impl.cpp:1232-1241 | an abort sets the kind only |
| `FirestoreTxn.TxnState.Take` | packages/firebase_ffi/native/src/firestore_impl.cpp:1124-1166 | the loop takes the request in the slot whole, clears it, and empties the write buffer with a commit |
| `FirestoreTxn.StepInv` | packages/firebase_ffi/native/src/firestore_impl.cpp:1112-1241 | every step of either side keeps the invariant, in every interleaving the locks allow |
| `FirestoreTxn.FreshAttempt` | packages/firebase_ffi/native/src/firestore_impl.cpp:1115-1121 | every attempt begins with an empty slot, an empty write buffer and no request outstanding |
| `FirestoreTxn.OwnAttempt` | packages/firebase_ffi/native/src/firestore_impl.cpp:1124-1166 | the i-th accepted request is the i-th one taken, with its own path or writes, in the attempt it was issued for |
| `FirestoreTxn.RepliedOnce` | packages/firebase_ffi/native/src/firestore_impl.cpp:1127-1147 | no get is replied to twice, nothing but a taken get is replied to, every get but the last request has its reply, and the reply comes from the attempt that issued it |
| `FirestoreTxn.OneEnd` | packages/firebase_ffi/native/src/firestore_impl.cpp:1149-1167 | what is issued in an attempt before its last request is gets only |
| `FirestoreTxn.EachEnded` | packages/firebase_ffi/native/src/firestore_impl.cpp:1149-1167 | every finished attempt was ended by a commit or an abort taken in it |
| `FirestoreTxn.NoLostWakeup` | packages/firebase_ffi/native/src/firestore_impl.cpp:1123-1125 | a thread blocked although the slot is full has a notify still to come, and that wakes it |
| `FirestoreTxn.Trace` | packages/firebase_ffi/native/src/firestore_impl.cpp:1115-1177 | the attempts posted are 1 to k without a gap; a terminal event follows exactly when the post after the id was erased found memory, only one, only at the very end, under 0 exactly when the transaction was completed without an error and under -1 exactly when it was completed with one |
| `FirestoreTxn.OneCompletion` | packages/firebase_ffi/native/src/firestore_impl.cpp:1168-1191 | a transaction is completed at most once |
| `FirestoreTxn.NothingLeftBehind` | packages/firebase_ffi/native/src/firestore_impl.cpp:1168-1177 | when the terminal event is out the id is dead, every accepted request was taken and every get has its reply |
| `FirestoreTxn.TerminalIsLast` | packages/firebase_ffi/native/src/firestore_impl.cpp:1168-1202 | after it nothing is posted and every request is refused |
| `FirestoreTxn.LostForever` | packages/firebase_ffi/native/src/firestore_impl.cpp:1121-1124 | if an attempt or the reply a client waits for finds no memory the transaction is stuck and posts nothing more |
| `FirestoreTxn.NoDeadlock` | packages/firebase_ffi/native/src/firestore_impl.cpp:1112-1241 | otherwise some step other than a spurious wakeup is possible until the transaction is over |
| `FirestoreQuery.SpecWantsCollectionGroup` | packages/firebase_ffi/native/src/firestore_impl.cpp:705-729 | the pre-pass computes WantsGroup |
| `FirestoreQuery.ApplyClauseArray` | packages/firebase_ffi/native/src/firestore_impl.cpp:524-537 | the clause loop computes ClauseArray for filters and orderings |
| `FirestoreQuery.ReadCursorValues` | packages/firebase_ffi/native/src/firestore_impl.cpp:512-522 | the cursor loop computes CursorValues |
| `FirestoreQuery.BuildQuery` | packages/firebase_ffi/native/src/firestore_impl.cpp:731-803 | pre-pass, main loop and error codes compute Build, for any behaviour of the SDK |
| `FirestoreQueryMeaning.ClauseOnWire` | packages/firebase_ffi/native/src/firestore_impl.cpp:480-505 | a clause's bytes add exactly the clause its item means, are refused, or leave the library's contract, exactly as the item says |
| `FirestoreQueryMeaning.BuildOnWire` | packages/firebase_ffi/native/src/firestore_impl.cpp:705-803 | on the bytes of any map the result is exactly that of the base the first collectionGroup entry asks for and the clauses of the spec in order, as the parser sees it: the query, the malformed code, the throw, or a breach of the library's contract |
| `FirestoreQueryMeaning.NoMapNoQuery` | packages/firebase_ffi/native/src/firestore_impl.cpp:745-753 | a spec that is no map builds nothing |
| `FirestoreQueryMeaning.AddAllExact` | packages/firebase_ffi/native/src/firestore_impl.cpp:754-793 | clauses are only ever added at the end, and all of them exactly when the SDK accepts every prefix |
| `FirestoreQueryExact.SpecComplete` | packages/firebase_ffi/native/src/firestore_impl.cpp:418-537 | a spec is read to its end exactly when its items pair up, every key is known and every value is legal under it |
| `FirestoreQueryExact.BuiltExactly` | packages/firebase_ffi/native/src/firestore_impl.cpp:731-803 | on the bytes of any map a query is built exactly when the spec as seen is well formed and the SDK throws at no step, and it then has every clause once, in order; the malformed code and the throw have their exact conditions, too |
| `FirestoreQueryMeaning.SeenAsItIs` | packages/firebase_ffi/native/src/firestore_impl.cpp:754-792 | a spec without tagged values is seen as it is |
| `FirestoreQueryExact.DisguisedClauses` | packages/firebase_ffi/native/src/firestore_impl.cpp:774-792 | a tag under collectionGroup makes the parser see, and build, clauses the map has no entries for |
| `FirestoreQueryExact.LeakedQuery` | packages/firebase_ffi/native/src/firestore_impl.cpp:480-489 | a filter whose value is a delete over a tagged item, whatever is tagged, is well formed and is built with a delete |
| `FirestoreQueryClient.ClientQuery` | packages/firebase_ffi/lib/firestore.dart:505-538 | for every request whose operators, field references, limits and bounds are legal, stated on the request alone, the client's bytes build exactly its filters, orderings, limits and bounds, once and in order, unless the SDK throws |
| `FirestoreQueryClient.OperatorTable` | packages/firebase_ffi/native/src/firestore_impl.cpp:418-463 | each of the ten operators is read from the spelling the client gives it |
| `FirestoreQueryClient.OperatorsOnly` | packages/firebase_ffi/native/src/firestore_impl.cpp:418-463 | no other spelling is an operator |
| `FirestoreQueryClient.FieldTable` | packages/firebase_ffi/native/src/firestore_impl.cpp:412-416 | __name__ is the document id and every other name a field |
| `FirestoreWrites.ApplyEntry` | packages/firebase_ffi/native/src/firestore_impl.cpp:870-892 | one entry puts exactly the write it describes on the writer, or none |
| `FirestoreWrites.ApplyWrites` | packages/firebase_ffi/native/src/firestore_impl.cpp:857-896 | the loop computes Apply |
| `FirestoreWrites.Commit` | packages/firebase_ffi/native/src/firestore_impl.cpp:1085-1099 | a commit carries the writes of Apply, and happens only when all were applied |
| `FirestoreWrites.AllOrNothing` | packages/firebase_ffi/native/src/firestore_impl.cpp:857-896 | on any bytes a commit happens exactly when the whole array decodes, and carries its writes, all of them, in order |
| `FirestoreWrites.ApplyOnWire` | packages/firebase_ffi/native/src/firestore_impl.cpp:857-896 | the bytes of any item apply as what it says: the writes of an array up to the first that cannot be applied, and how it ended there; nothing for any other item |
| `FirestoreWrites.RecordedIsCommitted` | packages/firebase_ffi/lib/firestore.dart:793-816 | every list of writes a client records is committed as recorded |
| `DatabaseQuery.ApplyQuerySpec` | packages/firebase_ffi/native/src/firebase_impl.cpp:671-757 | the source's steps accept exactly the specs that meet Accepts, with exactly the clauses of Clauses |
| `DatabaseQuery.ApplyOrdering` | packages/firebase_ffi/native/src/firebase_impl.cpp:689-708 | one of four orderings, a path exactly with the child ordering, no path without an ordering |
| `DatabaseQuery.ApplyLimits` | packages/firebase_ffi/native/src/firebase_impl.cpp:743-756 | at most one limit, a positive integer |
| `DatabaseQuery.ClauseShape` | packages/firebase_ffi/native/src/firebase_impl.cpp:671-757 | an ordering only comes first, a limit only last, and an equality stands alone between them |
| `DatabaseQueryClient.AcceptsExact` | packages/firebase_ffi/native/src/firebase_impl.cpp:671-757 | exactly which specs are accepted, entry by entry |
| `DatabaseQueryClient.OrderingExact` | packages/firebase_ffi/native/src/firebase_impl.cpp:689-705 | an accepted spec has each of the four orderings exactly when its entry names it, the child's with its own path |
| `DatabaseQueryClient.BoundsExact` | packages/firebase_ffi/native/src/firebase_impl.cpp:710-741 | it has each bound exactly with its own entry's value and key |
| `DatabaseQueryClient.LimitsExact` | packages/firebase_ffi/native/src/firebase_impl.cpp:743-756 | it has each limit exactly with its own entry's integer |
| `DatabaseQuery.OrderFree` | packages/firebase_ffi/native/src/firebase_impl.cpp:684-687 | reordering the entries of a map with distinct keys changes nothing |
| `DatabaseQuery.ClientOrderFree` | packages/firebase_ffi/native/src/firebase_impl.cpp:671-687 | nor does it on the wire, in either length form |
| `DatabaseQuery.IgnoredEntries` | packages/firebase_ffi/native/src/firebase_impl.cpp:692-741 | two accepted specs are the same query exactly when they agree on all but a bound's key without its bound and a path under another ordering: those are ignored, every other entry counts |
| `DatabaseQuery.IgnoredKey` | packages/firebase_ffi/native/src/firebase_impl.cpp:724-732 | a bound's key alone, with any value, is accepted and gives the query without it |
| `DatabaseQuery.ReadSpec` | packages/firebase_ffi/native/src/firebase_impl.cpp:1160-1164 | bytes are parsed to a string-keyed map and applied, or refused |
| `DatabaseQuery.SpecOnWire` | packages/firebase_ffi/native/src/firebase_impl.cpp:1160-1164 | the bytes of any item: a map of text keys applies as its entries do, first of equal keys kept, and nothing else is a spec |
| `DatabaseQuery.ClientSpec` | packages/firebase_ffi/lib/database.dart:629-668 | the bytes of any client map with distinct NUL-free keys, and any items for values, apply as its entries do; they are refused when a value has no meaning |
| `DatabaseQueryClient.ClientQuery` | packages/firebase_ffi/lib/database.dart:629-668 | the bytes of any client query give exactly the clauses it asks for, stated on the request alone, or are refused exactly for an equality beside another bound, two limits, a limit below 1, or a value without a meaning |
| `ListenerRegistry.Registry.Listen` | packages/firebase_ffi/native/src/firebase_impl.cpp:1153-1196 | a refused call changes nothing; otherwise the new listener exists before the SDK hears of it and gets the next handle of its kind |
| `ListenerRegistry.Registry.Unlisten` | packages/firebase_ffi/native/src/firebase_impl.cpp:1198-1215 | a listener is taken from the SDK before it is destroyed, and exactly its entry goes |
| `ListenerRegistry.AddedValid` | packages/firebase_ffi/native/src/firebase_impl.cpp:1166-1195 | a new handle is never in its map already, so no emplace is dropped |
| `ListenerRegistry.EveryRun` | packages/firebase_ffi/native/src/firebase_impl.cpp:555-566 | over every run handles are pairwise distinct, never reused, positive or at most -1000, and the objects the SDK may call are exactly the live ones, each owned by one entry |
| `ListenerRegistry.RefusedSpec` | packages/firebase_ffi/native/src/firebase_impl.cpp:1160-1164 | the registry is unchanged exactly for the error codes |
| `ListenerRegistry.RefusalCodes` | packages/firebase_ffi/native/src/firebase_impl.cpp:1153-1164 | -1 exactly without a database, -2 exactly without a path, -3 exactly for bytes that are no spec |
| `ListenerRegistry.ListenEntry` | packages/firebase_ffi/native/src/firebase_impl.cpp:1160-1194 | at the handle returned stand the call's own port and the query of its own spec, and nothing else changes |
| `ListenerRegistry.UnlistenEntry` | packages/firebase_ffi/native/src/firebase_impl.cpp:1198-1215 | exactly the handle's own entry and its own address go |
| `AppCheck.LostErrors` | packages/firebase_ffi/native/src/app_check_impl.cpp:171-192 | an error supplied by Dart reaches the SDK as success with an empty token exactly when its low 32 bits are zero |
| `AppCheck.Registry.UseCustomProvider` | packages/firebase_ffi/native/src/app_check_impl.cpp:156-165 | port 0 is refused and changes nothing; another one replaces the port and leaves what is parked |
| `AppCheck.Registry.GetToken` | packages/firebase_ffi/native/src/app_check_impl.cpp:79-96 | a request is parked under the next number, and only if there is a port |
| `AppCheck.Registry.Claim` | packages/firebase_ffi/native/src/app_check_impl.cpp:175-181 | a pending number is taken out once; any other is refused and changes nothing |
| `AppCheck.Deliver` | packages/firebase_ffi/native/src/app_check_impl.cpp:183-191 | token and expiry are passed on only without an error, message and code always, the code narrowed to an int |
| `AppCheck.Registry.SupplyToken` | packages/firebase_ffi/native/src/app_check_impl.cpp:171-192 | a pending request is taken out and its completion called with the answer; any other number is refused |
| `AppCheck.Conservation` | packages/firebase_ffi/native/src/app_check_impl.cpp:55-192 | in every run the numbers given out split exactly into pending, being completed and completed, and none completes twice |
| `AppCheck.OwnAnswer` | packages/firebase_ffi/native/src/app_check_impl.cpp:171-192 | a completion runs for its own number only: with the supplied token, expiry and message under code 0, or without a token under the low 32 bits of the supplied error |
| `AppCheck.SupplyOnce` | packages/firebase_ffi/native/src/app_check_impl.cpp:171-182 | supply answers 0 exactly for numbers given out and not yet supplied |
| `AppCheck.NeverUnderLock` | packages/firebase_ffi/native/src/app_check_impl.cpp:79-95 | no completion ever runs while the lock is held |
| `AppCheck.AnnouncedOnce` | packages/firebase_ffi/native/src/app_check_impl.cpp:97-101 | each number reaches the port at most once |
| `InFlight.Retained.Retain` | packages/firebase_ffi/native/src/storage_impl.cpp:67-80 | a call destroys exactly the references whose flag is set and keeps the others in order before its own |
| `InFlight.UndoneInOrder` | packages/firebase_ffi/native/src/storage_impl.cpp:69-72 | what is kept is found entry by entry, in order |
| `InFlight.EntryByEntry` | packages/firebase_ffi/native/src/storage_impl.cpp:69-72 | an entry is kept exactly when its flag is not set, and destroyed exactly when it is |
| `InFlight.NeverOutlived` | packages/firebase_ffi/native/src/storage_impl.cpp:67-80 | in every run, while the SDK runs an operation or has not yet set its flag, its reference is retained and not destroyed |
| `InFlight.DestroyedByLater` | packages/firebase_ffi/native/src/functions_impl.cpp:92-102 | a reference is destroyed only by a later call, after its own completion set its flag |
| `InFlight.DestroyedExactly` | packages/firebase_ffi/native/src/storage_impl.cpp:67-80 | in every run a reference is destroyed exactly when some call was made after its completion had set the flag |
| `InFlight.OutlivedExactly` | packages/firebase_ffi/native/src/storage_impl.cpp:56-72 | an operation that has not returned outlives its reference exactly when its completion is past setting the flag and another call came in since |
| `InFlight.Unflagged` | packages/firebase_ffi/native/src/storage_impl.cpp:263-283 | a reference whose flag is never set is never destroyed, as after a successful download |
| `InFlight.BeforeReturn` | packages/firebase_ffi/native/src/storage_impl.cpp:56-63 | the flag is all a purge waits for: a completion that has set it need not have returned |
| `InFlight.FinishGet` | packages/firebase_ffi/native/src/storage_impl.cpp:274-282 | a download posts what arrived, never more than was asked for, out of the buffer it arrived in |
| `StorageMetadata.EncodingIsWire` | packages/firebase_ffi/native/src/storage_impl.cpp:99-133 | fields, numbers and custom entries written in sequence are the metadata's map item, absent fields left out |
| `StorageReader.PlaceFields` | packages/firebase_ffi/lib/storage.dart:57-78 | the client finds under each name its own field, or nothing where the field is empty |
| `StorageReader.ContentFields` | packages/firebase_ffi/lib/storage.dart:57-78 | likewise for the content fields and the hash |
| `StorageReader.OtherFields` | packages/firebase_ffi/lib/storage.dart:57-78 | likewise for the five numbers and the caller's own map |
| `StorageReader.CustomFields` | packages/firebase_ffi/native/src/storage_impl.cpp:117-130 | in that map each key finds its own value |
| `StorageMetadata.EncodeTextField` | packages/firebase_ffi/native/src/storage_impl.cpp:85-89 | room stays exactly when the field fits, and a shortfall is never zero even though a value behind a key that did not fit is skipped |
| `StorageMetadata.EncodeMetadata` | packages/firebase_ffi/native/src/storage_impl.cpp:99-133 | the same for the whole walk, which goes on past an overflow |
| `StorageMetadata.SerializeMetadata` | packages/firebase_ffi/native/src/storage_impl.cpp:140-160 | true only with the complete encoding, and surely true for every encoding of at most 65790 bytes |

## Left out

- FirestoreQueryClient.ClientQuery: takes requests whose values the reader can count and step over; the other half is `BuiltExactly`.
- InFlight.NeverOutlived: is the safety direction up to the flag, `OutlivedExactly` says what holds behind it; references of successful downloads and of uploads without memory are never reclaimed (`Unflagged`).
- Items in front of a decoding theorem are in shortest form with unchunked strings (arrays and maps of either length form); other encodings of the same data are covered by the cursor functions and by `AllOrNothing`, not by the `…OnWire` lemmas.
- Conversions between numbers: a float read at 16 or 32 bits, or an integer read as a double, stays a term that names where its bits come from; rounding is not interpreted.
- The order and equality the SDK gives Variants as map keys: keys are compared as values, entries are kept in arrival order, and theorems about maps hold for every order.
- Wrap-around of `size_t` sums, of 64-bit counters and of listener numbers, which would need more memory or calls than a process can have.
- The SDK's exceptions outside the query builder, and code -4 for aggregate field paths.
- `SerializeQueryResult` and the aggregate queries: the former ignores its encoder's result and closes containers that were left open.
- `PortChildListener` and its event maps: they use the Variant codec and the framing as modelled and add easy members only.
- The order of memory operations below the locks and atomics: each critical section is a step, and so is each atomic access but one: a purge reads the done flags of all its entries in one step.
- Two Firestore transactions begun at the same time: the id is read for the map before it is incremented for the caller, outside the lock; a run here is one transaction.
- What the Dart VM does with a message, clocks, the posted time's value, UTF-8 validity, and leaks when a port no longer exists.
- Auth, Remote Config, app initialisation, emulator settings, App Check listeners, the transport benchmarks and all plain setters.
