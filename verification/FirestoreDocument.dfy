/**
 Serialized documents and what the three kinds of document read make of them:
 the one-shot get, the listener and the read inside a transaction.
 */
module FirestoreDocument {
  import opened Bytes
  import opened Cbor
  import opened FirestoreValue
  import opened Encoder
  import opened FirestoreEncode

  /** fdb::SerializeDocument: grow and retry, with the encode as the only test.
      The last buffer tried has 512 bytes doubled fifteen times. */
  method SerializeDocument(fs: seq<Field>) returns (ok: bool, out: Octets)
    requires Valid(MapValue(fs)) && EachPlain(fs)
    ensures ok <==> |Encoding(MapValue(fs))| <= 16_777_216
    ensures out == if ok then Encoding(MapValue(fs)) else []
  {
    hide Encoding;
    var cap, attempt := 512, 0;
    ghost var sizes := [512, 1024, 2048, 4096, 8192, 16384, 32768, 65536, 131072, 262144, 524288, 1048576,
                        2097152, 4194304, 8388608, 16777216, 33554432];
    while attempt < 16
      invariant 0 <= attempt <= 16 && cap == sizes[attempt]
      invariant attempt > 0 ==> cap < 2 * |Encoding(MapValue(fs))|
    {
      var buffer := new Byte[cap](_ => 0);
      var enc := new CborEncoder(buffer);
      ok := EncodeMap(fs, enc);
      if ok {
        return true, buffer[..enc.place.ptr];
      }
      cap, attempt := cap * 2, attempt + 1;
    }
    return false, [];
  }

  /** A document as the SDK hands it over, or None when it does not exist. */
  predicate Readable(doc: Option<seq<Field>>) {
    doc.Some? ==> Valid(MapValue(doc.value)) && EachPlain(doc.value)
  }

  predicate TooLarge(fs: seq<Field>)
    requires Valid(MapValue(fs))
  {
    |Encoding(MapValue(fs))| > 16_777_216
  }

  /** The completion of fdb_fs_get: the seq and the payload it posts. */
  method GetCompletion(error: int, doc: Option<seq<Field>>) returns (seq_: int, payload: Octets)
    requires Readable(doc)
    ensures seq_ == 1 && payload == [] <==> error == 0 && doc.None?
    ensures seq_ == 1 && payload != [] <==> error == 0 && doc.Some? && !TooLarge(doc.value)
    ensures seq_ == 1 && payload != [] ==> payload == Encoding(MapValue(doc.value))
    ensures seq_ == -1 <==> error != 0
    ensures seq_ == -2 <==> error == 0 && doc.Some? && TooLarge(doc.value)
    ensures seq_ < 0 ==> payload == []
  {
    payload := [];
    if error != 0 { return -1, []; }
    if doc.Some? {
      var ok;
      ok, payload := SerializeDocument(doc.value);
      if !ok { return -2, payload; }
    }
    seq_ := 1;
  }

  /** What a listener posts for a snapshot that came without an error, and what a
      transaction posts for a read: neither looks at SerializeDocument's answer,
      so a document too large to encode is posted as one that is not there. */
  method SnapshotPayload(doc: Option<seq<Field>>) returns (payload: Octets)
    requires Readable(doc)
    ensures payload == [] <==> doc.None? || TooLarge(doc.value)
    ensures payload != [] ==> payload == Encoding(MapValue(doc.value))
  {
    payload := [];
    if doc.Some? {
      var ok;
      ok, payload := SerializeDocument(doc.value);
    }
  }

  /** Such documents exist: one field holding sixteen mebibytes is enough. */
  lemma {:induction false} LargeDocument() returns (fs: seq<Field>)
    ensures Valid(MapValue(fs)) && EachPlain(fs) && TooLarge(fs)
  {
    hide HeadBytes, Encoding, EntryBytes, KeyBytes;
    var big: Octets := seq(0x100_0000, _ => 0);
    var f := Field([], BlobValue(big));
    fs := [f];
    assert fs[0] == f && fs[1..] == [];
    assert Valid(f.value) && Plain(f.value);
    assert EachValid(fs[1..]) && EachPlain(fs[1..]);
    assert EachValid(fs) && EachPlain(fs);
    MapWire(fs);
    EntryBytesStep(fs);
    ScalarEncoding(BlobValue(big));
  }
}
