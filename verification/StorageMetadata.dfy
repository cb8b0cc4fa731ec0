/**
 Storage metadata: a walk that goes on after the buffer overflowed, skipping some
 values while it counts, and the buffer that grows by the shortfall.
 */
module StorageMetadata {
  import opened Bytes
  import opened Cbor
  import opened Encoder

  /** A C string; the empty one stands for an absent field, as a null does. */
  type CString = s: Octets | 0 !in s

  datatype Custom = Custom(key: Octets, value: Octets)

  datatype Metadata = Metadata(
    bucket: CString, name: CString, path: CString, contentType: CString, cacheControl: CString,
    contentDisposition: CString, contentEncoding: CString, contentLanguage: CString, md5Hash: CString,
    sizeBytes: I64, creationTime: I64, updatedTime: I64, generation: I64, metadataGeneration: I64,
    custom: seq<Custom>)

  // ---- the item ---------------------------------------------------------------------

  function TextItems(key: string, value: CString): seq<Item> {
    if value == [] then [] else [Text(Ascii(key)), Text(value)]
  }

  function IntItems(key: string, value: I64): seq<Item> {
    [Text(Ascii(key)), IntItem(value)]
  }

  function PairItems(cs: seq<Custom>): (ts: seq<Item>)
    ensures |ts| == 2 * |cs|
  {
    if cs == [] then [] else [Text(Cut(cs[0].key)), Text(Cut(cs[0].value))] + PairItems(cs[1..])
  }

  function CustomItems(cs: seq<Custom>): seq<Item> {
    if cs == [] then [] else [Text(Ascii("custom")), Map(PairItems(cs), true)]
  }

  function PlaceItems(m: Metadata): seq<Item> {
    TextItems("bucket", m.bucket) + TextItems("name", m.name) + TextItems("path", m.path)
    + TextItems("contentType", m.contentType) + TextItems("cacheControl", m.cacheControl)
  }

  function ContentItems(m: Metadata): seq<Item> {
    TextItems("contentDisposition", m.contentDisposition) + TextItems("contentEncoding", m.contentEncoding)
    + TextItems("contentLanguage", m.contentLanguage) + TextItems("md5Hash", m.md5Hash)
  }

  function FieldItems(m: Metadata): seq<Item> {
    PlaceItems(m) + ContentItems(m)
  }

  function NumberItems(m: Metadata): seq<Item> {
    IntItems("sizeBytes", m.sizeBytes) + IntItems("creationTime", m.creationTime)
    + IntItems("updatedTime", m.updatedTime) + IntItems("generation", m.generation)
    + IntItems("metadataGeneration", m.metadataGeneration)
  }

  function MetadataItem(m: Metadata): Item {
    Map(FieldItems(m) + NumberItems(m) + CustomItems(m.custom), true)
  }

  predicate Held(cs: seq<Custom>) {
    cs == [] || (|cs[0].key| <= MAX_SIZE && |cs[0].value| <= MAX_SIZE && Held(cs[1..]))
  }

  /** Lengths a C++ process can hold. */
  predicate Valid(m: Metadata) {
    && |m.bucket| <= MAX_SIZE && |m.name| <= MAX_SIZE && |m.path| <= MAX_SIZE && |m.contentType| <= MAX_SIZE
    && |m.cacheControl| <= MAX_SIZE && |m.contentDisposition| <= MAX_SIZE && |m.contentEncoding| <= MAX_SIZE
    && |m.contentLanguage| <= MAX_SIZE && |m.md5Hash| <= MAX_SIZE
    && |m.custom| <= MAX_SIZE / 2 && Held(m.custom)
  }

  // ---- bytes, piece by piece ----------------------------------------------------------

  /** A run of items that can be written, and its bytes. */
  ghost predicate Piece(ts: seq<Item>, bytes: Octets, pairs: nat) {
    AllSized(ts) && WireAll(ts) == bytes && |ts| % 2 == 0 && |ts| <= 2 * pairs
  }

  function TextBytes(s: Octets): Octets
    requires |s| < TWO_TO_64
  {
    HeadBytes(3, |s|) + s
  }

  function TextField(key: string, value: CString): Octets
    requires |key| < 100 && |value| <= MAX_SIZE
  {
    if value == [] then [] else TextBytes(Ascii(key)) + TextBytes(value)
  }

  function IntField(key: string, value: I64): Octets
    requires |key| < 100
  {
    TextBytes(Ascii(key)) + Wire(IntItem(value))
  }

  lemma {:induction false} TwoPiece(a: Item, b: Item)
    requires Sized(a) && Sized(b)
    ensures Piece([a, b], Wire(a) + Wire(b), 1)
  {
    TwoWire(a, b);
  }

  lemma {:induction false} TextWire(s: Octets)
    requires |s| < TWO_TO_64
    ensures Sized(Text(s)) && Wire(Text(s)) == TextBytes(s)
  {
  }

  lemma {:induction false} TextPiece(key: string, value: CString)
    requires |key| < 100 && |value| <= MAX_SIZE
    ensures Piece(TextItems(key, value), TextField(key, value), 1)
  {
    hide Wire, Sized, TextBytes, Ascii;
    if value != [] {
      assert |Ascii(key)| == |key| by { AsciiLength(key); }
      TextWire(Ascii(key));
      TextWire(value);
      TwoPiece(Text(Ascii(key)), Text(value));
    }
  }

  lemma {:induction false} AsciiLength(key: string)
    ensures |Ascii(key)| == |key|
  {
  }

  lemma {:induction false} IntPiece(key: string, value: I64)
    requires |key| < 100
    ensures Piece(IntItems(key, value), IntField(key, value), 1)
  {
    hide Wire, Sized, TextBytes, Ascii;
    AsciiLength(key);
    TextWire(Ascii(key));
    TwoPiece(Text(Ascii(key)), IntItem(value)) by { assert Sized(IntItem(value)) by { SizedInt(value); } }
  }

  lemma {:induction false} SizedInt(i: I64)
    ensures Sized(IntItem(i))
  {
  }

  lemma {:induction false} Join(a: seq<Item>, x: Octets, m: nat, b: seq<Item>, y: Octets, n: nat)
    requires Piece(a, x, m) && Piece(b, y, n)
    ensures Piece(a + b, x + y, m + n)
  {
    WireAllConcat(a, b);
  }

  function PlaceBytes(m: Metadata): Octets
    requires Valid(m)
  {
    TextField("bucket", m.bucket) + TextField("name", m.name) + TextField("path", m.path)
    + TextField("contentType", m.contentType) + TextField("cacheControl", m.cacheControl)
  }

  function ContentBytes(m: Metadata): Octets
    requires Valid(m)
  {
    TextField("contentDisposition", m.contentDisposition) + TextField("contentEncoding", m.contentEncoding)
    + TextField("contentLanguage", m.contentLanguage) + TextField("md5Hash", m.md5Hash)
  }

  function FieldBytes(m: Metadata): Octets
    requires Valid(m)
  {
    PlaceBytes(m) + ContentBytes(m)
  }

  function NumberBytes(m: Metadata): Octets {
    IntField("sizeBytes", m.sizeBytes) + IntField("creationTime", m.creationTime)
    + IntField("updatedTime", m.updatedTime) + IntField("generation", m.generation)
    + IntField("metadataGeneration", m.metadataGeneration)
  }

  function PairBytes(cs: seq<Custom>): Octets
    requires Held(cs)
  {
    if cs == [] then [] else (TextBytes(Cut(cs[0].key)) + TextBytes(Cut(cs[0].value))) + PairBytes(cs[1..])
  }

  function InnerBytes(cs: seq<Custom>): Octets
    requires Held(cs)
  {
    OpenHead(5, 0, true) + PairBytes(cs) + [BREAK]
  }

  function CustomBytes(cs: seq<Custom>): Octets
    requires Held(cs)
  {
    if cs == [] then [] else TextBytes(Ascii("custom")) + InnerBytes(cs)
  }

  function Encoding(m: Metadata): Octets
    requires Valid(m)
  {
    OpenHead(5, 0, true) + (FieldBytes(m) + NumberBytes(m) + CustomBytes(m.custom)) + [BREAK]
  }

  lemma {:induction false} PlacePiece(m: Metadata)
    requires Valid(m)
    ensures Piece(PlaceItems(m), PlaceBytes(m), 5)
  {
    hide Piece, TextField, TextItems;
    var a, b := TextItems("bucket", m.bucket), TextField("bucket", m.bucket);
    TextPiece("bucket", m.bucket);
    a, b := JoinText(a, b, 1, "name", m.name);
    a, b := JoinText(a, b, 2, "path", m.path);
    a, b := JoinText(a, b, 3, "contentType", m.contentType);
    a, b := JoinText(a, b, 4, "cacheControl", m.cacheControl);
  }

  lemma {:induction false} ContentPiece(m: Metadata)
    requires Valid(m)
    ensures Piece(ContentItems(m), ContentBytes(m), 4)
  {
    hide Piece, TextField, TextItems;
    var a, b := TextItems("contentDisposition", m.contentDisposition), TextField("contentDisposition", m.contentDisposition);
    TextPiece("contentDisposition", m.contentDisposition);
    a, b := JoinText(a, b, 1, "contentEncoding", m.contentEncoding);
    a, b := JoinText(a, b, 2, "contentLanguage", m.contentLanguage);
    a, b := JoinText(a, b, 3, "md5Hash", m.md5Hash);
  }

  lemma {:induction false} FieldPiece(m: Metadata)
    requires Valid(m)
    ensures Piece(FieldItems(m), FieldBytes(m), 9)
  {
    hide Piece, PlaceItems, PlaceBytes, ContentItems, ContentBytes;
    PlacePiece(m);
    ContentPiece(m);
    Join(PlaceItems(m), PlaceBytes(m), 5, ContentItems(m), ContentBytes(m), 4);
  }

  lemma {:induction false} JoinText(a: seq<Item>, x: Octets, n: nat, key: string, value: CString)
    returns (b: seq<Item>, y: Octets)
    requires Piece(a, x, n) && |key| < 100 && |value| <= MAX_SIZE
    ensures Piece(b, y, n + 1) && b == a + TextItems(key, value) && y == x + TextField(key, value)
  {
    hide Piece, TextField, TextItems;
    TextPiece(key, value);
    b, y := a + TextItems(key, value), x + TextField(key, value);
    Join(a, x, n, TextItems(key, value), TextField(key, value), 1);
  }

  lemma {:induction false} NumberPiece(m: Metadata)
    ensures Piece(NumberItems(m), NumberBytes(m), 5)
  {
    hide Piece, IntField, IntItems;
    var a, b := IntItems("sizeBytes", m.sizeBytes), IntField("sizeBytes", m.sizeBytes);
    IntPiece("sizeBytes", m.sizeBytes);
    a, b := JoinInt(a, b, 1, "creationTime", m.creationTime);
    a, b := JoinInt(a, b, 2, "updatedTime", m.updatedTime);
    a, b := JoinInt(a, b, 3, "generation", m.generation);
    a, b := JoinInt(a, b, 4, "metadataGeneration", m.metadataGeneration);
  }

  lemma {:induction false} JoinInt(a: seq<Item>, x: Octets, n: nat, key: string, value: I64)
    returns (b: seq<Item>, y: Octets)
    requires Piece(a, x, n) && |key| < 100
    ensures Piece(b, y, n + 1) && b == a + IntItems(key, value) && y == x + IntField(key, value)
  {
    hide Piece, IntField, IntItems;
    IntPiece(key, value);
    b, y := a + IntItems(key, value), x + IntField(key, value);
    Join(a, x, n, IntItems(key, value), IntField(key, value), 1);
  }

  lemma {:induction false} PairPiece(cs: seq<Custom>)
    requires Held(cs)
    ensures Piece(PairItems(cs), PairBytes(cs), |cs|)
  {
    hide Piece, TextBytes, Cut;
    if cs == [] {
      assert Piece([], [], 0) by { EmptyPiece(); }
    } else {
      var k, v := Cut(cs[0].key), Cut(cs[0].value);
      TextWire(k);
      TextWire(v);
      TwoPiece(Text(k), Text(v));
      PairPiece(cs[1..]);
      Join([Text(k), Text(v)], TextBytes(k) + TextBytes(v), 1, PairItems(cs[1..]), PairBytes(cs[1..]), |cs| - 1);
    }
  }

  lemma {:induction false} EmptyPiece()
    ensures Piece([], [], 0)
  {
  }

  lemma {:induction false} OpenMapWire(ts: seq<Item>, bytes: Octets, pairs: nat)
    requires Piece(ts, bytes, pairs) && pairs < TWO_TO_64 / 2
    ensures Sized(Map(ts, true)) && Wire(Map(ts, true)) == OpenHead(5, 0, true) + bytes + [BREAK]
  {
    hide WireAll;
    var t := Map(ts, true);
    assert Wire(t) == OpenHead(5, 0, true) + (WireAll(ts) + [BREAK]);
    assert OpenHead(5, 0, true) + (bytes + [BREAK]) == OpenHead(5, 0, true) + bytes + [BREAK];
  }

  lemma {:induction false} CustomPiece(cs: seq<Custom>)
    requires Held(cs) && |cs| <= MAX_SIZE / 2
    ensures Piece(CustomItems(cs), CustomBytes(cs), 1)
  {
    hide Wire, Sized, TextBytes, Ascii, PairItems, PairBytes;
    if cs == [] {
      EmptyPiece();
    } else {
      AsciiLength("custom");
      TextWire(Ascii("custom"));
      PairPiece(cs);
      OpenMapWire(PairItems(cs), PairBytes(cs), |cs|);
      TwoPiece(Text(Ascii("custom")), Map(PairItems(cs), true));
    }
  }

  /** Encoding is the bytes of the metadata's item. */
  lemma {:induction false} EncodingIsWire(m: Metadata)
    requires Valid(m)
    ensures Sized(MetadataItem(m)) && Encoding(m) == Wire(MetadataItem(m))
  {
    hide Piece, FieldItems, FieldBytes, NumberItems, NumberBytes, CustomItems, CustomBytes, Wire, Sized;
    FieldPiece(m);
    NumberPiece(m);
    CustomPiece(m.custom);
    Join(FieldItems(m), FieldBytes(m), 9, NumberItems(m), NumberBytes(m), 5);
    Join(FieldItems(m) + NumberItems(m), FieldBytes(m) + NumberBytes(m), 14, CustomItems(m.custom), CustomBytes(m.custom), 1);
    OpenMapWire(FieldItems(m) + NumberItems(m) + CustomItems(m.custom),
                FieldBytes(m) + NumberBytes(m) + CustomBytes(m.custom), 15);
  }

  // ---- the walk ---------------------------------------------------------------------------

  /** What writing n bytes leads to, whether or not all of them were counted: room
      stays exactly when they fit, and a shortfall is never zero. */
  predicate Grew(p: Place, q: Place, n: nat, cap: nat) {
    && (q.Room? <==> p.Room? && p.ptr + n <= cap)
    && (q.Room? ==> q.ptr == p.ptr + n)
    && (q.Short? ==> q.needed > 0)
  }

  predicate Owing(p: Place) {
    p.Short? ==> p.needed > 0
  }

  method EncodeTextField(map_: CborEncoder, key: string, value: CString) returns (ok: bool)
    requires map_.Valid() && Owing(map_.place) && |key| < 100 && |value| <= MAX_SIZE
    modifies map_`place, map_`remaining, map_.buf
    ensures map_.Valid() && Grew(old(map_.place), map_.place, |TextField(key, value)|, map_.buf.Length)
    ensures map_.place.Room? ==> map_.Written() == old(map_.Written()) + TextField(key, value)
  {
    hide Ascii, HeadBytes;
    AsciiLength(key);
    if value == [] {
      assert map_.place.Room? ==> map_.Written() + [] == map_.Written();
      return true;
    }
    ok := map_.String(3, Ascii(key));
    if !ok { return; }
    ok := map_.String(3, value);
  }

  method EncodeIntField(map_: CborEncoder, key: string, value: I64) returns (ok: bool)
    requires map_.Valid() && Owing(map_.place) && |key| < 100
    modifies map_`place, map_`remaining, map_.buf
    ensures map_.Valid() && Grew(old(map_.place), map_.place, |IntField(key, value)|, map_.buf.Length)
    ensures map_.place.Room? ==> map_.Written() == old(map_.Written()) + IntField(key, value)
  {
    hide Ascii, HeadBytes, Wire;
    AsciiLength(key);
    ok := map_.String(3, Ascii(key));
    if !ok { return; }
    IntWire(value);
    ok := map_.Head(if value >= 0 then 0 else 1, if value >= 0 then value else -1 - value);
  }

  lemma {:induction false} IntWire(i: I64)
    ensures Wire(IntItem(i)) == HeadBytes(if i >= 0 then 0 else 1, if i >= 0 then i else -1 - i)
  {
  }

  method EncodePlace(m: Metadata, map_: CborEncoder)
    requires Valid(m) && map_.Valid() && Owing(map_.place)
    modifies map_`place, map_`remaining, map_.buf
    ensures map_.Valid() && Grew(old(map_.place), map_.place, |PlaceBytes(m)|, map_.buf.Length)
    ensures map_.place.Room? ==> map_.Written() == old(map_.Written()) + PlaceBytes(m)
  {
    hide TextField;
    var _ := EncodeTextField(map_, "bucket", m.bucket);
    var _ := EncodeTextField(map_, "name", m.name);
    var _ := EncodeTextField(map_, "path", m.path);
    var _ := EncodeTextField(map_, "contentType", m.contentType);
    var _ := EncodeTextField(map_, "cacheControl", m.cacheControl);
  }

  method EncodeContent(m: Metadata, map_: CborEncoder)
    requires Valid(m) && map_.Valid() && Owing(map_.place)
    modifies map_`place, map_`remaining, map_.buf
    ensures map_.Valid() && Grew(old(map_.place), map_.place, |ContentBytes(m)|, map_.buf.Length)
    ensures map_.place.Room? ==> map_.Written() == old(map_.Written()) + ContentBytes(m)
  {
    hide TextField;
    var _ := EncodeTextField(map_, "contentDisposition", m.contentDisposition);
    var _ := EncodeTextField(map_, "contentEncoding", m.contentEncoding);
    var _ := EncodeTextField(map_, "contentLanguage", m.contentLanguage);
    var _ := EncodeTextField(map_, "md5Hash", m.md5Hash);
  }

  method EncodeNumbers(m: Metadata, map_: CborEncoder)
    requires map_.Valid() && Owing(map_.place)
    modifies map_`place, map_`remaining, map_.buf
    ensures map_.Valid() && Grew(old(map_.place), map_.place, |NumberBytes(m)|, map_.buf.Length)
    ensures map_.place.Room? ==> map_.Written() == old(map_.Written()) + NumberBytes(m)
  {
    hide IntField;
    var _ := EncodeIntField(map_, "sizeBytes", m.sizeBytes);
    var _ := EncodeIntField(map_, "creationTime", m.creationTime);
    var _ := EncodeIntField(map_, "updatedTime", m.updatedTime);
    var _ := EncodeIntField(map_, "generation", m.generation);
    var _ := EncodeIntField(map_, "metadataGeneration", m.metadataGeneration);
  }

  method EncodePairs(cs: seq<Custom>, inner: CborEncoder)
    requires Held(cs) && inner.Valid() && Owing(inner.place)
    modifies inner`place, inner`remaining, inner.buf
    ensures inner.Valid() && Grew(old(inner.place), inner.place, |PairBytes(cs)|, inner.buf.Length)
    ensures inner.place.Room? ==> inner.Written() == old(inner.Written()) + PairBytes(cs)
  {
    hide TextBytes, Cut;
    ghost var p0, done := inner.place, [];
    ghost var w0 := if p0.Room? then inner.Written() else [];
    assert cs[0..] == cs;
    assert w0 + [] == w0;
    for i := 0 to |cs|
      invariant inner.Valid() && Held(cs[i..])
      invariant done + PairBytes(cs[i..]) == PairBytes(cs)
      invariant Grew(p0, inner.place, |done|, inner.buf.Length)
      invariant inner.place.Room? ==> inner.Written() == w0 + done
    {
      assert cs[i..][0] == cs[i] && cs[i..][1..] == cs[i + 1..];
      ghost var k, v, rest := TextBytes(Cut(cs[i].key)), TextBytes(Cut(cs[i].value)), PairBytes(cs[i + 1..]);
      assert done + ((k + v) + rest) == done + k + v + rest;
      assert w0 + done + k + v == w0 + (done + k + v);
      EncodePair(cs[i], inner);
      done := done + k + v;
    }
    assert cs[|cs|..] == [] && done + [] == done;
  }

  method EncodePair(c: Custom, inner: CborEncoder)
    requires |c.key| <= MAX_SIZE && |c.value| <= MAX_SIZE && inner.Valid() && Owing(inner.place)
    modifies inner`place, inner`remaining, inner.buf
    ensures inner.Valid()
    ensures Grew(old(inner.place), inner.place, |TextBytes(Cut(c.key))| + |TextBytes(Cut(c.value))|, inner.buf.Length)
    ensures inner.place.Room? ==> inner.Written() == old(inner.Written()) + TextBytes(Cut(c.key)) + TextBytes(Cut(c.value))
  {
    hide HeadBytes, Cut;
    var _ := inner.String(3, Cut(c.key));
    var _ := inner.String(3, Cut(c.value));
  }

  method EncodeCustom(cs: seq<Custom>, map_: CborEncoder)
    requires Held(cs) && map_.Valid() && Owing(map_.place)
    modifies map_`place, map_`remaining, map_.buf
    ensures map_.Valid() && Grew(old(map_.place), map_.place, |CustomBytes(cs)|, map_.buf.Length)
    ensures map_.place.Room? ==> map_.Written() == old(map_.Written()) + CustomBytes(cs)
  {
    hide Ascii, HeadBytes, InnerBytes;
    if cs == [] {
      assert map_.place.Room? ==> map_.Written() + [] == map_.Written();
      return;
    }
    AsciiLength("custom");
    ghost var key, rest := TextBytes(Ascii("custom")), InnerBytes(cs);
    ghost var w0 := if map_.place.Room? then map_.Written() else [];
    assert w0 + key + rest == w0 + (key + rest);
    var _ := map_.String(3, Ascii("custom"));
    EncodeInner(cs, map_);
  }

  method EncodeInner(cs: seq<Custom>, map_: CborEncoder)
    requires Held(cs) && map_.Valid() && Owing(map_.place)
    modifies map_`place, map_`remaining, map_.buf
    ensures map_.Valid() && Grew(old(map_.place), map_.place, |InnerBytes(cs)|, map_.buf.Length)
    ensures map_.place.Room? ==> map_.Written() == old(map_.Written()) + InnerBytes(cs)
  {
    hide PairBytes, OpenHead;
    ghost var head, pairs := OpenHead(5, 0, true), PairBytes(cs);
    ghost var w0 := if map_.place.Room? then map_.Written() else [];
    assert w0 + head + pairs + [BREAK] == w0 + (head + pairs + [BREAK]);
    var _, inner := map_.Create(true, 0, true);
    EncodePairs(cs, inner);
    var _ := map_.Close(inner);
  }

  /** One pass over the metadata, whatever fits. */
  method EncodeMetadata(m: Metadata, out: CborEncoder)
    requires Valid(m) && out.Valid() && Owing(out.place)
    modifies out`place, out`remaining, out.buf
    ensures out.Valid() && Grew(old(out.place), out.place, |Encoding(m)|, out.buf.Length)
    ensures out.place.Room? ==> out.Written() == old(out.Written()) + Encoding(m)
  {
    hide PlaceBytes, ContentBytes, NumberBytes, CustomBytes, OpenHead;
    ghost var w0 := if out.place.Room? then out.Written() else [];
    ghost var h, p, f, n, c := OpenHead(5, 0, true), PlaceBytes(m), ContentBytes(m), NumberBytes(m), CustomBytes(m.custom);
    assert w0 + h + p + f + n + c + [BREAK] == w0 + (h + (p + f + n + c) + [BREAK]);
    var _, map_ := out.Create(true, 0, true);
    EncodePlace(m, map_);
    EncodeContent(m, map_);
    EncodeNumbers(m, map_);
    EncodeCustom(m.custom, map_);
    var _ := out.Close(map_);
  }

  /** The smallest last capacity: 512, seven times increased by at least one and
      doubled. */
  const SURE: nat := 65790

  /** fdb::SerializeMetadata: true only with the complete encoding, although a
      short pass skips the values behind keys that did not fit; and surely true
      for encodings up to SURE bytes. */
  method SerializeMetadata(m: Metadata) returns (ok: bool, out: Octets)
    requires Valid(m)
    ensures out == if ok then Encoding(m) else []
    ensures |Encoding(m)| <= SURE ==> ok
  {
    hide Encoding;
    var capacity: nat, attempt := 512, 0;
    ghost var least := [512, 1026, 2054, 4110, 8222, 16446, 32894, 65790, 131582];
    while attempt < 8
      invariant 0 <= attempt <= 8 && capacity >= least[attempt]
      invariant attempt == 8 ==> |Encoding(m)| > SURE
    {
      var buffer := new Byte[capacity](_ => 0);
      var enc := new CborEncoder(buffer);
      EncodeMetadata(m, enc);
      if enc.place.Room? {
        return true, buffer[..enc.place.ptr];
      }
      var extra := enc.place.needed;
      capacity, attempt := (capacity + extra) * 2, attempt + 1;
    }
    return false, [];
  }
}
