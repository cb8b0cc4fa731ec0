/**
 The client's reading of storage metadata: under each name stands its own field.
 */
module StorageReader {
  import opened Bytes
  import opened Cbor
  import opened StorageMetadata

  /** What a decoded map holds under a key, keys and values alternating. */
  function Lookup(ts: seq<Item>, key: Octets): Option<Item>
    requires |ts| % 2 == 0
  {
    if ts == [] then None else if ts[0] == Text(key) then Some(ts[1]) else Lookup(ts[2..], key)
  }

  const NAMES: seq<string> := [
    "bucket", "name", "path", "contentType", "cacheControl", "contentDisposition", "contentEncoding",
    "contentLanguage", "md5Hash", "sizeBytes", "creationTime", "updatedTime", "generation", "metadataGeneration",
    "custom"]

  function IfText(s: CString): Option<Item> {
    if s == [] then None else Some(Text(s))
  }

  function Values(m: Metadata): (vals: seq<Option<Item>>)
    ensures |vals| == 15
  {
    [IfText(m.bucket), IfText(m.name), IfText(m.path), IfText(m.contentType), IfText(m.cacheControl),
     IfText(m.contentDisposition), IfText(m.contentEncoding), IfText(m.contentLanguage), IfText(m.md5Hash),
     Some(IntItem(m.sizeBytes)), Some(IntItem(m.creationTime)), Some(IntItem(m.updatedTime)),
     Some(IntItem(m.generation)), Some(IntItem(m.metadataGeneration)),
     CustomValue(m)]
  }

  function CustomValue(m: Metadata): Option<Item> {
    if m.custom == [] then None else Some(Map(PairItems(m.custom), true))
  }

  function One(name: string, val: Option<Item>): (ts: seq<Item>)
    ensures |ts| % 2 == 0
  {
    match val case None => [] case Some(x) => [Text(Ascii(name)), x]
  }

  function Listed(names: seq<string>, vals: seq<Option<Item>>): (ts: seq<Item>)
    requires |names| == |vals|
    ensures |ts| % 2 == 0
  {
    if names == [] then [] else One(names[0], vals[0]) + Listed(names[1..], vals[1..])
  }

  predicate Apart(names: seq<string>) {
    forall i, j :: 0 <= i < j < |names| ==> Ascii(names[i]) != Ascii(names[j])
  }

  /** The names are told apart by their lengths and one letter. */
  lemma {:induction false} NamesApart()
    ensures Apart(NAMES)
  {
    assert |Ascii("bucket")| == 6 && Ascii("bucket")[0] == 'b' as int;
    assert |Ascii("custom")| == 6 && Ascii("custom")[0] == 'c' as int;
    assert |Ascii("name")| == 4 && Ascii("name")[0] == 'n' as int;
    assert |Ascii("path")| == 4 && Ascii("path")[0] == 'p' as int;
    assert |Ascii("contentType")| == 11 && Ascii("contentType")[0] == 'c' as int;
    assert |Ascii("updatedTime")| == 11 && Ascii("updatedTime")[0] == 'u' as int;
    assert |Ascii("cacheControl")| == 12 && Ascii("cacheControl")[1] == 'a' as int;
    assert |Ascii("creationTime")| == 12 && Ascii("creationTime")[1] == 'r' as int;
    assert |Ascii("contentDisposition")| == 18 && Ascii("contentDisposition")[0] == 'c' as int;
    assert |Ascii("metadataGeneration")| == 18 && Ascii("metadataGeneration")[0] == 'm' as int;
    assert |Ascii("contentEncoding")| == 15 && Ascii("contentEncoding")[7] == 'E' as int;
    assert |Ascii("contentLanguage")| == 15 && Ascii("contentLanguage")[7] == 'L' as int;
    assert |Ascii("md5Hash")| == 7 && |Ascii("sizeBytes")| == 9 && |Ascii("generation")| == 10;
    hide Ascii;
  }

  lemma {:induction false} LookupStep(name: string, val: Option<Item>, rest: seq<Item>, key: Octets)
    requires |rest| % 2 == 0
    ensures Lookup(One(name, val) + rest, key)
         == if val.Some? && key == Ascii(name) then val else Lookup(rest, key)
  {
    hide Ascii;
    match val {
      case None => assert One(name, val) + rest == rest;
      case Some(x) => assert (One(name, val) + rest)[2..] == rest;
    }
  }

  lemma {:induction false} NotListed(names: seq<string>, vals: seq<Option<Item>>, key: Octets)
    requires |names| == |vals| && forall i :: 0 <= i < |names| ==> Ascii(names[i]) != key
    ensures Lookup(Listed(names, vals), key) == None
  {
    hide Ascii, Lookup, One;
    if names == [] {
      assert Lookup([], key) == None by { NothingThere(key); }
    } else {
      LookupStep(names[0], vals[0], Listed(names[1..], vals[1..]), key);
      NotListed(names[1..], vals[1..], key);
    }
  }

  lemma {:induction false} NothingThere(key: Octets)
    ensures Lookup([], key) == None
  {
  }

  lemma {:induction false} ListedAt(names: seq<string>, vals: seq<Option<Item>>, k: nat)
    requires |names| == |vals| && Apart(names) && k < |names|
    ensures Lookup(Listed(names, vals), Ascii(names[k])) == vals[k]
    decreases k
  {
    hide Ascii, Lookup, One;
    var n, v := names[1..], vals[1..];
    LookupStep(names[0], vals[0], Listed(n, v), Ascii(names[k]));
    if k == 0 {
      NotListed(n, v, Ascii(names[0]));
    } else {
      assert n[k - 1] == names[k] && v[k - 1] == vals[k];
      ListedAt(n, v, k - 1);
    }
  }

  lemma {:induction false} ListedConcat(a: seq<string>, va: seq<Option<Item>>, b: seq<string>, vb: seq<Option<Item>>)
    requires |a| == |va| && |b| == |vb|
    ensures Listed(a + b, va + vb) == Listed(a, va) + Listed(b, vb)
  {
    hide Ascii, One;
    if a == [] {
      assert a + b == b && va + vb == vb;
    } else {
      assert (a + b)[1..] == a[1..] + b && (va + vb)[1..] == va[1..] + vb;
      ListedConcat(a[1..], va[1..], b, vb);
    }
  }

  lemma {:induction false} Associate(a: seq<Item>, b: seq<Item>, c: seq<Item>, d: seq<Item>, e: seq<Item>)
    ensures a + (b + c + d + e) == a + b + c + d + e
    ensures b + (c + (d + e)) == b + c + d + e
  {
  }

  lemma {:induction false} FourListed(a: seq<string>, v: seq<Option<Item>>)
    requires |a| == |v| == 4
    ensures Listed(a, v) == One(a[0], v[0]) + One(a[1], v[1]) + One(a[2], v[2]) + One(a[3], v[3])
  {
    hide One;
    assert a[1..][1..] == a[2..] && a[2..][1..] == a[3..] && a[3..][1..] == [];
    assert v[1..][1..] == v[2..] && v[2..][1..] == v[3..] && v[3..][1..] == [];
    assert Listed(a[3..], v[3..]) == One(a[3], v[3]) + [];
    assert Listed(a[2..], v[2..]) == One(a[2], v[2]) + One(a[3], v[3]);
    assert Listed(a[1..], v[1..]) == One(a[1], v[1]) + (One(a[2], v[2]) + One(a[3], v[3]));
    assert Listed(a, v) == One(a[0], v[0]) + Listed(a[1..], v[1..]);
    hide Listed;
    Associate([], One(a[0], v[0]), One(a[1], v[1]), One(a[2], v[2]), One(a[3], v[3]));
  }

  lemma {:induction false} FiveListed(a: seq<string>, v: seq<Option<Item>>)
    requires |a| == |v| == 5
    ensures Listed(a, v) == One(a[0], v[0]) + One(a[1], v[1]) + One(a[2], v[2]) + One(a[3], v[3]) + One(a[4], v[4])
  {
    hide One;
    var b, w := a[1..], v[1..];
    FourListed(b, w);
    assert b[0] == a[1] && b[1] == a[2] && b[2] == a[3] && b[3] == a[4];
    assert w[0] == v[1] && w[1] == v[2] && w[2] == v[3] && w[3] == v[4];
    assert Listed(a, v) == One(a[0], v[0]) + Listed(b, w);
    hide Listed;
    Associate(One(a[0], v[0]), One(a[1], v[1]), One(a[2], v[2]), One(a[3], v[3]), One(a[4], v[4]));
  }

  lemma {:induction false} TextOne(name: string, s: CString)
    ensures TextItems(name, s) == One(name, IfText(s))
  {
  }

  function PlaceValues(m: Metadata): seq<Option<Item>> {
    [IfText(m.bucket), IfText(m.name), IfText(m.path), IfText(m.contentType), IfText(m.cacheControl)]
  }

  function ContentValues(m: Metadata): seq<Option<Item>> {
    [IfText(m.contentDisposition), IfText(m.contentEncoding), IfText(m.contentLanguage), IfText(m.md5Hash)]
  }

  function NumberValues(m: Metadata): seq<Option<Item>> {
    [Some(IntItem(m.sizeBytes)), Some(IntItem(m.creationTime)), Some(IntItem(m.updatedTime)),
     Some(IntItem(m.generation)), Some(IntItem(m.metadataGeneration))]
  }

  const PLACE: seq<string> := ["bucket", "name", "path", "contentType", "cacheControl"]
  const CONTENT: seq<string> := ["contentDisposition", "contentEncoding", "contentLanguage", "md5Hash"]
  const NUMBERS: seq<string> := ["sizeBytes", "creationTime", "updatedTime", "generation", "metadataGeneration"]

  lemma {:induction false} PlaceListed(m: Metadata)
    ensures PlaceItems(m) == Listed(PLACE, PlaceValues(m))
  {
    hide Ascii, Listed, One, IfText, TextItems;
    FiveListed(PLACE, PlaceValues(m));
    TextOne("bucket", m.bucket);
    TextOne("name", m.name);
    TextOne("path", m.path);
    TextOne("contentType", m.contentType);
    TextOne("cacheControl", m.cacheControl);
  }

  lemma {:induction false} ContentListed(m: Metadata)
    ensures ContentItems(m) == Listed(CONTENT, ContentValues(m))
  {
    hide Ascii, Listed, One, IfText, TextItems;
    FourListed(CONTENT, ContentValues(m));
    TextOne("contentDisposition", m.contentDisposition);
    TextOne("contentEncoding", m.contentEncoding);
    TextOne("contentLanguage", m.contentLanguage);
    TextOne("md5Hash", m.md5Hash);
  }

  lemma {:induction false} NumbersListed(m: Metadata)
    ensures NumberItems(m) == Listed(NUMBERS, NumberValues(m))
  {
    hide Ascii, Listed, IntItem;
    FiveListed(NUMBERS, NumberValues(m));
  }

  lemma {:induction false} CustomListed(m: Metadata)
    ensures CustomItems(m.custom) == Listed(["custom"], [CustomValue(m)])
  {
    hide Ascii, PairItems;
    var a, v := ["custom"], [CustomValue(m)];
    assert a[1..] == [] && v[1..] == [];
    assert Listed(a, v) == One(a[0], v[0]) + [];
  }

  lemma {:induction false} Grouped(m: Metadata)
    ensures NAMES == PLACE + CONTENT + NUMBERS + ["custom"]
    ensures Values(m) == PlaceValues(m) + ContentValues(m) + NumberValues(m) + [CustomValue(m)]
  {
    hide IfText, IntItem, CustomValue;
  }

  lemma {:induction false} AllListed(m: Metadata)
    ensures MetadataItem(m) == Map(Listed(NAMES, Values(m)), true)
  {
    PlaceListed(m);
    ContentListed(m);
    NumbersListed(m);
    CustomListed(m);
    Grouped(m);
    hide Ascii, One, Values, Listed, PlaceItems, ContentItems, NumberItems, CustomItems;
    hide PlaceValues, ContentValues, NumberValues;
    var p, c, n, k := PlaceValues(m), ContentValues(m), NumberValues(m), [CustomValue(m)];
    assert |p| == 5 && |c| == 4 && |n| == 5 by { GroupSizes(m); }
    ListedConcat(PLACE, p, CONTENT, c);
    ListedConcat(PLACE + CONTENT, p + c, NUMBERS, n);
    ListedConcat(PLACE + CONTENT + NUMBERS, p + c + n, ["custom"], k);
  }

  lemma {:induction false} GroupSizes(m: Metadata)
    ensures |PlaceValues(m)| == 5 && |ContentValues(m)| == 4 && |NumberValues(m)| == 5
  {
  }

  lemma {:induction false} FieldAt(m: Metadata, k: nat, name: string)
    requires k < 15 && NAMES[k] == name
    ensures |MetadataItem(m).items| % 2 == 0 && Lookup(MetadataItem(m).items, Ascii(name)) == Values(m)[k]
  {
    hide Ascii, One, Values, Listed, MetadataItem, Apart, Lookup;
    AllListed(m);
    NamesApart();
    ListedAt(NAMES, Values(m), k);
  }

  /** In the metadata's item the client finds under each text field's name that
      field, unless it is empty. */
  lemma {:induction false} PlaceFields(m: Metadata)
    ensures |MetadataItem(m).items| % 2 == 0
    ensures var ts := MetadataItem(m).items;
            && Lookup(ts, Ascii("bucket")) == (if m.bucket == [] then None else Some(Text(m.bucket)))
            && Lookup(ts, Ascii("name")) == (if m.name == [] then None else Some(Text(m.name)))
            && Lookup(ts, Ascii("path")) == (if m.path == [] then None else Some(Text(m.path)))
            && Lookup(ts, Ascii("contentType")) == (if m.contentType == [] then None else Some(Text(m.contentType)))
            && Lookup(ts, Ascii("cacheControl")) == (if m.cacheControl == [] then None else Some(Text(m.cacheControl)))
  {
    hide Ascii, MetadataItem, Lookup;
    FieldAt(m, 0, "bucket");
    FieldAt(m, 1, "name");
    FieldAt(m, 2, "path");
    FieldAt(m, 3, "contentType");
    FieldAt(m, 4, "cacheControl");
  }

  lemma {:induction false} ContentFields(m: Metadata)
    ensures |MetadataItem(m).items| % 2 == 0
    ensures var ts := MetadataItem(m).items;
            && Lookup(ts, Ascii("contentDisposition"))
               == (if m.contentDisposition == [] then None else Some(Text(m.contentDisposition)))
            && Lookup(ts, Ascii("contentEncoding"))
               == (if m.contentEncoding == [] then None else Some(Text(m.contentEncoding)))
            && Lookup(ts, Ascii("contentLanguage"))
               == (if m.contentLanguage == [] then None else Some(Text(m.contentLanguage)))
            && Lookup(ts, Ascii("md5Hash")) == (if m.md5Hash == [] then None else Some(Text(m.md5Hash)))
  {
    hide Ascii, MetadataItem, Lookup;
    FieldAt(m, 5, "contentDisposition");
    FieldAt(m, 6, "contentEncoding");
    FieldAt(m, 7, "contentLanguage");
    FieldAt(m, 8, "md5Hash");
  }

  /** Under each number's name that number, and under custom the caller's own map,
      unless there is none. */
  lemma {:induction false} OtherFields(m: Metadata)
    ensures |MetadataItem(m).items| % 2 == 0
    ensures var ts := MetadataItem(m).items;
            && Lookup(ts, Ascii("sizeBytes")) == Some(IntItem(m.sizeBytes))
            && Lookup(ts, Ascii("creationTime")) == Some(IntItem(m.creationTime))
            && Lookup(ts, Ascii("updatedTime")) == Some(IntItem(m.updatedTime))
            && Lookup(ts, Ascii("generation")) == Some(IntItem(m.generation))
            && Lookup(ts, Ascii("metadataGeneration")) == Some(IntItem(m.metadataGeneration))
            && Lookup(ts, Ascii("custom")) == (if m.custom == [] then None else Some(Map(PairItems(m.custom), true)))
  {
    hide Ascii, MetadataItem, Lookup;
    FieldAt(m, 9, "sizeBytes");
    FieldAt(m, 10, "creationTime");
    FieldAt(m, 11, "updatedTime");
    FieldAt(m, 12, "generation");
    FieldAt(m, 13, "metadataGeneration");
    FieldAt(m, 14, "custom");
  }

  /** In the caller's map each key finds its own value, both up to their first NUL. */
  lemma {:induction false} CustomFields(cs: seq<Custom>, i: nat)
    requires i < |cs| && forall j :: 0 <= j < i ==> Cut(cs[j].key) != Cut(cs[i].key)
    ensures Lookup(PairItems(cs), Cut(cs[i].key)) == Some(Text(Cut(cs[i].value)))
  {
    hide Cut;
    var us := cs[1..];
    assert PairItems(cs)[2..] == PairItems(us);
    if i > 0 {
      assert us[i - 1] == cs[i];
      forall j | 0 <= j < i - 1 ensures Cut(us[j].key) != Cut(us[i - 1].key) { assert us[j] == cs[j + 1]; }
      CustomFields(us, i - 1);
    }
  }
}
