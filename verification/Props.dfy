/** Property maps and their canonical encoding (src/store/props.go). */
module Props {
  import opened Base

  datatype PropertyMap = PropertyMap(kind: Bytes, props: map<Bytes, Bytes>) {
    /** Looking up an absent key in a Go map of strings gives the empty string. */
    function Get(key: Bytes): Bytes {
      if key in props then props[key] else []
    }
  }

  // ---- sorted keys -------------------------------------------------------------------------

  predicate StrictlySorted(ks: seq<Bytes>) {
    forall i, j :: 0 <= i < j < |ks| ==> Less(ks[i], ks[j])
  }

  ghost predicate SameElements(ks: seq<Bytes>, s: set<Bytes>) {
    forall k :: k in ks <==> k in s
  }

  function InsertKey(ks: seq<Bytes>, k: Bytes): (r: seq<Bytes>)
    requires StrictlySorted(ks)
    ensures StrictlySorted(r) && forall x :: x in r <==> x in ks || x == k
    ensures |r| <= |ks| + 1
  {
    if ks == [] then [k]
    else if Less(k, ks[0]) then
      assert forall j :: 0 <= j < |ks| ==> Less(k, ks[j]) by {
        forall j | 0 < j < |ks| { LessTransitive(k, ks[0], ks[j]); }
      }
      [k] + ks
    else if k == ks[0] then ks
    else
      assert Less(ks[0], k) by { LessTotal(k, ks[0]); }
      var rest := InsertKey(ks[1..], k);
      assert forall x :: x in ks <==> x == ks[0] || x in ks[1..];
      assert forall j :: 0 <= j < |rest| ==> rest[j] in rest;
      [ks[0]] + rest
  }

  /** The elements of a set in increasing order. */
  ghost function SortedKeys(s: set<Bytes>): (ks: seq<Bytes>)
    ensures StrictlySorted(ks) && SameElements(ks, s) && |ks| <= |s|
  {
    if s == {} then []
    else
      var k :| k in s;
      InsertKey(SortedKeys(s - {k}), k)
  }

  lemma {:induction false} SortedUnique(a: seq<Bytes>, b: seq<Bytes>)
    requires StrictlySorted(a) && StrictlySorted(b) && forall k :: k in a <==> k in b
    ensures a == b
  {
    if a == [] {
      HasElement(b);
    } else {
      assert a[0] in a && a[0] in b;
      assert b[0] in b && b[0] in a;
      var i :| 0 <= i < |a| && a[i] == b[0];
      var j :| 0 <= j < |b| && b[j] == a[0];
      if a[0] != b[0] {
        LessTransitive(a[0], b[0], a[0]);
        LessIrreflexive(a[0]);
        assert false;
      }
      HeadOnce(a);
      HeadOnce(b);
      SortedUnique(a[1..], b[1..]);
    }
  }

  lemma HasElement(a: seq<Bytes>)
    ensures a == [] || exists k :: k in a
  {
    if a != [] {
      assert a[0] in a;
    }
  }

  lemma HeadOnce(a: seq<Bytes>)
    requires StrictlySorted(a) && a != []
    ensures forall k :: k in a[1..] <==> k in a && k != a[0]
  {
    LessIrreflexive(a[0]);
    assert a == [a[0]] + a[1..];
  }

  /** `sort.Strings`. */
  method SortStrings(keys: seq<Bytes>) returns (sorted: seq<Bytes>)
    ensures StrictlySorted(sorted) && forall k :: k in sorted <==> k in keys
  {
    sorted := [];
    for i := 0 to |keys|
      invariant StrictlySorted(sorted) && forall k :: k in sorted <==> k in keys[..i]
    {
      sorted := InsertKey(sorted, keys[i]);
      assert keys[..i + 1] == keys[..i] + [keys[i]];
    }
    assert keys[..|keys|] == keys;
  }

  // ---- encoding ----------------------------------------------------------------------------

  function Write8(t: Bytes): Bytes {
    [Chr(|t|)] + t
  }

  function Write16(t: Bytes): Bytes {
    BE16(|t|) + t
  }

  function Item(k: Bytes, v: Bytes): Bytes {
    Write8(k) + Write16(v)
  }

  datatype KeyValue = KeyValue(key: Bytes, value: Bytes)

  function Items(items: seq<KeyValue>): Bytes {
    if items == [] then [] else Item(items[0].key, items[0].value) + Items(items[1..])
  }

  function Pairs(ks: seq<Bytes>, m: map<Bytes, Bytes>): (r: seq<KeyValue>)
    requires forall k :: k in ks ==> k in m
    ensures |r| == |ks| && forall i :: 0 <= i < |r| ==> r[i] == KeyValue(ks[i], m[ks[i]])
  {
    seq(|ks|, i requires 0 <= i < |ks| => KeyValue(ks[i], m[ks[i]]))
  }

  /** The limits of the length fields; `Encode` panics beyond them. */
  predicate ItemFits(kv: KeyValue) {
    |kv.key| <= 255 && |kv.value| <= 0xFFFF
  }

  ghost predicate Encodable(p: PropertyMap) {
    && |p.kind| <= 255
    && forall k :: k in p.props ==> ItemFits(KeyValue(k, p.props[k]))
  }

  /** The canonical bytes of a property map: its items in increasing order of key. */
  ghost function Encoded(p: PropertyMap): Bytes {
    Write8(p.kind) + Items(Pairs(SortedKeys(p.props.Keys), p.props))
  }

  lemma {:induction false} ItemsLength(items: seq<KeyValue>)
    requires forall i :: 0 <= i < |items| ==> ItemFits(items[i])
    ensures |Items(items)| <= |items| * 0x1_0101
  {
    if items != [] {
      ItemsLength(items[1..]);
    }
  }

  lemma {:induction false} ItemsAppend(a: seq<KeyValue>, b: seq<KeyValue>)
    ensures Items(a + b) == Items(a) + Items(b)
  {
    if a == [] {
      assert a + b == b;
    } else {
      ItemsAppend(a[1..], b);
      assert (a + b)[1..] == a[1..] + b;
      Assoc(Item(a[0].key, a[0].value), Items(a[1..]), Items(b));
    }
  }

  lemma ItemsSnoc(items: seq<KeyValue>, i: nat)
    requires i < |items|
    ensures Items(items[..i + 1]) == Items(items[..i]) + Item(items[i].key, items[i].value)
  {
    ItemsAppend(items[..i], [items[i]]);
    assert items[..i + 1] == items[..i] + [items[i]];
    assert Items([items[i]]) == Item(items[i].key, items[i].value) + [];
  }

  /** `Encode`. The Go map yields its keys in an arbitrary order, which does not show in the result. */
  method Encode(p: PropertyMap) returns (buf: Bytes)
    requires Encodable(p)
    ensures buf == Encoded(p)
  {
    buf := Write8(p.kind);
    var keys: seq<Bytes> := [];
    var rest := p.props.Keys;
    while rest != {}
      invariant rest <= p.props.Keys
      invariant forall k :: k in keys <==> k in p.props.Keys && k !in rest
      decreases |rest|
    {
      var k :| k in rest;
      keys := keys + [k];
      rest := rest - {k};
    }
    keys := SortStrings(keys);
    SortedUnique(keys, SortedKeys(p.props.Keys));
    ghost var pairs := Pairs(keys, p.props);
    for i := 0 to |keys|
      invariant buf == Write8(p.kind) + Items(pairs[..i])
    {
      ItemsSnoc(pairs, i);
      Assoc(Write8(p.kind), Items(pairs[..i]), Item(keys[i], p.props[keys[i]]));
      Assoc(buf, Write8(keys[i]), Write16(p.props[keys[i]]));
      buf := buf + Write8(keys[i]);
      buf := buf + Write16(p.props[keys[i]]);
    }
    assert pairs[..|keys|] == pairs;
  }

  // ---- decoding ----------------------------------------------------------------------------

  datatype Piece = Piece(text: Bytes, rest: Bytes)

  function Read(b: Bytes, size: nat): Option<Piece> {
    if |b| < size then None else Some(Piece(b[..size], b[size..]))
  }

  function Read8(b: Bytes): Option<Piece> {
    if b == [] then None else Read(b[1..], b[0] as int)
  }

  function Read16(b: Bytes): Option<Piece> {
    if |b| < 2 then None else Read(b[2..], UnBE16(b[0], b[1]))
  }

  function ReadItems(b: Bytes): Option<seq<KeyValue>>
    decreases |b|
  {
    if b == [] then Some([])
    else match Read8(b)
      case None => None
      case Some(k) => match Read16(k.rest)
        case None => None
        case Some(v) => match ReadItems(v.rest)
          case None => None
          case Some(items) => Some([KeyValue(k.text, v.text)] + items)
  }

  /** The map a list of items fills; of equal keys the last one stays. */
  function Fill(items: seq<KeyValue>): map<Bytes, Bytes> {
    if items == [] then map[]
    else Fill(items[..|items| - 1])[items[|items| - 1].key := items[|items| - 1].value]
  }

  /** `decodeProp`. */
  function Decoded(b: Bytes): Option<PropertyMap> {
    match Read8(b)
    case None => None
    case Some(kind) => match ReadItems(kind.rest)
      case None => None
      case Some(items) => Some(PropertyMap(kind.text, Fill(items)))
  }

  ghost function Prepend(done: seq<KeyValue>, r: Option<seq<KeyValue>>): Option<seq<KeyValue>> {
    match r
    case Some(items) => Some(done + items)
    case None => None
  }

  lemma PrependNone(r: Option<seq<KeyValue>>)
    ensures Prepend([], r) == r
  {
    assert r.Some? ==> [] + r.value == r.value;
  }

  lemma PrependMore(done: seq<KeyValue>, kv: KeyValue, r: Option<seq<KeyValue>>)
    ensures Prepend(done, Prepend([kv], r)) == Prepend(done + [kv], r)
  {
    assert r.Some? ==> done + ([kv] + r.value) == done + [kv] + r.value;
  }

  method DecodeProp(data: Bytes) returns (r: Option<PropertyMap>)
    ensures r == Decoded(data)
  {
    var kind := Read8(data);
    if kind.None? {
      return None;
    }
    var buf := kind.value.rest;
    var props: map<Bytes, Bytes> := map[];
    ghost var done: seq<KeyValue> := [];
    PrependNone(ReadItems(buf));
    while buf != []
      invariant props == Fill(done)
      invariant ReadItems(kind.value.rest) == Prepend(done, ReadItems(buf))
      decreases |buf|
    {
      var k := Read8(buf);
      if k.None? {
        return None;
      }
      var v := Read16(k.value.rest);
      if v.None? {
        return None;
      }
      props := props[k.value.text := v.value.text];
      ghost var kv := KeyValue(k.value.text, v.value.text);
      PrependMore(done, kv, ReadItems(v.value.rest));
      assert (done + [kv])[..|done|] == done;
      done := done + [kv];
      buf := v.value.rest;
    }
    assert done + [] == done;
    return Some(PropertyMap(kind.value.text, props));
  }

  // ---- the encoding is canonical -----------------------------------------------------------

  lemma Read8OfWrite(t: Bytes, rest: Bytes)
    requires |t| <= 255
    ensures Read8(Write8(t) + rest) == Some(Piece(t, rest))
  {
    var b := Write8(t) + rest;
    assert b[1..] == t + rest;
  }

  lemma Read16OfWrite(t: Bytes, rest: Bytes)
    requires |t| <= 0xFFFF
    ensures Read16(Write16(t) + rest) == Some(Piece(t, rest))
  {
    var b := Write16(t) + rest;
    BE16RoundTrip(|t|);
    assert b[2..] == t + rest;
  }

  lemma {:induction false} ReadItemsRoundTrip(items: seq<KeyValue>)
    requires forall i :: 0 <= i < |items| ==> ItemFits(items[i])
    ensures ReadItems(Items(items)) == Some(items)
  {
    if items != [] {
      var kv, rest := items[0], Items(items[1..]);
      ReadItemsRoundTrip(items[1..]);
      Assoc(Write8(kv.key), Write16(kv.value), rest);
      Read8OfWrite(kv.key, Write16(kv.value) + rest);
      Read16OfWrite(kv.value, rest);
      assert [kv] + items[1..] == items;
    }
  }

  predicate KeysSorted(items: seq<KeyValue>) {
    forall i, j :: 0 <= i < j < |items| ==> Less(items[i].key, items[j].key)
  }

  function Keys(items: seq<KeyValue>): (ks: seq<Bytes>)
    ensures |ks| == |items| && forall i :: 0 <= i < |items| ==> ks[i] == items[i].key
  {
    seq(|items|, i requires 0 <= i < |items| => items[i].key)
  }

  lemma {:induction false} FillSorted(items: seq<KeyValue>)
    requires KeysSorted(items)
    ensures forall k :: k in Fill(items) <==> k in Keys(items)
    ensures forall i :: 0 <= i < |items| ==> items[i].key in Keys(items) && Fill(items)[items[i].key] == items[i].value
  {
    if items != [] {
      var n := |items| - 1;
      var prior := items[..n];
      FillSorted(prior);
      assert Keys(items) == Keys(prior) + [items[n].key];
      LessIrreflexive(items[n].key);
      forall i | 0 <= i < |items|
        ensures items[i].key in Keys(items) && Fill(items)[items[i].key] == items[i].value
      {
        assert Keys(items)[i] == items[i].key;
        if i < n {
          assert prior[i] == items[i] && Less(items[i].key, items[n].key);
        }
      }
    }
  }

  lemma SortedItemsCanonical(items: seq<KeyValue>)
    requires KeysSorted(items)
    ensures Pairs(SortedKeys(Fill(items).Keys), Fill(items)) == items
  {
    FillSorted(items);
    SortedUnique(Keys(items), SortedKeys(Fill(items).Keys));
  }

  lemma FillPairs(ks: seq<Bytes>, m: map<Bytes, Bytes>)
    requires StrictlySorted(ks) && SameElements(ks, m.Keys)
    ensures KeysSorted(Pairs(ks, m)) && Fill(Pairs(ks, m)) == m
  {
    var items := Pairs(ks, m);
    FillSorted(items);
    assert Keys(items) == ks;
    forall k | k in m ensures Fill(items)[k] == m[k] {
      var i :| 0 <= i < |ks| && ks[i] == k;
      assert items[i].key == k;
    }
  }

  lemma PairsSorted(m: map<Bytes, Bytes>)
    ensures KeysSorted(Pairs(SortedKeys(m.Keys), m)) && Fill(Pairs(SortedKeys(m.Keys), m)) == m
  {
    FillPairs(SortedKeys(m.Keys), m);
  }

  /** The encoding of a map of n items is shorter than any 32-bit limit for n up to 65000. */
  lemma EncodedLength(p: PropertyMap)
    requires Encodable(p)
    ensures |Encoded(p)| <= 256 + |p.props| * 0x1_0101
  {
    PairsFit(p);
    ItemsLength(Pairs(SortedKeys(p.props.Keys), p.props));
  }

  /** Decoding an encoded map gives the map back. */
  lemma DecodeEncode(p: PropertyMap)
    requires Encodable(p)
    ensures Decoded(Encoded(p)) == Some(p)
  {
    var items := Pairs(SortedKeys(p.props.Keys), p.props);
    Read8OfWrite(p.kind, Items(items));
    PairsFit(p);
    ReadItemsRoundTrip(items);
    PairsSorted(p.props);
  }

  lemma EncodeInjective(p: PropertyMap, q: PropertyMap)
    requires Encodable(p) && Encodable(q) && Encoded(p) == Encoded(q)
    ensures p == q
  {
    DecodeEncode(p);
    DecodeEncode(q);
  }

  lemma WriteOfRead8(b: Bytes)
    requires Read8(b).Some?
    ensures var p := Read8(b).value; b == Write8(p.text) + p.rest && |p.text| <= 255
  {
    hide Less;
    var p := Read8(b).value;
    assert b[1..] == p.text + p.rest;
    assert b == [b[0]] + (p.text + p.rest);
    Assoc([b[0]], p.text, p.rest);
    assert Write8(p.text) == [b[0]] + p.text;
  }

  lemma WriteOfRead16(b: Bytes)
    requires Read16(b).Some?
    ensures var p := Read16(b).value; b == Write16(p.text) + p.rest && |p.text| <= 0xFFFF
  {
    var p := Read16(b).value;
    BE16OfUn(b[0], b[1]);
    assert b[2..] == p.text + p.rest;
    assert b == [b[0], b[1]] + b[2..];
    assert [b[0], b[1]] + p.text + p.rest == [b[0], b[1]] + (p.text + p.rest);
  }

  lemma {:induction false} ItemsOfRead(b: Bytes)
    requires ReadItems(b).Some?
    ensures Items(ReadItems(b).value) == b
    ensures forall i :: 0 <= i < |ReadItems(b).value| ==> ItemFits(ReadItems(b).value[i])
    decreases |b|
  {
    hide Write8, Write16;
    if b != [] {
      var k := Read8(b).value;
      var v := Read16(k.rest).value;
      ItemsOfRead(v.rest);
      var tail := ReadItems(v.rest).value;
      WriteOfRead8(b);
      WriteOfRead16(k.rest);
      Assoc(Write8(k.text), Write16(v.text), v.rest);
      assert ([KeyValue(k.text, v.text)] + tail)[1..] == tail;
    }
  }

  lemma PairsFit(p: PropertyMap)
    requires Encodable(p)
    ensures var items := Pairs(SortedKeys(p.props.Keys), p.props);
      forall i :: 0 <= i < |items| ==> ItemFits(items[i])
  {
    var ks := SortedKeys(p.props.Keys);
    assert forall i :: 0 <= i < |ks| ==> ks[i] in ks;
  }

  /** For every accepted input: encoding what was decoded gives the input back exactly when its keys
      are strictly increasing. */
  lemma CanonicalExactly(b: Bytes)
    requires Decoded(b).Some?
    ensures Encodable(Decoded(b).value)
    ensures Encoded(Decoded(b).value) == b <==> KeysSorted(ReadItems(Read8(b).value.rest).value)
  {
    var kind := Read8(b).value;
    var items := ReadItems(kind.rest).value;
    var p := Decoded(b).value;
    WriteOfRead8(b);
    ItemsOfRead(kind.rest);
    FillFits(items);
    if KeysSorted(items) {
      SortedItemsCanonical(items);
    }
    if Encoded(p) == b {
      var canonical := Pairs(SortedKeys(p.props.Keys), p.props);
      PairsSorted(p.props);
      PairsFit(p);
      Read8OfWrite(p.kind, Items(canonical));
      ReadItemsRoundTrip(canonical);
    }
  }

  lemma {:induction false} FillFits(items: seq<KeyValue>)
    requires forall i :: 0 <= i < |items| ==> ItemFits(items[i])
    ensures forall k :: k in Fill(items) ==> ItemFits(KeyValue(k, Fill(items)[k]))
  {
    if items != [] {
      FillFits(items[..|items| - 1]);
    }
  }

  /** Of equal keys the last one counts. */
  lemma {:induction false} LastStays(items: seq<KeyValue>, i: nat)
    requires i < |items| && forall j :: i < j < |items| ==> items[j].key != items[i].key
    ensures items[i].key in Fill(items) && Fill(items)[items[i].key] == items[i].value
  {
    if i < |items| - 1 {
      LastStays(items[..|items| - 1], i);
    }
  }

  /** Any items decode, repeated and unordered ones as well, to the map in which the last of equal keys stays. */
  lemma DecodesItems(kind: Bytes, items: seq<KeyValue>, i: nat)
    requires |kind| <= 255 && forall j :: 0 <= j < |items| ==> ItemFits(items[j])
    requires i < |items| && forall j :: i < j < |items| ==> items[j].key != items[i].key
    ensures var d := Decoded(Write8(kind) + Items(items));
      d.Some? && d.value.kind == kind && d.value.Get(items[i].key) == items[i].value
  {
    Read8OfWrite(kind, Items(items));
    ReadItemsRoundTrip(items);
    LastStays(items, i);
  }

  // ---- the bytes ---------------------------------------------------------------------------

  /** The number of bytes of some items. */
  function Room(items: seq<KeyValue>): nat {
    if items == [] then 0 else 3 + |items[0].key| + |items[0].value| + Room(items[1..])
  }

  /** At a place: one byte with the length of the key, the key, two bytes with the length of the value, the high one
      first, and the value. */
  predicate ItemThere(b: Bytes, at: nat, k: Bytes, v: Bytes) {
    && at + 3 + |k| + |v| <= |b|
    && b[at] as int == |k| && b[at + 1..at + 1 + |k|] == k
    && b[at + 1 + |k|] as int == |v| / 256 && b[at + 2 + |k|] as int == |v| % 256
    && b[at + 3 + |k|..at + 3 + |k| + |v|] == v
  }

  lemma ItemFirst(k: Bytes, v: Bytes, rest: Bytes)
    requires ItemFits(KeyValue(k, v))
    ensures |Item(k, v)| == 3 + |k| + |v| && ItemThere(Item(k, v) + rest, 0, k, v)
  {
    var b := Item(k, v) + rest;
    assert b[1..1 + |k|] == k;
    assert b[3 + |k|..3 + |k| + |v|] == v;
  }

  lemma ItemFurther(first: Bytes, b: Bytes, at: nat, k: Bytes, v: Bytes)
    requires ItemThere(b, at, k, v)
    ensures ItemThere(first + b, |first| + at, k, v)
  {
    var c, n := first + b, |first| + at;
    assert c[n + 1..n + 1 + |k|] == b[at + 1..at + 1 + |k|];
    assert c[n + 3 + |k|..n + 3 + |k| + |v|] == b[at + 3 + |k|..at + 3 + |k| + |v|];
  }

  lemma {:induction false} ItemsAt(items: seq<KeyValue>, i: nat)
    requires i < |items| && forall j :: 0 <= j < |items| ==> ItemFits(items[j])
    ensures |Items(items)| == Room(items)
    ensures ItemThere(Items(items), Room(items[..i]), items[i].key, items[i].value)
  {
    hide ItemThere, Item;
    var kv := items[0];
    ItemFirst(kv.key, kv.value, Items(items[1..]));
    if |items| == 1 {
      assert items[1..] == [];
    } else {
      ItemsAt(items[1..], if i == 0 then 0 else i - 1);
    }
    if i > 0 {
      ItemFurther(Item(kv.key, kv.value), Items(items[1..]), Room(items[1..][..i - 1]), items[i].key, items[i].value);
      assert items[..i][1..] == items[1..][..i - 1];
    }
  }

  /** The bytes of a property map: one with the length of the kind, the kind, and the items in increasing order of
      key. */
  lemma EncodedAt(p: PropertyMap, i: nat)
    requires Encodable(p) && i < |p.props|
    ensures var ks, b := SortedKeys(p.props.Keys), Encoded(p);
      && |b| > |p.kind| && b[0] as int == |p.kind| && b[1..1 + |p.kind|] == p.kind
      && |ks| == |p.props| && ks[i] in p.props
      && ItemThere(b, 1 + |p.kind| + Room(Pairs(ks, p.props)[..i]), ks[i], p.props[ks[i]])
  {
    hide ItemThere, Items, Room, StrictlySorted;
    var ks := SortedKeys(p.props.Keys);
    var items := Pairs(ks, p.props);
    SortedAll(p.props.Keys);
    assert ks[i] in ks;
    PairsFit(p);
    ItemsAt(items, i);
    ItemFurther(Write8(p.kind), Items(items), Room(items[..i]), ks[i], p.props[ks[i]]);
    KindFirst(p.kind, Items(items));
  }

  lemma KindFirst(kind: Bytes, rest: Bytes)
    requires |kind| < 256
    ensures var b := Write8(kind) + rest;
      |Write8(kind)| == 1 + |kind| && b[0] as int == |kind| && b[1..1 + |kind|] == kind
  {
    assert (Write8(kind) + rest)[1..1 + |kind|] == kind;
  }

  lemma {:induction false} SortedAll(s: set<Bytes>)
    ensures |SortedKeys(s)| == |s|
  {
    var ks := SortedKeys(s);
    SortedDistinct(ks);
    assert (set k | k in ks) == s;
  }

  lemma {:induction false} SortedDistinct(ks: seq<Bytes>)
    requires StrictlySorted(ks)
    ensures |set k | k in ks| == |ks|
  {
    if ks == [] {
      assert (set k | k in ks) == {};
    } else {
      SortedDistinct(ks[1..]);
      HeadOnce(ks);
      assert (set k | k in ks) == {ks[0]} + set k | k in ks[1..];
    }
  }
}
