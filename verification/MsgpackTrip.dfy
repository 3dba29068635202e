/** decodeValue undoes encode, in the middle of any byte string. */
module MsgpackTrip {
  import opened Bytes
  import opened PhpKeys
  import opened Msgpack

  ghost predicate DistinctKeys(entries: seq<Entry>) {
    forall i, j :: 0 <= i < j < |entries| ==> entries[i].key != entries[j].key
  }

  /** A PHP value the format can carry: 64-bit integers, lengths and counts below 2^32, PHP's own keys. */
  ghost predicate Encodable(v: Value)
    decreases v
  {
    match v
    case Int(i) => IsInt64(i)
    case Float(bits) => |bits| == 8
    case Str(s) => |s| < U32
    case Arr(entries) => |entries| < U32 && DistinctKeys(entries) && AllEncodable(entries)
    case _ => true
  }

  ghost predicate AllEncodable(entries: seq<Entry>)
    decreases entries
  {
    forall i :: 0 <= i < |entries| ==> EncodableEntry(entries[i])
  }

  /** Numbered from `first` on, as in a list. */
  ghost predicate Numbered(entries: seq<Entry>, first: nat) {
    forall i :: 0 <= i < |entries| ==> entries[i].key == IntKey(first + i)
  }

  lemma FirstAndRest(es: seq<Entry>, first: nat)
    requires es != []
    ensures AllEncodable(es) ==> EncodableEntry(es[0]) && AllEncodable(es[1..])
    ensures Numbered(es, first) ==> es[0].key == IntKey(first) && Numbered(es[1..], first + 1)
  {
  }

  ghost predicate EncodableEntry(e: Entry)
    decreases e
  {
    IsKey(e.key) && |KeyText(e.key)| < U32 && Encodable(e.value)
  }

  /** The bytes x stand at this offset. */
  predicate At(data: seq<Byte>, offset: nat, x: seq<Byte>) {
    offset + |x| <= |data| && data[offset..offset + |x|] == x
  }

  lemma AtSplit(data: seq<Byte>, offset: nat, x: seq<Byte>, y: seq<Byte>)
    requires At(data, offset, x + y)
    ensures At(data, offset, x) && At(data, offset + |x|, y)
  {
    assert data[offset..offset + |x|] == data[offset..offset + |x + y|][..|x|];
    assert data[offset + |x|..offset + |x| + |y|] == data[offset..offset + |x + y|][|x|..];
  }

  lemma AtByte(data: seq<Byte>, offset: nat, c: Byte, y: seq<Byte>)
    requires At(data, offset, [c] + y)
    ensures offset < |data| && data[offset] == c && At(data, offset + 1, y)
  {
    AtSplit(data, offset, [c], y);
    assert data[offset] == data[offset..offset + 1][0];
  }

  /** The result at offset is v with the offset moved by n. */
  predicate Yields(r: Decoded, v: Value, offset: nat) {
    r.Ok? && r.value == v && r.offset == offset
  }

  lemma TripNumber(i: int, k: nat, modulus: int)
    requires modulus == Pow256(k) && modulus % 2 == 0
    ensures 0 <= i < modulus ==> FromBE(BE(i, k)) == i
    ensures -(modulus / 2) <= i < modulus / 2 ==> Signed(FromBE(BE(i, k)), modulus) == i
  {
    hide BE, FromBE;
    BEModulo(i, k);
    if 0 <= i < modulus { ModUnique(i, modulus, 0, i); }
    if -modulus <= i < 0 { ModUnique(i, modulus, -1, i + modulus); }
  }

  lemma TripInt(ops: FloatOps, data: seq<Byte>, offset: nat, i: int)
    requires IsInt64(i) && At(data, offset, EncodeInt(i))
    ensures Yields(DecodeValue(ops, data, offset), Int(i), offset + |EncodeInt(i)|)
  {
    hide BE, FromBE, DecodeArray, DecodeMap;
    Pows();
    var x := EncodeInt(i);
    assert x == [x[0]] + x[1..];
    AtByte(data, offset, x[0], x[1..]);
    if |x| > 1 { TripNumber(i, |x| - 1, Pow256(|x| - 1)); }
    if |x| == 2 && x[0] == 0xcc { assert data[offset + 1] == data[offset + 1..offset + 2][0]; }
  }

  /** A written length is read back, and the text behind it is cut out whole. */
  lemma LengthField(data: seq<Byte>, offset: nat, n: nat, k: nat)
    requires n < Pow256(k) && At(data, offset, BE(n, k))
    ensures offset + k <= |data| && FromBE(data[offset..offset + k]) == n
  {
    BERoundTrip(n, k);
  }

  lemma FirstNumber(data: seq<Byte>, o: nat)
    requires o < |data|
    ensures FromBE(data[o..o + 1]) == data[o]
  {
    assert data[o..o + 1] == [data[o]] && [data[o]][..0] == [];
  }

  lemma SubstrAt(data: seq<Byte>, offset: nat, s: seq<Byte>)
    requires At(data, offset, s)
    ensures Substr(data, offset, |s|) == s
  {
  }

  /** readStr16 and readStr32 on a written length and text. */
  lemma ReadsStr(data: seq<Byte>, offset: nat, s: seq<Byte>, k: nat)
    requires |s| < Pow256(k) && At(data, offset, BE(|s|, k)) && At(data, offset + k, s)
    ensures ReadStr(data, offset, k) == Ok(Str(s), offset + k + |s|, 1, true)
  {
    hide BE, FromBE, Substr;
    LengthField(data, offset, |s|, k);
    SubstrAt(data, offset + k, s);
  }

  lemma ReadsShortStr(data: seq<Byte>, offset: nat, s: seq<Byte>)
    requires At(data, offset, s)
    ensures ReadShortStr(data, offset, |s|) == Ok(Str(s), offset + |s|, 1, true)
  {
    SubstrAt(data, offset, s);
  }

  /** How the four string forms are read, by their first byte. */
  lemma StrForms(ops: FloatOps, data: seq<Byte>, offset: nat)
    requires offset < |data|
    ensures var (byte: int, o, r) := (data[offset], offset + 1, DecodeValue(ops, data, offset));
      && (0xa0 <= byte < 0xc0 ==> r == ReadShortStr(data, o, byte - 0xa0))
      && (byte == 0xd9 ==> r == ReadShortStr(data, o + 1, OrdAt(data, o)))
      && (byte == 0xda ==> r == ReadStr(data, o, 2))
      && (byte == 0xdb ==> r == ReadStr(data, o, 4))
  {
    hide FromBE, DecodeArray, DecodeMap, ReadStr, ReadShortStr, ReadInt, ReadFloat, OrdAt;
  }

  /** str16 and str32. */
  lemma TripLongStr(ops: FloatOps, data: seq<Byte>, offset: nat, s: seq<Byte>, k: nat)
    requires (k == 2 || k == 4) && |s| < Pow256(k)
    requires At(data, offset, [if k == 2 then 0xda else 0xdb] + (BE(|s|, k) + s))
    ensures Yields(DecodeValue(ops, data, offset), Str(s), offset + 1 + k + |s|)
  {
    hide BE, DecodeValue, ReadStr, ReadShortStr, OrdAt, At;
    AtByte(data, offset, if k == 2 then 0xda else 0xdb, BE(|s|, k) + s);
    AtSplit(data, offset + 1, BE(|s|, k), s);
    StrForms(ops, data, offset);
    ReadsStr(data, offset + 1, s, k);
  }

  /** str8 */
  lemma TripByteStr(ops: FloatOps, data: seq<Byte>, offset: nat, s: seq<Byte>)
    requires |s| <= 0xff && At(data, offset, [0xd9] + ([|s|] + s))
    ensures Yields(DecodeValue(ops, data, offset), Str(s), offset + 2 + |s|)
  {
    hide DecodeValue, ReadStr, ReadShortStr, At;
    AtByte(data, offset, 0xd9, [|s|] + s);
    AtByte(data, offset + 1, |s|, s);
    StrForms(ops, data, offset);
    ReadsShortStr(data, offset + 2, s);
  }

  lemma TripFixStr(ops: FloatOps, data: seq<Byte>, offset: nat, s: seq<Byte>)
    requires |s| <= 31 && At(data, offset, [0xa0 + |s|] + s)
    ensures Yields(DecodeValue(ops, data, offset), Str(s), offset + 1 + |s|)
  {
    hide DecodeValue, ReadStr, ReadShortStr, OrdAt, At;
    AtByte(data, offset, 0xa0 + |s|, s);
    StrForms(ops, data, offset);
    ReadsShortStr(data, offset + 1, s);
  }

  lemma TripStr(ops: FloatOps, data: seq<Byte>, offset: nat, s: seq<Byte>)
    requires |s| < U32 && At(data, offset, EncodeStr(s))
    ensures Yields(DecodeValue(ops, data, offset), Str(s), offset + |EncodeStr(s)|)
  {
    hide BE, DecodeValue, At, Yields;
    Pows();
    if |s| <= 31 {
      TripFixStr(ops, data, offset, s);
    } else if |s| <= 0xff {
      assert EncodeStr(s) == [0xd9] + ([|s|] + s);
      TripByteStr(ops, data, offset, s);
    } else {
      var k := if |s| <= 0xffff then 2 else 4;
      assert EncodeStr(s) == [if k == 2 then 0xda else 0xdb] + (BE(|s|, k) + s);
      TripLongStr(ops, data, offset, s, k);
    }
  }

  lemma ArrayStart(ops: FloatOps, data: seq<Byte>, offset: nat, n: nat)
    requires n < U32 && At(data, offset, ArrayHeader(n))
    ensures DecodeValue(ops, data, offset) == Counted(DecodeArray(ops, data, offset + |ArrayHeader(n)|, n, []))
  {
    hide BE, FromBE, DecodeArray, DecodeMap, At;
    Pows();
    var h := ArrayHeader(n);
    assert h == [h[0]] + h[1..];
    AtByte(data, offset, h[0], h[1..]);
    if n > 0xffff { LengthField(data, offset + 1, n, 4); } else if n > 15 { LengthField(data, offset + 1, n, 2); }
  }

  lemma MapStart(ops: FloatOps, data: seq<Byte>, offset: nat, n: nat)
    requires n < U32 && At(data, offset, MapHeader(n))
    ensures DecodeValue(ops, data, offset) == Counted(DecodeMap(ops, data, offset + |MapHeader(n)|, n, []))
  {
    hide BE, FromBE, DecodeArray, DecodeMap, At;
    Pows();
    var h := MapHeader(n);
    assert h == [h[0]] + h[1..];
    AtByte(data, offset, h[0], h[1..]);
    if n > 0xffff { LengthField(data, offset + 1, n, 4); } else if n > 15 { LengthField(data, offset + 1, n, 2); }
  }

  lemma TripScalar(ops: FloatOps, data: seq<Byte>, offset: nat, v: Value)
    requires Encodable(v) && (v.Nil? || v.Bool? || v.Float?) && At(data, offset, Encode(v))
    ensures Yields(DecodeValue(ops, data, offset), v, offset + |Encode(v)|)
  {
    hide DecodeArray, DecodeMap;
    var x := Encode(v);
    assert x == [x[0]] + x[1..];
    AtByte(data, offset, x[0], x[1..]);
  }

  lemma TripList(ops: FloatOps, data: seq<Byte>, offset: nat, es: seq<Entry>)
    requires |es| < U32 && At(data, offset, ArrayHeader(|es|) + EncodeItems(es))
    requires At(data, offset + |ArrayHeader(|es|)|, EncodeItems(es)) ==>
      Yields(DecodeArray(ops, data, offset + |ArrayHeader(|es|)|, |es|, []), Arr([] + es),
             offset + |ArrayHeader(|es|)| + |EncodeItems(es)|)
    ensures Yields(DecodeValue(ops, data, offset), Arr(es), offset + |ArrayHeader(|es|)| + |EncodeItems(es)|)
  {
    hide At, DecodeValue, DecodeArray, ArrayHeader, EncodeItems;
    AtSplit(data, offset, ArrayHeader(|es|), EncodeItems(es));
    ArrayStart(ops, data, offset, |es|);
    assert [] + es == es;
  }

  lemma TripMap(ops: FloatOps, data: seq<Byte>, offset: nat, es: seq<Entry>)
    requires |es| < U32 && At(data, offset, MapHeader(|es|) + EncodePairs(es))
    requires At(data, offset + |MapHeader(|es|)|, EncodePairs(es)) ==>
      Yields(DecodeMap(ops, data, offset + |MapHeader(|es|)|, |es|, []), Arr([] + es),
             offset + |MapHeader(|es|)| + |EncodePairs(es)|)
    ensures Yields(DecodeValue(ops, data, offset), Arr(es), offset + |MapHeader(|es|)| + |EncodePairs(es)|)
  {
    hide At, DecodeValue, DecodeMap, MapHeader, EncodePairs;
    AtSplit(data, offset, MapHeader(|es|), EncodePairs(es));
    MapStart(ops, data, offset, |es|);
    assert [] + es == es;
  }

  /** Decoding what encode wrote, whatever stands before and after it, gives the value back and stops right
      behind it. */
  lemma {:induction false} TripValue(ops: FloatOps, data: seq<Byte>, offset: nat, v: Value)
    requires Encodable(v) && At(data, offset, Encode(v))
    ensures Yields(DecodeValue(ops, data, offset), v, offset + |Encode(v)|)
    decreases v
  {
    hide EncodeInt, EncodeStr, ArrayHeader, MapHeader, At, Yields, DecodeValue, DecodeArray, DecodeMap,
         EncodeItems, EncodePairs, AllEncodable;
    match v
    case Int(i) => TripInt(ops, data, offset, i);
    case Str(s) => TripStr(ops, data, offset, s);
    case Arr(es) =>
      assert [] + es == es;
      if IsList(es) {
        var start := offset + |ArrayHeader(|es|)|;
        if At(data, start, EncodeItems(es)) { TripItems(ops, data, start, es, []); }
        TripList(ops, data, offset, es);
      } else {
        var start := offset + |MapHeader(|es|)|;
        if At(data, start, EncodePairs(es)) { TripPairs(ops, data, start, es, []); }
        TripMap(ops, data, offset, es);
      }
    case _ => TripScalar(ops, data, offset, v);
  }

  lemma {:induction false} TripItem(ops: FloatOps, data: seq<Byte>, offset: nat, e: Entry)
    requires EncodableEntry(e) && At(data, offset, EncodeItem(e))
    ensures Yields(DecodeValue(ops, data, offset), e.value, offset + |EncodeItem(e)|)
    decreases e
  {
    hide At, Yields, DecodeValue, Encode, Encodable;
    TripValue(ops, data, offset, e.value);
  }

  lemma {:induction false} TripItems(ops: FloatOps, data: seq<Byte>, offset: nat, es: seq<Entry>, acc: seq<Entry>)
    requires AllEncodable(es) && Numbered(es, |acc|) && At(data, offset, EncodeItems(es))
    ensures Yields(DecodeArray(ops, data, offset, |es|, acc), Arr(acc + es), offset + |EncodeItems(es)|)
    decreases es
  {
    hide At, DecodeValue, EncodeItem, AllEncodable, Numbered;
    if es == [] {
      assert acc + es == acc;
    } else {
      FirstAndRest(es, |acc|);
      AtSplit(data, offset, EncodeItem(es[0]), EncodeItems(es[1..]));
      TripItem(ops, data, offset, es[0]);
      var acc' := acc + [Entry(IntKey(|acc|), es[0].value)];
      assert acc' + es[1..] == acc + es;
      TripItems(ops, data, offset + |EncodeItem(es[0])|, es[1..], acc');
    }
  }

  lemma {:induction false} TripPair(ops: FloatOps, data: seq<Byte>, offset: nat, e: Entry)
    requires EncodableEntry(e) && At(data, offset, EncodePair(e))
    ensures var key := DecodeValue(ops, data, offset);
      && key.Ok? && key.value.Str? && Normalize(key.value.s) == e.key
      && Yields(DecodeValue(ops, data, key.offset), e.value, offset + |EncodePair(e)|)
    decreases e, 0
  {
    hide At, DecodeValue, EncodeStr, Encode, Encodable, Normalize;
    var text := KeyText(e.key);
    AtSplit(data, offset, EncodeStr(text), Encode(e.value));
    TripStr(ops, data, offset, text);
    KeyRoundTrip(e.key);
    TripValue(ops, data, offset + |EncodeStr(text)|, e.value);
  }

  /** One turn of decodeMapItems on a written pair: what the rest yields the whole yields. */
  lemma {:induction false} PairStep(ops: FloatOps, data: seq<Byte>, offset: nat, n: nat, acc: seq<Entry>, e: Entry,
      v: Value, end: nat)
    requires n > 0 && EncodableEntry(e) && At(data, offset, EncodePair(e))
    requires Yields(DecodeMap(ops, data, offset + |EncodePair(e)|, n - 1, Put(acc, e.key, e.value)), v, end)
    ensures Yields(DecodeMap(ops, data, offset, n, acc), v, end)
    decreases e, 1
  {
    hide At, DecodeValue, EncodePair, EncodableEntry, Normalize, Put;
    TripPair(ops, data, offset, e);
  }

  lemma PairsDone(ops: FloatOps, data: seq<Byte>, offset: nat, acc: seq<Entry>, es: seq<Entry>)
    requires es == []
    ensures Yields(DecodeMap(ops, data, offset, |es|, acc), Arr(acc + es), offset + |EncodePairs(es)|)
  {
    assert acc + es == acc;
  }

  lemma {:induction false} TripPairs(ops: FloatOps, data: seq<Byte>, offset: nat, es: seq<Entry>, acc: seq<Entry>)
    requires AllEncodable(es) && DistinctKeys(acc + es) && At(data, offset, EncodePairs(es))
    ensures Yields(DecodeMap(ops, data, offset, |es|, acc), Arr(acc + es), offset + |EncodePairs(es)|)
    decreases es
  {
    hide At, DecodeValue, DecodeMap, EncodePair, Normalize, AllEncodable, DistinctKeys, Put, HasKey, Yields;
    if es == [] {
      PairsDone(ops, data, offset, acc, es);
    } else {
      FirstAndRest(es, 0);
      AtSplit(data, offset, EncodePair(es[0]), EncodePairs(es[1..]));
      NewKey(acc, es);
      var acc' := Put(acc, es[0].key, es[0].value);
      assert acc' + es[1..] == acc + es;
      TripPairs(ops, data, offset + |EncodePair(es[0])|, es[1..], acc');
      PairStep(ops, data, offset, |es|, acc, es[0], Arr(acc + es), offset + |EncodePairs(es)|);
    }
  }

  lemma NewKey(acc: seq<Entry>, es: seq<Entry>)
    requires DistinctKeys(acc + es) && es != []
    ensures !HasKey(acc, es[0].key) && Put(acc, es[0].key, es[0].value) == acc + [es[0]]
  {
    forall i | 0 <= i < |acc| ensures acc[i].key != es[0].key {
      assert (acc + es)[i].key != (acc + es)[|acc|].key;
    }
  }

  /** decode(encode(v) + anything) is v, and encode(v) ends exactly where the decoder stops. */
  lemma RoundTrip(ops: FloatOps, v: Value, suffix: seq<Byte>)
    requires Encodable(v)
    ensures Yields(DecodeValue(ops, Encode(v) + suffix, 0), v, |Encode(v)|)
  {
    hide Encode, Encodable;
    assert (Encode(v) + suffix)[0..|Encode(v)|] == Encode(v);
    TripValue(ops, Encode(v) + suffix, 0, v);
  }

  /** No encoding is a prefix of another one's, so equal encodings are of equal values. */
  lemma PrefixFree(ops: FloatOps, v: Value, w: Value, suffix: seq<Byte>)
    requires Encodable(v) && Encodable(w) && Encode(v) + suffix == Encode(w)
    ensures v == w && suffix == []
  {
    hide Encode, Encodable;
    RoundTrip(ops, v, suffix);
    RoundTrip(ops, w, []);
    assert Encode(w) + [] == Encode(w);
  }
}
