/** What comes out of the decoder: always a value that encodes and decodes back to itself, and, without
    floats and with string keys, one whose encoding is no longer than the bytes it was read from. */
module MsgpackNormal {
  import opened Bytes
  import opened PhpKeys
  import opened Msgpack
  import opened MsgpackTrip

  /** A float is 8 bytes, and the text of a float is a string of ordinary length. */
  ghost predicate FloatsOk(ops: FloatOps) {
    (forall b: seq<Byte> :: |ops.widen(b)| == 8) && (forall b: seq<Byte> :: |ops.text(b)| < U32)
  }

  // --- one value's head ---

  /** What the byte at an offset starts. */
  datatype Shape = Scalar | Items | Pairs

  lemma IntIsShort(i: int, k: nat)
    requires k == 1 || k == 2 || k == 4 || k == 8
    requires 0 <= i < Pow256(k) || -(Pow256(k) / 2) <= i < Pow256(k) / 2
    requires IsInt64(i)
    ensures |EncodeInt(i)| <= 1 + k
  {
    hide BE;
    Pows();
  }

  lemma NumberRange(b: seq<Byte>)
    requires |b| == 1 || |b| == 2 || |b| == 4 || |b| == 8
    ensures var (n, m) := (FromBE(b), Pow256(|b|));
      && 0 <= n < m && -(m / 2) <= Signed(n, m) < m / 2 && IsInt64(Signed(n, m))
      && (|b| < 8 ==> IsInt64(n)) && (|b| <= 4 ==> n < U32)
  {
    hide FromBE;
    Pows();
  }

  /** A number that was read, and what it costs to write. */
  lemma NumberShape(data: seq<Byte>, offset: nat, k: nat, modulus: int, signed: bool)
    requires (k == 1 || k == 2 || k == 4 || k == 8) && modulus == Pow256(k) && (k == 8 ==> signed)
    ensures var r := ReadInt(data, offset, k, modulus, signed);
      r.Ok? ==> r.value.Int? && Encodable(r.value) && |Encode(r.value)| <= 1 + k && r.offset == offset + k
  {
    hide FromBE, EncodeInt;
    if offset + k <= |data| {
      NumberRange(data[offset..offset + k]);
      IntIsShort(ReadInt(data, offset, k, modulus, signed).value.i, k);
    }
  }

  lemma StrIsShort(n: nat)
    ensures n < U32 ==> |StrHeader(n)| <= 5
    ensures n <= 0xffff ==> |StrHeader(n)| <= 3
    ensures n <= 0xff ==> |StrHeader(n)| <= 2
    ensures n <= 31 ==> |StrHeader(n)| == 1
  {
  }

  lemma StrShape(data: seq<Byte>, offset: nat, k: nat)
    requires k == 2 || k == 4
    ensures var r := ReadStr(data, offset, k);
      && r.Ok? && r.value.Str? && Encodable(r.value)
      && (r.offset <= |data| ==> |Encode(r.value)| <= 1 + r.offset - offset)
  {
    hide FromBE, StrHeader;
    if offset + k <= |data| {
      NumberRange(data[offset..offset + k]);
      StrIsShort(|ReadStr(data, offset, k).value.s|);
      Pows();
    }
  }

  lemma ShortStrShape(data: seq<Byte>, offset: nat, n: nat, head: nat)
    requires (n <= 31 && head == 1) || (n <= 0xff && head == 2)
    ensures var r := ReadShortStr(data, offset, n);
      && r.Ok? && r.value.Str? && Encodable(r.value)
      && (r.offset <= |data| ==> |Encode(r.value)| <= head + r.offset - offset)
  {
    hide StrHeader;
    StrIsShort(|ReadShortStr(data, offset, n).value.s|);
  }

  /** A scalar: not an array, encodable, and, float-free and inside the data, no longer when written. */
  ghost predicate ScalarOk(data: seq<Byte>, offset: nat, r: Decoded) {
    r.Ok? ==>
      && !r.value.Arr? && Encodable(r.value)
      && (r.plain && r.offset <= |data| ==> |Encode(r.value)| <= r.offset - offset)
  }

  /** The three shapes: a scalar, or a header of known size in front of items or of pairs. */
  lemma HeadShape(ops: FloatOps, data: seq<Byte>, offset: nat) returns (shape: Shape, start: nat, n: nat)
    requires FloatsOk(ops)
    ensures var r := DecodeValue(ops, data, offset);
      match shape
      case Scalar => ScalarOk(data, offset, r)
      case Items => offset < start <= |data| && n < U32 && |ArrayHeader(n)| <= start - offset
                    && r == Counted(DecodeArray(ops, data, start, n, []))
      case Pairs => offset < start <= |data| && n < U32 && |MapHeader(n)| <= start - offset
                    && r == Counted(DecodeMap(ops, data, start, n, []))
  {
    hide FromBE, DecodeArray, DecodeMap, ReadInt, ReadStr, ReadShortStr, EncodeInt, EncodeStr, BE;
    shape, start, n := Scalar, 0, 0;
    if offset < |data| {
      var byte: int := data[offset];
      var o := offset + 1;
      if byte <= 0x7f || byte >= 0xe0 {
        IntIsShort(if byte <= 0x7f then byte else byte - 256, 1);
        TinyInt(if byte <= 0x7f then byte else byte - 256);
      } else if byte < 0x90 {
        shape, start, n := Pairs, o, byte - 0x80;
      } else if byte < 0xa0 {
        shape, start, n := Items, o, byte - 0x90;
      } else if byte < 0xc0 {
        ShortStrShape(data, o, byte - 0xa0, 1);
      } else if byte == 0xcc {
        IntIsShort(OrdAt(data, o), 1);
      } else if byte == 0xd9 {
        ShortStrShape(data, o + 1, OrdAt(data, o), 2);
      } else if byte == 0xda || byte == 0xdb {
        StrShape(data, o, if byte == 0xda then 2 else 4);
      } else if 0xcd <= byte <= 0xd3 {
        NumbersShape(ops, data, offset);
      } else if 0xdc <= byte <= 0xdf {
        var k := if byte == 0xdc || byte == 0xde then 2 else 4;
        if o + k <= |data| {
          NumberRange(data[o..o + k]);
          Pows();
          shape, start, n := (if byte <= 0xdd then Items else Pairs), o + k, FromBE(data[o..o + k]);
        }
      }
    }
  }

  lemma TinyInt(i: int)
    requires -32 <= i <= 0x7f
    ensures |EncodeInt(i)| == 1
  {
  }

  lemma NumbersShape(ops: FloatOps, data: seq<Byte>, offset: nat)
    requires offset < |data| && 0xcd <= data[offset] <= 0xd3
    ensures ScalarOk(data, offset, DecodeValue(ops, data, offset))
  {
    hide FromBE, DecodeArray, DecodeMap, ReadInt, ReadStr, ReadShortStr, EncodeInt, BE;
    Pows();
    var o := offset + 1;
    match data[offset]
    case 0xcd => NumberShape(data, o, 2, U16, false);
    case 0xce => NumberShape(data, o, 4, U32, false);
    case 0xcf => NumberShape(data, o, 8, U64, true);
    case 0xd0 => NumberShape(data, o, 1, U8, true);
    case 0xd1 => NumberShape(data, o, 2, U16, true);
    case 0xd2 => NumberShape(data, o, 4, U32, true);
    case 0xd3 => NumberShape(data, o, 8, U64, true);
  }

  // --- every decoded value can be encoded ---

  lemma NumberedIsDistinct(es: seq<Entry>)
    requires Numbered(es, 0)
    ensures DistinctKeys(es) && IsList(es)
  {
  }

  lemma PutKeeps(es: seq<Entry>, k: Key, v: Value)
    requires AllEncodable(es) && DistinctKeys(es) && EncodableEntry(Entry(k, v))
    ensures var r := Put(es, k, v); AllEncodable(r) && DistinctKeys(r) && |r| <= |es| + 1
  {
    hide EncodableEntry;
    PutKeys(es, k, v);
  }

  /** Put sets the value of the first entry with the key, or adds an entry at the end; no other entry and no
      key changes. */
  lemma {:induction false} PutKeys(es: seq<Entry>, k: Key, v: Value)
    ensures var r := Put(es, k, v);
      && |es| <= |r| <= |es| + 1
      && (forall i :: 0 <= i < |es| ==> r[i].key == es[i].key)
      && (forall i :: 0 <= i < |es| ==> r[i].value == if es[i].key == k && !HasKey(es[..i], k) then v else es[i].value)
      && (|r| > |es| <==> !HasKey(es, k)) && (|r| > |es| ==> r[|es|] == Entry(k, v))
  {
    if es != [] && es[0].key != k {
      PutKeys(es[1..], k, v);
      forall i | 0 < i < |es|
        ensures Put(es, k, v)[i].key == es[i].key
        ensures Put(es, k, v)[i].value == if es[i].key == k && !HasKey(es[..i], k) then v else es[i].value
      {
        assert es[1..][i - 1] == es[i] && es[..i] == [es[0]] + es[1..][..i - 1];
        KeyBehind(es[0], es[1..][..i - 1], k);
      }
      assert es == [es[0]] + es[1..];
      KeyBehind(es[0], es[1..], k);
    } else if es != [] {
      assert HasKey(es, k);
      forall i | 0 < i < |es| ensures HasKey(es[..i], k) { assert es[..i][0] == es[0]; }
    }
  }

  lemma KeyBehind(e: Entry, es: seq<Entry>, k: Key)
    requires e.key != k
    ensures HasKey([e] + es, k) <==> HasKey(es, k)
  {
    if i :| 0 <= i < |es| && es[i].key == k { assert ([e] + es)[i + 1].key == k; }
    if i :| 0 <= i < |[e] + es| && ([e] + es)[i].key == k { assert es[i - 1].key == k; }
  }

  lemma TextIsShort(ops: FloatOps, v: Value)
    requires FloatsOk(ops) && Encodable(v)
    ensures |TextOf(ops, v)| < U32
  {
    if v.Int? { DecimalLength(v.i); }
  }

  lemma EmptyIsFine()
    ensures AllEncodable([]) && Numbered([], 0) && DistinctKeys([])
  {
  }

  lemma AppendKeeps(es: seq<Entry>, v: Value)
    requires AllEncodable(es) && Numbered(es, 0) && Encodable(v) && |es| < U32
    ensures var r := es + [Entry(IntKey(|es|), v)]; AllEncodable(r) && Numbered(r, 0)
  {
    hide Encodable;
    DecimalLength(|es|);
  }

  lemma KeyIsFine(ops: FloatOps, key: Value, v: Value)
    requires FloatsOk(ops) && Encodable(key) && Encodable(v)
    ensures EncodableEntry(Entry(Normalize(TextOf(ops, key)), v))
  {
    hide Normalize, Encodable, TextOf;
    TextIsShort(ops, key);
    NormalizeKeepsText(TextOf(ops, key));
  }

  lemma {:induction false} DecodedValue(ops: FloatOps, data: seq<Byte>, offset: nat)
    requires FloatsOk(ops)
    ensures var r := DecodeValue(ops, data, offset); r.Ok? ==> Encodable(r.value)
    decreases |data| - Cap(data, offset), 0
  {
    hide DecodeValue, DecodeArray, DecodeMap, AllEncodable, Numbered, DistinctKeys, ArrayHeader, MapHeader, FloatsOk;
    EmptyIsFine();
    var shape, start, n := HeadShape(ops, data, offset);
    if shape.Items? {
      DecodedArray(ops, data, start, n, []);
    } else if shape.Pairs? {
      DecodedMap(ops, data, start, n, []);
    }
  }

  lemma {:induction false} DecodedArray(ops: FloatOps, data: seq<Byte>, offset: nat, n: nat, acc: seq<Entry>)
    requires FloatsOk(ops) && AllEncodable(acc) && Numbered(acc, 0) && |acc| + n < U32
    ensures var r := DecodeArray(ops, data, offset, n, acc); r.Ok? ==> Encodable(r.value)
    decreases |data| - Cap(data, offset), 1
  {
    hide DecodeValue, AllEncodable, Numbered, FloatsOk;
    if n == 0 {
      NumberedIsDistinct(acc);
    } else {
      var item := DecodeValue(ops, data, offset);
      DecodedValue(ops, data, offset);
      if item.Ok? {
        AppendKeeps(acc, item.value);
        DecodedArray(ops, data, item.offset, n - 1, acc + [Entry(IntKey(|acc|), item.value)]);
      }
    }
  }

  lemma {:induction false} DecodedMap(ops: FloatOps, data: seq<Byte>, offset: nat, n: nat, acc: seq<Entry>)
    requires FloatsOk(ops) && AllEncodable(acc) && DistinctKeys(acc) && |acc| + n < U32
    ensures var r := DecodeMap(ops, data, offset, n, acc); r.Ok? ==> Encodable(r.value)
    decreases |data| - Cap(data, offset), 1
  {
    hide DecodeValue, AllEncodable, DistinctKeys, FloatsOk, Normalize, TextOf, Put, EncodableEntry;
    if n > 0 {
      var key := DecodeValue(ops, data, offset);
      DecodedValue(ops, data, offset);
      if key.Ok? {
        var item := DecodeValue(ops, data, key.offset);
        DecodedValue(ops, data, key.offset);
        if item.Ok? {
          var k := Normalize(TextOf(ops, key.value));
          KeyIsFine(ops, key.value, item.value);
          PutKeeps(acc, k, item.value);
          DecodedMap(ops, data, item.offset, n - 1, Put(acc, k, item.value));
        }
      }
    }
  }

  /** The decoder's possible results are exactly the values encode can carry. */
  lemma DecodableIffEncodable(ops: FloatOps, v: Value)
    requires FloatsOk(ops)
    ensures Encodable(v) <==> exists data: seq<Byte>, offset: nat :: DecodesTo(ops, data, offset, v)
  {
    hide Encodable, FloatsOk, DecodeValue, Encode;
    if Encodable(v) {
      RoundTrip(ops, v, []);
      assert DecodesTo(ops, Encode(v) + [], 0, v);
    }
    forall data: seq<Byte>, offset: nat | DecodesTo(ops, data, offset, v) ensures Encodable(v) {
      DecodedValue(ops, data, offset);
    }
  }

  ghost predicate DecodesTo(ops: FloatOps, data: seq<Byte>, offset: nat, v: Value) {
    var r := DecodeValue(ops, data, offset);
    r.Ok? && r.value == v
  }

  /** Re-encoding any decoded value and decoding it again changes nothing. */
  lemma DecodeIsStable(ops: FloatOps, data: seq<Byte>, offset: nat, suffix: seq<Byte>)
    requires FloatsOk(ops) && DecodeValue(ops, data, offset).Ok?
    ensures var v := DecodeValue(ops, data, offset).value;
      Yields(DecodeValue(ops, Encode(v) + suffix, 0), v, |Encode(v)|)
  {
    hide Encodable, FloatsOk, DecodeValue, Encode;
    DecodedValue(ops, data, offset);
    RoundTrip(ops, DecodeValue(ops, data, offset).value, suffix);
  }

  // --- the shortest form ---

  lemma HeadersGrow(m: nat, n: nat)
    requires m <= n
    ensures |MapHeader(m)| <= |MapHeader(n)| && |ArrayHeader(m)| == |MapHeader(m)|
  {
  }

  lemma {:induction false} ItemsAppend(es: seq<Entry>, e: Entry)
    ensures |EncodeItems(es + [e])| == |EncodeItems(es)| + |EncodeItem(e)|
  {
    hide EncodeItem;
    if es == [] {
      assert es + [e] == [e] && [e][1..] == [];
    } else {
      assert (es + [e])[1..] == es[1..] + [e];
      ItemsAppend(es[1..], e);
    }
  }

  /** Overwriting or appending costs at most one more pair. */
  lemma {:induction false} PutCost(es: seq<Entry>, k: Key, v: Value)
    ensures |EncodePairs(Put(es, k, v))| <= |EncodePairs(es)| + |EncodePair(Entry(k, v))|
  {
    hide EncodePair;
    if es == [] {
      assert [Entry(k, v)][1..] == [];
    } else if es[0].key == k {
      assert Put(es, k, v)[1..] == es[1..];
    } else {
      PutCost(es[1..], k, v);
      assert Put(es, k, v)[1..] == Put(es[1..], k, v);
    }
  }

  lemma {:induction false} ItemsWithinPairs(es: seq<Entry>)
    ensures |EncodeItems(es)| <= |EncodePairs(es)|
  {
    hide EncodeStr, Encode;
    if es != [] { ItemsWithinPairs(es[1..]); }
  }

  /** What a decoded array costs to write. */
  lemma ArrayCost(es: seq<Entry>, n: nat)
    requires |es| <= n
    ensures IsList(es) ==> |Encode(Arr(es))| <= |ArrayHeader(n)| + |EncodeItems(es)|
    ensures |Encode(Arr(es))| <= |MapHeader(n)| + |EncodePairs(es)|
  {
    hide EncodeItems, EncodePairs, MapHeader, ArrayHeader, IsList;
    HeadersGrow(|es|, n);
    HeadersGrow(n, n);
    ItemsWithinPairs(es);
  }

  lemma PairCost(key: seq<Byte>, v: Value)
    ensures |EncodePair(Entry(Normalize(key), v))| == |Encode(Str(key))| + |Encode(v)|
  {
    hide Normalize, KeyText, EncodeStr;
    NormalizeKeepsText(key);
  }

  /** Without floats and with string keys, the encoding of what was read is no longer than what was read:
      shortest integer and length forms, and fewer entries when keys repeat or a map turns into a list. */
  lemma {:induction false} ShortestForm(ops: FloatOps, data: seq<Byte>, offset: nat)
    requires FloatsOk(ops)
    ensures var r := DecodeValue(ops, data, offset);
      r.Ok? && r.plain && r.offset <= |data| ==> |Encode(r.value)| <= r.offset - offset
    decreases |data| - Cap(data, offset), 0
  {
    hide DecodeValue, DecodeArray, DecodeMap, ArrayHeader, MapHeader, FloatsOk, Encode, IsList, EncodeItems,
         EncodePairs, Numbered;
    var shape, start, n := HeadShape(ops, data, offset);
    var r := DecodeValue(ops, data, offset);
    EmptyIsFine();
    NothingIsFree();
    if shape.Items? {
      ShortItems(ops, data, start, n, []);
      if r.Ok? {
        NumberedIsDistinct(r.value.entries);
        ArrayCost(r.value.entries, n);
      }
    } else if shape.Pairs? {
      ShortPairs(ops, data, start, n, []);
      if r.Ok? { ArrayCost(r.value.entries, n); }
    }
  }

  lemma NothingIsFree()
    ensures EncodeItems([]) == [] && EncodePairs([]) == []
  {
  }

  lemma {:induction false} ShortItems(ops: FloatOps, data: seq<Byte>, offset: nat, n: nat, acc: seq<Entry>)
    requires FloatsOk(ops) && Numbered(acc, 0)
    ensures var r := DecodeArray(ops, data, offset, n, acc);
      && (r.Ok? ==> r.value.Arr? && Numbered(r.value.entries, 0) && |r.value.entries| == |acc| + n)
      && (r.Ok? && r.plain && r.offset <= |data| ==>
            |EncodeItems(r.value.entries)| <= |EncodeItems(acc)| + r.offset - offset)
    decreases |data| - Cap(data, offset), 1
  {
    hide DecodeValue, FloatsOk, Encode, EncodeItems;
    if n > 0 {
      var item := DecodeValue(ops, data, offset);
      ShortestForm(ops, data, offset);
      if item.Ok? {
        var e := Entry(IntKey(|acc|), item.value);
        ItemsAppend(acc, e);
        ShortItems(ops, data, item.offset, n - 1, acc + [e]);
      }
    }
  }

  lemma {:induction false} ShortPairs(ops: FloatOps, data: seq<Byte>, offset: nat, n: nat, acc: seq<Entry>)
    requires FloatsOk(ops)
    ensures var r := DecodeMap(ops, data, offset, n, acc);
      && (r.Ok? ==> r.value.Arr? && |r.value.entries| <= |acc| + n)
      && (r.Ok? && r.plain && r.offset <= |data| ==>
            |EncodePairs(r.value.entries)| <= |EncodePairs(acc)| + r.offset - offset)
    decreases |data| - Cap(data, offset), 1
  {
    hide DecodeValue, FloatsOk, Encode, EncodePairs, EncodePair, Normalize, Put;
    if n > 0 {
      var key := DecodeValue(ops, data, offset);
      ShortestForm(ops, data, offset);
      if key.Ok? {
        var item := DecodeValue(ops, data, key.offset);
        ShortestForm(ops, data, key.offset);
        if item.Ok? {
          var text := TextOf(ops, key.value);
          var k := Normalize(text);
          PutKeys(acc, k, item.value);
          PutCost(acc, k, item.value);
          PairCost(text, item.value);
          ShortPairs(ops, data, item.offset, n - 1, Put(acc, k, item.value));
        }
      }
    }
  }
}
