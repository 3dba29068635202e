/** The codec as it runs: encoders that append to a result in a loop, and decoders that move an offset.
    Each is proved against the functions of Msgpack. */
module MsgpackIO {
  import opened Bytes
  import opened PhpKeys
  import opened Msgpack

  // --- encoding ---

  method EncodeValue(v: Value) returns (r: seq<Byte>)
    ensures r == Encode(v)
    decreases v
  {
    hide EncodeInt, EncodeStr, EncodeItems, EncodePairs, ArrayHeader, MapHeader;
    match v {
      case Nil => r := [0xc0];
      case Bool(b) => r := [if b then 0xc3 else 0xc2];
      case Int(i) => r := EncodeInt(i);
      case Float(bits) => r := [0xcb] + bits;
      case Str(s) => r := EncodeStr(s);
      case Arr(entries) =>
        if IsList(entries) {
          r := EncodeArray(entries);
        } else {
          r := EncodeMap(entries);
        }
    }
  }

  /** The items and the pairs from one position on. */
  lemma NextItem(entries: seq<Entry>, i: nat)
    requires i <= |entries|
    ensures EncodeItems(entries[i..]) ==
            if i == |entries| then [] else Encode(entries[i].value) + EncodeItems(entries[i + 1..])
    ensures EncodePairs(entries[i..]) ==
            if i == |entries| then []
            else EncodeStr(KeyText(entries[i].key)) + Encode(entries[i].value) + EncodePairs(entries[i + 1..])
  {
    hide Encode, EncodeStr;
    if i < |entries| { assert entries[i..][1..] == entries[i + 1..]; }
  }

  lemma Regroup(a: seq<Byte>, b: seq<Byte>, c: seq<Byte>)
    ensures a + (b + c) == (a + b) + c
  {
  }

  method EncodeArray(entries: seq<Entry>) returns (result: seq<Byte>)
    ensures result == ArrayHeader(|entries|) + EncodeItems(entries)
    decreases entries
  {
    hide Encode, BE;
    var count := |entries|;
    if count <= 15 {
      result := [0x90 + count];
    } else if count <= 0xffff {
      result := [0xdc] + BE(count, 2);
    } else {
      result := [0xdd] + BE(count, 4);
    }
    assert result == ArrayHeader(count) && entries[0..] == entries;
    hide ArrayHeader, EncodeItems;
    var i := 0;
    while i < count
      invariant 0 <= i <= count
      invariant result + EncodeItems(entries[i..]) == ArrayHeader(count) + EncodeItems(entries)
    {
      NextItem(entries, i);
      var e := entries[i];
      assert e.value < e;
      var item := EncodeValue(e.value);
      Regroup(result, item, EncodeItems(entries[i + 1..]));
      result := result + item;
      i := i + 1;
    }
    NextItem(entries, count);
  }

  method EncodeMap(entries: seq<Entry>) returns (result: seq<Byte>)
    ensures result == MapHeader(|entries|) + EncodePairs(entries)
    decreases entries
  {
    hide Encode, EncodeStr, BE;
    var count := |entries|;
    if count <= 15 {
      result := [0x80 + count];
    } else if count <= 0xffff {
      result := [0xde] + BE(count, 2);
    } else {
      result := [0xdf] + BE(count, 4);
    }
    assert result == MapHeader(count) && entries[0..] == entries;
    hide MapHeader, EncodePairs;
    var i := 0;
    while i < count
      invariant 0 <= i <= count
      invariant result + EncodePairs(entries[i..]) == MapHeader(count) + EncodePairs(entries)
    {
      NextItem(entries, i);
      var e := entries[i];
      Regroup(EncodeStr(KeyText(e.key)), Encode(e.value), EncodePairs(entries[i + 1..]));
      Regroup(result, EncodeStr(KeyText(e.key)), Encode(e.value) + EncodePairs(entries[i + 1..]));
      result := result + EncodeStr(KeyText(e.key));
      assert e.value < e;
      var item := EncodeValue(e.value);
      Regroup(result, item, EncodePairs(entries[i + 1..]));
      result := result + item;
      i := i + 1;
    }
    NextItem(entries, count);
  }

  // --- decoding ---

  /** What a decoding method gives its caller: a value, or an exception. */
  datatype Answer = Value(v: Msgpack.Value) | Exception

  /** The answer and the offset are what the specification says. */
  ghost predicate Agrees(a: Answer, offset: nat, r: Decoded) {
    match r
    case Ok(v, o, _, _) => a == Value(v) && offset == o
    case Throw(_) => a == Exception
  }

  /** Two results that a caller cannot tell apart. */
  ghost predicate Same(r: Decoded, q: Decoded) {
    (r.Throw? && q.Throw?) || (r.Ok? && q.Ok? && r.value == q.value && r.offset == q.offset)
  }

  /** One turn of the map loop. */
  lemma MapTurn(ops: FloatOps, data: seq<Byte>, offset: nat, n: nat, acc: seq<Entry>)
    ensures n == 0 ==> DecodeMap(ops, data, offset, n, acc) == Ok(Arr(acc), offset, 0, true)
    ensures n > 0 ==>
      var r := DecodeMap(ops, data, offset, n, acc);
      var key := DecodeValue(ops, data, offset);
      if key.Throw? then r.Throw?
      else
        var item := DecodeValue(ops, data, key.offset);
        if item.Throw? then r.Throw?
        else Same(r, DecodeMap(ops, data, item.offset, n - 1, Put(acc, Normalize(TextOf(ops, key.value)), item.value)))
  {
    hide DecodeValue, Normalize, TextOf, Put;
  }

  /** A byte string and the offset that the decoding methods pass by reference. */
  class Reader {
    const ops: FloatOps
    const data: seq<Byte>
    var offset: nat

    constructor (ops: FloatOps, data: seq<Byte>)
      ensures this.ops == ops && this.data == data && offset == 0
    {
      this.ops, this.data, offset := ops, data, 0;
    }

    method DecodeNext() returns (a: Answer)
      modifies this
      ensures Agrees(a, offset, DecodeValue(ops, data, old(offset)))
      decreases |data| - Cap(data, offset), 0
    {
      hide FromBE, DecodeArray, DecodeMap, ReadInt, ReadFloat, ReadStr, Same;
      if offset >= |data| { return Exception; }
      var byte: int := data[offset];
      offset := offset + 1;
      if byte <= 0x7f { return Value(Int(byte)); }
      if byte < 0x90 { a := DecodeMapItems(byte - 0x80); return; }
      if byte < 0xa0 { a := DecodeArrayItems(byte - 0x90); return; }
      if byte < 0xc0 { a := Take(byte - 0xa0); return; }
      if byte >= 0xe0 { return Value(Int(byte - 256)); }
      match byte {
        case 0xc0 => a := Value(Nil);
        case 0xc2 => a := Value(Bool(false));
        case 0xc3 => a := Value(Bool(true));
        case 0xca => a := ReadFloatOf(4);
        case 0xcb => a := ReadFloatOf(8);
        case 0xcc => a := ReadUint8();
        case 0xcd => a := ReadIntOf(2, U16, false);
        case 0xce => a := ReadIntOf(4, U32, false);
        case 0xcf => a := ReadIntOf(8, U64, true);
        case 0xd0 => a := ReadIntOf(1, U8, true);
        case 0xd1 => a := ReadIntOf(2, U16, true);
        case 0xd2 => a := ReadIntOf(4, U32, true);
        case 0xd3 => a := ReadIntOf(8, U64, true);
        case 0xd9 =>
          var len := OrdAt(data, offset);
          offset := offset + 1;
          a := Take(len);
        case 0xda => a := ReadStrOf(2);
        case 0xdb => a := ReadStrOf(4);
        case 0xdc | 0xdd =>
          var ok, count := ReadRaw(if byte == 0xdc then 2 else 4);
          if !ok { return Exception; }
          a := DecodeArrayItems(count);
        case 0xde | 0xdf =>
          var ok, count := ReadRaw(if byte == 0xde then 2 else 4);
          if !ok { return Exception; }
          a := DecodeMapItems(count);
        case _ => a := Exception;
      }
    }

    /** substr and advance, as the short string forms do. */
    method Take(n: nat) returns (a: Answer)
      modifies this
      ensures Agrees(a, offset, ReadShortStr(data, old(offset), n))
    {
      a := Value(Str(Substr(data, offset, n)));
      offset := offset + n;
    }

    method ReadUint8() returns (a: Answer)
      modifies this
      ensures a == Value(Int(OrdAt(data, old(offset)))) && offset == old(offset) + 1
    {
      a := Value(Int(OrdAt(data, offset)));
      offset := offset + 1;
    }

    /** unpack of the next k bytes, which fails when fewer are left, and the advance behind them. */
    method ReadRaw(k: nat) returns (ok: bool, n: nat)
      modifies this
      ensures ok == (old(offset) + k <= |data|) && offset == old(offset) + k
      ensures n == if ok then FromBE(data[old(offset)..old(offset) + k]) else 0
    {
      var bytes := Substr(data, offset, k);
      ok := |bytes| == k && offset + k <= |data|;
      n := if ok then FromBE(bytes) else 0;
      offset := offset + k;
    }

    /** The integer reads: the sign is put back where the number is at or above half the modulus. */
    method ReadIntOf(k: nat, modulus: int, signed: bool) returns (a: Answer)
      modifies this
      ensures Agrees(a, offset, ReadInt(data, old(offset), k, modulus, signed))
    {
      var ok, n := ReadRaw(k);
      if !ok { return Exception; }
      var val: int := n;
      if signed && val >= modulus / 2 { val := val - modulus; }
      a := Value(Int(val));
    }

    method ReadFloatOf(k: nat) returns (a: Answer)
      modifies this
      ensures Agrees(a, offset, ReadFloat(ops, data, old(offset), k))
    {
      if offset + k > |data| { return Exception; }
      var bits := data[offset..offset + k];
      offset := offset + k;
      a := Value(Float(if k == 4 then ops.widen(bits) else bits));
    }

    method ReadStrOf(k: nat) returns (a: Answer)
      modifies this
      ensures Agrees(a, offset, ReadStr(data, old(offset), k))
    {
      var ok, len := ReadRaw(k);
      var str := if ok then Substr(data, offset, len) else data[Cap(data, offset)..];
      assert !ok ==> str == [];
      a := Value(Str(str));
      offset := offset + len;
    }

    method DecodeArrayItems(count: nat) returns (a: Answer)
      modifies this
      ensures Agrees(a, offset, DecodeArray(ops, data, old(offset), count, []))
      decreases |data| - Cap(data, offset), 1
    {
      hide DecodeValue;
      ghost var all := DecodeArray(ops, data, offset, count, []);
      var result: seq<Entry> := [];
      var i := 0;
      while i < count
        invariant 0 <= i <= count && |result| == i && offset >= old(offset)
        invariant Same(DecodeArray(ops, data, offset, count - i, result), all)
      {
        var item := DecodeNext();
        if item.Exception? { return Exception; }
        result := result + [Entry(IntKey(|result|), item.v)];
        i := i + 1;
      }
      a := Value(Arr(result));
    }

    method DecodeMapItems(count: nat) returns (a: Answer)
      modifies this
      ensures Agrees(a, offset, DecodeMap(ops, data, old(offset), count, []))
      decreases |data| - Cap(data, offset), 1
    {
      hide DecodeValue, DecodeMap, Normalize, TextOf, Put;
      ghost var all := DecodeMap(ops, data, offset, count, []);
      var result: seq<Entry> := [];
      var i := 0;
      while i < count
        invariant 0 <= i <= count && offset >= old(offset)
        invariant Same(DecodeMap(ops, data, offset, count - i, result), all)
      {
        MapTurn(ops, data, offset, count - i, result);
        var key := DecodeNext();
        if key.Exception? { return Exception; }
        var item := DecodeNext();
        if item.Exception? { return Exception; }
        result := Put(result, Normalize(TextOf(ops, key.v)), item.v);
        i := i + 1;
      }
      MapTurn(ops, data, offset, 0, result);
      a := Value(Arr(result));
    }
  }

  /** The public decode: bytes behind the first value are ignored. */
  method DecodeString(ops: FloatOps, data: seq<Byte>) returns (a: Answer)
    ensures match DecodeValue(ops, data, 0)
            case Ok(v, _, _, _) => a == Value(v)
            case Throw(_) => a == Exception
  {
    var reader := new Reader(ops, data);
    a := reader.DecodeNext();
  }
}
