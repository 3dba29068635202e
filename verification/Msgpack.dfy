/** The SDK's MessagePack codec as two functions: what encode makes of a PHP value, and what decodeValue
    makes of any byte string from any offset, malformed ones included. */
module Msgpack {
  import opened Bytes
  import opened PhpKeys

  /** A PHP value as the codec sees it. An array is its entries in order; a float is its 8 bytes. */
  datatype Value = Nil | Bool(b: bool) | Int(i: int) | Float(bits: seq<Byte>) | Str(s: seq<Byte>)
    | Arr(entries: seq<Entry>)
  datatype Entry = Entry(key: Key, value: Value)

  // --- encoding ---

  function EncodeInt(i: int): seq<Byte> {
    if 0 <= i <= 0x7f then [i]
    else if -32 <= i < 0 then [i % 256]
    else if 0 <= i <= 0xff then [0xcc, i]
    else if 0 <= i <= 0xffff then [0xcd] + BE(i, 2)
    else if 0 <= i <= 0xffffffff then [0xce] + BE(i, 4)
    else if -128 <= i < 0 then [0xd0] + BE(i, 1)
    else if -32768 <= i < 0 then [0xd1] + BE(i, 2)
    else if -2147483648 <= i < 0 then [0xd2] + BE(i, 4)
    else [0xd3] + BE(i, 8)
  }

  function StrHeader(n: nat): seq<Byte> {
    if n <= 31 then [0xa0 + n]
    else if n <= 0xff then [0xd9, n]
    else if n <= 0xffff then [0xda] + BE(n, 2)
    else [0xdb] + BE(n, 4)
  }

  function EncodeStr(s: seq<Byte>): seq<Byte> {
    StrHeader(|s|) + s
  }

  function ArrayHeader(n: nat): seq<Byte> {
    if n <= 15 then [0x90 + n] else if n <= 0xffff then [0xdc] + BE(n, 2) else [0xdd] + BE(n, 4)
  }

  function MapHeader(n: nat): seq<Byte> {
    if n <= 15 then [0x80 + n] else if n <= 0xffff then [0xde] + BE(n, 2) else [0xdf] + BE(n, 4)
  }

  /** array_is_list */
  predicate IsList(entries: seq<Entry>) {
    forall i :: 0 <= i < |entries| ==> entries[i].key == IntKey(i)
  }

  function Encode(v: Value): seq<Byte>
    decreases v
  {
    match v
    case Nil => [0xc0]
    case Bool(b) => [if b then 0xc3 else 0xc2]
    case Int(i) => EncodeInt(i)
    case Float(bits) => [0xcb] + bits
    case Str(s) => EncodeStr(s)
    case Arr(entries) =>
      if IsList(entries) then ArrayHeader(|entries|) + EncodeItems(entries)
      else MapHeader(|entries|) + EncodePairs(entries)
  }

  function EncodeItem(e: Entry): seq<Byte>
    decreases e
  {
    Encode(e.value)
  }

  function EncodeItems(entries: seq<Entry>): seq<Byte>
    decreases entries
  {
    if entries == [] then [] else EncodeItem(entries[0]) + EncodeItems(entries[1..])
  }

  function EncodePair(e: Entry): seq<Byte>
    decreases e
  {
    EncodeStr(KeyText(e.key)) + Encode(e.value)
  }

  function EncodePairs(entries: seq<Entry>): seq<Byte>
    decreases entries
  {
    if entries == [] then [] else EncodePair(entries[0]) + EncodePairs(entries[1..])
  }

  // --- decoding ---

  /** PHP's own float conversions, of which nothing is assumed: float32 to float, and float to string. */
  datatype FloatOps = FloatOps(widen: seq<Byte> -> seq<Byte>, text: seq<Byte> -> seq<Byte>)

  /** A value and the offset behind it, or an exception. `entries` counts the calls of decodeValue that got
      past the end-of-data check; `plain` says that no float was read and every map key read was a string. */
  datatype Decoded = Ok(value: Value, offset: nat, entries: nat, plain: bool) | Throw(entries: nat)

  function Cap(data: seq<Byte>, offset: nat): nat {
    if offset < |data| then offset else |data|
  }

  /** substr($data, $offset, $n) */
  function Substr(data: seq<Byte>, offset: nat, n: nat): seq<Byte> {
    data[Cap(data, offset)..Cap(data, offset + n)]
  }

  /** ord($data[$offset]); behind the end PHP warns and yields 0. */
  function OrdAt(data: seq<Byte>, offset: nat): Byte {
    if offset < |data| then data[offset] else 0
  }

  function Signed(n: int, bits: int): int {
    if n >= bits / 2 then n - bits else n
  }

  /** unpack of k bytes. With fewer left it yields null, and returning null as int is a TypeError. */
  function ReadInt(data: seq<Byte>, offset: nat, k: nat, modulus: int, signed: bool): Decoded {
    if offset + k <= |data| then
      var n := FromBE(data[offset..offset + k]);
      Ok(Int(if signed then Signed(n, modulus) else n), offset + k, 1, true)
    else Throw(1)
  }

  function ReadFloat(ops: FloatOps, data: seq<Byte>, offset: nat, k: nat): Decoded {
    if offset + k <= |data| then
      var bits := data[offset..offset + k];
      Ok(Float(if k == 4 then ops.widen(bits) else bits), offset + k, 1, false)
    else Throw(1)
  }

  /** readStr16 and readStr32. With the length cut off, substr gets null for a length and, behind the end,
      yields the empty string: no exception. */
  function ReadStr(data: seq<Byte>, offset: nat, k: nat): Decoded {
    if offset + k <= |data| then
      var n := FromBE(data[offset..offset + k]);
      Ok(Str(Substr(data, offset + k, n)), offset + k + n, 1, true)
    else Ok(Str([]), offset + k, 1, true)
  }

  function ReadShortStr(data: seq<Byte>, offset: nat, n: nat): Decoded {
    Ok(Str(Substr(data, offset, n)), offset + n, 1, true)
  }

  /** (string)$key */
  function TextOf(ops: FloatOps, v: Value): seq<Byte> {
    match v
    case Nil => []
    case Bool(b) => if b then [0x31] else []
    case Int(i) => Decimal(i)
    case Float(bits) => ops.text(bits)
    case Str(s) => s
    case Arr(_) => [0x41, 0x72, 0x72, 0x61, 0x79]
  }

  predicate HasKey(entries: seq<Entry>, k: Key) {
    exists i :: 0 <= i < |entries| && entries[i].key == k
  }

  /** $result[$k] = $v: overwrite in place, or append. */
  function Put(entries: seq<Entry>, k: Key, v: Value): (r: seq<Entry>)
    ensures HasKey(entries, k) ==> |r| == |entries|
    ensures !HasKey(entries, k) ==> r == entries + [Entry(k, v)]
  {
    if entries == [] then [Entry(k, v)]
    else if entries[0].key == k then [Entry(k, v)] + entries[1..]
    else
      assert HasKey(entries[1..], k) ==> HasKey(entries, k) by {
        if HasKey(entries[1..], k) {
          var i :| 0 <= i < |entries[1..]| && entries[1..][i].key == k;
          assert entries[i + 1].key == k;
        }
      }
      assert HasKey(entries, k) ==> HasKey(entries[1..], k) by {
        if HasKey(entries, k) {
          var i :| 0 <= i < |entries| && entries[i].key == k;
          assert entries[1..][i - 1].key == k;
        }
      }
      [entries[0]] + Put(entries[1..], k, v)
  }

  function DecodeValue(ops: FloatOps, data: seq<Byte>, offset: nat): (r: Decoded)
    ensures r.Ok? ==> offset < |data| && offset < r.offset && 1 <= r.entries <= Cap(data, r.offset) - offset
    ensures r.Throw? ==> r.entries <= |data| - Cap(data, offset)
    decreases |data| - Cap(data, offset), 0
  {
    if offset >= |data| then Throw(0)
    else
      var byte: int := data[offset];
      var o := offset + 1;
      if byte <= 0x7f then Ok(Int(byte), o, 1, true)
      else if byte < 0x90 then Counted(DecodeMap(ops, data, o, byte - 0x80, []))
      else if byte < 0xa0 then Counted(DecodeArray(ops, data, o, byte - 0x90, []))
      else if byte < 0xc0 then ReadShortStr(data, o, byte - 0xa0)
      else if byte >= 0xe0 then Ok(Int(byte - 256), o, 1, true)
      else if byte == 0xc0 then Ok(Nil, o, 1, true)
      else if byte == 0xc2 then Ok(Bool(false), o, 1, true)
      else if byte == 0xc3 then Ok(Bool(true), o, 1, true)
      else if byte == 0xca then ReadFloat(ops, data, o, 4)
      else if byte == 0xcb then ReadFloat(ops, data, o, 8)
      else if byte == 0xcc then Ok(Int(OrdAt(data, o)), o + 1, 1, true)
      else if byte == 0xcd then ReadInt(data, o, 2, U16, false)
      else if byte == 0xce then ReadInt(data, o, 4, U32, false)
      else if byte == 0xcf then ReadInt(data, o, 8, U64, true)
      else if byte == 0xd0 then ReadInt(data, o, 1, U8, true)
      else if byte == 0xd1 then ReadInt(data, o, 2, U16, true)
      else if byte == 0xd2 then ReadInt(data, o, 4, U32, true)
      else if byte == 0xd3 then ReadInt(data, o, 8, U64, true)
      else if byte == 0xd9 then ReadShortStr(data, o + 1, OrdAt(data, o))
      else if byte == 0xda then ReadStr(data, o, 2)
      else if byte == 0xdb then ReadStr(data, o, 4)
      else if byte == 0xdc then
        if o + 2 <= |data| then Counted(DecodeArray(ops, data, o + 2, FromBE(data[o..o + 2]), [])) else Throw(1)
      else if byte == 0xdd then
        if o + 4 <= |data| then Counted(DecodeArray(ops, data, o + 4, FromBE(data[o..o + 4]), [])) else Throw(1)
      else if byte == 0xde then
        if o + 2 <= |data| then Counted(DecodeMap(ops, data, o + 2, FromBE(data[o..o + 2]), [])) else Throw(1)
      else if byte == 0xdf then
        if o + 4 <= |data| then Counted(DecodeMap(ops, data, o + 4, FromBE(data[o..o + 4]), [])) else Throw(1)
      else Throw(1)
  }

  /** One more entry, for the value whose items r is the result of. */
  function Counted(r: Decoded): Decoded {
    r.(entries := r.entries + 1)
  }

  /** decodeArrayItems with n items to go and acc decoded so far. */
  function DecodeArray(ops: FloatOps, data: seq<Byte>, offset: nat, n: nat, acc: seq<Entry>): (r: Decoded)
    ensures r.Ok? ==> offset <= r.offset && r.entries <= Cap(data, r.offset) - Cap(data, offset)
    ensures r.Throw? ==> r.entries <= |data| - Cap(data, offset)
    decreases |data| - Cap(data, offset), 1
  {
    if n == 0 then Ok(Arr(acc), offset, 0, true)
    else
      var item := DecodeValue(ops, data, offset);
      if item.Throw? then item
      else
        var rest := DecodeArray(ops, data, item.offset, n - 1, acc + [Entry(IntKey(|acc|), item.value)]);
        Joined(item, rest)
  }

  /** The result `last` of the remaining work, after `first`. */
  function Joined(first: Decoded, last: Decoded): Decoded
    requires first.Ok?
  {
    match last
    case Ok(v, o, k, p) => Ok(v, o, first.entries + k, first.plain && p)
    case Throw(k) => Throw(first.entries + k)
  }

  /** decodeMapItems with n pairs to go and acc built so far. */
  function DecodeMap(ops: FloatOps, data: seq<Byte>, offset: nat, n: nat, acc: seq<Entry>): (r: Decoded)
    ensures r.Ok? ==> offset <= r.offset && r.entries <= Cap(data, r.offset) - Cap(data, offset)
    ensures r.Throw? ==> r.entries <= |data| - Cap(data, offset)
    decreases |data| - Cap(data, offset), 1
  {
    if n == 0 then Ok(Arr(acc), offset, 0, true)
    else
      var key := DecodeValue(ops, data, offset);
      if key.Throw? then key
      else
        var item := DecodeValue(ops, data, key.offset);
        if item.Throw? then Joined(key, item)
        else
          var rest := DecodeMap(ops, data, item.offset, n - 1, Put(acc, Normalize(TextOf(ops, key.value)), item.value));
          Joined(key.(plain := key.plain && key.value.Str?), Joined(item, rest))
  }
}
