/** Input that stops too early: which byte strings the decoder accepts although it reads past their end. */
module MsgpackCut {
  import opened Bytes
  import opened PhpKeys
  import opened Msgpack
  import opened MsgpackTrip

  /** Cut-off strings of every form and a cut-off uint8 come back as values; other cut-off leaves throw. */
  lemma CutLeavesByExample(ops: FloatOps)
    ensures DecodeValue(ops, [0xa5, 0x61], 0) == Ok(Str([0x61]), 6, 1, true)
    ensures DecodeValue(ops, [0xd9], 0) == Ok(Str([]), 2, 1, true)
    ensures DecodeValue(ops, [0xda], 0) == Ok(Str([]), 3, 1, true)
    ensures DecodeValue(ops, [0xdb, 0x00], 0) == Ok(Str([]), 5, 1, true)
    ensures DecodeValue(ops, [0xcc], 0) == Ok(Int(0), 2, 1, true)
    ensures DecodeValue(ops, [0xcd], 0) == DecodeValue(ops, [0xd0], 0) == DecodeValue(ops, [0xcb], 0) == Throw(1)
    ensures DecodeValue(ops, [0xdc], 0) == DecodeValue(ops, [0xdf, 0x00], 0) == Throw(1)
  {
    assert [0xa5, 0x61][1..2] == [0x61];
    assert Substr([0xd9], 2, 0) == [];
  }

  // --- which reads go past the end ---

  /** What stands at an offset: a value of its own, or a header in front of items or of pairs. */
  datatype Head = Leaf | Items(start: nat, n: nat) | Pairs(start: nat, n: nat)

  function HeadAt(data: seq<Byte>, offset: nat): Head
    requires offset < |data|
  {
    var byte: int := data[offset];
    var o := offset + 1;
    if 0x80 <= byte < 0x90 then Pairs(o, byte - 0x80)
    else if 0x90 <= byte < 0xa0 then Items(o, byte - 0x90)
    else if byte == 0xdc && o + 2 <= |data| then Items(o + 2, FromBE(data[o..o + 2]))
    else if byte == 0xdd && o + 4 <= |data| then Items(o + 4, FromBE(data[o..o + 4]))
    else if byte == 0xde && o + 2 <= |data| then Pairs(o + 2, FromBE(data[o..o + 2]))
    else if byte == 0xdf && o + 4 <= |data| then Pairs(o + 4, FromBE(data[o..o + 4]))
    else Leaf
  }

  /** Where the last value that decoding reads begins. */
  function LastValue(ops: FloatOps, data: seq<Byte>, offset: nat): nat
    decreases |data| - Cap(data, offset), 0
  {
    if offset >= |data| then offset
    else match HeadAt(data, offset)
      case Leaf => offset
      case Items(start, n) => if n == 0 then offset else LastOf(ops, data, start, n)
      case Pairs(start, n) => if n == 0 then offset else LastOf(ops, data, start, 2 * n)
  }

  /** The same for n values in a row. */
  function LastOf(ops: FloatOps, data: seq<Byte>, offset: nat, n: nat): nat
    requires n > 0
    decreases |data| - Cap(data, offset), 1
  {
    var item := DecodeValue(ops, data, offset);
    if n == 1 || item.Throw? then LastValue(ops, data, offset) else LastOf(ops, data, item.offset, n - 1)
  }

  /** A string whose length or bytes are cut off, or a uint8 whose byte is. */
  predicate CutLeaf(data: seq<Byte>, p: nat) {
    p < |data| &&
    var (byte: int, left: int) := (data[p], |data| - p - 1);
    || (0xa0 <= byte < 0xc0 && left < byte - 0xa0)
    || (byte == 0xcc && left < 1)
    || (byte == 0xd9 && left < 1 + OrdAt(data, p + 1))
    || (byte == 0xda && (left < 2 || left < 2 + FromBE(data[p + 1..p + 3])))
    || (byte == 0xdb && (left < 4 || left < 4 + FromBE(data[p + 1..p + 5])))
  }

  /** How many bytes of length a string's tag announces, and the length they or the tag give. */
  function LengthBytes(byte: Byte): nat {
    if byte == 0xd9 then 1 else if byte == 0xda then 2 else if byte == 0xdb then 4 else 0
  }

  /** What comes of a cut leaf: a uint8 without its byte is 0, a string without its whole length is empty, and
      any other string is what is left of it; the offset moves on as if all bytes were there. */
  lemma CutLeafIs(ops: FloatOps, data: seq<Byte>, p: nat)
    requires CutLeaf(data, p)
    ensures var (r, k) := (DecodeValue(ops, data, p), LengthBytes(data[p]));
      if data[p] == 0xcc then r == Ok(Int(0), p + 2, 1, true)
      else if p + 1 + k > |data| then r == Ok(Str([]), p + 1 + k, 1, true)
      else
        var n := if k == 0 then data[p] - 0xa0 else FromBE(data[p + 1..p + 1 + k]);
        n >= 0 && r == Ok(Str(data[p + 1 + k..]), p + 1 + k + n, 1, true)
  {
    hide FromBE, DecodeArray, DecodeMap;
    if data[p] == 0xd9 && p + 1 < |data| { FirstNumber(data, p + 1); }
    var k := LengthBytes(data[p]);
    if p + 1 + k <= |data| {
      assert data[p + 1 + k..] == data[p + 1 + k..|data|];
    } else {
      assert data[|data|..|data|] == [] && |data| <= p + 1 + k;
    }
  }

  lemma LeafOverrun(ops: FloatOps, data: seq<Byte>, offset: nat)
    requires offset < |data| && HeadAt(data, offset).Leaf?
    ensures var r := DecodeValue(ops, data, offset); r.Ok? ==> (r.offset > |data| <==> CutLeaf(data, offset))
  {
    hide FromBE, DecodeArray, DecodeMap, Substr;
  }

  lemma HeadStarts(ops: FloatOps, data: seq<Byte>, offset: nat)
    requires offset < |data|
    ensures var h := HeadAt(data, offset);
      && (!h.Leaf? ==> offset < h.start <= |data| && !CutLeaf(data, offset))
      && (h.Items? ==> DecodeValue(ops, data, offset) == Counted(DecodeArray(ops, data, h.start, h.n, [])))
      && (h.Pairs? ==> DecodeValue(ops, data, offset) == Counted(DecodeMap(ops, data, h.start, h.n, [])))
  {
    hide FromBE, DecodeArray, DecodeMap;
  }

  /** A successful decode reads past the end of the data exactly when the last value it read is a cut-off
      string or a cut-off uint8. */
  lemma {:induction false} OverrunIffCutLeaf(ops: FloatOps, data: seq<Byte>, offset: nat)
    requires DecodeValue(ops, data, offset).Ok?
    ensures DecodeValue(ops, data, offset).offset > |data| <==> CutLeaf(data, LastValue(ops, data, offset))
    decreases |data| - Cap(data, offset), 0
  {
    hide DecodeValue, DecodeArray, DecodeMap, CutLeaf, LastOf;
    HeadStarts(ops, data, offset);
    match HeadAt(data, offset)
    case Leaf => LeafOverrun(ops, data, offset);
    case Items(start, n) => ArrayOverrun(ops, data, start, n, []);
    case Pairs(start, n) => MapOverrun(ops, data, start, n, []);
  }

  lemma {:induction false} ArrayOverrun(ops: FloatOps, data: seq<Byte>, offset: nat, n: nat, acc: seq<Entry>)
    requires DecodeArray(ops, data, offset, n, acc).Ok? && offset <= |data|
    ensures DecodeArray(ops, data, offset, n, acc).offset > |data| <==>
      n > 0 && CutLeaf(data, LastOf(ops, data, offset, n))
    decreases |data| - Cap(data, offset), 1
  {
    hide DecodeValue, CutLeaf, LastValue;
    if n > 0 {
      var item := DecodeValue(ops, data, offset);
      OverrunIffCutLeaf(ops, data, offset);
      if n > 1 {
        NextIsInside(ops, data, item.offset, n - 1, acc + [Entry(IntKey(|acc|), item.value)]);
        ArrayOverrun(ops, data, item.offset, n - 1, acc + [Entry(IntKey(|acc|), item.value)]);
      }
    }
  }

  lemma NextIsInside(ops: FloatOps, data: seq<Byte>, offset: nat, n: nat, acc: seq<Entry>)
    requires n > 0 && (DecodeArray(ops, data, offset, n, acc).Ok? || DecodeMap(ops, data, offset, n, acc).Ok?)
    ensures offset < |data|
  {
    hide DecodeValue;
  }

  lemma {:induction false} MapOverrun(ops: FloatOps, data: seq<Byte>, offset: nat, n: nat, acc: seq<Entry>)
    requires DecodeMap(ops, data, offset, n, acc).Ok? && offset <= |data|
    ensures DecodeMap(ops, data, offset, n, acc).offset > |data| <==>
      n > 0 && CutLeaf(data, LastOf(ops, data, offset, 2 * n))
    decreases |data| - Cap(data, offset), 1
  {
    hide DecodeValue, CutLeaf, LastValue, Put, Normalize, TextOf;
    if n > 0 {
      var key := DecodeValue(ops, data, offset);
      var item := DecodeValue(ops, data, key.offset);
      OverrunIffCutLeaf(ops, data, key.offset);
      assert LastOf(ops, data, offset, 2 * n) == LastOf(ops, data, key.offset, 2 * n - 1);
      if n > 1 {
        var acc' := Put(acc, Normalize(TextOf(ops, key.value)), item.value);
        assert LastOf(ops, data, key.offset, 2 * n - 1) == LastOf(ops, data, item.offset, 2 * (n - 1));
        NextIsInside(ops, data, item.offset, n - 1, acc');
        MapOverrun(ops, data, item.offset, n - 1, acc');
      }
    }
  }

  // --- cutting an encoding ---

  /** The value whose bytes come last in the encoding. */
  function LastLeaf(v: Value): Value
    decreases v
  {
    if v.Arr? && v.entries != [] then LastLeafOf(v.entries[|v.entries| - 1]) else v
  }

  function LastLeafOf(e: Entry): Value
    decreases e
  {
    LastLeaf(e.value)
  }

  /** A leaf that the decoder accepts from its first byte on: any string, or an integer in uint8 form. */
  predicate Tolerated(leaf: Value) {
    leaf.Str? || (leaf.Int? && 0x80 <= leaf.i <= 0xff)
  }

  /** The data ends inside the bytes x, which begin at this offset. */
  predicate Begins(data: seq<Byte>, offset: nat, x: seq<Byte>) {
    offset <= |data| < offset + |x| && data[offset..] == x[..|data| - offset]
  }

  lemma BeginsBounds(data: seq<Byte>, offset: nat, x: seq<Byte>)
    requires Begins(data, offset, x)
    ensures offset <= |data| < offset + |x|
  {
  }

  lemma BeginsSplit(data: seq<Byte>, offset: nat, x: seq<Byte>, y: seq<Byte>)
    requires Begins(data, offset, x + y)
    ensures if |data| < offset + |x| then Begins(data, offset, x)
            else At(data, offset, x) && Begins(data, offset + |x|, y)
  {
    var k := |data| - offset;
    if |data| < offset + |x| {
      assert (x + y)[..k] == x[..k];
    } else {
      assert data[offset..offset + |x|] == data[offset..][..|x|] == x;
      assert data[offset + |x|..] == data[offset..][|x|..] == y[..k - |x|];
    }
  }

  lemma BeginsByte(data: seq<Byte>, offset: nat, c: Byte, y: seq<Byte>)
    requires Begins(data, offset, [c] + y) && offset < |data|
    ensures data[offset] == c && Begins(data, offset + 1, y)
  {
    BeginsSplit(data, offset, [c], y);
    assert data[offset] == data[offset..offset + 1][0];
  }

  /** What becomes of a cut-off encoding: accepted or not, and if so with nothing left to read. */
  predicate Accepts(r: Decoded, data: seq<Byte>, accepted: bool) {
    r.Ok? == accepted && (r.Ok? ==> r.offset >= |data|)
  }

  /** Enough is left for the first byte of the last leaf, and the leaf can do with that. */
  function Enough(k: int, size: nat, leaf: Value): bool {
    Tolerated(leaf) && k > size - |Encode(leaf)|
  }

  lemma CutInt(ops: FloatOps, data: seq<Byte>, offset: nat, i: int)
    requires IsInt64(i) && Begins(data, offset, EncodeInt(i))
    ensures Accepts(DecodeValue(ops, data, offset), data, Tolerated(Int(i)) && offset < |data|)
  {
    hide BE, FromBE, DecodeArray, DecodeMap;
    var x := EncodeInt(i);
    assert x == [x[0]] + x[1..];
    if offset < |data| { BeginsByte(data, offset, x[0], x[1..]); }
  }

  /** readStr16 and readStr32 where the length or the text is cut off. */
  lemma CutReadStr(data: seq<Byte>, offset: nat, s: seq<Byte>, k: nat)
    requires |s| < Pow256(k) && Begins(data, offset, BE(|s|, k) + s)
    ensures ReadStr(data, offset, k).Ok? && ReadStr(data, offset, k).offset >= |data|
  {
    hide BE, FromBE, Substr;
    BeginsSplit(data, offset, BE(|s|, k), s);
    if |data| >= offset + k { LengthField(data, offset, |s|, k); }
  }

  lemma CutStr(ops: FloatOps, data: seq<Byte>, offset: nat, s: seq<Byte>)
    requires |s| < U32 && Begins(data, offset, EncodeStr(s))
    ensures Accepts(DecodeValue(ops, data, offset), data, offset < |data|)
  {
    hide BE, FromBE, DecodeArray, DecodeMap, Substr, ReadStr, Begins, At;
    if offset < |data| {
      Pows();
      var h := StrHeader(|s|);
      assert h == [h[0]] + h[1..] && EncodeStr(s) == [h[0]] + (h[1..] + s);
      BeginsByte(data, offset, h[0], h[1..] + s);
      BeginsBounds(data, offset + 1, h[1..] + s);
      if |s| > 0xffff {
        CutReadStr(data, offset + 1, s, 4);
      } else if |s| > 0xff {
        CutReadStr(data, offset + 1, s, 2);
      } else if |s| > 31 && offset + 1 < |data| {
        assert h[1..] + s == [|s|] + s;
        BeginsByte(data, offset + 1, |s|, s);
      }
    }
  }

  lemma CutScalar(ops: FloatOps, data: seq<Byte>, offset: nat, v: Value)
    requires Encodable(v) && (v.Nil? || v.Bool? || v.Float?) && Begins(data, offset, Encode(v))
    ensures Accepts(DecodeValue(ops, data, offset), data, false)
  {
    hide DecodeArray, DecodeMap;
    var x := Encode(v);
    assert x == [x[0]] + x[1..];
    if offset < |data| { BeginsByte(data, offset, x[0], x[1..]); }
  }

  /** A header that is cut off. */
  lemma CutHeader(ops: FloatOps, data: seq<Byte>, offset: nat, n: nat)
    requires Begins(data, offset, ArrayHeader(n)) || Begins(data, offset, MapHeader(n))
    ensures Accepts(DecodeValue(ops, data, offset), data, false)
  {
    hide BE, FromBE, DecodeArray, DecodeMap;
    var x := if Begins(data, offset, ArrayHeader(n)) then ArrayHeader(n) else MapHeader(n);
    assert x == [x[0]] + x[1..];
    if offset < |data| { BeginsByte(data, offset, x[0], x[1..]); }
  }

  lemma {:induction false} LeafSize(v: Value)
    ensures |Encode(LastLeaf(v))| <= |Encode(v)|
    decreases v
  {
    hide EncodeItems, EncodePairs, ArrayHeader, MapHeader, EncodeInt, EncodeStr;
    if v.Arr? && v.entries != [] {
      ItemsLeafSize(v.entries);
      PairsLeafSize(v.entries);
    }
  }

  lemma {:induction false} EntryLeafSize(e: Entry)
    ensures |Encode(LastLeafOf(e))| <= |EncodeItem(e)| <= |EncodePair(e)|
    decreases e
  {
    hide Encode, EncodeStr;
    LeafSize(e.value);
  }

  lemma {:induction false} ItemsLeafSize(es: seq<Entry>)
    requires es != []
    ensures |Encode(LastLeafOf(es[|es| - 1]))| <= |EncodeItems(es)|
    decreases es
  {
    hide EncodeItem, Encode;
    if |es| == 1 { EntryLeafSize(es[0]); } else { ItemsLeafSize(es[1..]); }
  }

  lemma {:induction false} PairsLeafSize(es: seq<Entry>)
    requires es != []
    ensures |Encode(LastLeafOf(es[|es| - 1]))| <= |EncodePairs(es)|
    decreases es
  {
    hide EncodePair, Encode;
    if |es| == 1 { EntryLeafSize(es[0]); } else { PairsLeafSize(es[1..]); }
  }

  lemma {:induction false} CutValue(ops: FloatOps, data: seq<Byte>, offset: nat, v: Value)
    requires Encodable(v) && Begins(data, offset, Encode(v))
    ensures Accepts(DecodeValue(ops, data, offset), data, Enough(|data| - offset, |Encode(v)|, LastLeaf(v)))
    decreases v
  {
    hide EncodeInt, EncodeStr, ArrayHeader, MapHeader, Begins, DecodeValue, DecodeArray, DecodeMap, EncodeItems,
         EncodePairs, AllEncodable;
    match v
    case Int(i) => CutInt(ops, data, offset, i); BeginsBounds(data, offset, Encode(v));
    case Str(s) => CutStr(ops, data, offset, s); BeginsBounds(data, offset, Encode(v));
    case Arr(es) => if IsList(es) { CutList(ops, data, offset, es); } else { CutMap(ops, data, offset, es); }
    case _ => CutScalar(ops, data, offset, v);
  }

  lemma {:induction false} CutList(ops: FloatOps, data: seq<Byte>, offset: nat, es: seq<Entry>)
    requires |es| < U32 && AllEncodable(es) && Begins(data, offset, ArrayHeader(|es|) + EncodeItems(es))
    ensures Accepts(DecodeValue(ops, data, offset), data,
                    Enough(|data| - offset, |ArrayHeader(|es|)| + |EncodeItems(es)|,
                           if es == [] then Arr(es) else LastLeafOf(es[|es| - 1])))
    decreases es, 1
  {
    hide Begins, At, DecodeValue, DecodeArray, ArrayHeader, Encode, AllEncodable;
    var h := ArrayHeader(|es|);
    BeginsBounds(data, offset, h + EncodeItems(es));
    BeginsSplit(data, offset, h, EncodeItems(es));
    if es != [] { ItemsLeafSize(es); }
    if |data| < offset + |h| {
      CutHeader(ops, data, offset, |es|);
    } else {
      ArrayStart(ops, data, offset, |es|);
      BeginsBounds(data, offset + |h|, EncodeItems(es));
      CutItems(ops, data, offset + |h|, es, []);
    }
  }

  lemma {:induction false} CutItems(ops: FloatOps, data: seq<Byte>, offset: nat, es: seq<Entry>, acc: seq<Entry>)
    requires es != [] && AllEncodable(es) && Begins(data, offset, EncodeItems(es))
    ensures Accepts(DecodeArray(ops, data, offset, |es|, acc), data,
                    Enough(|data| - offset, |EncodeItems(es)|, LastLeafOf(es[|es| - 1])))
    decreases es, 0
  {
    hide Begins, At, DecodeValue, EncodeItem, Encode, AllEncodable, Tolerated, LastLeafOf;
    var (x, rest) := (EncodeItem(es[0]), es[1..]);
    FirstAndRest(es, 0);
    BeginsBounds(data, offset, EncodeItems(es));
    BeginsSplit(data, offset, x, EncodeItems(rest));
    if |data| < offset + |x| {
      CutItem(ops, data, offset, es[0]);
      if rest != [] { ItemsLeafSize(rest); NothingLeft(ops, data); }
    } else {
      TripItem(ops, data, offset, es[0]);
      BeginsBounds(data, offset + |x|, EncodeItems(rest));
      CutItems(ops, data, offset + |x|, rest, acc + [Entry(IntKey(|acc|), es[0].value)]);
    }
  }

  lemma NothingLeft(ops: FloatOps, data: seq<Byte>)
    ensures forall offset: nat :: offset >= |data| ==> DecodeValue(ops, data, offset).Throw?
  {
  }

  lemma {:induction false} CutItem(ops: FloatOps, data: seq<Byte>, offset: nat, e: Entry)
    requires EncodableEntry(e) && Begins(data, offset, EncodeItem(e))
    ensures Accepts(DecodeValue(ops, data, offset), data, Enough(|data| - offset, |EncodeItem(e)|, LastLeafOf(e)))
    decreases e
  {
    hide Begins, DecodeValue, Encode, Encodable, Tolerated, LastLeaf;
    CutValue(ops, data, offset, e.value);
  }

  lemma {:induction false} CutMap(ops: FloatOps, data: seq<Byte>, offset: nat, es: seq<Entry>)
    requires |es| < U32 && AllEncodable(es) && Begins(data, offset, MapHeader(|es|) + EncodePairs(es))
    ensures Accepts(DecodeValue(ops, data, offset), data,
                    Enough(|data| - offset, |MapHeader(|es|)| + |EncodePairs(es)|,
                           if es == [] then Arr(es) else LastLeafOf(es[|es| - 1])))
    decreases es, 1
  {
    hide Begins, At, DecodeValue, DecodeMap, MapHeader, Encode, AllEncodable;
    var h := MapHeader(|es|);
    BeginsBounds(data, offset, h + EncodePairs(es));
    BeginsSplit(data, offset, h, EncodePairs(es));
    if es != [] { PairsLeafSize(es); }
    if |data| < offset + |h| {
      CutHeader(ops, data, offset, |es|);
    } else {
      MapStart(ops, data, offset, |es|);
      BeginsBounds(data, offset + |h|, EncodePairs(es));
      CutPairs(ops, data, offset + |h|, es, []);
    }
  }

  lemma {:induction false} CutPairs(ops: FloatOps, data: seq<Byte>, offset: nat, es: seq<Entry>, acc: seq<Entry>)
    requires es != [] && AllEncodable(es) && Begins(data, offset, EncodePairs(es))
    ensures Accepts(DecodeMap(ops, data, offset, |es|, acc), data,
                    Enough(|data| - offset, |EncodePairs(es)|, LastLeafOf(es[|es| - 1])))
    decreases es, 0
  {
    hide Begins, At, DecodeValue, EncodePair, Encode, AllEncodable, Tolerated, LastLeafOf, Put, Normalize;
    var (x, rest) := (EncodePair(es[0]), es[1..]);
    FirstAndRest(es, 0);
    BeginsBounds(data, offset, EncodePairs(es));
    BeginsSplit(data, offset, x, EncodePairs(rest));
    NothingLeft(ops, data);
    if |data| < offset + |x| {
      CutPair(ops, data, offset, es[0]);
      if rest != [] { PairsLeafSize(rest); }
    } else {
      TripPair(ops, data, offset, es[0]);
      BeginsBounds(data, offset + |x|, EncodePairs(rest));
      CutPairs(ops, data, offset + |x|, rest, Put(acc, es[0].key, es[0].value));
    }
  }

  /** A pair that is cut off: in its key, or in its value. */
  lemma {:induction false} CutPair(ops: FloatOps, data: seq<Byte>, offset: nat, e: Entry)
    requires EncodableEntry(e) && Begins(data, offset, EncodePair(e))
    ensures var key := DecodeValue(ops, data, offset);
      var accepted := Enough(|data| - offset, |EncodePair(e)|, LastLeafOf(e));
      if key.Throw? then !accepted else Accepts(DecodeValue(ops, data, key.offset), data, accepted)
    decreases e
  {
    hide Begins, At, DecodeValue, EncodeStr, Encode, Encodable, Tolerated, LastLeaf;
    var text := KeyText(e.key);
    BeginsBounds(data, offset, EncodePair(e));
    BeginsSplit(data, offset, EncodeStr(text), Encode(e.value));
    LeafSize(e.value);
    NothingLeft(ops, data);
    if |data| < offset + |EncodeStr(text)| {
      CutStr(ops, data, offset, text);
    } else {
      TripStr(ops, data, offset, text);
      CutValue(ops, data, offset + |EncodeStr(text)|, e.value);
    }
  }

  /** The first k bytes of an encoding, k short of all, decode without an exception exactly when the cut is
      inside the last leaf, behind its first byte, and that leaf is a string or an integer from 128 to 255. */
  lemma CutDecodesIff(ops: FloatOps, v: Value, k: nat)
    requires Encodable(v) && k < |Encode(v)|
    ensures DecodeValue(ops, Encode(v)[..k], 0).Ok? <==>
      Tolerated(LastLeaf(v)) && k > |Encode(v)| - |Encode(LastLeaf(v))|
  {
    hide Encode, Encodable, DecodeValue, LastLeaf, Tolerated;
    assert Encode(v)[..k][0..] == Encode(v)[..k];
    CutValue(ops, Encode(v)[..k], 0, v);
  }
}
