/** The wire forms the decoder knows, as a writer of their own: tag, width and sign named one by one, also
    for values that encode would write in another form. The decoder reads each of them, and nothing else
    that ends inside its data. */
module MsgpackForms {
  import opened Bytes
  import opened PhpKeys
  import opened Msgpack
  import opened MsgpackTrip

  /** k is the number of bytes of the number, the length or the count; 0 where the tag holds it. The pairs of
      a map are its keys and values in turn. */
  datatype Form =
    | FixInt(i: int)
    | NilForm
    | BoolForm(b: bool)
    | UnsignedInt(k: nat, n: nat)
    | SignedInt(k: nat, i: int)
    | FloatForm(bits: seq<Byte>)
    | StrForm(k: nat, s: seq<Byte>)
    | ArrForm(k: nat, items: seq<Form>)
    | MapForm(k: nat, pairs: seq<Form>)

  predicate Fits(f: Form) {
    match f
    case FixInt(i) => -32 <= i <= 127
    case NilForm => true
    case BoolForm(_) => true
    case UnsignedInt(k, n) => k in {1, 2, 4, 8} && n < Pow256(k)
    case SignedInt(k, i) => k in {1, 2, 4, 8} && -(Pow256(k) / 2) <= i < Pow256(k) / 2
    case FloatForm(bits) => |bits| == 4 || |bits| == 8
    case StrForm(k, s) => (k == 0 && |s| <= 31) || (k in {1, 2, 4} && |s| < Pow256(k))
    case ArrForm(k, items) => ((k == 0 && |items| <= 15) || (k in {2, 4} && |items| < Pow256(k))) && AllFit(items)
    case MapForm(k, pairs) =>
      && |pairs| % 2 == 0
      && ((k == 0 && |pairs| / 2 <= 15) || (k in {2, 4} && |pairs| / 2 < Pow256(k))) && AllFit(pairs)
  }

  predicate AllFit(fs: seq<Form>) {
    forall i :: 0 <= i < |fs| ==> Fits(fs[i])
  }

  function Tag(f: Form): Byte
    requires Fits(f)
  {
    match f
    case FixInt(i) => i % 256
    case NilForm => 0xc0
    case BoolForm(b) => if b then 0xc3 else 0xc2
    case UnsignedInt(k, _) => if k == 1 then 0xcc else if k == 2 then 0xcd else if k == 4 then 0xce else 0xcf
    case SignedInt(k, _) => if k == 1 then 0xd0 else if k == 2 then 0xd1 else if k == 4 then 0xd2 else 0xd3
    case FloatForm(bits) => if |bits| == 4 then 0xca else 0xcb
    case StrForm(k, s) => if k == 0 then 0xa0 + |s| else if k == 1 then 0xd9 else if k == 2 then 0xda else 0xdb
    case ArrForm(k, items) => if k == 0 then 0x90 + |items| else if k == 2 then 0xdc else 0xdd
    case MapForm(k, pairs) => if k == 0 then 0x80 + |pairs| / 2 else if k == 2 then 0xde else 0xdf
  }

  /** What stands behind the tag. */
  function Rest(f: Form): seq<Byte>
    requires Fits(f)
    decreases f, 0
  {
    match f
    case UnsignedInt(k, n) => BE(n, k)
    case SignedInt(k, i) => BE(i, k)
    case FloatForm(bits) => bits
    case StrForm(k, s) => BE(|s|, k) + s
    case ArrForm(k, items) => BE(|items|, k) + WriteAll(items)
    case MapForm(k, pairs) => BE(|pairs| / 2, k) + WriteAll(pairs)
    case _ => []
  }

  function WriteForm(f: Form): seq<Byte>
    requires Fits(f)
    decreases f, 1
  {
    [Tag(f)] + Rest(f)
  }

  function WriteAll(fs: seq<Form>): seq<Byte>
    requires AllFit(fs)
    decreases fs, 0
  {
    if fs == [] then [] else WriteForm(fs[0]) + WriteAll(fs[1..])
  }

  /** The PHP value a form stands for. An unsigned 64-bit number beyond PHP's integers wraps around. */
  function Denotes(ops: FloatOps, f: Form): Value
    requires Fits(f)
    decreases f, 0
  {
    match f
    case FixInt(i) => Int(i)
    case NilForm => Nil
    case BoolForm(b) => Bool(b)
    case UnsignedInt(_, n) => Int(if n <= MAX_INT then n else n - U64)
    case SignedInt(_, i) => Int(i)
    case FloatForm(bits) => Float(if |bits| == 4 then ops.widen(bits) else bits)
    case StrForm(_, s) => Str(s)
    case ArrForm(_, items) => Arr(InOrder(ValuesOf(ops, items)))
    case MapForm(_, pairs) => Arr(Assigned(ops, ValuesOf(ops, pairs), |pairs| / 2))
  }

  function ValuesOf(ops: FloatOps, fs: seq<Form>): (vs: seq<Value>)
    requires AllFit(fs)
    ensures |vs| == |fs|
    decreases fs, 1
  {
    if fs == [] then [] else [Denotes(ops, fs[0])] + ValuesOf(ops, fs[1..])
  }

  /** A list: its values under the keys 0, 1, 2, ... */
  function InOrder(vs: seq<Value>): seq<Entry> {
    seq(|vs|, i requires 0 <= i < |vs| => Entry(IntKey(i), vs[i]))
  }

  /** The array after n assignments, each of one value under the text of the value before it. */
  function Assigned(ops: FloatOps, vs: seq<Value>, n: nat): seq<Entry>
    requires 2 * n <= |vs|
  {
    if n == 0 then []
    else Put(Assigned(ops, vs, n - 1), Normalize(TextOf(ops, vs[2 * n - 2])), vs[2 * n - 1])
  }

  // --- the decoder reads every form ---

  /** Where a value begins and what comes behind its tag: the tag fixes the width and the sign. */
  lemma ReadByTag(ops: FloatOps, data: seq<Byte>, offset: nat, f: Form)
    requires Fits(f) && offset < |data| && data[offset] == Tag(f)
    ensures var (r, o) := (DecodeValue(ops, data, offset), offset + 1);
      match f
      case FixInt(i) => r == Ok(Int(i), o, 1, true)
      case NilForm => r == Ok(Nil, o, 1, true)
      case BoolForm(b) => r == Ok(Bool(b), o, 1, true)
      case UnsignedInt(k, _) =>
        r == if k == 1 then Ok(Int(OrdAt(data, o)), o + 1, 1, true) else ReadInt(data, o, k, Pow256(k), k == 8)
      case SignedInt(k, _) => r == ReadInt(data, o, k, Pow256(k), true)
      case FloatForm(bits) => r == ReadFloat(ops, data, o, |bits|)
      case StrForm(k, s) =>
        r == if k == 0 then ReadShortStr(data, o, |s|)
             else if k == 1 then ReadShortStr(data, o + 1, OrdAt(data, o)) else ReadStr(data, o, k)
      case ArrForm(k, items) =>
        if k == 0 then r == Counted(DecodeArray(ops, data, o, |items|, []))
        else o + k <= |data| ==> r == Counted(DecodeArray(ops, data, o + k, FromBE(data[o..o + k]), []))
      case MapForm(k, pairs) =>
        if k == 0 then r == Counted(DecodeMap(ops, data, o, |pairs| / 2, []))
        else o + k <= |data| ==> r == Counted(DecodeMap(ops, data, o + k, FromBE(data[o..o + k]), []))
  {
    hide FromBE, DecodeArray, DecodeMap, ReadInt, ReadStr, ReadShortStr, ReadFloat, OrdAt;
    Pows();
  }

  lemma BEOne(n: nat)
    requires n < 256
    ensures BE(n, 1) == [n]
  {
    assert BE(n / 256, 0) == [];
  }

  lemma OneByte(data: seq<Byte>, o: nat, n: nat)
    requires n < 256 && At(data, o, BE(n, 1))
    ensures OrdAt(data, o) == n && At(data, o, [n])
  {
    hide BE;
    BEOne(n);
    assert [n] == [n] + [];
    AtByte(data, o, n, []);
  }

  lemma NumberForm(ops: FloatOps, data: seq<Byte>, offset: nat, f: Form)
    requires Fits(f) && (f.UnsignedInt? || f.SignedInt?) && At(data, offset, WriteForm(f))
    ensures Yields(DecodeValue(ops, data, offset), Denotes(ops, f), offset + |WriteForm(f)|)
  {
    hide BE, FromBE, DecodeValue, At;
    Pows();
    AtByte(data, offset, Tag(f), Rest(f));
    ReadByTag(ops, data, offset, f);
    var (i, o) := (if f.UnsignedInt? then f.n else f.i, offset + 1);
    TripNumber(i, f.k, Pow256(f.k));
    if f.UnsignedInt? && f.k == 1 { OneByte(data, o, f.n); }
    SliceAt(data, o, Rest(f));
  }

  lemma SliceAt(data: seq<Byte>, o: nat, x: seq<Byte>)
    requires At(data, o, x)
    ensures o + |x| <= |data| && data[o..o + |x|] == x
  {
  }

  lemma StringForm(ops: FloatOps, data: seq<Byte>, offset: nat, f: Form)
    requires Fits(f) && f.StrForm? && At(data, offset, WriteForm(f))
    ensures Yields(DecodeValue(ops, data, offset), Denotes(ops, f), offset + |WriteForm(f)|)
  {
    hide BE, DecodeValue, At, ReadStr, ReadShortStr, OrdAt;
    AtByte(data, offset, Tag(f), Rest(f));
    AtSplit(data, offset + 1, BE(|f.s|, f.k), f.s);
    ReadByTag(ops, data, offset, f);
    Pows();
    if f.k == 0 {
      ReadsShortStr(data, offset + 1, f.s);
    } else if f.k == 1 {
      OneByte(data, offset + 1, |f.s|);
      ReadsShortStr(data, offset + 2, f.s);
    } else {
      ReadsStr(data, offset + 1, f.s, f.k);
    }
  }

  /** The count behind the tag of an array or a map. */
  lemma CountForm(ops: FloatOps, data: seq<Byte>, offset: nat, f: Form)
    requires Fits(f) && (f.ArrForm? || f.MapForm?) && At(data, offset, WriteForm(f))
    ensures var start := offset + 1 + f.k;
      && |WriteForm(f)| == 1 + f.k + |WriteAll(if f.ArrForm? then f.items else f.pairs)|
      && At(data, start, WriteAll(if f.ArrForm? then f.items else f.pairs))
      && DecodeValue(ops, data, offset) ==
           if f.ArrForm? then Counted(DecodeArray(ops, data, start, |f.items|, []))
           else Counted(DecodeMap(ops, data, start, |f.pairs| / 2, []))
  {
    hide BE, FromBE, DecodeValue, DecodeArray, DecodeMap, At, WriteAll, AllFit;
    var n := if f.ArrForm? then |f.items| else |f.pairs| / 2;
    var parts := WriteAll(if f.ArrForm? then f.items else f.pairs);
    AtByte(data, offset, Tag(f), Rest(f));
    AtSplit(data, offset + 1, BE(n, f.k), parts);
    ReadByTag(ops, data, offset, f);
    if f.k != 0 { LengthField(data, offset + 1, n, f.k); }
  }

  lemma SmallForm(ops: FloatOps, data: seq<Byte>, offset: nat, f: Form)
    requires Fits(f) && (f.FixInt? || f.NilForm? || f.BoolForm? || f.FloatForm?) && At(data, offset, WriteForm(f))
    ensures Yields(DecodeValue(ops, data, offset), Denotes(ops, f), offset + |WriteForm(f)|)
  {
    hide DecodeValue, At;
    AtByte(data, offset, Tag(f), Rest(f));
    ReadByTag(ops, data, offset, f);
    SliceAt(data, offset + 1, Rest(f));
  }

  /** Each form, wherever it stands, is decoded to the value it stands for, and reading stops right behind
      its bytes. */
  lemma {:induction false} FormIsRead(ops: FloatOps, data: seq<Byte>, offset: nat, f: Form)
    requires Fits(f) && At(data, offset, WriteForm(f))
    ensures Yields(DecodeValue(ops, data, offset), Denotes(ops, f), offset + |WriteForm(f)|)
    decreases f
  {
    hide At, DecodeValue, DecodeArray, DecodeMap, WriteForm, WriteAll, AllFit, InOrder, Assigned, ValuesOf;
    match f
    case UnsignedInt(_, _) => NumberForm(ops, data, offset, f);
    case SignedInt(_, _) => NumberForm(ops, data, offset, f);
    case StrForm(_, _) => StringForm(ops, data, offset, f);
    case ArrForm(k, items) =>
      CountForm(ops, data, offset, f);
      ItemsAreRead(ops, data, offset + 1 + k, items, []);
      NothingBefore(ops, items);
    case MapForm(k, pairs) =>
      CountForm(ops, data, offset, f);
      PairsAreRead(ops, data, offset + 1 + k, pairs, ValuesOf(ops, pairs), 0, |pairs| / 2);
      NothingBefore(ops, pairs);
    case _ => SmallForm(ops, data, offset, f);
  }

  lemma NothingBefore(ops: FloatOps, fs: seq<Form>)
    requires AllFit(fs)
    ensures InOrder([]) == [] && [] + ValuesOf(ops, fs) == ValuesOf(ops, fs)
    ensures Assigned(ops, ValuesOf(ops, fs), 0) == []
  {
  }

  lemma HeadAndTail(ops: FloatOps, fs: seq<Form>)
    requires AllFit(fs) && fs != []
    ensures Fits(fs[0]) && AllFit(fs[1..])
    ensures WriteAll(fs) == WriteForm(fs[0]) + WriteAll(fs[1..])
    ensures ValuesOf(ops, fs) == [Denotes(ops, fs[0])] + ValuesOf(ops, fs[1..])
  {
  }

  /** One turn of decodeArrayItems, and one of decodeMapItems: what the rest yields the whole yields. */
  lemma ItemStep(ops: FloatOps, data: seq<Byte>, offset: nat, n: nat, acc: seq<Entry>, v: Value, next: nat, w: Value,
      end: nat)
    requires n > 0 && Yields(DecodeValue(ops, data, offset), v, next)
    requires Yields(DecodeArray(ops, data, next, n - 1, acc + [Entry(IntKey(|acc|), v)]), w, end)
    ensures Yields(DecodeArray(ops, data, offset, n, acc), w, end)
  {
    hide DecodeValue;
  }

  lemma PairTurn(ops: FloatOps, data: seq<Byte>, offset: nat, n: nat, acc: seq<Entry>, k: Value, mid: nat, v: Value,
      next: nat, w: Value, end: nat)
    requires n > 0 && Yields(DecodeValue(ops, data, offset), k, mid) && Yields(DecodeValue(ops, data, mid), v, next)
    requires Yields(DecodeMap(ops, data, next, n - 1, Put(acc, Normalize(TextOf(ops, k)), v)), w, end)
    ensures Yields(DecodeMap(ops, data, offset, n, acc), w, end)
  {
    hide DecodeValue, Put, Normalize, TextOf;
  }

  lemma InOrderStep(done: seq<Value>, v: Value, rest: seq<Value>)
    ensures InOrder(done) + [Entry(IntKey(|InOrder(done)|), v)] == InOrder(done + [v])
    ensures done + [v] + rest == done + ([v] + rest) && done + [] == done
  {
  }

  lemma ItemsDone(ops: FloatOps, data: seq<Byte>, offset: nat, items: seq<Form>, done: seq<Value>)
    requires items == []
    ensures Yields(DecodeArray(ops, data, offset, |items|, InOrder(done)),
                   Arr(InOrder(done + ValuesOf(ops, items))), offset + |WriteAll(items)|)
  {
    hide InOrder;
    assert done + ValuesOf(ops, items) == done;
  }

  /** Items to go, with the values `done` in front of them. */
  lemma {:induction false} ItemsAreRead(ops: FloatOps, data: seq<Byte>, offset: nat, items: seq<Form>,
      done: seq<Value>)
    requires AllFit(items) && At(data, offset, WriteAll(items))
    ensures Yields(DecodeArray(ops, data, offset, |items|, InOrder(done)),
                   Arr(InOrder(done + ValuesOf(ops, items))), offset + |WriteAll(items)|)
    decreases items
  {
    hide At, Yields, Fits, DecodeValue, DecodeArray, WriteForm, WriteAll, AllFit, Denotes, ValuesOf, InOrder;
    if items == [] {
      ItemsDone(ops, data, offset, items, done);
    } else {
      HeadAndTail(ops, items);
      var (item, rest) := (items[0], items[1..]);
      AtSplit(data, offset, WriteForm(item), WriteAll(rest));
      FormIsRead(ops, data, offset, item);
      var (v, next) := (Denotes(ops, item), offset + |WriteForm(item)|);
      InOrderStep(done, v, ValuesOf(ops, rest));
      ItemsAreRead(ops, data, next, rest, done + [v]);
      ItemStep(ops, data, offset, |items|, InOrder(done), v, next, Arr(InOrder(done + ValuesOf(ops, items))),
               offset + |WriteAll(items)|);
    }
  }

  lemma PairsDone(ops: FloatOps, data: seq<Byte>, offset: nat, pairs: seq<Form>, acc: seq<Entry>)
    requires pairs == []
    ensures Yields(DecodeMap(ops, data, offset, |pairs| / 2, acc), Arr(acc), offset + |WriteAll(pairs)|)
  {
  }

  lemma TwoHeads(ops: FloatOps, fs: seq<Form>)
    requires AllFit(fs) && |fs| >= 2
    ensures Fits(fs[0]) && Fits(fs[1]) && AllFit(fs[2..])
    ensures WriteAll(fs) == WriteForm(fs[0]) + (WriteForm(fs[1]) + WriteAll(fs[2..]))
    ensures ValuesOf(ops, fs) == [Denotes(ops, fs[0]), Denotes(ops, fs[1])] + ValuesOf(ops, fs[2..])
  {
    hide WriteForm, WriteAll, AllFit, Denotes, ValuesOf, Fits;
    HeadAndTail(ops, fs);
    HeadAndTail(ops, fs[1..]);
    assert fs[1..][0] == fs[1] && fs[1..][1..] == fs[2..];
    BothInFront(Denotes(ops, fs[0]), Denotes(ops, fs[1]), ValuesOf(ops, fs[2..]));
  }

  lemma BothInFront(a: Value, b: Value, rest: seq<Value>)
    ensures [a] + ([b] + rest) == [a, b] + rest
  {
  }

  lemma NextPair(vs: seq<Value>, n: nat, k: Value, v: Value, rest: seq<Value>)
    requires 2 * n <= |vs| && vs[2 * n..] == [k, v] + rest
    ensures 2 * n + 2 <= |vs| && vs[2 * n] == k && vs[2 * n + 1] == v && vs[2 * n + 2..] == rest
  {
    var (i, tail) := (2 * n, vs[2 * n..]);
    assert tail[0] == vs[i] && tail[1] == vs[i + 1] && tail[2..] == vs[i + 2..];
    assert ([k, v] + rest)[2..] == rest;
  }

  lemma AssignedStep(ops: FloatOps, vs: seq<Value>, n: nat)
    requires 2 * n + 2 <= |vs|
    ensures Assigned(ops, vs, n + 1) ==
            Put(Assigned(ops, vs, n), Normalize(TextOf(ops, vs[2 * n])), vs[2 * n + 1])
  {
    hide Put, Normalize, TextOf;
    assert 2 * (n + 1) - 2 == 2 * n && 2 * (n + 1) - 1 == 2 * n + 1;
  }

  /** m pairs to go, behind the first n pairs of vs. */
  lemma {:induction false} PairsAreRead(ops: FloatOps, data: seq<Byte>, offset: nat, pairs: seq<Form>, vs: seq<Value>,
      n: nat, m: nat)
    requires AllFit(pairs) && |pairs| == 2 * m && At(data, offset, WriteAll(pairs))
    requires 2 * n + 2 * m == |vs| && vs[2 * n..] == ValuesOf(ops, pairs)
    ensures Yields(DecodeMap(ops, data, offset, m, Assigned(ops, vs, n)),
                   Arr(Assigned(ops, vs, n + m)), offset + |WriteAll(pairs)|)
    decreases pairs
  {
    hide At, Yields, Fits, DecodeValue, DecodeMap, WriteForm, WriteAll, AllFit, Denotes, ValuesOf, Put, TextOf,
         Normalize, Assigned;
    if m == 0 {
      PairsDone(ops, data, offset, pairs, Assigned(ops, vs, n));
    } else {
      TwoHeads(ops, pairs);
      var (key, item, rest) := (pairs[0], pairs[1], pairs[2..]);
      var (mid, next) := (offset + |WriteForm(key)|, offset + |WriteForm(key)| + |WriteForm(item)|);
      AtSplit(data, offset, WriteForm(key), WriteForm(item) + WriteAll(rest));
      AtSplit(data, mid, WriteForm(item), WriteAll(rest));
      FormIsRead(ops, data, offset, key);
      FormIsRead(ops, data, mid, item);
      var (k, v) := (Denotes(ops, key), Denotes(ops, item));
      NextPair(vs, n, k, v, ValuesOf(ops, rest));
      AssignedStep(ops, vs, n);
      PairsAreRead(ops, data, next, rest, vs, n + 1, m - 1);
      PairTurn(ops, data, offset, m, Assigned(ops, vs, n), k, mid, v, next, Arr(Assigned(ops, vs, n + m)),
               offset + |WriteAll(pairs)|);
    }
  }

  // --- and nothing else ---

  lemma TakenOut(data: seq<Byte>, o: nat, n: nat)
    requires o + n <= |data|
    ensures At(data, o, data[o..o + n])
  {
  }

  lemma AtJoin(data: seq<Byte>, o: nat, x: seq<Byte>, y: seq<Byte>)
    requires At(data, o, x) && At(data, o + |x|, y)
    ensures At(data, o, x + y)
  {
    assert data[o..o + |x| + |y|] == data[o..o + |x|] + data[o + |x|..o + |x| + |y|];
  }

  /** The number of k bytes at an offset is a written one. */
  lemma NumberThere(data: seq<Byte>, o: nat, k: nat) returns (n: nat)
    requires o + k <= |data|
    ensures n == FromBE(data[o..o + k]) && n < Pow256(k) && At(data, o, BE(n, k))
  {
    n := FromBE(data[o..o + k]);
    FromBERoundTrip(data[o..o + k]);
  }

  lemma {:induction false} BEShift(n: int, k: nat)
    ensures BE(n - Pow256(k), k) == BE(n, k)
    decreases k
  {
    if k > 0 {
      var p := Pow256(k - 1);
      assert Pow256(k) == 256 * p;
      assert (n - 256 * p) / 256 == n / 256 - p && (n - 256 * p) % 256 == n % 256;
      BEShift(n / 256, k - 1);
    }
  }

  /** A byte at which decoding does not throw is the tag of some form. */
  lemma TagThere(ops: FloatOps, data: seq<Byte>, offset: nat) returns (g: Form)
    requires DecodeValue(ops, data, offset).Ok?
    ensures offset < |data| && Fits(g) && data[offset] == Tag(g)
  {
    hide DecodeArray, DecodeMap, ReadStr, ReadShortStr, ReadInt, ReadFloat, FromBE, OrdAt;
    Pows();
    var byte: int := data[offset];
    g := if byte <= 0x7f then FixInt(byte)
         else if byte < 0x90 then MapForm(0, Nils(2 * (byte - 0x80)))
         else if byte < 0xa0 then ArrForm(0, Nils(byte - 0x90))
         else if byte < 0xc0 then StrForm(0, seq(byte - 0xa0, _ => 0))
         else if byte >= 0xe0 then FixInt(byte - 256)
         else match byte
           case 0xc0 => NilForm
           case 0xc2 => BoolForm(false)
           case 0xc3 => BoolForm(true)
           case 0xca => FloatForm([0, 0, 0, 0])
           case 0xcb => FloatForm([0, 0, 0, 0, 0, 0, 0, 0])
           case 0xcc => UnsignedInt(1, 0)
           case 0xcd => UnsignedInt(2, 0)
           case 0xce => UnsignedInt(4, 0)
           case 0xcf => UnsignedInt(8, 0)
           case 0xd0 => SignedInt(1, 0)
           case 0xd1 => SignedInt(2, 0)
           case 0xd2 => SignedInt(4, 0)
           case 0xd3 => SignedInt(8, 0)
           case 0xd9 => StrForm(1, [])
           case 0xda => StrForm(2, [])
           case 0xdb => StrForm(4, [])
           case 0xdc => ArrForm(2, [])
           case 0xdd => ArrForm(4, [])
           case 0xde => MapForm(2, [])
           case _ => MapForm(4, []);
  }

  function Nils(n: nat): (fs: seq<Form>)
    ensures |fs| == n && AllFit(fs)
  {
    seq(n, _ => NilForm)
  }

  lemma FormAt(data: seq<Byte>, offset: nat, f: Form)
    requires Fits(f) && offset < |data| && data[offset] == Tag(f) && At(data, offset + 1, Rest(f))
    ensures At(data, offset, WriteForm(f))
  {
    AtJoin(data, offset, [Tag(f)], Rest(f));
  }

  lemma NumberFormThere(ops: FloatOps, data: seq<Byte>, offset: nat, g: Form) returns (f: Form)
    requires Fits(g) && (g.UnsignedInt? || g.SignedInt?) && offset < |data| && data[offset] == Tag(g)
    requires var r := DecodeValue(ops, data, offset); r.Ok? && r.offset <= |data|
    ensures Fits(f) && At(data, offset, WriteForm(f))
  {
    hide DecodeValue, BE, FromBE, At;
    ReadByTag(ops, data, offset, g);
    var k := g.k;
    var n := NumberThere(data, offset + 1, k);
    Pows();
    if g.UnsignedInt? {
      f := UnsignedInt(k, n);
    } else {
      BEShift(n, k);
      f := SignedInt(k, Signed(n, Pow256(k)));
    }
    FormAt(data, offset, f);
  }

  lemma StringFormThere(ops: FloatOps, data: seq<Byte>, offset: nat, g: Form) returns (f: Form)
    requires Fits(g) && g.StrForm? && offset < |data| && data[offset] == Tag(g)
    requires var r := DecodeValue(ops, data, offset); r.Ok? && r.offset <= |data|
    ensures Fits(f) && At(data, offset, WriteForm(f))
  {
    hide DecodeValue, BE, FromBE, At, Substr;
    ReadByTag(ops, data, offset, g);
    var o := offset + 1;
    if g.k == 0 {
      f := StrForm(0, data[o..o + |g.s|]);
      TakenOut(data, o, |g.s|);
      assert BE(|g.s|, 0) == [] && [] + f.s == f.s;
    } else {
      if g.k == 1 && o < |data| { FirstNumber(data, o); }
      f := TextThere(data, o, g.k);
    }
    FormAt(data, offset, f);
  }

  /** A length of k bytes and as many bytes of text. */
  lemma TextThere(data: seq<Byte>, o: nat, k: nat) returns (f: Form)
    requires k in {1, 2, 4} && o + k <= |data| && o + k + FromBE(data[o..o + k]) <= |data|
    ensures f.StrForm? && f.k == k && Fits(f) && At(data, o, Rest(f))
  {
    hide BE, FromBE, At;
    var n := NumberThere(data, o, k);
    f := StrForm(k, data[o + k..o + k + n]);
    TakenOut(data, o + k, n);
    AtJoin(data, o, BE(n, k), f.s);
  }

  lemma SmallFormThere(ops: FloatOps, data: seq<Byte>, offset: nat, g: Form) returns (f: Form)
    requires Fits(g) && (g.FixInt? || g.NilForm? || g.BoolForm? || g.FloatForm?)
    requires offset < |data| && data[offset] == Tag(g)
    requires var r := DecodeValue(ops, data, offset); r.Ok? && r.offset <= |data|
    ensures Fits(f) && At(data, offset, WriteForm(f))
  {
    hide DecodeValue;
    ReadByTag(ops, data, offset, g);
    f := if g.FloatForm? then FloatForm(data[offset + 1..offset + 1 + |g.bits|]) else g;
    FormAt(data, offset, f);
  }

  /** The count behind the tag of an array or of a map, and where what it counts begins. */
  lemma CountThere(ops: FloatOps, data: seq<Byte>, offset: nat, g: Form) returns (n: nat)
    requires Fits(g) && (g.ArrForm? || g.MapForm?) && offset < |data| && data[offset] == Tag(g)
    requires DecodeValue(ops, data, offset).Ok?
    ensures var start := offset + 1 + g.k;
      && start <= |data| && At(data, offset + 1, BE(n, g.k))
      && (if g.k == 0 then n <= 15 && data[offset] == (if g.ArrForm? then 0x90 else 0x80) + n else n < Pow256(g.k))
      && DecodeValue(ops, data, offset) ==
           if g.ArrForm? then Counted(DecodeArray(ops, data, start, n, []))
           else Counted(DecodeMap(ops, data, start, n, []))
  {
    hide DecodeArray, DecodeMap, BE, FromBE;
    ReadByTag(ops, data, offset, g);
    if g.k == 0 {
      n := if g.ArrForm? then |g.items| else |g.pairs| / 2;
      assert BE(n, 0) == [];
    } else {
      CountFits(ops, data, offset, g);
      n := NumberThere(data, offset + 1, g.k);
    }
  }

  lemma CountFits(ops: FloatOps, data: seq<Byte>, offset: nat, g: Form)
    requires Fits(g) && (g.ArrForm? || g.MapForm?) && offset < |data| && data[offset] == Tag(g)
    requires DecodeValue(ops, data, offset).Ok?
    ensures offset + 1 + g.k <= |data|
  {
    hide DecodeArray, DecodeMap, FromBE, AllFit;
  }

  /** Tag, count and parts together are the form. */
  lemma WholeThere(data: seq<Byte>, offset: nat, g: Form, f: Form, n: nat)
    requires (g.ArrForm? && f.ArrForm?) || (g.MapForm? && f.MapForm?)
    requires Fits(g) && offset < |data| && data[offset] == Tag(g) && At(data, offset + 1, BE(n, PartsOf(g).0))
    requires var (k, parts) := PartsOf(f);
      && k == PartsOf(g).0 && |parts| == (if f.ArrForm? then n else 2 * n) && AllFit(parts)
      && (if k == 0 then n <= 15 && data[offset] == (if f.ArrForm? then 0x90 else 0x80) + n else n < Pow256(k))
      && At(data, offset + 1 + k, WriteAll(parts))
    ensures Fits(f) && At(data, offset, WriteForm(f))
  {
    hide At, BE, WriteForm, WriteAll, AllFit;
    AtJoin(data, offset + 1, BE(n, PartsOf(f).0), WriteAll(PartsOf(f).1));
    FormAt(data, offset, f);
  }

  function PartsOf(f: Form): (nat, seq<Form>)
    requires f.ArrForm? || f.MapForm?
  {
    if f.ArrForm? then (f.k, f.items) else (f.k, f.pairs)
  }

  /** Whatever is decoded without reading past the end is a form. */
  lemma {:induction false} FormThere(ops: FloatOps, data: seq<Byte>, offset: nat) returns (f: Form)
    requires var r := DecodeValue(ops, data, offset); r.Ok? && r.offset <= |data|
    ensures Fits(f) && At(data, offset, WriteForm(f))
    decreases |data| - Cap(data, offset), 0
  {
    hide DecodeValue, DecodeArray, DecodeMap, At, BE, FromBE, WriteForm, WriteAll, AllFit, Tag;
    var g := TagThere(ops, data, offset);
    match g
    case UnsignedInt(_, _) => f := NumberFormThere(ops, data, offset, g);
    case SignedInt(_, _) => f := NumberFormThere(ops, data, offset, g);
    case StrForm(_, _) => f := StringFormThere(ops, data, offset, g);
    case ArrForm(k, _) =>
      var n := CountThere(ops, data, offset, g);
      var items := ItemsThere(ops, data, offset + 1 + k, n, []);
      f := ArrForm(k, items);
      WholeThere(data, offset, g, f, n);
    case MapForm(k, _) =>
      var n := CountThere(ops, data, offset, g);
      var pairs := PairsThere(ops, data, offset + 1 + k, n, []);
      f := MapForm(k, pairs);
      WholeThere(data, offset, g, f, n);
    case _ => f := SmallFormThere(ops, data, offset, g);
  }

  lemma {:induction false} ItemsThere(ops: FloatOps, data: seq<Byte>, offset: nat, n: nat, acc: seq<Entry>)
      returns (fs: seq<Form>)
    requires var r := DecodeArray(ops, data, offset, n, acc); r.Ok? && r.offset <= |data|
    ensures |fs| == n && AllFit(fs) && At(data, offset, WriteAll(fs))
    decreases |data| - Cap(data, offset), 1
  {
    hide DecodeValue, At, WriteForm;
    if n == 0 {
      fs := [];
      NothingAt(data, offset);
    } else {
      var item := DecodeValue(ops, data, offset);
      var f := FormThere(ops, data, offset);
      FormIsRead(ops, data, offset, f);
      var rest := ItemsThere(ops, data, item.offset, n - 1, acc + [Entry(IntKey(|acc|), item.value)]);
      fs := [f] + rest;
      AtJoin(data, offset, WriteForm(f), WriteAll(rest));
      InFront(f, rest);
    }
  }

  lemma NothingAt(data: seq<Byte>, offset: nat)
    requires offset <= |data|
    ensures At(data, offset, [])
  {
  }

  lemma InFront(f: Form, rest: seq<Form>)
    requires Fits(f) && AllFit(rest)
    ensures AllFit([f] + rest) && WriteAll([f] + rest) == WriteForm(f) + WriteAll(rest)
  {
    assert ([f] + rest)[1..] == rest;
  }

  lemma NoForms()
    ensures AllFit([]) && WriteAll([]) == []
  {
  }

  /** What a map's decoding that succeeds has decoded first. */
  lemma MapUnfolds(ops: FloatOps, data: seq<Byte>, offset: nat, n: nat, acc: seq<Entry>)
    requires DecodeMap(ops, data, offset, n, acc).Ok?
    ensures n == 0 ==> DecodeMap(ops, data, offset, n, acc).offset == offset
    ensures n > 0 ==>
      var key := DecodeValue(ops, data, offset);
      && key.Ok? && offset < |data| && offset < key.offset
      && var item := DecodeValue(ops, data, key.offset);
        && item.Ok? && key.offset < |data| && key.offset < item.offset
        && var acc' := Put(acc, Normalize(TextOf(ops, key.value)), item.value);
        && var rest := DecodeMap(ops, data, item.offset, n - 1, acc');
          && rest.Ok? && rest.offset == DecodeMap(ops, data, offset, n, acc).offset && item.offset <= rest.offset
  {
    hide DecodeValue, Put, Normalize, TextOf;
  }

  lemma YieldsIs(key: Decoded, item: Decoded)
    ensures forall v, o :: Yields(key, v, o) ==> key.Ok? && key.offset == o
    ensures forall v, o :: Yields(item, v, o) ==> item.Ok? && item.offset == o
  {
  }

  lemma {:induction false} PairsThere(ops: FloatOps, data: seq<Byte>, offset: nat, n: nat, acc: seq<Entry>)
      returns (fs: seq<Form>)
    requires var r := DecodeMap(ops, data, offset, n, acc); r.Ok? && r.offset <= |data|
    ensures |fs| == 2 * n && AllFit(fs) && At(data, offset, WriteAll(fs))
    decreases |data| - Cap(data, offset), 1
  {
    hide DecodeValue, DecodeMap, At, Yields, WriteForm, WriteAll, AllFit, Fits, Denotes, Put, Normalize, TextOf;
    MapUnfolds(ops, data, offset, n, acc);
    if n == 0 {
      fs := [];
      NothingAt(data, offset);
      NoForms();
    } else {
      var key := DecodeValue(ops, data, offset);
      var item := DecodeValue(ops, data, key.offset);
      YieldsIs(key, item);
      var k := FormThere(ops, data, offset);
      FormIsRead(ops, data, offset, k);
      var v := FormThere(ops, data, key.offset);
      FormIsRead(ops, data, key.offset, v);
      var rest := PairsThere(ops, data, item.offset, n - 1, Put(acc, Normalize(TextOf(ops, key.value)), item.value));
      InFront(v, rest);
      InFront(k, [v] + rest);
      fs := [k] + ([v] + rest);
      AtJoin(data, key.offset, WriteForm(v), WriteAll(rest));
      AtJoin(data, offset, WriteForm(k), WriteAll([v] + rest));
    }
  }

  /** The decoder accepts, without reading past the end, exactly the written forms: at any offset of any byte
      string it yields v and stops at `end` if and only if a form that stands for v ends there. */
  lemma DecodesIff(ops: FloatOps, data: seq<Byte>, offset: nat, v: Value, end: nat)
    requires end <= |data|
    ensures Yields(DecodeValue(ops, data, offset), v, end) <==>
      exists f :: Fits(f) && At(data, offset, WriteForm(f)) && end == offset + |WriteForm(f)| && v == Denotes(ops, f)
  {
    hide DecodeValue, At, WriteForm, Denotes, Fits;
    if Yields(DecodeValue(ops, data, offset), v, end) {
      var f := FormThere(ops, data, offset);
      FormIsRead(ops, data, offset, f);
    }
    forall f | Fits(f) && At(data, offset, WriteForm(f)) && end == offset + |WriteForm(f)| && v == Denotes(ops, f)
      ensures Yields(DecodeValue(ops, data, offset), v, end)
    {
      FormIsRead(ops, data, offset, f);
    }
  }

  /** What a key of a map becomes: strings and integers stand for themselves, true for 1, false and nil for
      the empty string, an array for its type's name, and a float for its text. */
  lemma OnePair(ops: FloatOps, key: Form, item: Form)
    requires Fits(key) && Fits(item)
    ensures AllFit([key, item])
    ensures Denotes(ops, MapForm(0, [key, item])) ==
      Arr([Entry(match Denotes(ops, key)
                 case Int(i) => IntKey(i)
                 case Str(s) => Normalize(s)
                 case Bool(b) => if b then IntKey(1) else StrKey([])
                 case Nil => StrKey([])
                 case Float(bits) => Normalize(ops.text(bits))
                 case Arr(_) => StrKey([0x41, 0x72, 0x72, 0x61, 0x79]), Denotes(ops, item))])
  {
    var k := Denotes(ops, key);
    IntsAreInt64(ops, key);
    TwoValues(ops, key, item);
    AssignedStep(ops, ValuesOf(ops, [key, item]), 0);
    hide Denotes, Decimal, Digits;
    if k.Int? { NormalizeIff(Decimal(k.i), k.i); }
    if k == Bool(true) { One(); }
  }

  lemma IntsAreInt64(ops: FloatOps, f: Form)
    requires Fits(f)
    ensures Denotes(ops, f).Int? ==> IsInt64(Denotes(ops, f).i)
  {
    Pows();
  }

  lemma TwoValues(ops: FloatOps, a: Form, b: Form)
    requires Fits(a) && Fits(b)
    ensures AllFit([a, b]) && ValuesOf(ops, [a, b]) == [Denotes(ops, a), Denotes(ops, b)]
  {
    assert [a, b][1..] == [b] && [b][1..] == [];
  }

  lemma One()
    ensures Normalize([0x31]) == IntKey(1)
  {
    assert Decimal(1) == [0x31];
    NormalizeIff([0x31], 1);
  }
}
