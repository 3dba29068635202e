/** PHP array keys: an integer, or a byte string that is not the decimal form of one. */
module PhpKeys {
  import opened Bytes

  datatype Key = IntKey(i: int) | StrKey(s: seq<Byte>)

  const MIN_INT: int := -0x8000_0000_0000_0000
  const MAX_INT: int := 0x7fff_ffff_ffff_ffff

  const MINUS: Byte := 0x2d
  const ZERO: Byte := 0x30

  predicate IsInt64(i: int) {
    MIN_INT <= i <= MAX_INT
  }

  function Digits(n: nat): (r: seq<Byte>)
    ensures r != []
  {
    if n < 10 then [ZERO + n] else Digits(n / 10) + [ZERO + n % 10]
  }

  /** (string)$i */
  function Decimal(i: int): seq<Byte> {
    if i < 0 then [MINUS] + Digits(-i) else Digits(i)
  }

  predicate IsDigit(c: Byte) {
    ZERO <= c < ZERO + 10
  }

  /** Digits only, at least one, no leading zero. */
  predicate IsCanonical(d: seq<Byte>) {
    d != [] && (forall i :: 0 <= i < |d| ==> IsDigit(d[i])) && (|d| == 1 || d[0] != ZERO)
  }

  function Number(d: seq<Byte>): (n: int)
    requires forall i :: 0 <= i < |d| ==> IsDigit(d[i])
    ensures n >= 0
  {
    if d == [] then 0
    else
      assert IsDigit(d[|d| - 1]);
      10 * Number(d[..|d| - 1]) + (d[|d| - 1] - ZERO)
  }

  /** What PHP makes of a string used as an array key. */
  function Normalize(s: seq<Byte>): Key {
    if s != [] && s[0] == MINUS then
      if IsCanonical(s[1..]) && s[1] != ZERO && -Number(s[1..]) >= MIN_INT then IntKey(-Number(s[1..]))
      else StrKey(s)
    else if IsCanonical(s) && Number(s) <= MAX_INT then IntKey(Number(s))
    else StrKey(s)
  }

  lemma {:induction false} NumberOfDigits(n: nat)
    ensures IsCanonical(Digits(n)) && Number(Digits(n)) == n
    ensures n > 0 ==> Digits(n)[0] != ZERO
  {
    if n >= 10 {
      NumberOfDigits(n / 10);
      var front := Digits(n / 10);
      assert Digits(n)[..|front|] == front;
      assert Digits(n)[0] == front[0];
    }
  }

  lemma {:induction false} DigitsOfNumber(d: seq<Byte>)
    requires IsCanonical(d)
    ensures Digits(Number(d)) == d
    ensures d[0] != ZERO ==> Number(d) > 0
  {
    if |d| > 1 {
      var front := d[..|d| - 1];
      DigitsOfNumber(front);
      assert d == front + [d[|d| - 1]];
      assert Number(d) / 10 == Number(front);
    }
  }

  lemma DecimalNormalizes(i: int)
    requires IsInt64(i)
    ensures Normalize(Decimal(i)) == IntKey(i)
  {
    NumberOfDigits(if i < 0 then -i else i);
    if i < 0 { assert Decimal(i)[1..] == Digits(-i); }
  }

  lemma IntKeyIsDecimal(s: seq<Byte>, i: int)
    requires Normalize(s) == IntKey(i)
    ensures s == Decimal(i)
  {
    if s[0] == MINUS {
      DigitsOfNumber(s[1..]);
      assert s == [MINUS] + s[1..];
    } else {
      DigitsOfNumber(s);
    }
  }

  /** A string becomes an integer key exactly when it is the integer's own decimal form. */
  lemma NormalizeIff(s: seq<Byte>, i: int)
    requires IsInt64(i)
    ensures Normalize(s) == IntKey(i) <==> s == Decimal(i)
  {
    hide Normalize, Decimal;
    DecimalNormalizes(i);
    if Normalize(s) == IntKey(i) { IntKeyIsDecimal(s, i); }
  }

  /** The text a key is written as, and the text that comes back as the same key. */
  function KeyText(k: Key): seq<Byte> {
    match k
    case IntKey(i) => Decimal(i)
    case StrKey(s) => s
  }

  predicate IsKey(k: Key) {
    match k
    case IntKey(i) => IsInt64(i)
    case StrKey(s) => Normalize(s) == k
  }

  lemma KeyRoundTrip(k: Key)
    requires IsKey(k)
    ensures Normalize(KeyText(k)) == k
  {
    if k.IntKey? { NormalizeIff(Decimal(k.i), k.i); }
  }

  /** Every string normalises to a proper key whose text it is. */
  lemma NormalizeKeepsText(s: seq<Byte>)
    ensures IsKey(Normalize(s)) && KeyText(Normalize(s)) == s
  {
    if Normalize(s).IntKey? { NormalizeIff(s, Normalize(s).i); }
  }

  lemma {:induction false} DigitsLength(n: nat, k: nat)
    requires k > 0 && n < Pow10(k)
    ensures |Digits(n)| <= k
    decreases k
  {
    if n >= 10 {
      assert k > 1;
      DigitsLength(n / 10, k - 1);
    }
  }

  function Pow10(k: nat): (r: nat)
    ensures r > 0
  {
    if k == 0 then 1 else 10 * Pow10(k - 1)
  }

  lemma DecimalLength(i: int)
    requires IsInt64(i)
    ensures |Decimal(i)| <= 20
  {
    assert Pow10(4) == 10000;
    assert Pow10(8) == 10000 * Pow10(4) by { assert Pow10(6) == 100 * Pow10(4); }
    assert Pow10(10) == 10_000_000_000;
    assert Pow10(14) == 10000 * Pow10(10) by { assert Pow10(12) == 100 * Pow10(10); }
    assert Pow10(16) == 100 * Pow10(14);
    assert Pow10(19) == 1000 * Pow10(16) by { assert Pow10(18) == 100 * Pow10(16); }
    DigitsLength(if i < 0 then -i else i, 19);
  }
}
