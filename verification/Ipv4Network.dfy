/** The network base address of an IPv4 address, as the installer computes it with shifts and masks. */
module Ipv4Network {
  import opened Powers

  datatype Address = Address(a: nat, b: nat, c: nat, d: nat)

  predicate Octets(x: Address) {
    x.a < 256 && x.b < 256 && x.c < 256 && x.d < 256
  }

  function BitAnd(x: nat, y: nat): nat {
    if x == 0 || y == 0 then 0
    else 2 * BitAnd(x / 2, y / 2) + (if x % 2 == 1 && y % 2 == 1 then 1 else 0)
  }

  function BitOr(x: nat, y: nat): nat
    decreases x + y
  {
    if x == 0 then y
    else if y == 0 then x
    else 2 * BitOr(x / 2, y / 2) + (if x % 2 == 1 || y % 2 == 1 then 1 else 0)
  }

  function Times(x: nat, p: nat): nat {
    x * p
  }

  function Over(x: nat, p: nat): nat
    requires p >= 1
  {
    x / p
  }

  function Shl(x: nat, n: nat): nat {
    Times(x, Pow2(n))
  }

  function Shr(x: nat, n: nat): nat {
    Over(x, Pow2(n))
  }

  const ALL_ONES: nat := 0xFFFFFFFF

  function Pack(x: Address): nat {
    BitOr(BitOr(BitOr(Shl(x.a, 24), Shl(x.b, 16)), Shl(x.c, 8)), x.d)
  }

  function Unpack(v: nat): Address {
    Address(BitAnd(Shr(v, 24), 255), BitAnd(Shr(v, 16), 255), BitAnd(Shr(v, 8), 255), BitAnd(v, 255))
  }

  function Mask(prefix: nat): nat
    requires prefix <= 32
  {
    if prefix == 0 then 0 else BitAnd(Shl(ALL_ONES, 32 - prefix), ALL_ONES)
  }

  function Network(x: Address, prefix: nat): Address
    requires prefix <= 32
  {
    Unpack(BitAnd(Pack(x), Mask(prefix)))
  }

  // ---- the bit operations on the shapes used here ----

  lemma {:induction false} Pow2Add(m: nat, n: nat)
    ensures Pow2(m + n) == Pow2(m) * Pow2(n)
  {
    if m > 0 {
      Pow2Add(m - 1, n);
    }
  }

  lemma Pow2Values()
    ensures Pow2(8) == 256 && Pow2(16) == 65536 && Pow2(24) == 16777216 && Pow2(32) == 4294967296
  {
    assert Pow2(4) == 16;
    Pow2Add(4, 4);
    Pow2Add(8, 8);
    Pow2Add(16, 8);
    Pow2Add(16, 16);
  }

  /** Or-ing a value into the low bits of a shifted one adds it. */
  lemma {:induction false} OrOfDisjoint(x: nat, y: nat, n: nat)
    requires y < Pow2(n)
    ensures BitOr(x * Pow2(n), y) == x * Pow2(n) + y
  {
    if n > 0 {
      var h := x * Pow2(n - 1);
      assert x * Pow2(n) == 2 * h;
      OrOfDisjoint(x, y / 2, n - 1);
      if x != 0 && y != 0 {
        assert BitOr(2 * h, y) == 2 * BitOr(2 * h / 2, y / 2) + (if y % 2 == 1 then 1 else 0);
      }
    }
  }

  /** And-ing with n low ones is the remainder by two to the n. */
  lemma {:induction false} AndLowMask(x: nat, n: nat)
    ensures BitAnd(x, Pow2(n) - 1) == x % Pow2(n)
  {
    if n > 0 {
      var p := Pow2(n - 1);
      AndLowMask(x / 2, n - 1);
      assert (Pow2(n) - 1) / 2 == p - 1;
      HalfRemainder(x, p);
    }
  }

  lemma HalfRemainder(x: nat, p: nat)
    requires p >= 1
    ensures x % (2 * p) == 2 * (x / 2 % p) + x % 2
  {
    var q, r := x / 2 / p, x / 2 % p;
    assert x / 2 == q * p + r;
    assert x == (2 * p) * q + (2 * r + x % 2);
    Remainder(x, 2 * p, q, 2 * r + x % 2);
  }

  lemma MultipleSize(m: int, d: int)
    requires m >= 1
    ensures d >= 1 ==> m * d >= m
    ensures d <= -1 ==> m * d <= -m
  {
    if d >= 1 {
      assert m * d == m + m * (d - 1);
    } else if d <= -1 {
      assert m * d == -m + m * (d + 1);
    }
  }

  lemma Remainder(x: nat, m: nat, q: nat, r: nat)
    requires m >= 1 && x == m * q + r && r < m
    ensures x / m == q && x % m == r
  {
    var d := x / m - q;
    assert m * d == r - x % m;
    MultipleSize(m, d);
  }

  lemma AndEven(x: nat, y: nat)
    ensures BitAnd(x, 2 * y) == 2 * BitAnd(x / 2, y)
  {
  }

  lemma HalfBase(x: nat, h: nat)
    requires h >= 1
    ensures x / (2 * h) * (2 * h) == 2 * (x / 2 / h * h)
  {
    HalfQuotient(x, h);
    Doubles(x / 2 / h, h);
  }

  /** And-ing with m ones above k zeros clears the low k bits. */
  lemma {:induction false} AndHighMask(x: nat, m: nat, k: nat)
    requires x < Pow2(m + k)
    ensures BitAnd(x, (Pow2(m) - 1) * Pow2(k)) == x / Pow2(k) * Pow2(k)
  {
    if k == 0 {
      AndLowMask(x, m);
      Remainder(x, Pow2(m), 0, x);
    } else {
      AndHighMask(x / 2, m, k - 1);
      AndEven(x, (Pow2(m) - 1) * Pow2(k - 1));
      Doubles(Pow2(m) - 1, Pow2(k - 1));
      HalfBase(x, Pow2(k - 1));
    }
  }

  lemma Doubles(x: nat, h: nat)
    ensures x * (2 * h) == 2 * (x * h)
  {
  }

  lemma HalfQuotient(x: nat, p: nat)
    requires p >= 1
    ensures x / (2 * p) == x / 2 / p
  {
    var q, r := x / 2 / p, x / 2 % p;
    assert x / 2 == q * p + r;
    assert x == (2 * p) * q + (2 * r + x % 2);
    Remainder(x, 2 * p, q, 2 * r + x % 2);
  }

  // ---- packing, masking and printing ----

  /** The address as a number. */
  function Value(x: Address): nat {
    x.a * 16777216 + x.b * 65536 + x.c * 256 + x.d
  }

  function Digits(v: nat): Address {
    Address(v / 16777216 % 256, v / 65536 % 256, v / 256 % 256, v % 256)
  }

  lemma DigitsOfValue(x: Address)
    requires Octets(x)
    ensures Digits(Value(x)) == x && Value(x) < 4294967296
  {
    var v := Value(x);
    Remainder(v, 16777216, x.a, x.b * 65536 + x.c * 256 + x.d);
    Remainder(v, 65536, x.a * 256 + x.b, x.c * 256 + x.d);
    Remainder(v, 256, x.a * 65536 + x.b * 256 + x.c, x.d);
    Remainder(x.a * 65536 + x.b * 256 + x.c, 256, x.a * 256 + x.b, x.c);
    Remainder(x.a * 256 + x.b, 256, x.a, x.b);
  }

  lemma ValueOfDigits(v: nat)
    requires v < 4294967296
    ensures Octets(Digits(v)) && Value(Digits(v)) == v
  {
    var c, b, a := v / 256, v / 256 / 256, v / 256 / 256 / 256;
    assert v == 256 * c + v % 256 && c == 256 * b + c % 256 && b == 256 * a + b % 256;
    Remainder(v, 65536, b, 256 * (c % 256) + v % 256);
    Remainder(v, 16777216, a, 65536 * (b % 256) + 256 * (c % 256) + v % 256);
  }

  /** Or-ing in the next lower part of an address. */
  lemma OrNext(high: nat, low: nat, n: nat, p: nat)
    requires p == Pow2(n) && low < p
    ensures BitOr(high * p, low) == high * p + low
  {
    OrOfDisjoint(high, low, n);
  }

  lemma PackIsValue(x: Address)
    requires Octets(x)
    ensures Pack(x) == Value(x)
  {
    Pow2Values();
    OrNext(x.a, x.b * 65536, 24, 16777216);
    OrNext(x.a * 256 + x.b, x.c * 256, 16, 65536);
    OrNext(x.a * 65536 + x.b * 256 + x.c, x.d, 8, 256);
  }

  lemma UnpackIsDigits(v: nat)
    ensures Unpack(v) == Digits(v)
  {
    Pow2Values();
    AndLowMask(Shr(v, 24), 8);
    AndLowMask(Shr(v, 16), 8);
    AndLowMask(Shr(v, 8), 8);
    AndLowMask(v, 8);
  }

  lemma OnesTimes(p: nat, n: nat)
    requires 1 <= p <= n
    ensures (n - 1) * p / n == p - 1 && (n - 1) * p % n == n - p
  {
    assert (n - 1) * p == n * (p - 1) + (n - p);
    Remainder((n - 1) * p, n, p - 1, n - p);
  }

  lemma AndAllOnes(x: nat)
    ensures BitAnd(x, ALL_ONES) == x % 4294967296
  {
    Pow2Values();
    AndLowMask(x, 32);
  }

  lemma ShiftedOnes(p: nat, n: nat)
    requires p >= 1 && n >= 1 && n * p == 4294967296
    ensures BitAnd(ALL_ONES * p, ALL_ONES) == (n - 1) * p
  {
    MultipleSize(p, n);
    assert p <= n * p by {
      if n >= 2 {
        MultipleSize(p, n - 1);
      }
    }
    OnesTimes(p, 4294967296);
    AndAllOnes(ALL_ONES * p);
    assert (n - 1) * p == n * p - p;
  }

  lemma MaskShape(prefix: nat)
    requires prefix <= 32
    ensures Mask(prefix) == (Pow2(prefix) - 1) * Pow2(32 - prefix)
  {
    if prefix > 0 {
      Pow2Add(prefix, 32 - prefix);
      assert Pow2(prefix) * Pow2(32 - prefix) == 4294967296 by { Pow2Values(); }
      ShiftedOnes(Pow2(32 - prefix), Pow2(prefix));
    }
  }

  /** The first address of the block of `size` addresses holding `v`. */
  function Base(v: nat, size: nat): (base: nat)
    requires size >= 1
    ensures base <= v
  {
    v / size * size
  }

  lemma MaskClears(v: nat, prefix: nat)
    requires v < 4294967296 && prefix <= 32
    ensures BitAnd(v, Mask(prefix)) == Base(v, Pow2(32 - prefix))
  {
    MaskShape(prefix);
    assert v < Pow2(prefix + (32 - prefix)) by { Pow2Values(); }
    AndHighMask(v, prefix, 32 - prefix);
  }

  lemma NetworkIsBase(x: Address, prefix: nat)
    requires Octets(x) && prefix <= 32
    ensures Network(x, prefix) == Digits(Base(Value(x), Pow2(32 - prefix)))
  {
    PackIsValue(x);
    DigitsOfValue(x);
    MaskClears(Value(x), prefix);
    UnpackIsDigits(Base(Value(x), Pow2(32 - prefix)));
  }

  /** `base` starts a block of `size` addresses that holds `v`. */
  predicate StartsBlockOf(base: nat, size: nat, v: nat)
    requires size >= 1
  {
    base % size == 0 && base <= v < base + size
  }

  lemma BaseIsBlockStart(v: nat, size: nat, base: nat)
    requires size >= 1
    ensures StartsBlockOf(base, size, v) <==> base == Base(v, size)
  {
    var q := v / size;
    assert v == size * q + v % size;
    Remainder(size * q, size, q, 0);
    if StartsBlockOf(base, size, v) {
      var k := base / size;
      assert base == size * k;
      Remainder(v, size, k, v - size * k);
    }
  }

  lemma DigitsAreBlockStart(x: Address, size: nat, y: Address)
    requires Octets(x) && Octets(y) && size >= 1
    ensures StartsBlockOf(Value(y), size, Value(x)) <==> y == Digits(Base(Value(x), size))
    ensures Octets(Digits(Base(Value(x), size)))
  {
    var base := Base(Value(x), size);
    BaseIsBlockStart(Value(x), size, Value(y));
    DigitsOfValue(x);
    DigitsOfValue(y);
    ValueOfDigits(base);
  }

  /**
   * For every address and prefix the result is the one address that starts a block of two to the
   * (32 - prefix) addresses holding the given one.
   */
  lemma NetworkIsTheBlockStart(x: Address, prefix: nat, y: Address)
    requires Octets(x) && Octets(y) && prefix <= 32
    ensures StartsBlockOf(Value(y), Pow2(32 - prefix), Value(x)) <==> y == Network(x, prefix)
    ensures Octets(Network(x, prefix))
  {
    NetworkIsBase(x, prefix);
    DigitsAreBlockStart(x, Pow2(32 - prefix), y);
  }

  lemma NetworkIdempotent(x: Address, prefix: nat, n: Address)
    requires Octets(x) && prefix <= 32 && n == Network(x, prefix)
    ensures Network(n, prefix) == n
  {
    var size := Pow2(32 - prefix);
    NetworkIsTheBlockStart(x, prefix, x);
    NetworkIsTheBlockStart(x, prefix, n);
    assert StartsBlockOf(Value(n), size, Value(n));
    NetworkIsTheBlockStart(n, prefix, n);
  }

  predicate Bit(v: nat, i: nat) {
    Shr(v, i) % 2 == 1
  }

  /** Two addresses have the same network if and only if they agree on every bit above the host part. */
  lemma SameNetworkIff(x: Address, y: Address, prefix: nat)
    requires Octets(x) && Octets(y) && prefix <= 32
    ensures Network(x, prefix) == Network(y, prefix) <==>
              (forall i :: 32 - prefix <= i < 32 ==> (Bit(Value(x), i) <==> Bit(Value(y), i)))
  {
    NetworkIsBase(x, prefix);
    NetworkIsBase(y, prefix);
    SameDigitsIff(x, y, 32 - prefix);
  }

  lemma SameDigitsIff(x: Address, y: Address, k: nat)
    requires Octets(x) && Octets(y) && k <= 32
    ensures Digits(Base(Value(x), Pow2(k))) == Digits(Base(Value(y), Pow2(k))) <==>
              (forall i :: k <= i < 32 ==> (Bit(Value(x), i) <==> Bit(Value(y), i)))
  {
    var u, v := Value(x), Value(y);
    DigitsOfValue(x);
    DigitsOfValue(y);
    ValueOfDigits(Base(u, Pow2(k)));
    ValueOfDigits(Base(v, Pow2(k)));
    SameBaseIff(u, v, Pow2(k));
    assert u < Pow2(k + (32 - k)) && v < Pow2(k + (32 - k)) by { Pow2Values(); }
    SameHighBits(u, v, k, 32 - k);
  }

  lemma SameBaseIff(u: nat, v: nat, size: nat)
    requires size >= 1
    ensures Base(u, size) == Base(v, size) <==> u / size == v / size
  {
    Remainder(size * (u / size), size, u / size, 0);
    Remainder(size * (v / size), size, v / size, 0);
  }

  /** Numbers of k + n bits have the same quotient by two to the k exactly when their top n bits agree. */
  lemma {:induction false} SameHighBits(u: nat, v: nat, k: nat, n: nat)
    requires u < Pow2(k + n) && v < Pow2(k + n)
    ensures Shr(u, k) == Shr(v, k) <==> (forall i :: k <= i < k + n ==> (Bit(u, i) <==> Bit(v, i)))
    decreases n
  {
    if n == 0 {
      Remainder(u, Pow2(k), 0, u);
      Remainder(v, Pow2(k), 0, v);
    } else {
      SameHighBits(u, v, k + 1, n - 1);
      Quarter(u, k);
      Quarter(v, k);
      if Shr(u, k) == Shr(v, k) {
        forall i | k <= i < k + n ensures Bit(u, i) <==> Bit(v, i) {
        }
      }
      if forall i :: k <= i < k + n ==> (Bit(u, i) <==> Bit(v, i)) {
        assert Bit(u, k) <==> Bit(v, k);
      }
    }
  }

  lemma Quarter(u: nat, k: nat)
    ensures Shr(u, k) == 2 * Shr(u, k + 1) + (if Bit(u, k) then 1 else 0)
  {
    var p := Pow2(k);
    var q, r := u / p, u % p;
    assert u == p * q + r && q == 2 * (q / 2) + q % 2;
    assert u == (2 * p) * (q / 2) + (p * (q % 2) + r);
    assert p * (q % 2) + r < 2 * p;
    Remainder(u, 2 * p, q / 2, p * (q % 2) + r);
  }
}
