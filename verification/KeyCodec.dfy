/** The order-preserving key encoding of the benchmark driver (ycsb.cpp). */
module KeyCodec {

  type Byte = b: int | 0 <= b < 256

  const PAD: Byte := 48  // the character '0'
  const UINT64: nat := 0x1_0000_0000_0000_0000

  function Pow256(n: nat): (p: nat)
    ensures p > 0
  {
    if n == 0 then 1 else 256 * Pow256(n - 1)
  }

  /** The low n bytes of v, most significant first. */
  function BigEndian(v: nat, n: nat): (s: seq<Byte>)
    ensures |s| == n
  {
    if n == 0 then [] else [(v / Pow256(n - 1)) % 256] + BigEndian(v, n - 1)
  }

  lemma {:induction false} BigEndianAt(v: nat, n: nat, i: nat)
    requires i < n
    ensures BigEndian(v, n)[i] == (v / Pow256(n - 1 - i)) % 256
  {
    if i > 0 { BigEndianAt(v, n - 1, i - 1); }
  }

  function Filled(keySize: nat): nat {
    if keySize < 8 then keySize else 8
  }

  function Encoded(v: nat, keySize: nat): (s: seq<Byte>)
    ensures |s| == keySize
  {
    BigEndian(v, Filled(keySize)) + seq(keySize - Filled(keySize), _ => PAD)
  }

  /** The loop that fills the key buffer. */
  method GenerateKeyFromInt(v: nat, key: array<Byte>)
    modifies key
    ensures key[..] == Encoded(v, key.Length)
    ensures forall j :: 8 <= j < key.Length ==> key[j] == '0' as int
  {
    var bytesToFill := if key.Length < 8 then key.Length else 8;
    for i := 0 to bytesToFill
      invariant forall j :: 0 <= j < i ==> key[j] == BigEndian(v, bytesToFill)[j]
    {
      BigEndianAt(v, bytesToFill, i);
      key[i] := (v / Pow256(bytesToFill - i - 1)) % 256;
    }
    for i := bytesToFill to key.Length
      invariant forall j :: 0 <= j < bytesToFill ==> key[j] == BigEndian(v, bytesToFill)[j]
      invariant forall j :: bytesToFill <= j < i ==> key[j] == PAD
    {
      key[i] := PAD;
    }
  }

  /** The bytewise comparator. */
  function Bytewise(a: seq<Byte>, b: seq<Byte>): int {
    if a == [] && b == [] then 0
    else if a == [] then -1
    else if b == [] then 1
    else if a[0] < b[0] then -1
    else if a[0] > b[0] then 1
    else Bytewise(a[1..], b[1..])
  }

  function Numeric(a: int, b: int): int {
    if a < b then -1 else if a > b then 1 else 0
  }

  /** Splitting the low n bytes into the top one and the rest. */
  lemma TopByte(v: nat, n: nat)
    requires n > 0
    ensures v % Pow256(n) == ((v / Pow256(n - 1)) % 256) * Pow256(n - 1) + v % Pow256(n - 1)
  {
    SplitTop(v, Pow256(n - 1));
  }

  lemma SplitTop(v: nat, p: nat)
    requires p > 0
    ensures v % (256 * p) == ((v / p) % 256) * p + v % p
  {
    var q, r := v / p, v % p;
    var t, u := q / 256, q % 256;
    Regroup(t, u, p, r);
    assert u * p <= 255 * p by {
      AtMost(u, 255, p);
    }
    UniqueRemainder(v, 256 * p, t, u * p + r);
  }

  lemma Regroup(t: int, u: int, p: int, r: int)
    ensures (t * 256 + u) * p + r == t * (256 * p) + (u * p + r)
  {
  }

  lemma AtMost(u: int, b: int, p: int)
    requires u <= b && p > 0
    ensures u * p <= b * p
  {
  }

  lemma UniqueRemainder(v: int, d: int, q: int, r: int)
    requires 0 <= r < d && v == q * d + r
    ensures v % d == r
  {
    var q', r' := v / d, v % d;
    assert v == q' * d + r';
    assert (q - q') * d == r' - r;
    assert q - q' >= 1 ==> (q - q') * d >= d;
    assert q - q' <= -1 ==> (q - q') * d <= -d;
  }

  /** Numbers compare by their top part first. */
  lemma CompareTopFirst(p: int, x: int, r: int, y: int, s: int)
    requires 0 <= r < p && 0 <= s < p
    ensures Numeric(x * p + r, y * p + s) == if x == y then Numeric(r, s) else Numeric(x, y)
  {
    if x < y { Gap(x, y, p); }
    if y < x { Gap(y, x, p); }
  }

  lemma Gap(x: int, y: int, p: int)
    requires x < y && 0 < p
    ensures x * p + p <= y * p
  {
    calc {
      y * p;
      (x + 1 + (y - x - 1)) * p;
      x * p + p + (y - x - 1) * p;
    }
    assert (y - x - 1) * p >= 0;
  }

  /** Bytewise order is numeric order on the bytes that are kept. */
  lemma {:induction false} BigEndianOrder(a: nat, b: nat, n: nat, pad: seq<Byte>)
    ensures Bytewise(BigEndian(a, n) + pad, BigEndian(b, n) + pad) == Numeric(a % Pow256(n), b % Pow256(n))
  {
    if n == 0 {
      BytewiseSame(pad);
      assert BigEndian(a, 0) + pad == pad == BigEndian(b, 0) + pad;
    } else {
      var p := Pow256(n - 1);
      TopByte(a, n);
      TopByte(b, n);
      BigEndianOrder(a, b, n - 1, pad);
      BytewiseFirst((a / p) % 256, BigEndian(a, n - 1), (b / p) % 256, BigEndian(b, n - 1), pad);
      CompareTopFirst(p, (a / p) % 256, a % p, (b / p) % 256, b % p);
    }
  }

  lemma BytewiseFirst(x: Byte, s: seq<Byte>, y: Byte, t: seq<Byte>, pad: seq<Byte>)
    ensures Bytewise([x] + s + pad, [y] + t + pad) == if x == y then Bytewise(s + pad, t + pad) else Numeric(x, y)
  {
    assert ([x] + s + pad)[1..] == s + pad;
    assert ([y] + t + pad)[1..] == t + pad;
  }

  /** Bytewise order: a is less than b if it is a proper prefix of b, or less at the first
      position where they differ. */
  lemma {:induction false} BytewiseIsOrder(a: seq<Byte>, b: seq<Byte>)
    ensures Bytewise(a, b) < 0 <==> a < b || exists i :: 0 <= i < |a| && i < |b| && a[..i] == b[..i] && a[i] < b[i]
  {
    if a != [] && b != [] {
      BytewiseIsOrder(a[1..], b[1..]);
      assert a == [a[0]] + a[1..] && b == [b[0]] + b[1..];
      if a[0] == b[0] {
        OneLater(a, b);
      } else {
        assert a[..0] == b[..0];
      }
    }
  }

  lemma OneLater(a: seq<Byte>, b: seq<Byte>)
    requires a != [] && b != [] && a[0] == b[0]
    ensures a < b <==> a[1..] < b[1..]
    ensures (exists i :: 0 <= i < |a| && i < |b| && a[..i] == b[..i] && a[i] < b[i]) <==>
            (exists i :: 0 <= i < |a[1..]| && i < |b[1..]| && a[1..][..i] == b[1..][..i] && a[1..][i] < b[1..][i])
  {
    if exists i :: 0 <= i < |a| && i < |b| && a[..i] == b[..i] && a[i] < b[i] {
      var i :| 0 <= i < |a| && i < |b| && a[..i] == b[..i] && a[i] < b[i];
      assert a[1..][..i - 1] == a[..i][1..] && b[1..][..i - 1] == b[..i][1..];
      assert a[1..][i - 1] < b[1..][i - 1];
    }
    if exists i :: 0 <= i < |a[1..]| && i < |b[1..]| && a[1..][..i] == b[1..][..i] && a[1..][i] < b[1..][i] {
      var i :| 0 <= i < |a[1..]| && i < |b[1..]| && a[1..][..i] == b[1..][..i] && a[1..][i] < b[1..][i];
      assert a[..i + 1] == [a[0]] + a[1..][..i] && b[..i + 1] == [b[0]] + b[1..][..i];
      assert a[i + 1] < b[i + 1];
    }
  }

  lemma {:induction false} BytewiseSame(s: seq<Byte>)
    ensures Bytewise(s, s) == 0
  {
    if s != [] { BytewiseSame(s[1..]); }
  }

  lemma Pow256Of8()
    ensures Pow256(8) == UINT64
  {
    assert Pow256(4) == 0x1_0000_0000;
  }

  lemma EncodedOrder(a: nat, b: nat, keySize: nat)
    ensures Bytewise(Encoded(a, keySize), Encoded(b, keySize))
         == Numeric(a % Pow256(Filled(keySize)), b % Pow256(Filled(keySize)))
  {
    BigEndianOrder(a, b, Filled(keySize), seq(keySize - Filled(keySize), _ => PAD));
  }

  ghost predicate KeepsOrder(a: nat, b: nat, keySize: nat) {
    Bytewise(Encoded(a, keySize), Encoded(b, keySize)) == Numeric(a, b)
  }

  lemma {:induction false} Pow256Grows(m: nat, n: nat)
    requires m < n
    ensures Pow256(m) < Pow256(n)
  {
    if m + 1 < n { Pow256Grows(m, n - 1); }
  }

  lemma RemainderIsWhole(a: nat, p: nat)
    requires a < p
    ensures a % p == a
  {
  }

  /** With room for eight bytes the bytes kept give the number back. */
  lemma KeepsAll(a: nat, b: nat, keySize: nat)
    requires keySize >= 8 && a < UINT64 && b < UINT64
    ensures Bytewise(Encoded(a, keySize), Encoded(b, keySize)) == Numeric(a, b)
  {
    hide Bytewise, Encoded, Pow256;
    Pow256Of8();
    EncodedOrder(a, b, keySize);
    RemainderIsWhole(a, Pow256(8));
    RemainderIsWhole(b, Pow256(8));
  }

  /** With less room, the first number that does not fit is encoded as 0 is. */
  lemma WrapsAround(keySize: nat)
    requires keySize < 8
    ensures 0 < Pow256(keySize) < UINT64
    ensures Bytewise(Encoded(0, keySize), Encoded(Pow256(keySize), keySize)) == 0
  {
    hide Bytewise, Encoded, Pow256;
    Pow256Of8();
    Pow256Grows(keySize, 8);
    EncodedOrder(0, Pow256(keySize), keySize);
    RemainderIsWhole(0, Pow256(keySize));
  }

  /** All keys the driver generates are ordered as their numbers, exactly when
      the key has room for eight bytes. */
  lemma EncodingKeepsOrder(keySize: nat)
    ensures keySize >= 8 <==> forall a, b :: 0 <= a < UINT64 && 0 <= b < UINT64 ==> KeepsOrder(a, b, keySize)
  {
    hide Bytewise, Encoded, Pow256;
    if keySize >= 8 {
      forall a, b | 0 <= a < UINT64 && 0 <= b < UINT64
        ensures KeepsOrder(a, b, keySize)
      {
        KeepsAll(a, b, keySize);
      }
    } else {
      WrapsAround(keySize);
      assert !KeepsOrder(0, Pow256(keySize), keySize);
    }
  }

  lemma {:induction false} BytewiseEqual(s: seq<Byte>, t: seq<Byte>)
    requires Bytewise(s, t) == 0
    ensures s == t
  {
    if s != [] && t != [] {
      BytewiseEqual(s[1..], t[1..]);
      assert s == [s[0]] + s[1..] && t == [t[0]] + t[1..];
    }
  }

  ghost predicate Collide(a: nat, b: nat, keySize: nat) {
    a != b && Encoded(a, keySize) == Encoded(b, keySize)
  }

  /** No two numbers share a key, exactly when the key has room for eight bytes. */
  lemma EncodingIsInjective(keySize: nat)
    ensures keySize >= 8 <==> forall a, b :: 0 <= a < UINT64 && 0 <= b < UINT64 ==> !Collide(a, b, keySize)
  {
    hide Bytewise, Encoded, Pow256;
    if keySize >= 8 {
      forall a, b | 0 <= a < UINT64 && 0 <= b < UINT64
        ensures !Collide(a, b, keySize)
      {
        KeepsAll(a, b, keySize);
        BytewiseSame(Encoded(a, keySize));
      }
    } else {
      WrapsAround(keySize);
      BytewiseEqual(Encoded(0, keySize), Encoded(Pow256(keySize), keySize));
      assert Collide(0, Pow256(keySize), keySize);
    }
  }
}
