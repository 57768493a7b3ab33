// Byte strings: what the engine feeds to its hash, and the order its storage
// kernel keeps text keys in.
module ByteStrings {
  type Byte = b: int | 0 <= b < 256
  type Bytes = seq<Byte>

  /** A 32-byte digest. */
  type Digest = d: Bytes | |d| == 32 witness seq(32, _ => 0)

  function ZeroDigest(): Digest { seq(32, _ => 0) }

  const U64_LIMIT := 0x1_0000_0000_0000_0000

  /** `width` little-endian bytes of n. */
  function LittleEndian(n: nat, width: nat): (s: Bytes)
    ensures |s| == width
  {
    if width == 0 then [] else [n % 256] + LittleEndian(n / 256, width - 1)
  }

  ghost predicate Fits(n: nat, width: nat) {
    if width == 0 then n == 0 else Fits(n / 256, width - 1)
  }

  lemma {:induction false} LittleEndianInjective(n: nat, m: nat, width: nat)
    requires Fits(n, width) && Fits(m, width)
    requires LittleEndian(n, width) == LittleEndian(m, width)
    ensures n == m
  {
    if width > 0 {
      assert LittleEndian(n, width)[1..] == LittleEndian(n / 256, width - 1);
      assert LittleEndian(m, width)[1..] == LittleEndian(m / 256, width - 1);
      LittleEndianInjective(n / 256, m / 256, width - 1);
      assert LittleEndian(n, width)[0] == LittleEndian(m, width)[0];
    }
  }

  lemma U64Fits(n: nat)
    requires n < U64_LIMIT
    ensures Fits(n, 8)
  {
    var n1 := n / 256;
    var n2 := n1 / 256;
    var n3 := n2 / 256;
    var n4 := n3 / 256;
    var n5 := n4 / 256;
    var n6 := n5 / 256;
    var n7 := n6 / 256;
    assert n7 / 256 == 0;
    assert Fits(n7, 1) by { assert Fits(n7 / 256, 0); }
    assert Fits(n5, 3) by { assert Fits(n6, 2); }
    assert Fits(n3, 5) by { assert Fits(n4, 4); }
    assert Fits(n1, 7) by { assert Fits(n2, 6); }
  }

  // ---- Byte streams, each written with the bytes that follow it ----

  function U64Then(n: nat, rest: Bytes): Bytes { LittleEndian(n, 8) + rest }

  /** A length-prefixed byte string, then `rest`. */
  function FrameThen(b: Bytes, rest: Bytes): Bytes { U64Then(|b|, b + rest) }

  /** An optional digest: a presence byte, and the framed digest when present. */
  function OptionalDigestThen(d: Option<Digest>, rest: Bytes): Bytes {
    match d
    case Some(digest) => [1] + FrameThen(digest, rest)
    case None => [0] + rest
  }

  datatype Option<+T> = None | Some(value: T) {
    function GetOr(default: T): T { if Some? then value else default }
  }

  lemma Cancel<T>(a: seq<T>, x: seq<T>, b: seq<T>, y: seq<T>)
    requires |a| == |b| && a + x == b + y
    ensures a == b && x == y
  {
    assert a == (a + x)[..|a|];
    assert b == (b + y)[..|b|];
    assert x == (a + x)[|a|..];
    assert y == (b + y)[|b|..];
  }

  lemma U64Cancel(n: nat, x: Bytes, m: nat, y: Bytes)
    requires n < U64_LIMIT && m < U64_LIMIT
    requires U64Then(n, x) == U64Then(m, y)
    ensures n == m && x == y
  {
    Cancel(LittleEndian(n, 8), x, LittleEndian(m, 8), y);
    U64Fits(n);
    U64Fits(m);
    LittleEndianInjective(n, m, 8);
  }

  lemma FrameCancel(a: Bytes, x: Bytes, b: Bytes, y: Bytes)
    requires |a| < U64_LIMIT && |b| < U64_LIMIT
    requires FrameThen(a, x) == FrameThen(b, y)
    ensures a == b && x == y
  {
    U64Cancel(|a|, a + x, |b|, b + y);
    Cancel(a, x, b, y);
  }

  lemma OptionalDigestCancel(a: Option<Digest>, x: Bytes, b: Option<Digest>, y: Bytes)
    requires OptionalDigestThen(a, x) == OptionalDigestThen(b, y)
    ensures a == b && x == y
  {
    assert OptionalDigestThen(a, x)[0] == OptionalDigestThen(b, y)[0];
    if a.Some? {
      Cancel([1], FrameThen(a.value, x), [1], FrameThen(b.value, y));
      FrameCancel(a.value, x, b.value, y);
    } else {
      Cancel([0], x, [0], y);
    }
  }

  // ---- Decimal text ----

  function Decimal(n: nat): (s: Bytes)
    ensures 1 <= |s| <= 1 + n / 10
  {
    if n < 10 then [48 + n] else Decimal(n / 10) + [48 + n % 10]
  }

  lemma {:induction false} DecimalInjective(n: nat, m: nat)
    requires Decimal(n) == Decimal(m)
    ensures n == m
  {
    var a, b := Decimal(n), Decimal(m);
    assert a[|a| - 1] == b[|b| - 1];
    if n >= 10 && m >= 10 {
      assert a[..|a| - 1] == Decimal(n / 10);
      assert b[..|b| - 1] == Decimal(m / 10);
      DecimalInjective(n / 10, m / 10);
    }
  }

  // ---- Order ----

  /** Lexicographic order on byte strings. */
  predicate Lex(a: Bytes, b: Bytes) {
    a == [] || (b != [] && (a[0] < b[0] || (a[0] == b[0] && Lex(a[1..], b[1..]))))
  }

  ghost predicate TotalOrder<T(!new)>(leq: (T, T) -> bool) {
    && (forall a, b :: leq(a, b) || leq(b, a))
    && (forall a, b :: leq(a, b) && leq(b, a) ==> a == b)
    && (forall a, b, c :: leq(a, b) && leq(b, c) ==> leq(a, c))
  }

  lemma {:induction false} LexTotal(a: Bytes, b: Bytes)
    ensures Lex(a, b) || Lex(b, a)
  {
    if a != [] && b != [] && a[0] == b[0] { LexTotal(a[1..], b[1..]); }
  }

  lemma {:induction false} LexAntisymmetric(a: Bytes, b: Bytes)
    requires Lex(a, b) && Lex(b, a)
    ensures a == b
  {
    if a != [] {
      LexAntisymmetric(a[1..], b[1..]);
      assert a == [a[0]] + a[1..] && b == [b[0]] + b[1..];
    }
  }

  lemma {:induction false} LexTransitive(a: Bytes, b: Bytes, c: Bytes)
    requires Lex(a, b) && Lex(b, c)
    ensures Lex(a, c)
  {
    if a != [] && a[0] == b[0] == c[0] { LexTransitive(a[1..], b[1..], c[1..]); }
  }

  lemma LexOrder()
    ensures TotalOrder(Lex)
  {
    forall a, b ensures Lex(a, b) || Lex(b, a) { LexTotal(a, b); }
    forall a, b | Lex(a, b) && Lex(b, a) ensures a == b { LexAntisymmetric(a, b); }
    forall a, b, c | Lex(a, b) && Lex(b, c) ensures Lex(a, c) { LexTransitive(a, b, c); }
  }

  lemma {:induction false} LeastExists<T(!new)>(s: set<T>, leq: (T, T) -> bool) returns (m: T)
    requires s != {} && TotalOrder(leq)
    ensures m in s && forall x :: x in s ==> leq(m, x)
  {
    m :| m in s;
    var rest := s - {m};
    assert leq(m, m);
    assert forall x :: x in s ==> x == m || x in rest;
    if rest != {} {
      var n := LeastExists(rest, leq);
      if leq(m, n) {
        forall x | x in s ensures leq(m, x) {
          if x in rest { assert leq(n, x); }
        }
      } else {
        assert leq(n, m);
        m := n;
      }
    }
  }

  function Least<T(==, !new)>(s: set<T>, leq: (T, T) -> bool): (m: T)
    requires s != {} && TotalOrder(leq)
    ensures m in s && forall x :: x in s ==> leq(m, x)
  {
    assert exists m :: m in s && forall x :: x in s ==> leq(m, x) by { var m := LeastExists(s, leq); }
    var m :| m in s && forall x :: x in s ==> leq(m, x);
    m
  }

  /** The members of a set in ascending order: the iteration order of an
      ordered map and of the storage kernel. */
  function InOrder<T(==, !new)>(s: set<T>, leq: (T, T) -> bool): (r: seq<T>)
    requires TotalOrder(leq)
    ensures |r| == |s|
    ensures forall x :: x in r <==> x in s
  {
    if s == {} then []
    else
      var m := Least(s, leq);
      [m] + InOrder(s - {m}, leq)
  }

  lemma {:induction false} InOrderAscends<T(!new)>(s: set<T>, leq: (T, T) -> bool, i: nat, j: nat)
    requires TotalOrder(leq) && i < j < |s|
    ensures var r := InOrder(s, leq); r[i] != r[j] && leq(r[i], r[j])
  {
    var m := Least(s, leq);
    var rest := InOrder(s - {m}, leq);
    if i == 0 {
      assert rest[j - 1] in rest;
    } else {
      InOrderAscends(s - {m}, leq, i - 1, j - 1);
    }
  }
}
