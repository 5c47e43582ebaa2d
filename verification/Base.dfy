/**
 Vocabulary shared by every module: bytes, byte strings, optional values, and the two
 integer encodings adb puts on a wire (little-endian words and hexadecimal digits).
 */
module Base {

  type byte = b: int | 0 <= b < 0x100
  type bytes = seq<byte>

  const MAX_PAYLOAD := 0x100000
  const TWO_32 := 0x1_0000_0000

  type uint32 = n: int | 0 <= n < 0x1_0000_0000

  datatype Option<+T> = None | Some(value: T)

  function Min(a: int, b: int): (m: int)
  {
    if a <= b then a else b
  }

  /** The concatenation of a list of byte strings. */
  function Flat(parts: seq<bytes>): bytes
  {
    if parts == [] then [] else parts[0] + Flat(parts[1..])
  }

  lemma {:induction false} FlatAppend(a: seq<bytes>, b: seq<bytes>)
    ensures Flat(a + b) == Flat(a) + Flat(b)
  {
    if a == [] {
      assert a + b == b;
    } else {
      assert (a + b)[1..] == a[1..] + b;
      FlatAppend(a[1..], b);
      assert Flat(a + b) == a[0] + (Flat(a[1..]) + Flat(b));
    }
  }

  lemma FlatSnoc(a: seq<bytes>, d: bytes)
    ensures Flat(a + [d]) == Flat(a) + d
  {
    FlatAppend(a, [d]);
    assert Flat([d]) == d + Flat([]) == d;
  }

  predicate NoneEmpty(parts: seq<bytes>)
  {
    forall i :: 0 <= i < |parts| ==> parts[i] != []
  }

  // ----- lists -----

  predicate Distinct<T(==)>(list: seq<T>)
  {
    forall i, j :: 0 <= i < j < |list| ==> list[i] != list[j]
  }

  /** `std::list::remove`: every occurrence goes. */
  function Without<T(==,!new)>(list: seq<T>, x: T): (r: seq<T>)
    ensures forall y :: y in r <==> y in list && y != x
  {
    if list == [] then [] else (if list[0] == x then [] else [list[0]]) + Without(list[1..], x)
  }

  lemma {:induction false} WithoutDistinct<T(!new)>(list: seq<T>, x: T)
    requires Distinct(list)
    ensures Distinct(Without(list, x))
  {
    if list != [] {
      WithoutDistinct(list[1..], x);
      assert list[0] !in list[1..];
    }
  }

  lemma Middle<T>(s: seq<T>, n: nat, k: nat)
    requires n + k <= |s|
    ensures s[n..][..k] == s[n..n + k]
  {
  }

  // ----- 32-bit words -----

  /** A word as a number has the same bits. */
  lemma SameBits(b: bv32)
    ensures (b as uint32) as bv32 == b
  {
  }

  function LE32(n: uint32): (s: bytes)
    ensures |s| == 4
  {
    [n % 0x100, n / 0x100 % 0x100, n / 0x1_0000 % 0x100, n / 0x100_0000]
  }

  function FromLE32(s: bytes): (n: uint32)
    requires |s| == 4
  {
    s[0] as int + s[1] as int * 0x100 + s[2] as int * 0x1_0000 + s[3] as int * 0x100_0000
  }

  lemma LE32RoundTrip(n: uint32)
    ensures FromLE32(LE32(n)) == n
  {
    var a, b := n / 0x100, n / 0x1_0000;
    assert b == a / 0x100;
    assert n / 0x100_0000 == b / 0x100;
  }

  lemma FromLE32Onto(s: bytes)
    requires |s| == 4
    ensures LE32(FromLE32(s)) == s
  {
    var c := s[2] as int + 0x100 * s[3] as int;
    var b := s[1] as int + 0x100 * c;
    var n := FromLE32(s);
    assert n == s[0] as int + 0x100 * b;
    Carry(s[0] as int, b);
    Carry(s[1] as int, c);
    Carry(s[2] as int, s[3] as int);
    assert n / 0x1_0000 == b / 0x100 && n / 0x100_0000 == c / 0x100;
  }

  lemma Carry(low: int, high: int)
    requires 0 <= low < 0x100
    ensures (low + 0x100 * high) / 0x100 == high && (low + 0x100 * high) % 0x100 == low
  {
  }
}
