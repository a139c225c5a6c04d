/** Octets, fixed-width unsigned integers and big-endian fields. */
module Octets {

  type byte = x: int | 0 <= x < 256
  type u32 = x: int | 0 <= x < 0x1_0000_0000
  type u64 = x: int | 0 <= x < 0x1_0000_0000_0000_0000

  const TWO32 := 0x1_0000_0000
  const TWO64 := 0x1_0000_0000_0000_0000

  datatype Option<+T> = None | Some(value: T)

  datatype Result<+T, +E> = Ok(value: T) | Err(error: E) {
    predicate IsFailure() {
      Err?
    }

    function PropagateFailure<U>(): Result<U, E>
      requires Err?
    {
      Err(error)
    }

    function Extract(): T
      requires Ok?
    {
      value
    }
  }

  // ---- Big-endian fields ------------------------------------------------

  function Pow256(n: nat): (r: nat)
    ensures r >= 1
  {
    if n == 0 then 1 else 256 * Pow256(n - 1)
  }

  /** The `n` low-order octets of `v`, most significant first. */
  function BigEndian(n: nat, v: nat): (s: seq<byte>)
    ensures |s| == n
  {
    if n == 0 then [] else BigEndian(n - 1, v / 256) + [v % 256]
  }

  function FromBigEndian(s: seq<byte>): (v: nat)
  {
    if s == [] then 0 else FromBigEndian(s[..|s| - 1]) * 256 + s[|s| - 1]
  }

  lemma {:induction false} BigEndianRoundTrip(n: nat, v: nat)
    requires v < Pow256(n)
    ensures FromBigEndian(BigEndian(n, v)) == v
  {
    if n != 0 {
      var s := BigEndian(n, v);
      assert s[..n - 1] == BigEndian(n - 1, v / 256);
      BigEndianRoundTrip(n - 1, v / 256);
    }
  }

  lemma {:induction false} FromBigEndianBound(s: seq<byte>)
    ensures FromBigEndian(s) < Pow256(|s|)
  {
    if s != [] {
      FromBigEndianBound(s[..|s| - 1]);
    }
  }

  lemma Digits3(v: nat)
    requires v < 0x100_0000
    ensures BigEndian(3, v) == [v / 256 / 256, v / 256 % 256, v % 256]
  {
    assert BigEndian(0, v / 256 / 256 / 256) == [];
    assert BigEndian(1, v / 256 / 256) == [v / 256 / 256 % 256];
    assert BigEndian(2, v / 256) == [v / 256 / 256 % 256, v / 256 % 256];
  }

  lemma Digits4(v: u32)
    ensures BigEndian(4, v) == [v / 256 / 256 / 256, v / 256 / 256 % 256, v / 256 % 256, v % 256]
  {
    Digits3(v / 256);
  }

  function Max(a: nat, b: nat): nat { if a < b then b else a }
  function Min(a: nat, b: nat): nat { if a < b then a else b }

  lemma Pow256Values()
    ensures Pow256(1) == 256
    ensures Pow256(2) == 0x1_0000
    ensures Pow256(3) == 0x100_0000
    ensures Pow256(4) == TWO32
    ensures Pow256(8) == TWO64
  {
    assert Pow256(3) == 256 * Pow256(2);
    assert Pow256(4) == 256 * Pow256(3);
    assert Pow256(5) == 256 * Pow256(4);
    assert Pow256(6) == 256 * Pow256(5);
    assert Pow256(7) == 256 * Pow256(6);
    assert Pow256(8) == 256 * Pow256(7);
  }

  // ---- Occurrence of a field inside a longer octet string ----------------

  /** `field` occurs in `data` at `pos`. */
  predicate At(data: seq<byte>, pos: nat, field: seq<byte>) {
    pos + |field| <= |data| && data[pos..pos + |field|] == field
  }

  lemma AtSplit(data: seq<byte>, pos: nat, a: seq<byte>, b: seq<byte>)
    requires At(data, pos, a + b)
    ensures At(data, pos, a) && At(data, pos + |a|, b)
  {
    var whole := data[pos..pos + |a + b|];
    assert data[pos..pos + |a|] == whole[..|a|] == a;
    assert data[pos + |a|..pos + |a| + |b|] == whole[|a|..] == b;
  }

  lemma AtIndex(data: seq<byte>, pos: nat, a: seq<byte>, k: nat)
    requires At(data, pos, a) && k < |a|
    ensures data[pos + k] == a[k]
  {
    assert data[pos..pos + |a|][k] == data[pos + k];
  }

  // ---- Lexicographic order, the order of Rust's byte vectors -------------

  predicate Less(a: seq<byte>, b: seq<byte>) {
    b != [] && (a == [] || a[0] < b[0] || (a[0] == b[0] && Less(a[1..], b[1..])))
  }

  lemma {:induction false} LessTransitive(a: seq<byte>, b: seq<byte>, c: seq<byte>)
    requires Less(a, b) && Less(b, c)
    ensures Less(a, c)
  {
    if a != [] && a[0] == b[0] && b[0] == c[0] {
      LessTransitive(a[1..], b[1..], c[1..]);
    }
  }

  lemma {:induction false} LessIrreflexive(a: seq<byte>)
    ensures !Less(a, a)
  {
    if a != [] {
      LessIrreflexive(a[1..]);
    }
  }

  lemma {:induction false} LessTotal(a: seq<byte>, b: seq<byte>)
    ensures a == b || Less(a, b) || Less(b, a)
  {
    if a != [] && b != [] && a[0] == b[0] {
      LessTotal(a[1..], b[1..]);
      if a[1..] == b[1..] {
        assert a == [a[0]] + a[1..] && b == [b[0]] + b[1..];
      }
    }
  }

  /** A common prefix does not affect the comparison. */
  lemma {:induction false} LessSamePrefix(p: seq<byte>, a: seq<byte>, b: seq<byte>)
    ensures Less(p + a, p + b) <==> Less(a, b)
  {
    if p == [] {
      assert p + a == a && p + b == b;
    } else {
      LessSamePrefix(p[1..], a, b);
      assert (p + a)[1..] == p[1..] + a && (p + b)[1..] == p[1..] + b;
    }
  }

  /** Two different prefixes of one length decide the comparison. */
  lemma {:induction false} LessPrefixDecides(p: seq<byte>, q: seq<byte>, a: seq<byte>, b: seq<byte>)
    requires |p| == |q| && Less(p, q)
    ensures Less(p + a, q + b)
  {
    if p[0] == q[0] {
      LessPrefixDecides(p[1..], q[1..], a, b);
      assert (p + a)[1..] == p[1..] + a && (q + b)[1..] == q[1..] + b;
    }
  }

  /** Big-endian fields of one width compare as the numbers they carry. */
  lemma {:induction false} BigEndianOrder(n: nat, v: nat, w: nat)
    requires v < w < Pow256(n)
    ensures Less(BigEndian(n, v), BigEndian(n, w))
  {
    if n != 0 {
      var p, q := BigEndian(n - 1, v / 256), BigEndian(n - 1, w / 256);
      if v / 256 < w / 256 {
        BigEndianOrder(n - 1, v / 256, w / 256);
        LessPrefixDecides(p, q, [v % 256], [w % 256]);
      } else {
        assert Less([v % 256], [w % 256]);
        LessSamePrefix(p, [v % 256], [w % 256]);
      }
    }
  }
}
