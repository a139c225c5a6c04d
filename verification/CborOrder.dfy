/** The order `canonical_sort` puts map entries in, as a list of entry indices. */
module CborOrder {
  import opened Octets

  /** Sort key of an encoded map key: its eight-octet length followed by the encoding. */
  function SortKey(enc: seq<byte>): seq<byte> {
    BigEndian(8, |enc| % TWO64) + enc
  }

  /** Shorter encodings first, then bytewise: the documented order. */
  lemma SortKeyOrder(a: seq<byte>, b: seq<byte>)
    requires |a| < TWO64 && |b| < TWO64
    ensures Less(SortKey(a), SortKey(b)) <==> |a| < |b| || (|a| == |b| && Less(a, b))
  {
    if |a| < |b| {
      ShorterFirst(a, b);
    } else if |b| < |a| {
      ShorterFirst(b, a);
      LessAsymmetric(SortKey(b), SortKey(a));
    } else {
      LessSamePrefix(BigEndian(8, |a| % TWO64), a, b);
    }
  }

  lemma ShorterFirst(a: seq<byte>, b: seq<byte>)
    requires |a| < |b| < TWO64
    ensures Less(SortKey(a), SortKey(b))
  {
    var la, lb := |a| % TWO64, |b| % TWO64;
    assert la < lb < Pow256(8) by { Pow256Values(); }
    BigEndianOrder(8, la, lb);
    LessPrefixDecides(BigEndian(8, la), BigEndian(8, lb), a, b);
  }

  lemma LessAsymmetric(a: seq<byte>, b: seq<byte>)
    requires Less(a, b)
    ensures !Less(b, a)
  {
    if Less(b, a) {
      LessTransitive(a, b, a);
      LessIrreflexive(a);
    }
  }

  lemma SortKeyInjective(a: seq<byte>, b: seq<byte>)
    requires SortKey(a) == SortKey(b)
    ensures a == b
  {
    assert a == SortKey(a)[8..] && b == SortKey(b)[8..];
  }

  predicate Indices(order: seq<nat>, n: nat) {
    forall p :: 0 <= p < |order| ==> order[p] < n
  }

  predicate Increasing(order: seq<nat>, keys: seq<seq<byte>>)
    requires Indices(order, |keys|)
  {
    forall p, q :: 0 <= p < q < |order| ==> Less(keys[order[p]], keys[order[q]])
  }

  /** Insert entry `i` into the ordered list, replacing an entry whose key is equal. */
  function Insert(order: seq<nat>, keys: seq<seq<byte>>, i: nat): (r: seq<nat>)
    requires i < |keys| && Indices(order, |keys|)
    ensures Indices(r, |keys|)
  {
    if order == [] then [i]
    else if keys[order[0]] == keys[i] then [i] + order[1..]
    else if Less(keys[i], keys[order[0]]) then [i] + order
    else [order[0]] + Insert(order[1..], keys, i)
  }

  /** The retained entries among the first `n`, in key order. */
  function OrderOf(keys: seq<seq<byte>>, n: nat): (r: seq<nat>)
    requires n <= |keys|
    ensures Indices(r, |keys|)
  {
    if n == 0 then [] else Insert(OrderOf(keys, n - 1), keys, n - 1)
  }

  /** Entry `j` is the last of the first `n` entries that carry its key. */
  predicate LastOfKey(keys: seq<seq<byte>>, n: nat, j: nat)
    requires n <= |keys|
  {
    j < n && forall k :: j < k < n ==> keys[k] != keys[j]
  }

  lemma {:induction false} InsertContents(order: seq<nat>, keys: seq<seq<byte>>, i: nat)
    requires i < |keys| && Indices(order, |keys|) && Increasing(order, keys)
    ensures Increasing(Insert(order, keys, i), keys)
    ensures forall j :: j in Insert(order, keys, i) <==> j == i || (j in order && keys[j] != keys[i])
  {
    var r := Insert(order, keys, i);
    if order == [] {
    } else if keys[order[0]] == keys[i] {
      LessIrreflexive(keys[i]);
      assert order == [order[0]] + order[1..];
      assert forall q :: 1 <= q < |order| ==> Less(keys[order[0]], keys[order[q]]);
    } else if Less(keys[i], keys[order[0]]) {
      LessIrreflexive(keys[i]);
      forall q | 0 <= q < |order| ensures Less(keys[i], keys[order[q]]) {
        if q != 0 {
          LessTransitive(keys[i], keys[order[0]], keys[order[q]]);
        }
      }
    } else {
      var rest := Insert(order[1..], keys, i);
      assert forall p, q :: 0 <= p < q < |order[1..]| ==> order[1..][p] == order[p + 1] && order[1..][q] == order[q + 1];
      InsertContents(order[1..], keys, i);
      LessTotal(keys[i], keys[order[0]]);
      forall q | 0 <= q < |rest| ensures Less(keys[order[0]], keys[rest[q]]) {
        assert rest[q] in rest;
        if rest[q] != i {
          var p :| 0 <= p < |order[1..]| && order[1..][p] == rest[q];
          assert order[p + 1] == rest[q];
        }
      }
      assert order == [order[0]] + order[1..];
    }
  }

  lemma {:induction false} OrderOfIncreasing(keys: seq<seq<byte>>, n: nat)
    requires n <= |keys|
    ensures Increasing(OrderOf(keys, n), keys)
  {
    if n != 0 {
      OrderOfIncreasing(keys, n - 1);
      InsertContents(OrderOf(keys, n - 1), keys, n - 1);
    }
  }

  lemma LastOfKeyStep(keys: seq<seq<byte>>, n: nat, j: nat)
    requires 0 < n <= |keys|
    ensures LastOfKey(keys, n, j) <==> j == n - 1 || (LastOfKey(keys, n - 1, j) && keys[j] != keys[n - 1])
  {
  }

  /** Exactly the last entry given for each key is retained. */
  lemma {:induction false} OrderOfMember(keys: seq<seq<byte>>, n: nat, j: nat)
    requires n <= |keys|
    ensures j in OrderOf(keys, n) <==> LastOfKey(keys, n, j)
  {
    if n != 0 {
      hide Insert, Increasing, LastOfKey;
      LastOfKeyStep(keys, n, j);
      var shorter := OrderOf(keys, n - 1);
      OrderOfIncreasing(keys, n - 1);
      OrderOfMember(keys, n - 1, j);
      InsertContents(shorter, keys, n - 1);
      assert j in OrderOf(keys, n) <==> j == n - 1 || (j in shorter && keys[j] != keys[n - 1]);
    }
  }

  predicate Distinct(keys: seq<seq<byte>>) {
    forall i, j :: 0 <= i < j < |keys| ==> keys[i] != keys[j]
  }

  /** With distinct keys nothing is dropped: the order is a permutation. */
  lemma DistinctOrder(keys: seq<seq<byte>>)
    requires Distinct(keys)
    ensures |OrderOf(keys, |keys|)| == |keys|
    ensures forall j :: 0 <= j < |keys| ==> j in OrderOf(keys, |keys|)
  {
    DistinctOrderLength(keys, |keys|);
    forall j | 0 <= j < |keys| ensures j in OrderOf(keys, |keys|) {
      OrderOfMember(keys, |keys|, j);
    }
  }

  lemma {:induction false} DistinctOrderLength(keys: seq<seq<byte>>, n: nat)
    requires n <= |keys| && Distinct(keys)
    ensures |OrderOf(keys, n)| == n
  {
    if n != 0 {
      DistinctOrderLength(keys, n - 1);
      var shorter := OrderOf(keys, n - 1);
      forall p | 0 <= p < |shorter| ensures keys[shorter[p]] != keys[n - 1] {
        assert shorter[p] in shorter;
        OrderOfMember(keys, n - 1, shorter[p]);
      }
      InsertFreshLength(shorter, keys, n - 1);
    }
  }

  lemma {:induction false} InsertFreshLength(order: seq<nat>, keys: seq<seq<byte>>, i: nat)
    requires i < |keys| && Indices(order, |keys|)
    requires forall p :: 0 <= p < |order| ==> keys[order[p]] != keys[i]
    ensures |Insert(order, keys, i)| == |order| + 1
  {
    if order != [] && !Less(keys[i], keys[order[0]]) {
      InsertFreshLength(order[1..], keys, i);
    }
  }

  /** Two strictly increasing lists over the same keys agree position by position. */
  lemma {:induction false} SortedUnique(a: seq<seq<byte>>, b: seq<seq<byte>>)
    requires forall p, q :: 0 <= p < q < |a| ==> Less(a[p], a[q])
    requires forall p, q :: 0 <= p < q < |b| ==> Less(b[p], b[q])
    requires forall x :: x in a <==> x in b
    ensures a == b
  {
    assert b == [] || b[0] in a;
    if a != [] {
      assert a[0] in b;
      assert b[0] in a;
      var i :| 0 <= i < |b| && b[i] == a[0];
      var j :| 0 <= j < |a| && a[j] == b[0];
      if i != 0 && j != 0 {
        LessAsymmetric(a[0], a[j]);
      }
      assert a[0] == b[0];
      assert a == [a[0]] + a[1..] && b == [b[0]] + b[1..];
      LessIrreflexive(a[0]);
      forall x ensures x in a[1..] <==> x in b[1..] {
        if x in a[1..] {
          var k :| 1 <= k < |a| && a[k] == x;
          assert x in b && x != b[0];
        }
        if x in b[1..] {
          var k :| 1 <= k < |b| && b[k] == x;
          assert x in a && x != a[0];
        }
      }
      SortedUnique(a[1..], b[1..]);
    }
  }
}
