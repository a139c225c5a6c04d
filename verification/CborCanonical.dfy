/** The sorting profile is a normal form: octets are equal exactly for values that differ in map order only. */
module CborCanonical {
  import opened Octets
  import opened CborValue
  import opened CborOrder
  import opened CborEncode
  import opened CborRoundTrip

  // ---- Values up to map order ------------------------------------------------

  /** `pi` permutes the numbers below `n`. */
  predicate Permutation(pi: seq<nat>, n: nat) {
    && |pi| == n
    && Indices(pi, n)
    && (forall i, j :: 0 <= i < j < n ==> pi[i] != pi[j])
    && (forall j: nat :: j < n ==> j in pi)
  }

  /** The same value, map entries permuted at any depth. */
  ghost predicate Equiv(v: Value, u: Value) {
    match (v, u)
    case (Array(a), Array(b)) => |a| == |b| && forall i :: 0 <= i < |a| ==> Equiv(a[i], b[i])
    case (Map(a), Map(b)) =>
      && |a| == |b|
      && exists pi: seq<nat> ::
           && Permutation(pi, |a|)
           && forall i :: 0 <= i < |a| ==> Equiv(a[i].key, b[pi[i]].key) && Equiv(a[i].val, b[pi[i]].val)
    case (Tag(t, x), Tag(s, y)) => t == s && Equiv(x, y)
    case _ => v == u
  }

  /** Values the canonical form is meant for: 64-bit integers, finite floats, and no two equal keys in one map. */
  ghost predicate Hashable(v: Value) {
    match v
    case Integer(n) => -TWO64 <= n < TWO64
    case Bytes(b) => |b| < TWO64
    case Text(s) => |s| < TWO64 && Utf8(s)
    case Array(items) => |items| < TWO64 && forall i :: 0 <= i < |items| ==> Hashable(items[i])
    case Map(entries) =>
      && |entries| < TWO64
      && (forall i :: 0 <= i < |entries| ==> Hashable(entries[i].key) && Hashable(entries[i].val))
      && (forall i, j :: 0 <= i < j < |entries| ==> !Equiv(entries[i].key, entries[j].key))
    case Tag(_, inner) => Hashable(inner)
    case Float(bits) => |bits| == 8 && Finite(bits)
    case _ => true
  }

  lemma {:induction false} HashableWellTyped(v: Value)
    requires Hashable(v)
    ensures WellTyped(v)
  {
    match v
    case Array(items) =>
      forall i | 0 <= i < |items| ensures WellTyped(items[i]) { HashableWellTyped(items[i]); }
    case Map(entries) =>
      forall i | 0 <= i < |entries| ensures WellTyped(entries[i].key) && WellTyped(entries[i].val) {
        HashableWellTyped(entries[i].key);
        HashableWellTyped(entries[i].val);
      }
    case Tag(_, inner) => HashableWellTyped(inner);
    case _ =>
  }

  lemma {:induction false} HashableEncodes(v: Value)
    requires Hashable(v)
    ensures Encode(v, Canonical).Ok?
    decreases v, 1
  {
    match v
    case Array(items) => HashableEncodesItems(items);
    case Map(entries) => HashableEncodesEntries(v);
    case Tag(_, inner) => HashableEncodes(inner);
    case _ =>
  }

  lemma {:induction false} HashableEncodesItems(items: seq<Value>)
    requires forall i :: 0 <= i < |items| ==> Hashable(items[i])
    ensures EncodeItems(items, Canonical).Ok?
    decreases items, 0
  {
    if items != [] {
      HashableEncodes(items[0]);
      HashableEncodesItems(items[1..]);
    }
  }

  /** Both halves of every entry of a hashable map are written. */
  lemma {:induction false} HashableEntry(v: Value, i: nat)
    requires v.Map? && Hashable(v) && i < |v.entries|
    ensures EncodeEntries(v.entries, Canonical)[i] == EncodeEntry(v.entries[i], Canonical)
    ensures Encode(v.entries[i].key, Canonical).Ok? && Encode(v.entries[i].val, Canonical).Ok?
    decreases v, 0, 0
  {
    EncodeEntriesAt(v.entries, Canonical, i);
    HashableEncodes(v.entries[i].key);
    HashableEncodes(v.entries[i].val);
  }

  lemma {:induction false} HashableEncodesEntries(v: Value)
    requires v.Map? && Hashable(v)
    ensures Encode(v, Canonical).Ok?
    decreases v, 0, 1
  {
    hide Encode, Hashable;
    var pairs := EncodeEntries(v.entries, Canonical);
    forall i | 0 <= i < |pairs| ensures pairs[i].key.Ok? && pairs[i].val.Ok? {
      HashableEntry(v, i);
    }
    var order := EntryOrder(pairs, Canonical);
    GatherOk(pairs, order);
    EncodeMapUnfold(v, Canonical);
  }

  // ---- Octets determine the value ---------------------------------------------

  /** Values whose emitted forms agree differ in map order only. */
  lemma {:induction false} EmittedEqualEquiv(v: Value, u: Value)
    requires Hashable(v) && Hashable(u) && Emitted(v, Canonical) == Emitted(u, Canonical)
    ensures Equiv(v, u)
    decreases Max(Height(v), Height(u)), 3
  {
    if v.Array? && u.Array? {
      assert |v.items| == |u.items|;
      forall i | 0 <= i < |v.items| ensures Equiv(v.items[i], u.items[i]) {
        EmittedItemsAt(v.items, Canonical, i);
        EmittedItemsAt(u.items, Canonical, i);
        HeightOfItemAt(v.items, i);
        HeightOfItemAt(u.items, i);
        EmittedEqualEquiv(v.items[i], u.items[i]);
      }
    } else if v.Map? && u.Map? {
      EmittedEqualEquivMap(v, u);
    } else if v.Tag? && u.Tag? {
      EmittedEqualEquiv(v.inner, u.inner);
    }
  }

  function MapKeys(v: Value): (keys: seq<seq<byte>>)
    requires v.Map?
    ensures |keys| == |v.entries|
  {
    KeySortKeys(EncodeEntries(v.entries, Canonical))
  }

  /** Two keys that encode alike carry the same emitted key. */
  lemma SameSortKey(v: Value, u: Value, i: nat, j: nat)
    requires v.Map? && u.Map? && Hashable(v) && Hashable(u) && i < |v.entries| && j < |u.entries|
    requires MapKeys(v)[i] == MapKeys(u)[j]
    ensures Emitted(v.entries[i].key, Canonical) == Emitted(u.entries[j].key, Canonical)
  {
    HashableEntry(v, i);
    HashableEntry(u, j);
    var a, b := v.entries[i].key, u.entries[j].key;
    HashableWellTyped(a);
    HashableWellTyped(b);
    SortKeyInjective(Encode(a, Canonical).value, Encode(b, Canonical).value);
    PrefixFree(a, b, Canonical);
  }

  /** Distinct keys have distinct sort keys, so no entry of a hashable map is dropped. */
  lemma {:induction false} HashableKeysDistinct(v: Value)
    requires v.Map? && Hashable(v)
    ensures Distinct(MapKeys(v))
    decreases Height(v), 0
  {
    forall i, j | 0 <= i < j < |v.entries| ensures MapKeys(v)[i] != MapKeys(v)[j] {
      if MapKeys(v)[i] == MapKeys(v)[j] {
        SameSortKey(v, v, i, j);
        HeightOfEntryAt(v.entries, i);
        HeightOfEntryAt(v.entries, j);
        EmittedEqualEquiv(v.entries[i].key, v.entries[j].key);
      }
    }
  }

  ghost function PositionOf(order: seq<nat>, i: nat): (k: nat)
    requires i in order
    ensures k < |order| && order[k] == i
  {
    var k :| 0 <= k < |order| && order[k] == i;
    k
  }

  /** The permutation that sends each entry to the one emitted at the same place. */
  ghost function Matching(a: seq<nat>, b: seq<nat>, n: nat): (pi: seq<nat>)
    requires |a| == |b| && forall i: nat :: i < n ==> i in a
    ensures |pi| == n && forall i :: 0 <= i < n ==> pi[i] == b[PositionOf(a, i)]
  {
    seq(n, i requires 0 <= i < n => b[PositionOf(a, i)])
  }

  lemma MatchingPermutation(a: seq<nat>, b: seq<nat>, n: nat)
    requires |a| == |b| == n && Indices(a, n) && Indices(b, n)
    requires forall p, q :: 0 <= p < q < n ==> a[p] != a[q]
    requires forall p, q :: 0 <= p < q < n ==> b[p] != b[q]
    requires forall i: nat :: i < n ==> i in a
    requires forall i: nat :: i < n ==> i in b
    ensures Permutation(Matching(a, b, n), n)
  {
    var pi := Matching(a, b, n);
    forall j: nat | j < n ensures j in pi {
      var k := PositionOf(b, j);
      assert PositionOf(a, a[k]) == k;
      assert pi[a[k]] == j;
    }
  }

  lemma OrderInjective(v: Value)
    requires v.Map? && Hashable(v)
    ensures var order, n := OrderOf(MapKeys(v), |v.entries|), |v.entries|;
            && |order| == n && Indices(order, n)
            && (forall p, q :: 0 <= p < q < n ==> order[p] != order[q])
            && (forall i: nat :: i < n ==> i in order)
            && Increasing(order, MapKeys(v))
    decreases Height(v), 1
  {
    var keys := MapKeys(v);
    var order := OrderOf(keys, |keys|);
    HashableKeysDistinct(v);
    DistinctOrder(keys);
    OrderOfIncreasing(keys, |keys|);
    forall p, q | 0 <= p < q < |keys| ensures order[p] != order[q] {
      LessIrreflexive(keys[order[p]]);
    }
  }

  lemma {:induction false} EmittedEqualEquivEntry(v: Value, u: Value, i: nat, j: nat)
    requires v.Map? && u.Map? && Hashable(v) && Hashable(u) && i < |v.entries| && j < |u.entries|
    requires EmittedEntries(v.entries, Canonical)[i] == EmittedEntries(u.entries, Canonical)[j]
    ensures Equiv(v.entries[i].key, u.entries[j].key) && Equiv(v.entries[i].val, u.entries[j].val)
    decreases Max(Height(v), Height(u)), 0
  {
    hide Equiv, Emitted;
    EmittedEntriesAt(v.entries, Canonical, i);
    EmittedEntriesAt(u.entries, Canonical, j);
    HeightOfEntryAt(v.entries, i);
    HeightOfEntryAt(u.entries, j);
    EmittedEqualEquiv(v.entries[i].key, u.entries[j].key);
    EmittedEqualEquiv(v.entries[i].val, u.entries[j].val);
  }

  lemma {:induction false} EmittedEqualEquivMap(v: Value, u: Value)
    requires v.Map? && u.Map? && Hashable(v) && Hashable(u) && Emitted(v, Canonical) == Emitted(u, Canonical)
    ensures Equiv(v, u)
    decreases Max(Height(v), Height(u)), 2
  {
    hide Hashable, OrderOf, EmittedEntries, EncodeEntries, Increasing, Emitted, Equiv, Pick, MapKeys;
    EmittedMapUnfold(v);
    EmittedMapUnfold(u);
    var a, b, n := OrderOf(MapKeys(v), |v.entries|), OrderOf(MapKeys(u), |u.entries|), |v.entries|;
    OrderInjective(v);
    OrderInjective(u);
    var ev, eu := EmittedEntries(v.entries, Canonical), EmittedEntries(u.entries, Canonical);
    assert Pick(ev, a) == Pick(eu, b);
    var pi := Matching(a, b, n);
    MatchingPermutation(a, b, n);
    forall i | 0 <= i < n
      ensures Equiv(v.entries[i].key, u.entries[pi[i]].key) && Equiv(v.entries[i].val, u.entries[pi[i]].val)
    {
      var k := PositionOf(a, i);
      assert Pick(ev, a)[k] == Pick(eu, b)[k];
      EmittedEqualEquivEntry(v, u, i, pi[i]);
    }
    EquivMapIntro(v, u, pi);
  }

  lemma EmittedMapUnfold(v: Value)
    requires v.Map?
    ensures Emitted(v, Canonical) == Map(Pick(EmittedEntries(v.entries, Canonical), OrderOf(MapKeys(v), |v.entries|)))
  {
    hide EmittedEntries, EncodeEntries, OrderOf, Pick;
  }

  lemma EquivMapIntro(v: Value, u: Value, pi: seq<nat>)
    requires v.Map? && u.Map? && |v.entries| == |u.entries| && Permutation(pi, |v.entries|)
    requires forall i :: 0 <= i < |v.entries| ==>
               Equiv(v.entries[i].key, u.entries[pi[i]].key) && Equiv(v.entries[i].val, u.entries[pi[i]].val)
    ensures Equiv(v, u)
  {
  }

  lemma {:induction false} HeightOfItemAt(items: seq<Value>, i: nat)
    requires i < |items|
    ensures Height(items[i]) < HeightOfItems(items)
  {
    if i != 0 {
      HeightOfItemAt(items[1..], i - 1);
    }
  }

  lemma {:induction false} HeightOfEntryAt(entries: seq<Entry>, i: nat)
    requires i < |entries|
    ensures Height(entries[i].key) < HeightOfEntries(entries) && Height(entries[i].val) < HeightOfEntries(entries)
  {
    if i != 0 {
      HeightOfEntryAt(entries[1..], i - 1);
    }
  }

  // ---- Equivalent values have equal octets --------------------------------------

  lemma {:induction false} EquivSameOctets(v: Value, u: Value)
    requires Hashable(v) && Hashable(u) && Equiv(v, u)
    ensures Encode(v, Canonical) == Encode(u, Canonical)
    decreases v, 1
  {
    if v.Array? && u.Array? {
      EquivSameItems(v.items, u.items);
    } else if v.Map? && u.Map? {
      EquivSameMap(v, u);
    } else if v.Tag? && u.Tag? {
      EquivSameOctets(v.inner, u.inner);
    }
  }

  lemma {:induction false} EquivSameItems(a: seq<Value>, b: seq<Value>)
    requires |a| == |b|
    requires forall i :: 0 <= i < |a| ==> Hashable(a[i]) && Hashable(b[i]) && Equiv(a[i], b[i])
    ensures EncodeItems(a, Canonical) == EncodeItems(b, Canonical)
    decreases a, 0
  {
    hide Equiv, Hashable, Encode;
    if a != [] {
      EquivSameOctets(a[0], b[0]);
      EquivSameItems(a[1..], b[1..]);
    }
  }

  /** The k-th entries written for two matched maps are the same octets. */
  lemma SameOrder(kv: seq<seq<byte>>, ku: seq<seq<byte>>, a: seq<nat>, b: seq<nat>, pi: seq<nat>)
    requires |kv| == |ku| == |a| == |b| && Permutation(pi, |kv|) && Distinct(ku)
    requires Indices(a, |kv|) && Indices(b, |ku|) && Increasing(a, kv) && Increasing(b, ku)
    requires forall i: nat :: i < |kv| ==> i in a && i in b
    requires forall i :: 0 <= i < |kv| ==> kv[i] == ku[pi[i]]
    ensures forall k :: 0 <= k < |a| ==> b[k] == pi[a[k]]
  {
    var n := |kv|;
    var la := seq(n, k requires 0 <= k < n => kv[a[k]]);
    var lb := seq(n, k requires 0 <= k < n => ku[b[k]]);
    forall x ensures x in la <==> x in lb {
      if x in la {
        var k :| 0 <= k < n && la[k] == x;
        var q := PositionOf(b, pi[a[k]]);
        assert lb[q] == x;
      }
      if x in lb {
        var k :| 0 <= k < n && lb[k] == x;
        assert b[k] in pi;
        var i :| 0 <= i < n && pi[i] == b[k];
        var q := PositionOf(a, i);
        assert la[q] == x;
      }
    }
    SortedUnique(la, lb);
    forall k | 0 <= k < n ensures b[k] == pi[a[k]] {
      assert la[k] == lb[k];
    }
  }

  lemma {:induction false} GatherCongruence(p: seq<Pair>, a: seq<nat>, q: seq<Pair>, b: seq<nat>)
    requires Indices(a, |p|) && Indices(b, |q|) && |a| == |b|
    requires forall k :: 0 <= k < |a| ==> p[a[k]] == q[b[k]]
    ensures Gather(p, a) == Gather(q, b)
  {
    if a != [] {
      assert p[a[0]] == q[b[0]];
      GatherCongruence(p, a[1..], q, b[1..]);
    }
  }

  lemma {:induction false} EquivSameMap(v: Value, u: Value)
    requires v.Map? && u.Map? && Hashable(v) && Hashable(u) && Equiv(v, u)
    ensures Encode(v, Canonical) == Encode(u, Canonical)
    decreases v, 0
  {
    var pi: seq<nat> :| Permutation(pi, |v.entries|) && forall i :: 0 <= i < |v.entries| ==>
      Equiv(v.entries[i].key, u.entries[pi[i]].key) && Equiv(v.entries[i].val, u.entries[pi[i]].val);
    var p, q := EncodeEntries(v.entries, Canonical), EncodeEntries(u.entries, Canonical);
    forall i | 0 <= i < |p| ensures p[i] == q[pi[i]] {
      EquivSameOctets(v.entries[i].key, u.entries[pi[i]].key);
      EquivSameOctets(v.entries[i].val, u.entries[pi[i]].val);
      EncodeEntriesAt(v.entries, Canonical, i);
      EncodeEntriesAt(u.entries, Canonical, pi[i]);
    }
    SortedTogether(v, u, pi);
  }

  lemma SortedTogether(v: Value, u: Value, pi: seq<nat>)
    requires v.Map? && u.Map? && Hashable(v) && Hashable(u) && |v.entries| == |u.entries|
    requires Permutation(pi, |v.entries|)
    requires var p, q := EncodeEntries(v.entries, Canonical), EncodeEntries(u.entries, Canonical);
             forall i :: 0 <= i < |p| ==> p[i] == q[pi[i]]
    ensures Encode(v, Canonical) == Encode(u, Canonical)
  {
    hide Encode, Hashable, Gather, OrderOf, EncodeEntries, Less;
    var p, q := EncodeEntries(v.entries, Canonical), EncodeEntries(u.entries, Canonical);
    var a, b := EntryOrder(p, Canonical), EntryOrder(q, Canonical);
    OrderInjective(v);
    OrderInjective(u);
    HashableKeysDistinct(u);
    SameOrder(MapKeys(v), MapKeys(u), a, b, pi);
    GatherCongruence(p, a, q, b);
    EncodeMapUnfold(v, Canonical);
    EncodeMapUnfold(u, Canonical);
  }

  // ---- Theorems --------------------------------------------------------------------

  /** Canonical octets are equal exactly for values that differ in map order only. */
  lemma CanonicalNormalForm(v: Value, u: Value)
    requires Hashable(v) && Hashable(u)
    ensures Encode(v, Canonical).Ok? && Encode(u, Canonical).Ok?
    ensures Encode(v, Canonical) == Encode(u, Canonical) <==> Equiv(v, u)
  {
    hide Encode, Hashable, Equiv, Emitted;
    HashableEncodes(v);
    HashableEncodes(u);
    HashableWellTyped(v);
    HashableWellTyped(u);
    if Encode(v, Canonical) == Encode(u, Canonical) {
      PrefixFree(v, u, Canonical);
      EmittedEqualEquiv(v, u);
    }
    if Equiv(v, u) {
      EquivSameOctets(v, u);
    }
  }

  /** In an already increasing list insertion appends. */
  lemma {:induction false} InsertAppends(order: seq<nat>, keys: seq<seq<byte>>, i: nat)
    requires i < |keys| && Indices(order, |keys|)
    requires forall k :: 0 <= k < |order| ==> Less(keys[order[k]], keys[i])
    ensures Insert(order, keys, i) == order + [i]
  {
    if order != [] {
      LessIrreflexive(keys[i]);
      LessAsymmetric(keys[order[0]], keys[i]);
      InsertAppends(order[1..], keys, i);
    }
  }

  lemma {:induction false} SortedStays(keys: seq<seq<byte>>, n: nat)
    requires n <= |keys| && forall p, q :: 0 <= p < q < |keys| ==> Less(keys[p], keys[q])
    ensures OrderOf(keys, n) == InsertionOrder(n)
  {
    hide Insert, Less;
    if n != 0 {
      SortedStays(keys, n - 1);
      InsertAppends(OrderOf(keys, n - 1), keys, n - 1);
    }
  }

  lemma {:induction false} GatherAllOk(pairs: seq<Pair>, order: seq<nat>, k: nat)
    requires Indices(order, |pairs|) && Gather(pairs, order).Ok? && k < |order|
    ensures pairs[order[k]].key.Ok? && pairs[order[k]].val.Ok?
  {
    if k != 0 {
      GatherAllOk(pairs, order[1..], k - 1);
    }
  }

  /** Encoding what was emitted reproduces the octets. */
  lemma {:induction false} CanonicalStable(v: Value)
    requires Encode(v, Canonical).Ok?
    ensures Encode(Emitted(v, Canonical), Canonical) == Encode(v, Canonical)
    decreases v, 1
  {
    hide EncodeItems, EmittedItems, EncodeEntries, EmittedEntries, Gather, EntryOrder, Opening, Head, IntegerBytes, Narrowed;
    match v
    case Integer(n) => StableInteger(n);
    case Array(items) => StableItems(items);
    case Map(_) => StableMap(v);
    case Tag(_, inner) => CanonicalStable(inner);
    case _ =>
  }

  lemma StableInteger(n: int)
    ensures IntegerBytes(Narrowed(n)) == IntegerBytes(n)
  {
    hide Head;
  }

  lemma {:induction false} StableItems(items: seq<Value>)
    requires EncodeItems(items, Canonical).Ok?
    ensures EncodeItems(EmittedItems(items, Canonical), Canonical) == EncodeItems(items, Canonical)
    decreases items, 0
  {
    hide Encode, Emitted;
    if items != [] {
      CanonicalStable(items[0]);
      StableItems(items[1..]);
      var out := EmittedItems(items, Canonical);
      assert out[1..] == EmittedItems(items[1..], Canonical);
    }
  }

  lemma {:induction false} StableEntry(v: Value, i: nat)
    requires v.Map? && i < |v.entries|
    requires Encode(v.entries[i].key, Canonical).Ok? && Encode(v.entries[i].val, Canonical).Ok?
    ensures EncodeEntry(EmittedEntries(v.entries, Canonical)[i], Canonical) == EncodeEntries(v.entries, Canonical)[i]
    decreases v, 0, 0
  {
    hide Encode, Emitted;
    EncodeEntriesAt(v.entries, Canonical, i);
    EmittedEntriesAt(v.entries, Canonical, i);
    CanonicalStable(v.entries[i].key);
    CanonicalStable(v.entries[i].val);
  }

  lemma {:induction false} StableMap(v: Value)
    requires v.Map? && Encode(v, Canonical).Ok?
    ensures Encode(Emitted(v, Canonical), Canonical) == Encode(v, Canonical)
    decreases v, 0, 1
  {
    var pairs := EncodeEntries(v.entries, Canonical);
    var order := EntryOrder(pairs, Canonical);
    var out := Emitted(v, Canonical);
    hide Encode, Emitted, EncodeEntries, EmittedEntries, Gather, OrderOf;
    EmittedMapUnfold(v);
    EncodeMapUnfold(v, Canonical);
    EncodeMapUnfold(out, Canonical);
    var again := EncodeEntries(out.entries, Canonical);
    forall k | 0 <= k < |order| ensures again[k] == pairs[order[k]] {
      GatherAllOk(pairs, order, k);
      EncodeEntriesAt(v.entries, Canonical, order[k]);
      EncodeEntriesAt(out.entries, Canonical, k);
      StableEntry(v, order[k]);
    }
    StableOrder(pairs, again);
    GatherCongruence(again, EntryOrder(again, Canonical), pairs, order);
  }

  lemma StableOrder(pairs: seq<Pair>, again: seq<Pair>)
    requires var order := EntryOrder(pairs, Canonical);
             |again| == |order| && forall k :: 0 <= k < |order| ==> again[k] == pairs[order[k]]
    ensures EntryOrder(again, Canonical) == InsertionOrder(|again|)
  {
    var keys, order := KeySortKeys(pairs), EntryOrder(pairs, Canonical);
    OrderOfIncreasing(keys, |pairs|);
    assert forall p, q :: 0 <= p < q < |order| ==> Less(keys[order[p]], keys[order[q]]);
    SortedStays(KeySortKeys(again), |again|);
  }

  /** With no condition on keys: octets are equal exactly when the retained, ordered entries are. */
  lemma CanonicalOctetsEqual(v: Value, u: Value)
    requires WellTyped(v) && WellTyped(u) && Encode(v, Canonical).Ok? && Encode(u, Canonical).Ok?
    ensures Encode(v, Canonical) == Encode(u, Canonical) <==> Emitted(v, Canonical) == Emitted(u, Canonical)
  {
    hide Encode, Emitted, WellTyped;
    if Encode(v, Canonical) == Encode(u, Canonical) {
      PrefixFree(v, u, Canonical);
    }
    CanonicalStable(v);
    CanonicalStable(u);
  }

  /** Without distinct keys the order of entries matters: the last value given for a key is the one written. */
  lemma DuplicateKeysLastWins(k: Value, x: Value, y: Value)
    requires Encode(k, Canonical).Ok? && Encode(y, Canonical).Ok?
    ensures Encode(Map([Entry(k, x), Entry(k, y)]), Canonical) == Encode(Map([Entry(k, y)]), Canonical)
  {
    hide Encode;
    var both, one := Map([Entry(k, x), Entry(k, y)]), Map([Entry(k, y)]);
    var p, q := EncodeEntries(both.entries, Canonical), EncodeEntries(one.entries, Canonical);
    EncodeEntriesAt(both.entries, Canonical, 0);
    EncodeEntriesAt(both.entries, Canonical, 1);
    EncodeEntriesAt(one.entries, Canonical, 0);
    assert OrderOf(KeySortKeys(p), 1) == [0];
    assert OrderOf(KeySortKeys(p), 2) == [1];
    assert OrderOf(KeySortKeys(q), 1) == [0];
    GatherCongruence(p, [1], q, [0]);
    EncodeMapUnfold(both, Canonical);
    EncodeMapUnfold(one, Canonical);
  }
}
