/** When the canonical profile loses nothing: exactly for values without equal keys, out-of-range integers or non-finite floats. */
module CborLossless {
  import opened Octets
  import opened CborValue
  import opened CborOrder
  import opened CborEncode
  import opened CborDecode
  import opened CborRoundTrip
  import opened CborCanonical

  // ---- What is emitted is hashable ---------------------------------------------------

  /** Whatever the canonical profile writes has distinct keys, 64-bit integers and finite floats. */
  lemma {:induction false} EmittedHashable(v: Value)
    requires WellTyped(v) && Encode(v, Canonical).Ok?
    ensures Hashable(Emitted(v, Canonical))
    decreases v, 2
  {
    match v
    case Array(items) => EmittedItemsHashable(v);
    case Map(_) => EmittedMapHashable(v);
    case Tag(_, inner) => EmittedHashable(inner);
    case _ =>
  }

  lemma {:induction false} ItemEncodes(items: seq<Value>, i: nat)
    requires EncodeItems(items, Canonical).Ok? && i < |items|
    ensures Encode(items[i], Canonical).Ok?
  {
    if i != 0 {
      ItemEncodes(items[1..], i - 1);
    }
  }

  lemma {:induction false} EmittedItemsHashable(v: Value)
    requires v.Array? && WellTyped(v) && Encode(v, Canonical).Ok?
    ensures Hashable(Emitted(v, Canonical))
    decreases v, 1
  {
    hide EncodeItems, EmittedItems;
    forall i | 0 <= i < |v.items| ensures Hashable(EmittedItems(v.items, Canonical)[i]) {
      hide Hashable, Emitted;
      ItemEncodes(v.items, i);
      EmittedItemsAt(v.items, Canonical, i);
      EmittedHashable(v.items[i]);
    }
  }

  /** Entry `k` of what is written for a map: its source entry, encoded and emitted. */
  lemma WrittenEntry(v: Value, k: nat)
    requires v.Map? && Encode(v, Canonical).Ok? && k < |OrderOf(MapKeys(v), |v.entries|)|
    ensures var e, out := v.entries[OrderOf(MapKeys(v), |v.entries|)[k]], Emitted(v, Canonical);
            && out.Map? && |out.entries| == |OrderOf(MapKeys(v), |v.entries|)|
            && out.entries[k] == EmittedEntry(e, Canonical)
            && Encode(e.key, Canonical).Ok? && Encode(e.val, Canonical).Ok?
            && MapKeys(v)[OrderOf(MapKeys(v), |v.entries|)[k]] == SortKey(Encode(e.key, Canonical).value)
  {
    hide Encode, Emitted, EncodeEntries, EmittedEntries, Gather, OrderOf, EmittedEntry;
    EncodeMapUnfold(v, Canonical);
    EmittedMapUnfold(v);
    var pairs, order := EncodeEntries(v.entries, Canonical), OrderOf(MapKeys(v), |v.entries|);
    GatherAllOk(pairs, order, k);
    EncodeEntriesAt(v.entries, Canonical, order[k]);
    EmittedEntriesAt(v.entries, Canonical, order[k]);
  }

  lemma EntryTyped(v: Value, i: nat)
    requires v.Map? && WellTyped(v) && i < |v.entries|
    ensures WellTyped(v.entries[i].key) && WellTyped(v.entries[i].val)
  {
  }

  /** No two keys written for a map are equal. */
  lemma {:induction false} WrittenKeysDiffer(v: Value, i: nat, j: nat)
    requires v.Map? && Encode(v, Canonical).Ok? && i < j < |OrderOf(MapKeys(v), |v.entries|)|
    requires var out := Emitted(v, Canonical).entries;
             j < |out| && Hashable(out[i].key) && Hashable(out[j].key)
    ensures !Equiv(Emitted(v, Canonical).entries[i].key, Emitted(v, Canonical).entries[j].key)
  {
    hide Encode, Emitted, Hashable, Equiv, OrderOf, MapKeys, Less;
    WrittenEntry(v, i);
    WrittenEntry(v, j);
    var out, keys, order := Emitted(v, Canonical).entries, MapKeys(v), OrderOf(MapKeys(v), |v.entries|);
    OrderOfIncreasing(keys, |v.entries|);
    if Equiv(out[i].key, out[j].key) {
      EquivSameOctets(out[i].key, out[j].key);
      CanonicalStable(v.entries[order[i]].key);
      CanonicalStable(v.entries[order[j]].key);
      LessIrreflexive(keys[order[i]]);
      assert false;
    }
  }

  lemma {:induction false} EmittedMapHashable(v: Value)
    requires v.Map? && WellTyped(v) && Encode(v, Canonical).Ok?
    ensures Hashable(Emitted(v, Canonical))
    decreases v, 1
  {
    var order := OrderOf(MapKeys(v), |v.entries|);
    OrderOfLength(MapKeys(v), |v.entries|);
    hide Encode, Emitted, OrderOf, MapKeys, Equiv, WellTyped;
    EmittedMapUnfold(v);
    var out := Emitted(v, Canonical).entries;
    forall k | 0 <= k < |order| ensures Hashable(out[k].key) && Hashable(out[k].val) {
      hide Hashable;
      WrittenEntry(v, k);
      EntryTyped(v, order[k]);
      EmittedHashable(v.entries[order[k]].key);
      EmittedHashable(v.entries[order[k]].val);
    }
    forall i, j | 0 <= i < j < |order| ensures !Equiv(out[i].key, out[j].key) {
      hide Hashable;
      WrittenKeysDiffer(v, i, j);
    }
    assert |v.entries| < TWO64 by { TypedLength(v); }
  }

  lemma TypedLength(v: Value)
    requires v.Map? && WellTyped(v)
    ensures |v.entries| < TWO64
  {
  }

  // ---- Equivalence carries hashability over -----------------------------------------------

  lemma {:induction false} EquivHashable(w: Value, v: Value)
    requires Hashable(w) && Equiv(w, v)
    ensures Hashable(v)
    decreases w, 2
  {
    if w.Array? && v.Array? {
      forall i | 0 <= i < |v.items| ensures Hashable(v.items[i]) {
        EquivHashable(w.items[i], v.items[i]);
      }
    } else if w.Map? && v.Map? {
      EquivMapHashable(w, v);
    } else if w.Tag? && v.Tag? {
      EquivHashable(w.inner, v.inner);
    }
  }

  /** The permutation behind two equivalent maps. */
  lemma EquivMapElim(w: Value, v: Value) returns (pi: seq<nat>)
    requires w.Map? && v.Map? && Equiv(w, v)
    ensures |w.entries| == |v.entries| && Permutation(pi, |w.entries|)
    ensures forall i :: 0 <= i < |w.entries| ==> Equiv(w.entries[i].key, v.entries[pi[i]].key) && Equiv(w.entries[i].val, v.entries[pi[i]].val)
  {
    pi :| Permutation(pi, |w.entries|) && forall i :: 0 <= i < |w.entries| ==>
      Equiv(w.entries[i].key, v.entries[pi[i]].key) && Equiv(w.entries[i].val, v.entries[pi[i]].val);
  }

  /** Keys matched to inequivalent keys are inequivalent. */
  lemma MatchedKeysDiffer(a: Value, b: Value, x: Value, y: Value)
    requires Hashable(a) && Hashable(b) && Hashable(x) && Hashable(y) && Equiv(a, x) && Equiv(b, y)
    requires !Equiv(a, b) || !Equiv(b, a)
    ensures !Equiv(x, y)
  {
    hide Equiv, Hashable, Encode;
    CanonicalNormalForm(a, x);
    CanonicalNormalForm(b, y);
    CanonicalNormalForm(a, b);
    CanonicalNormalForm(b, a);
    CanonicalNormalForm(x, y);
  }

  lemma {:induction false} EquivMapHashable(w: Value, v: Value)
    requires w.Map? && v.Map? && Hashable(w) && Equiv(w, v)
    ensures Hashable(v)
    decreases w, 1
  {
    var pi := EquivMapElim(w, v);
    hide Equiv;
    forall j | 0 <= j < |v.entries| ensures Hashable(v.entries[j].key) && Hashable(v.entries[j].val) {
      var i := PositionOf(pi, j);
      EquivHashable(w.entries[i].key, v.entries[j].key);
      EquivHashable(w.entries[i].val, v.entries[j].val);
    }
    forall j, k | 0 <= j < k < |v.entries| ensures !Equiv(v.entries[j].key, v.entries[k].key) {
      var a, b := PositionOf(pi, j), PositionOf(pi, k);
      assert if a < b then !Equiv(w.entries[a].key, w.entries[b].key) else !Equiv(w.entries[b].key, w.entries[a].key);
      MatchedKeysDiffer(w.entries[a].key, w.entries[b].key, v.entries[j].key, v.entries[k].key);
    }
  }

  // ---- Measures do not depend on entry order ------------------------------------------------

  function Sum(f: seq<nat>): nat {
    if f == [] then 0 else Sum(f[..|f| - 1]) + f[|f| - 1]
  }

  lemma {:induction false} SumReplace(f: seq<nat>, k: nat, x: nat)
    requires k < |f|
    ensures Sum(f[k := x]) + f[k] == Sum(f) + x
  {
    var g, n := f[k := x], |f| - 1;
    if k == n {
      assert g[..n] == f[..n];
    } else {
      assert g[..n] == f[..n][k := x];
      SumReplace(f[..n], k, x);
    }
  }

  lemma {:induction false} SumPermuted(f: seq<nat>, g: seq<nat>, pi: seq<nat>)
    requires |f| == |g| && Permutation(pi, |f|) && forall i :: 0 <= i < |f| ==> f[i] == g[pi[i]]
    ensures Sum(f) == Sum(g)
    decreases |f|
  {
    if f != [] {
      var n := |f| - 1;
      var k := PositionOf(pi, n);
      var f', pi' := f[k := f[n]], pi[k := pi[n]];
      SumReplace(f, k, f[n]);
      FewerPermuted(pi, k);
      SumPermuted(f'[..n], g[..n], pi'[..n]);
    }
  }

  /** Moving the last place into the place of the largest number leaves a permutation of the others. */
  lemma FewerPermuted(pi: seq<nat>, k: nat)
    requires Permutation(pi, |pi|) && k < |pi| && pi[k] == |pi| - 1
    ensures Permutation(pi[k := pi[|pi| - 1]][..|pi| - 1], |pi| - 1)
  {
    var n := |pi| - 1;
    var fewer := pi[k := pi[n]][..n];
    forall j: nat | j < n ensures j in fewer {
      var i := PositionOf(pi, j);
      assert fewer[if i == n then k else i] == j;
    }
  }

  function Measures(entries: seq<Entry>): (f: seq<nat>)
    ensures |f| == |entries| && forall i :: 0 <= i < |f| ==> f[i] == NodesOfEntry(entries[i])
  {
    seq(|entries|, i requires 0 <= i < |entries| => NodesOfEntry(entries[i]))
  }

  lemma {:induction false} NodesAreSum(entries: seq<Entry>)
    ensures NodesOfEntries(entries) == Sum(Measures(entries))
  {
    hide NodesOfEntry;
    if entries != [] {
      var f := Measures(entries);
      NodesAreSum(entries[1..]);
      SumFront(f);
      assert f[1..] == Measures(entries[1..]);
    }
  }

  lemma {:induction false} SumFront(f: seq<nat>)
    requires f != []
    ensures Sum(f) == f[0] + Sum(f[1..])
  {
    var n := |f| - 1;
    if n != 0 {
      SumFront(f[..n]);
      assert f[..n][1..] == f[1..][..n - 1];
    }
  }

  lemma {:induction false} HeightBound(entries: seq<Entry>, h: nat)
    ensures HeightOfEntries(entries) <= h <==> forall i :: 0 <= i < |entries| ==> HeightOfEntry(entries[i]) <= h
  {
    hide HeightOfEntry;
    if entries != [] {
      HeightBound(entries[1..], h);
      assert forall i :: 1 <= i < |entries| ==> entries[i] == entries[1..][i - 1];
    }
  }

  lemma {:induction false} ItemsMeasure(a: seq<Value>, b: seq<Value>)
    requires |a| == |b| && forall i :: 0 <= i < |a| ==> Height(a[i]) == Height(b[i]) && Nodes(a[i]) == Nodes(b[i])
    ensures HeightOfItems(a) == HeightOfItems(b) && NodesOfItems(a) == NodesOfItems(b)
  {
    hide Height, Nodes;
    if a != [] {
      ItemsMeasure(a[1..], b[1..]);
    }
  }

  /** Equivalent values cost a decoder the same depth and nodes. */
  lemma {:induction false} EquivMeasure(v: Value, u: Value)
    requires Equiv(v, u)
    ensures Height(v) == Height(u) && Nodes(v) == Nodes(u)
    decreases v, 2
  {
    if v.Array? && u.Array? {
      forall i | 0 <= i < |v.items| ensures Height(v.items[i]) == Height(u.items[i]) && Nodes(v.items[i]) == Nodes(u.items[i]) {
        EquivMeasure(v.items[i], u.items[i]);
      }
      ItemsMeasure(v.items, u.items);
    } else if v.Map? && u.Map? {
      EquivMapMeasure(v, u);
    } else if v.Tag? && u.Tag? {
      EquivMeasure(v.inner, u.inner);
    }
  }

  lemma {:induction false} EquivMapMeasure(v: Value, u: Value)
    requires v.Map? && u.Map? && Equiv(v, u)
    ensures Height(v) == Height(u) && Nodes(v) == Nodes(u)
    decreases v, 1
  {
    var pi := EquivMapElim(v, u);
    var a, b := v.entries, u.entries;
    hide Equiv;
    forall i | 0 <= i < |a| ensures HeightOfEntry(a[i]) == HeightOfEntry(b[pi[i]]) && NodesOfEntry(a[i]) == NodesOfEntry(b[pi[i]]) {
      EquivMeasure(a[i].key, b[pi[i]].key);
      EquivMeasure(a[i].val, b[pi[i]].val);
    }
    hide HeightOfEntry, NodesOfEntry;
    EntriesMeasureAgree(a, b, pi);
  }

  lemma EntriesMeasureAgree(a: seq<Entry>, b: seq<Entry>, pi: seq<nat>)
    requires |a| == |b| && Permutation(pi, |a|)
    requires forall i :: 0 <= i < |a| ==> HeightOfEntry(a[i]) == HeightOfEntry(b[pi[i]]) && NodesOfEntry(a[i]) == NodesOfEntry(b[pi[i]])
    ensures HeightOfEntries(a) == HeightOfEntries(b) && NodesOfEntries(a) == NodesOfEntries(b)
  {
    hide HeightOfEntry, NodesOfEntry, HeightOfEntries, NodesOfEntries, Sum;
    NodesAreSum(a);
    NodesAreSum(b);
    SumPermuted(Measures(a), Measures(b), pi);
    HeightBound(a, HeightOfEntries(a));
    HeightBound(b, HeightOfEntries(b));
    forall j | 0 <= j < |b| ensures HeightOfEntry(b[j]) <= HeightOfEntries(a) {
      var i := PositionOf(pi, j);
    }
    HeightBound(b, HeightOfEntries(a));
    HeightBound(a, HeightOfEntries(b));
  }

  // ---- Theorems --------------------------------------------------------------------------------

  /** Of any map, exactly those entries are written whose key no later entry repeats, equality being that of emitted keys. */
  lemma RetainedExactly(v: Value, j: nat)
    requires v.Map? && WellTyped(v) && j < |v.entries|
    requires forall i :: 0 <= i < |v.entries| ==> Encode(v.entries[i].key, Canonical).Ok?
    ensures j in EntryOrder(EncodeEntries(v.entries, Canonical), Canonical) <==>
            forall k :: j < k < |v.entries| ==> Emitted(v.entries[k].key, Canonical) != Emitted(v.entries[j].key, Canonical)
  {
    hide Encode, Emitted, OrderOf, EncodeEntries, WellTyped;
    var keys := MapKeys(v);
    OrderOfMember(keys, |v.entries|, j);
    forall k | j < k < |v.entries|
      ensures keys[k] == keys[j] <==> Emitted(v.entries[k].key, Canonical) == Emitted(v.entries[j].key, Canonical)
    {
      SameKey(v, j, k);
    }
  }

  lemma SameKey(v: Value, j: nat, k: nat)
    requires v.Map? && WellTyped(v) && j < |v.entries| && k < |v.entries|
    requires Encode(v.entries[j].key, Canonical).Ok? && Encode(v.entries[k].key, Canonical).Ok?
    ensures MapKeys(v)[k] == MapKeys(v)[j] <==> Emitted(v.entries[k].key, Canonical) == Emitted(v.entries[j].key, Canonical)
  {
    EntryTyped(v, j);
    EntryTyped(v, k);
    hide Encode, Emitted, EncodeEntries, WellTyped, SortKey;
    EncodeEntriesAt(v.entries, Canonical, j);
    EncodeEntriesAt(v.entries, Canonical, k);
    var a, b := v.entries[j].key, v.entries[k].key;
    CanonicalOctetsEqual(a, b);
    if MapKeys(v)[k] == MapKeys(v)[j] {
      SortKeyInjective(Encode(b, Canonical).value, Encode(a, Canonical).value);
    }
  }

  /** The canonical profile writes a value and keeps it, up to entry order, exactly if no map in it has two equal keys, every
      integer has 64 bits and every float is finite. */
  lemma CanonicalKeepsExactly(v: Value)
    requires WellTyped(v)
    ensures (Encode(v, Canonical).Ok? && Equiv(Emitted(v, Canonical), v)) <==> Hashable(v)
  {
    hide Equiv, Hashable, Emitted, Encode, WellTyped;
    if Hashable(v) {
      HashableEncodes(v);
      EmittedHashable(v);
      CanonicalStable(v);
      CanonicalNormalForm(Emitted(v, Canonical), v);
    }
    if Encode(v, Canonical).Ok? && Equiv(Emitted(v, Canonical), v) {
      EmittedHashable(v);
      EquivHashable(Emitted(v, Canonical), v);
    }
  }

  /** Decoding canonical octets gives the value back, up to entry order, exactly if the value is hashable and within the
      decoder's limits. */
  lemma CanonicalRoundTrip(widen: seq<byte> -> seq<byte>, v: Value)
    requires WellTyped(v)
    ensures (Encode(v, Canonical).Ok? &&
             var r := Decode(widen, Encode(v, Canonical).value); r.Ok? && Equiv(r.value, v))
       <==> Hashable(v) && Height(v) <= MAX_DEPTH && Nodes(v) <= MAX_VALUE_NODES
  {
    hide Equiv, Hashable, Emitted, Encode, Decode, WellTyped, Height, Nodes;
    CanonicalKeepsExactly(v);
    if Encode(v, Canonical).Ok? {
      DecodeUndoesEncode(widen, v, Canonical);
      if Hashable(v) {
        EquivMeasure(Emitted(v, Canonical), v);
      }
    }
  }
}
