/** What the decoder accepts: values that can be encoded again and come back unchanged. */
module CborDecoded {
  import opened Octets
  import opened CborValue
  import opened CborEncode
  import opened CborDecode
  import opened CborRoundTrip
  import opened CborCanonical
  import opened CborLossless

  // ---- Whatever the octets -------------------------------------------------------------

  /** Half and single floats widen to eight octets, and lengths fit a u64. */
  ghost predicate Usual(w: Reader, data: seq<byte>) {
    (forall s :: |w.widen(s)| == 8) && |data| < TWO64
  }

  /** A value of proper leaves that used its share of depth and nodes. */
  predicate Bounded(w: Reader, v: Value, depth: nat, before: nat, after: nat) {
    WellTyped(v) && InRange(v) && depth + Height(v) <= w.maxDepth && after + Nodes(v) <= before
  }

  lemma {:induction false} ChunksBounded(w: Reader, data: seq<byte>, pos: nat, nodes: nat, depth: nat, major: nat)
    requires pos <= |data| && Chunks(w, data, pos, nodes, depth, major).Ok?
    ensures var r := Chunks(w, data, pos, nodes, depth, major).value; |r.value| <= r.pos - pos && r.nodes <= nodes
    decreases |data| - pos
  {
    hide Utf8, Argument;
    if data[pos] != 0xff {
      var (arg, at) := Argument(data, pos + 1, data[pos] % 32).value;
      ChunksBounded(w, data, at + arg.value, nodes - 1, depth, major);
    }
  }

  lemma StringBounded(w: Reader, data: seq<byte>, pos: nat, nodes: nat, depth: nat, major: nat, info: nat, len: Option<u64>)
    requires pos <= |data| && String(w, data, pos, nodes, depth, major, info, len).Ok?
    ensures var r := String(w, data, pos, nodes, depth, major, info, len).value; |r.value| <= |data| && r.nodes <= nodes
  {
    hide Utf8, Chunks;
    if len.None? {
      ChunksBounded(w, data, pos, nodes, depth + 1, major);
    }
  }

  lemma SimpleBounded(w: Reader, data: seq<byte>, pos: nat, nodes: nat, info: nat, depth: nat)
    requires Usual(w, data) && pos <= |data| && depth <= w.maxDepth && Simple(w, data, pos, nodes, info).Ok?
    ensures var r := Simple(w, data, pos, nodes, info).value; Bounded(w, r.value, depth, nodes + 1, r.nodes)
  {
  }

  /** One item, read anywhere in any octets. */
  lemma {:induction false} ItemBounded(w: Reader, data: seq<byte>, pos: nat, nodes: nat, depth: nat)
    requires Usual(w, data) && pos <= |data| && Item(w, data, pos, nodes, depth).Ok?
    ensures var r := Item(w, data, pos, nodes, depth).value; Bounded(w, r.value, depth, nodes, r.nodes)
    decreases |data| - pos, 3
  {
    var major, info := data[pos] / 32, data[pos] % 32;
    if major == 7 {
      hide Simple, Bounded;
      SimpleBounded(w, data, pos + 1, nodes - 1, info, depth);
    } else if major <= 3 {
      LeafBounded(w, data, pos, nodes, depth);
    } else {
      NestedBounded(w, data, pos, nodes, depth);
    }
  }

  lemma LeafBounded(w: Reader, data: seq<byte>, pos: nat, nodes: nat, depth: nat)
    requires Usual(w, data) && pos < |data| && data[pos] / 32 <= 3 && Item(w, data, pos, nodes, depth).Ok?
    ensures var r := Item(w, data, pos, nodes, depth).value; Bounded(w, r.value, depth, nodes, r.nodes)
  {
    hide Utf8, String, Argument, Items, Entries, Simple;
    var major, info := data[pos] / 32, data[pos] % 32;
    var (arg, at) := Argument(data, pos + 1, info).value;
    if major >= 2 {
      StringBounded(w, data, at, nodes - 1, depth, major, info, arg);
    }
  }

  lemma {:induction false} NestedBounded(w: Reader, data: seq<byte>, pos: nat, nodes: nat, depth: nat)
    requires Usual(w, data) && pos < |data| && 4 <= data[pos] / 32 <= 6 && Item(w, data, pos, nodes, depth).Ok?
    ensures var r := Item(w, data, pos, nodes, depth).value; Bounded(w, r.value, depth, nodes, r.nodes)
    decreases |data| - pos, 2
  {
    hide String, Argument, Items, Entries, Simple, Utf8;
    var major := data[pos] / 32;
    var (arg, at) := Argument(data, pos + 1, data[pos] % 32).value;
    var count: Option<nat> := if arg.None? then None else Some(arg.value);
    if major == 4 {
      ItemsBounded(w, data, at, nodes - 1, depth + 1, count);
    } else if major == 5 {
      EntriesBounded(w, data, at, nodes - 1, depth + 1, count);
    } else {
      ItemBounded(w, data, at, nodes - 1, depth + 1);
    }
  }

  lemma {:induction false} ItemsBounded(w: Reader, data: seq<byte>, pos: nat, nodes: nat, depth: nat, count: Option<nat>)
    requires Usual(w, data) && pos <= |data| && 1 <= depth <= w.maxDepth + 1 && Items(w, data, pos, nodes, depth, count).Ok?
    ensures var r := Items(w, data, pos, nodes, depth, count).value;
            && |r.value| <= r.pos - pos && (forall i :: 0 <= i < |r.value| ==> WellTyped(r.value[i]) && InRange(r.value[i]))
            && depth - 1 + HeightOfItems(r.value) <= w.maxDepth && r.nodes + NodesOfItems(r.value) <= nodes
    decreases |data| - pos, 4
  {
    hide Item, WellTyped, InRange, Height, Nodes;
    if !(count == Some(0) || (count.None? && data[pos] == 0xff)) {
      var first := Item(w, data, pos, nodes, depth).value;
      ItemBounded(w, data, pos, nodes, depth);
      ItemsBounded(w, data, first.pos, first.nodes, depth, OneFewer(count));
      var r := Items(w, data, pos, nodes, depth, count).value;
      assert r.value[1..] == Items(w, data, first.pos, first.nodes, depth, OneFewer(count)).value.value;
    }
  }

  lemma EntryBounded(w: Reader, data: seq<byte>, pos: nat, nodes: nat, depth: nat)
    requires Usual(w, data) && pos <= |data| && 1 <= depth && KeyAndValue(w, data, pos, nodes, depth).Ok?
    ensures var r := KeyAndValue(w, data, pos, nodes, depth).value;
            && WellTyped(r.value.key) && WellTyped(r.value.val) && InRange(r.value.key) && InRange(r.value.val)
            && depth - 1 + HeightOfEntry(r.value) <= w.maxDepth && r.nodes + NodesOfEntry(r.value) <= nodes
    decreases |data| - pos, 4
  {
    hide Item, WellTyped, InRange, Height, Nodes;
    var k := Item(w, data, pos, nodes, depth).value;
    ItemBounded(w, data, pos, nodes, depth);
    ItemBounded(w, data, k.pos, k.nodes, depth);
  }

  lemma {:induction false} EntriesBounded(w: Reader, data: seq<byte>, pos: nat, nodes: nat, depth: nat, count: Option<nat>)
    requires Usual(w, data) && pos <= |data| && 1 <= depth <= w.maxDepth + 1 && Entries(w, data, pos, nodes, depth, count).Ok?
    ensures var r := Entries(w, data, pos, nodes, depth, count).value;
            && |r.value| <= r.pos - pos
            && (forall i :: 0 <= i < |r.value| ==>
                  && WellTyped(r.value[i].key) && WellTyped(r.value[i].val) && InRange(r.value[i].key) && InRange(r.value[i].val))
            && depth - 1 + HeightOfEntries(r.value) <= w.maxDepth && r.nodes + NodesOfEntries(r.value) <= nodes
    decreases |data| - pos, 5
  {
    hide KeyAndValue, WellTyped, InRange, HeightOfEntry, NodesOfEntry;
    if !(count == Some(0) || (count.None? && data[pos] == 0xff)) {
      var first := KeyAndValue(w, data, pos, nodes, depth).value;
      EntryBounded(w, data, pos, nodes, depth);
      EntriesBounded(w, data, first.pos, first.nodes, depth, OneFewer(count));
      var r := Entries(w, data, pos, nodes, depth, count).value;
      assert r.value[1..] == Entries(w, data, first.pos, first.nodes, depth, OneFewer(count)).value.value;
    }
  }

  // ---- Theorems ------------------------------------------------------------------------------

  /** Every decoded value has proper leaves and lies within the limits it was decoded under. */
  lemma DecodedBounded(widen: seq<byte> -> seq<byte>, data: seq<byte>)
    requires Usual(Reader(widen, MAX_DEPTH), data) && Decode(widen, data).Ok?
    ensures var v := Decode(widen, data).value;
            WellTyped(v) && InRange(v) && Height(v) <= MAX_DEPTH && Nodes(v) <= MAX_VALUE_NODES
  {
    hide Item, WellTyped, InRange, Height, Nodes;
    ItemBounded(Reader(widen, MAX_DEPTH), data, 0, MAX_VALUE_NODES, 0);
  }

  /** So encoding it again loses nothing: decoding gives it back, up to entry order under the canonical profile, where it is
      written and kept exactly if no map has two equal keys and every float is finite. */
  lemma DecodedEncodesAgain(widen: seq<byte> -> seq<byte>, data: seq<byte>)
    requires Usual(Reader(widen, MAX_DEPTH), data) && Decode(widen, data).Ok?
    ensures var v := Decode(widen, data).value;
            && Encode(v, Definite).Ok? && Decode(widen, Encode(v, Definite).value) == Ok(v)
            && Encode(v, Indefinite).Ok? && Decode(widen, Encode(v, Indefinite).value) == Ok(v)
            && (Hashable(v) <==>
                  (Encode(v, Canonical).Ok? && var r := Decode(widen, Encode(v, Canonical).value); r.Ok? && Equiv(r.value, v)))
  {
    hide Decode, Encode, WellTyped, InRange, Height, Nodes, Hashable, Equiv;
    DecodedBounded(widen, data);
    var v := Decode(widen, data).value;
    ProfilesAgree(widen, v);
    CanonicalRoundTrip(widen, v);
  }

  /** An integer beyond 64 bits is narrowed when written; none that was decoded is. */
  lemma WideIntegerNarrowed(widen: seq<byte> -> seq<byte>)
    ensures Encode(Integer(TWO64), Definite).Ok? && Decode(widen, Encode(Integer(TWO64), Definite).value) == Ok(Integer(0))
  {
    DecodeUndoesEncode(widen, Integer(TWO64), Definite);
    hide Decode;
  }
}
