/** Decoding undoes encoding, under every profile and in any context. */
module CborRoundTrip {
  import opened Octets
  import opened CborValue
  import opened CborOrder
  import opened CborEncode
  import opened CborDecode

  // ---- What a profile writes -----------------------------------------------

  /** The value an encoding carries: integers narrowed to 64 bits, map entries as retained and ordered. */
  function Emitted(v: Value, p: Profile): Value {
    match v
    case Integer(n) => Integer(Narrowed(n))
    case Array(items) => Array(EmittedItems(items, p))
    case Map(entries) => Map(Pick(EmittedEntries(entries, p), EntryOrder(EncodeEntries(entries, p), p)))
    case Tag(tag, inner) => Tag(tag, Emitted(inner, p))
    case _ => v
  }

  function Narrowed(n: int): int {
    if n >= 0 then n % TWO64 else -1 - (-1 - n) % TWO64
  }

  function EmittedItems(items: seq<Value>, p: Profile): (r: seq<Value>)
    ensures |r| == |items|
  {
    if items == [] then [] else [Emitted(items[0], p)] + EmittedItems(items[1..], p)
  }

  function EmittedEntries(entries: seq<Entry>, p: Profile): (r: seq<Entry>)
    ensures |r| == |entries|
  {
    if entries == [] then [] else [EmittedEntry(entries[0], p)] + EmittedEntries(entries[1..], p)
  }

  function EmittedEntry(e: Entry, p: Profile): Entry {
    Entry(Emitted(e.key, p), Emitted(e.val, p))
  }

  function Pick<T>(xs: seq<T>, order: seq<nat>): (r: seq<T>)
    requires Indices(order, |xs|)
    ensures |r| == |order|
    ensures forall i :: 0 <= i < |r| ==> r[i] == xs[order[i]]
  {
    if order == [] then [] else [xs[order[0]]] + Pick(xs, order[1..])
  }

  lemma {:induction false} EmittedEntriesAt(entries: seq<Entry>, p: Profile, i: nat)
    requires i < |entries|
    ensures EmittedEntries(entries, p)[i] == EmittedEntry(entries[i], p)
  {
    if i != 0 {
      EmittedEntriesAt(entries[1..], p, i - 1);
    }
  }

  // ---- Heads -----------------------------------------------------------------

  /** The argument reader recovers the argument of a written head. */
  lemma ArgumentOfHead(data: seq<byte>, pos: nat, major: nat, arg: nat)
    requires major < 8 && arg < TWO64 && At(data, pos, Head(major, arg))
    ensures pos < |data| && data[pos] / 32 == major
    ensures Argument(data, pos + 1, data[pos] % 32) == Ok((Some(arg), pos + |Head(major, arg)|))
  {
    var h := Head(major, arg);
    AtIndex(data, pos, h, 0);
    if 24 <= arg < 0x100 {
      AtIndex(data, pos, h, 1);
    } else if 0x100 <= arg {
      var width := if arg < 0x1_0000 then 2 else if arg < TWO32 then 4 else 8;
      assert h == [h[0]] + BigEndian(width, arg);
      AtSplit(data, pos, [h[0]], BigEndian(width, arg));
      Pow256Values();
      BigEndianRoundTrip(width, arg);
    }
  }

  /** No head that reads back as the same argument is shorter. */
  lemma HeadIsShortest(data: seq<byte>, pos: nat, arg: nat)
    requires pos < |data| && arg < TWO64
    requires var r := Argument(data, pos + 1, data[pos] % 32); r.Ok? && r.value.0 == Some(arg)
    ensures pos + |Head(data[pos] / 32, arg)| <= Argument(data, pos + 1, data[pos] % 32).value.1
  {
    Pow256Values();
    var info := data[pos] % 32;
    if 25 <= info <= 27 {
      var width := if info == 25 then 2 else if info == 26 then 4 else 8;
      FromBigEndianBound(data[pos + 1..pos + 1 + width]);
    }
  }

  // ---- Round trip ------------------------------------------------------------

  /** A value read at nesting `depth` with `nodes` left stays inside both limits. */
  predicate Fits(w: Reader, v: Value, nodes: nat, depth: nat) {
    depth + Height(v) <= w.maxDepth && Nodes(v) <= nodes
  }

  ghost predicate Reads<T>(r: Parse<T>, fits: bool, value: T, pos: nat, used: nat, nodes: nat) {
    && (r.Ok? <==> fits)
    && (r.Ok? ==> used <= nodes && r == Ok(Parsed(value, pos, nodes - used)))
  }

  function Count(n: nat, p: Profile): Option<nat> {
    if p.Indefinite? then None else Some(n)
  }

  function Wrap<T>(r: Parse<T>, f: T -> Value): Parse<Value> {
    if r.Err? then Err(r.error) else Ok(Parsed(f(r.value.value), r.value.pos, r.value.nodes))
  }

  /** How each container head is continued. */
  lemma ItemUnfold(w: Reader, data: seq<byte>, pos: nat, nodes: nat, depth: nat, arg: Option<u64>, at: nat)
    requires pos < |data| && depth <= w.maxDepth && nodes != 0
    requires Argument(data, pos + 1, data[pos] % 32) == Ok((arg, at))
    ensures data[pos] / 32 == 4 ==>
              Item(w, data, pos, nodes, depth) == Wrap(Items(w, data, at, nodes - 1, depth + 1, arg), items => Array(items))
    ensures data[pos] / 32 == 5 ==>
              Item(w, data, pos, nodes, depth) == Wrap(Entries(w, data, at, nodes - 1, depth + 1, arg), entries => Map(entries))
    ensures data[pos] / 32 == 6 && arg.Some? ==>
              Item(w, data, pos, nodes, depth) == Wrap(Item(w, data, at, nodes - 1, depth + 1), inner => Tag(arg.value, inner))
  {
    hide Argument, Items, Entries, String, Simple;
  }

  /** Wherever an encoding occurs, the decoder reads back exactly what was emitted and stops exactly at its end, or
      reports that a limit is exceeded. */
  lemma {:induction false} ItemReadsEncoding(w: Reader, v: Value, p: Profile, data: seq<byte>, pos: nat, nodes: nat, depth: nat)
    requires WellTyped(v) && Encode(v, p).Ok? && At(data, pos, Encode(v, p).value)
    ensures ReadsBack(w, v, p, data, pos, nodes, depth)
    decreases v, 1
  {
    hide Item, At;
    if depth > w.maxDepth || nodes == 0 {
      LimitReads(w, v, p, data, pos, nodes, depth);
    } else if v.Array? {
      ArrayReads(w, v, p, data, pos, nodes, depth);
    } else if v.Map? {
      MapReads(w, v, p, data, pos, nodes, depth);
    } else if v.Tag? {
      TagReads(w, v, p, data, pos, nodes, depth);
    } else {
      LeafReads(w, v, p, data, pos, nodes, depth);
    }
  }

  lemma LimitReads(w: Reader, v: Value, p: Profile, data: seq<byte>, pos: nat, nodes: nat, depth: nat)
    requires Encode(v, p).Ok? && At(data, pos, Encode(v, p).value)
    requires depth > w.maxDepth || nodes == 0
    ensures ReadsBack(w, v, p, data, pos, nodes, depth)
  {
    hide Encode, Height;
  }

  lemma LeafReads(w: Reader, v: Value, p: Profile, data: seq<byte>, pos: nat, nodes: nat, depth: nat)
    requires WellTyped(v) && Encode(v, p).Ok? && At(data, pos, Encode(v, p).value)
    requires !v.Array? && !v.Map? && !v.Tag?
    requires depth <= w.maxDepth && nodes != 0
    ensures ReadsBack(w, v, p, data, pos, nodes, depth)
  {
    hide Item, Head, Utf8;
    if v.Integer? {
      IntegerReads(w, v.n, p, data, pos, nodes, depth);
    } else if v.Bytes? {
      StringReads(w, 2, v.bytes, data, pos, nodes, depth);
    } else if v.Text? {
      StringReads(w, 3, v.utf8, data, pos, nodes, depth);
    } else {
      SimpleReads(w, v, p, data, pos, nodes, depth);
    }
  }

  lemma {:induction false} ArrayReads(w: Reader, v: Value, p: Profile, data: seq<byte>, pos: nat, nodes: nat, depth: nat)
    requires WellTyped(v) && Encode(v, p).Ok? && At(data, pos, Encode(v, p).value)
    requires v.Array? && depth <= w.maxDepth && nodes != 0
    ensures ReadsBack(w, v, p, data, pos, nodes, depth)
    decreases v, 0
  {
    hide Item, Items, Opening, Closing, At, EncodeItems, EmittedItems, NodesOfItems, HeightOfItems;
    var opening, body := Opening(4, |v.items|, p), EncodeItems(v.items, p).value;
    assert Encode(v, p).value == opening + (body + Closing(p));
    AtSplit(data, pos, opening, body + Closing(p));
    OpeningReads(data, pos, 4, |v.items|, p);
    ItemUnfold(w, data, pos, nodes, depth, Count(|v.items|, p), pos + |opening|);
    ItemsReadEncoding(w, v.items, p, data, pos + |opening|, nodes - 1, depth + 1);
  }

  lemma {:induction false} MapReads(w: Reader, v: Value, p: Profile, data: seq<byte>, pos: nat, nodes: nat, depth: nat)
    requires WellTyped(v) && Encode(v, p).Ok? && At(data, pos, Encode(v, p).value)
    requires v.Map? && depth <= w.maxDepth && nodes != 0
    ensures ReadsBack(w, v, p, data, pos, nodes, depth)
    decreases v, 0
  {
    hide Item, Entries, Opening, Closing, At, EncodeEntries, EmittedEntries, NodesOfEntries, HeightOfEntries, Gather, EntryOrder, Pick;
    var pairs := EncodeEntries(v.entries, p);
    var order := EntryOrder(pairs, p);
    OrderLength(pairs, p);
    var opening, body := Opening(5, |order|, p), Gather(pairs, order).value;
    assert Encode(v, p).value == opening + (body + Closing(p));
    AtSplit(data, pos, opening, body + Closing(p));
    OpeningReads(data, pos, 5, |order|, p);
    ItemUnfold(w, data, pos, nodes, depth, Count(|order|, p), pos + |opening|);
    EntriesReadEncoding(w, v, order, p, data, pos + |opening|, nodes - 1, depth + 1);
  }

  lemma {:induction false} TagReads(w: Reader, v: Value, p: Profile, data: seq<byte>, pos: nat, nodes: nat, depth: nat)
    requires WellTyped(v) && Encode(v, p).Ok? && At(data, pos, Encode(v, p).value)
    requires v.Tag? && depth <= w.maxDepth && nodes != 0
    ensures ReadsBack(w, v, p, data, pos, nodes, depth)
    decreases v, 0
  {
    hide Item, Head, At, WellTyped, Encode, Emitted, Nodes, Height;
    TagParts(v, p);
    var head := Head(6, v.tag);
    AtSplit(data, pos, head, Encode(v.inner, p).value);
    ArgumentOfHead(data, pos, 6, v.tag);
    ItemUnfold(w, data, pos, nodes, depth, Some(v.tag), pos + |head|);
    AtBounds(data, pos + |head|, Encode(v.inner, p).value);
    assert WellTyped(v.inner) by { TaggedWellTyped(v); }
    ItemReadsEncoding(w, v.inner, p, data, pos + |head|, nodes - 1, depth + 1);
  }

  lemma TagParts(v: Value, p: Profile)
    requires WellTyped(v) && v.Tag? && Encode(v, p).Ok?
    ensures Encode(v.inner, p).Ok? && Encode(v, p).value == Head(6, v.tag) + Encode(v.inner, p).value
    ensures Emitted(v, p) == Tag(v.tag, Emitted(v.inner, p))
    ensures Nodes(Emitted(v, p)) == 1 + Nodes(Emitted(v.inner, p)) && Height(Emitted(v, p)) == 1 + Height(Emitted(v.inner, p))
  {
  }

  lemma TaggedWellTyped(v: Value)
    requires v.Tag? && WellTyped(v)
    ensures WellTyped(v.inner)
  {
  }

  lemma AtBounds(data: seq<byte>, pos: nat, field: seq<byte>)
    requires At(data, pos, field)
    ensures pos + |field| <= |data|
  {
  }

  ghost predicate ReadsBack(w: Reader, v: Value, p: Profile, data: seq<byte>, pos: nat, nodes: nat, depth: nat)
    requires Encode(v, p).Ok? && pos <= |data|
  {
    Reads(Item(w, data, pos, nodes, depth), Fits(w, Emitted(v, p), nodes, depth),
          Emitted(v, p), pos + |Encode(v, p).value|, Nodes(Emitted(v, p)), nodes)
  }

  lemma IntegerReads(w: Reader, n: int, p: Profile, data: seq<byte>, pos: nat, nodes: nat, depth: nat)
    requires At(data, pos, IntegerBytes(n)) && depth <= w.maxDepth && nodes != 0
    ensures Item(w, data, pos, nodes, depth) == Ok(Parsed(Integer(Narrowed(n)), pos + |IntegerBytes(n)|, nodes - 1))
  {
    if n >= 0 {
      ArgumentOfHead(data, pos, 0, n % TWO64);
    } else {
      ArgumentOfHead(data, pos, 1, (-1 - n) % TWO64);
    }
  }

  lemma StringReads(w: Reader, major: nat, b: seq<byte>, data: seq<byte>, pos: nat, nodes: nat, depth: nat)
    requires major == 2 || (major == 3 && Utf8(b))
    requires |b| < TWO64 && At(data, pos, Head(major, |b|) + b) && depth <= w.maxDepth && nodes != 0
    ensures Item(w, data, pos, nodes, depth)
         == Ok(Parsed(if major == 2 then Bytes(b) else Text(b), pos + |Head(major, |b|) + b|, nodes - 1))
  {
    hide Utf8, Chunks, Items, Entries, Head, Argument, Simple;
    var h := Head(major, |b|);
    AtSplit(data, pos, h, b);
    ArgumentOfHead(data, pos, major, |b|);
    assert data[pos + |h|..pos + |h| + |b|] == b;
  }

  lemma SimpleReads(w: Reader, v: Value, p: Profile, data: seq<byte>, pos: nat, nodes: nat, depth: nat)
    requires WellTyped(v) && Encode(v, p).Ok? && At(data, pos, Encode(v, p).value)
    requires v.Bool? || v.Null? || v.Float?
    requires depth <= w.maxDepth && nodes != 0
    ensures Item(w, data, pos, nodes, depth) == Ok(Parsed(v, pos + |Encode(v, p).value|, nodes - 1))
  {
    AtIndex(data, pos, Encode(v, p).value, 0);
    if v.Float? {
      AtSplit(data, pos, [0xfb], v.bits);
    }
  }

  lemma OpeningReads(data: seq<byte>, pos: nat, major: nat, count: nat, p: Profile)
    requires (major == 4 || major == 5) && count < TWO64 && At(data, pos, Opening(major, count, p))
    ensures pos < |data| && data[pos] / 32 == major
    ensures Argument(data, pos + 1, data[pos] % 32) == Ok((Count(count, p), pos + |Opening(major, count, p)|))
  {
    hide Head, BigEndian, FromBigEndian;
    if p.Indefinite? {
      AtIndex(data, pos, Opening(major, count, p), 0);
    } else {
      hide Argument;
      ArgumentOfHead(data, pos, major, count);
    }
  }

  lemma {:induction false} OrderLength(pairs: seq<Pair>, p: Profile)
    ensures |EntryOrder(pairs, p)| <= |pairs|
  {
    if p.SortsKeys() {
      OrderOfLength(KeySortKeys(pairs), |pairs|);
    }
  }

  lemma {:induction false} OrderOfLength(keys: seq<seq<byte>>, n: nat)
    requires n <= |keys|
    ensures |OrderOf(keys, n)| <= n
  {
    if n != 0 {
      OrderOfLength(keys, n - 1);
      InsertLength(OrderOf(keys, n - 1), keys, n - 1);
    }
  }

  lemma {:induction false} InsertLength(order: seq<nat>, keys: seq<seq<byte>>, i: nat)
    requires i < |keys| && Indices(order, |keys|)
    ensures |Insert(order, keys, i)| <= |order| + 1
  {
    if order != [] {
      InsertLength(order[1..], keys, i);
    }
  }

  /** One turn of the item loop. */
  lemma ItemsUnfold(w: Reader, data: seq<byte>, pos: nat, nodes: nat, depth: nat, count: Option<nat>)
    requires pos < |data| && count != Some(0) && (count.None? ==> data[pos] != BREAK)
    ensures Items(w, data, pos, nodes, depth, count) == (
      var first := Item(w, data, pos, nodes, depth);
      if first.Err? then Err(first.error)
      else
        var rest := Items(w, data, first.value.pos, first.value.nodes, depth, OneFewer(count));
        if rest.Err? then Err(rest.error)
        else Ok(Parsed([first.value.value] + rest.value.value, rest.value.pos, rest.value.nodes)))
  {
    hide Item;
  }

  /** One turn of the entry loop. */
  lemma EntriesUnfold(w: Reader, data: seq<byte>, pos: nat, nodes: nat, depth: nat, count: Option<nat>)
    requires pos < |data| && count != Some(0) && (count.None? ==> data[pos] != BREAK)
    ensures Entries(w, data, pos, nodes, depth, count) == (
      var first := KeyAndValue(w, data, pos, nodes, depth);
      if first.Err? then Err(first.error)
      else
        var rest := Entries(w, data, first.value.pos, first.value.nodes, depth, OneFewer(count));
        if rest.Err? then Err(rest.error)
        else Ok(Parsed([first.value.value] + rest.value.value, rest.value.pos, rest.value.nodes)))
  {
    hide KeyAndValue;
  }

  lemma ItemsEnd(w: Reader, data: seq<byte>, pos: nat, nodes: nat, depth: nat, p: Profile)
    requires At(data, pos, Closing(p))
    ensures Items(w, data, pos, nodes, depth, Count(0, p)) == Ok(Parsed([], pos + |Closing(p)|, nodes))
    ensures Entries(w, data, pos, nodes, depth, Count(0, p)) == Ok(Parsed([], pos + |Closing(p)|, nodes))
  {
    hide Item, KeyAndValue;
    if p.Indefinite? {
      AtIndex(data, pos, Closing(p), 0);
    }
  }

  lemma ReadsOk<T>(r: Parse<T>, fits: bool, value: T, pos: nat, used: nat, nodes: nat)
    requires Reads(r, fits, value, pos, used, nodes) && r.Ok?
    ensures used <= nodes && r == Ok(Parsed(value, pos, nodes - used))
  {
  }

  /** One part read, then the rest. */
  lemma ReadsOnward<T>(whole: Parse<seq<T>>, first: Parse<T>, rest: Parse<seq<T>>, fits: bool, fitsFirst: bool, fitsRest: bool,
                       out: seq<T>, at: nat, pos: nat, usedFirst: nat, usedRest: nat, nodes: nat)
    requires out != [] && Reads(first, fitsFirst, out[0], at, usedFirst, nodes)
    requires first.Ok? ==> Reads(rest, fitsRest, out[1..], pos, usedRest, nodes - usedFirst)
    requires whole == if first.Err? then Err(first.error) else if rest.Err? then Err(rest.error)
                      else Ok(Parsed([first.value.value] + rest.value.value, rest.value.pos, rest.value.nodes))
    requires fits <==> fitsFirst && fitsRest
    ensures Reads(whole, fits, out, pos, usedFirst + usedRest, nodes)
  {
    assert [out[0]] + out[1..] == out;
  }

  /** The first item is read, and what follows it is the encoding of the others. */
  lemma {:induction false} FirstItemReads(w: Reader, items: seq<Value>, p: Profile, data: seq<byte>, pos: nat, nodes: nat, depth: nat)
    requires items != [] && WellTyped(items[0])
    requires EncodeItems(items, p).Ok? && At(data, pos, EncodeItems(items, p).value + Closing(p))
    requires 1 <= depth <= w.maxDepth + 1
    ensures pos <= |data| && Encode(items[0], p).Ok? && EncodeItems(items[1..], p).Ok?
    ensures var at := pos + |Encode(items[0], p).value|;
            var read := Item(w, data, pos, nodes, depth);
            var out := Emitted(items[0], p);
            && at <= |data| && At(data, at, EncodeItems(items[1..], p).value + Closing(p))
            && |EncodeItems(items, p).value| == at - pos + |EncodeItems(items[1..], p).value|
            && Reads(read, depth + Height(out) <= w.maxDepth && Nodes(out) <= nodes, out, at, Nodes(out), nodes)
            && (read.Err? ==> Items(w, data, pos, nodes, depth, Count(|items|, p)) == Err(read.error))
            && (read.Ok? ==>
                  var rest := Items(w, data, at, nodes - Nodes(out), depth, Count(|items| - 1, p));
                  Items(w, data, pos, nodes, depth, Count(|items|, p)) ==
                  if rest.Err? then Err(rest.error) else Ok(Parsed([out] + rest.value.value, rest.value.pos, rest.value.nodes)))
    decreases items, 0
  {
    hide Item, Items, Encode, Emitted, Nodes, Height, WellTyped, Closing, At;
    var first, rest := Encode(items[0], p).value, EncodeItems(items[1..], p).value;
    assert EncodeItems(items, p).value + Closing(p) == first + (rest + Closing(p));
    AtSplit(data, pos, first, rest + Closing(p));
    AtBounds(data, pos + |first|, rest + Closing(p));
    EncodeStart(items[0], p);
    AtIndex(data, pos, first, 0);
    ItemReadsEncoding(w, items[0], p, data, pos, nodes, depth);
    ItemsUnfold(w, data, pos, nodes, depth, Count(|items|, p));
  }

  lemma {:induction false} ItemsReadEncoding(w: Reader, items: seq<Value>, p: Profile, data: seq<byte>, pos: nat, nodes: nat, depth: nat)
    requires forall i :: 0 <= i < |items| ==> WellTyped(items[i])
    requires EncodeItems(items, p).Ok? && At(data, pos, EncodeItems(items, p).value + Closing(p))
    requires 1 <= depth <= w.maxDepth + 1
    ensures var out := EmittedItems(items, p);
            Reads(Items(w, data, pos, nodes, depth, Count(|items|, p)),
                  depth - 1 + HeightOfItems(out) <= w.maxDepth && NodesOfItems(out) <= nodes,
                  out, pos + |EncodeItems(items, p).value| + |Closing(p)|, NodesOfItems(out), nodes)
    decreases items, 1
  {
    hide Item, Items, Encode, Emitted, Nodes, Height, WellTyped, Closing, At;
    var body := EncodeItems(items, p).value;
    if items == [] {
      assert body + Closing(p) == Closing(p);
      ItemsEnd(w, data, pos, nodes, depth, p);
    } else {
      FirstItemReads(w, items, p, data, pos, nodes, depth);
      var out, at := EmittedItems(items, p), pos + |Encode(items[0], p).value|;
      assert out[0] == Emitted(items[0], p) && out[1..] == EmittedItems(items[1..], p);
      var read := Item(w, data, pos, nodes, depth);
      var fitsFirst := depth + Height(out[0]) <= w.maxDepth && Nodes(out[0]) <= nodes;
      hide Reads, EncodeItems, EmittedItems;
      if read.Ok? {
        ReadsOk(read, fitsFirst, out[0], at, Nodes(out[0]), nodes);
        ItemsReadEncoding(w, items[1..], p, data, at, nodes - Nodes(out[0]), depth);
      }
      ReadsOnward(Items(w, data, pos, nodes, depth, Count(|items|, p)), read,
                  Items(w, data, at, if read.Ok? then read.value.nodes else 0, depth, Count(|items| - 1, p)),
                  depth - 1 + HeightOfItems(out) <= w.maxDepth && NodesOfItems(out) <= nodes, fitsFirst,
                  depth - 1 + HeightOfItems(out[1..]) <= w.maxDepth && NodesOfItems(out[1..]) <= nodes - Nodes(out[0]),
                  out, at, pos + |body| + |Closing(p)|, Nodes(out[0]), NodesOfItems(out[1..]), nodes);
    }
  }

  /** A key and a value that were written one after the other are read back together. */
  lemma {:induction false} EntryReadsEncoding(w: Reader, v: Value, i: nat, p: Profile, data: seq<byte>, pos: nat, nodes: nat, depth: nat)
    requires v.Map? && WellTyped(v) && i < |v.entries|
    requires Encode(v.entries[i].key, p).Ok? && Encode(v.entries[i].val, p).Ok?
    requires At(data, pos, Encode(v.entries[i].key, p).value + Encode(v.entries[i].val, p).value)
    ensures var out := EmittedEntry(v.entries[i], p);
            Reads(KeyAndValue(w, data, pos, nodes, depth),
                  depth - 1 + HeightOfEntry(out) <= w.maxDepth && NodesOfEntry(out) <= nodes,
                  out, pos + |Encode(v.entries[i].key, p).value| + |Encode(v.entries[i].val, p).value|, NodesOfEntry(out), nodes)
    decreases v, 0, 0
  {
    hide Item, Encode, Emitted, Nodes, Height;
    var e := v.entries[i];
    var k, x := Encode(e.key, p).value, Encode(e.val, p).value;
    AtSplit(data, pos, k, x);
    ItemReadsEncoding(w, e.key, p, data, pos, nodes, depth);
    if Item(w, data, pos, nodes, depth).Ok? {
      ItemReadsEncoding(w, e.val, p, data, pos + |k|, nodes - Nodes(Emitted(e.key, p)), depth);
    }
  }

  lemma GatherNone(pairs: seq<Pair>)
    ensures Gather(pairs, []) == Ok([])
  {
  }

  lemma GatherSplit(pairs: seq<Pair>, order: seq<nat>, tail: seq<byte>)
    requires Indices(order, |pairs|) && order != [] && Gather(pairs, order).Ok?
    ensures pairs[order[0]].key.Ok? && pairs[order[0]].val.Ok? && Gather(pairs, order[1..]).Ok?
    ensures Gather(pairs, order).value + tail
         == (pairs[order[0]].key.value + pairs[order[0]].val.value) + (Gather(pairs, order[1..]).value + tail)
  {
  }

  /** The first entry is read, and what follows it is the encoding of the others. */
  lemma {:induction false} FirstEntryReads(w: Reader, v: Value, order: seq<nat>, p: Profile, data: seq<byte>, pos: nat, nodes: nat, depth: nat)
    requires v.Map? && WellTyped(v) && Indices(order, |v.entries|) && order != []
    requires Gather(EncodeEntries(v.entries, p), order).Ok?
    requires At(data, pos, Gather(EncodeEntries(v.entries, p), order).value + Closing(p))
    ensures pos <= |data|
    ensures var e, pairs := v.entries[order[0]], EncodeEntries(v.entries, p);
            && Encode(e.key, p).Ok? && Encode(e.val, p).Ok? && Gather(pairs, order[1..]).Ok?
            && var at := pos + |Encode(e.key, p).value| + |Encode(e.val, p).value|;
               var read := KeyAndValue(w, data, pos, nodes, depth);
               var out := EmittedEntry(e, p);
               && at <= |data| && At(data, at, Gather(pairs, order[1..]).value + Closing(p))
               && |Gather(pairs, order).value| == at - pos + |Gather(pairs, order[1..]).value|
               && Reads(read, depth - 1 + HeightOfEntry(out) <= w.maxDepth && NodesOfEntry(out) <= nodes, out, at, NodesOfEntry(out), nodes)
               && (read.Err? ==> Entries(w, data, pos, nodes, depth, Count(|order|, p)) == Err(read.error))
               && (read.Ok? ==>
                     var rest := Entries(w, data, at, nodes - NodesOfEntry(out), depth, Count(|order| - 1, p));
                     Entries(w, data, pos, nodes, depth, Count(|order|, p)) ==
                     if rest.Err? then Err(rest.error) else Ok(Parsed([out] + rest.value.value, rest.value.pos, rest.value.nodes)))
    decreases v, 0, |order|
  {
    hide KeyAndValue, Entries, Encode, Emitted, NodesOfEntry, HeightOfEntry, WellTyped, Closing, EmittedEntries, EncodeEntries, At, Gather;
    var pairs, e := EncodeEntries(v.entries, p), v.entries[order[0]];
    EncodeEntriesAt(v.entries, p, order[0]);
    GatherSplit(pairs, order, Closing(p));
    GatherSplit(pairs, order, []);
    var k, x, rest := Encode(e.key, p).value, Encode(e.val, p).value, Gather(pairs, order[1..]).value;
    AtSplit(data, pos, k + x, rest + Closing(p));
    AtBounds(data, pos + |k + x|, rest + Closing(p));
    AtSplit(data, pos, k, x);
    EncodeStart(e.key, p);
    AtIndex(data, pos, k, 0);
    EntryReadsEncoding(w, v, order[0], p, data, pos, nodes, depth);
    EntriesUnfold(w, data, pos, nodes, depth, Count(|order|, p));
  }

  lemma EntriesMeasure(out: seq<Entry>)
    requires out != []
    ensures HeightOfEntries(out) == Max(HeightOfEntry(out[0]), HeightOfEntries(out[1..]))
    ensures NodesOfEntries(out) == NodesOfEntry(out[0]) + NodesOfEntries(out[1..])
  {
  }

  lemma PickFirst(v: Value, order: seq<nat>, p: Profile)
    requires v.Map? && Indices(order, |v.entries|) && order != []
    ensures var out := Pick(EmittedEntries(v.entries, p), order);
            out[0] == EmittedEntry(v.entries[order[0]], p) && out[1..] == Pick(EmittedEntries(v.entries, p), order[1..])
  {
    hide EmittedEntries, EmittedEntry;
    EmittedEntriesAt(v.entries, p, order[0]);
  }

  lemma {:induction false} EntriesReadEncoding(w: Reader, v: Value, order: seq<nat>, p: Profile, data: seq<byte>, pos: nat, nodes: nat, depth: nat)
    requires v.Map? && WellTyped(v) && Indices(order, |v.entries|)
    requires Gather(EncodeEntries(v.entries, p), order).Ok?
    requires At(data, pos, Gather(EncodeEntries(v.entries, p), order).value + Closing(p))
    requires 1 <= depth <= w.maxDepth + 1
    ensures var out := Pick(EmittedEntries(v.entries, p), order);
            Reads(Entries(w, data, pos, nodes, depth, Count(|order|, p)),
                  depth - 1 + HeightOfEntries(out) <= w.maxDepth && NodesOfEntries(out) <= nodes,
                  out, pos + |Gather(EncodeEntries(v.entries, p), order).value| + |Closing(p)|, NodesOfEntries(out), nodes)
    decreases v, 0, |order| + 1
  {
    hide KeyAndValue, Entries, Encode, Emitted, NodesOfEntry, HeightOfEntry, WellTyped, Closing, EmittedEntries, EncodeEntries, At, Pick, Gather;
    var pairs := EncodeEntries(v.entries, p);
    var body := Gather(pairs, order).value;
    if order == [] {
      assert body == [] by { GatherNone(pairs); }
      assert body + Closing(p) == Closing(p);
      ItemsEnd(w, data, pos, nodes, depth, p);
    } else {
      FirstEntryReads(w, v, order, p, data, pos, nodes, depth);
      PickFirst(v, order, p);
      var e, out := v.entries[order[0]], Pick(EmittedEntries(v.entries, p), order);
      var at := pos + |Encode(e.key, p).value| + |Encode(e.val, p).value|;
      EntriesMeasure(out);
      hide HeightOfEntries, NodesOfEntries;
      var read := KeyAndValue(w, data, pos, nodes, depth);
      var fitsFirst := depth - 1 + HeightOfEntry(out[0]) <= w.maxDepth && NodesOfEntry(out[0]) <= nodes;
      hide Reads, EmittedEntry;
      if read.Ok? {
        ReadsOk(read, fitsFirst, out[0], at, NodesOfEntry(out[0]), nodes);
        EntriesReadEncoding(w, v, order[1..], p, data, at, nodes - NodesOfEntry(out[0]), depth);
      }
      ReadsOnward(Entries(w, data, pos, nodes, depth, Count(|order|, p)), read,
                  Entries(w, data, at, if read.Ok? then read.value.nodes else 0, depth, Count(|order| - 1, p)),
                  depth - 1 + HeightOfEntries(out) <= w.maxDepth && NodesOfEntries(out) <= nodes, fitsFirst,
                  depth - 1 + HeightOfEntries(out[1..]) <= w.maxDepth && NodesOfEntries(out[1..]) <= nodes - NodesOfEntry(out[0]),
                  out, at, pos + |body| + |Closing(p)|, NodesOfEntry(out[0]), NodesOfEntries(out[1..]), nodes);
    }
  }

  // ---- Consequences ------------------------------------------------------------

  /** Decoding a complete encoding gives what was emitted exactly when the decoder's limits allow it. */
  lemma DecodeUndoesEncode(widen: seq<byte> -> seq<byte>, v: Value, p: Profile)
    requires WellTyped(v) && Encode(v, p).Ok?
    ensures var r := Decode(widen, Encode(v, p).value);
            && (r.Ok? <==> Height(Emitted(v, p)) <= MAX_DEPTH && Nodes(Emitted(v, p)) <= MAX_VALUE_NODES)
            && (r.Ok? ==> r.value == Emitted(v, p))
  {
    hide Item, Encode, Emitted, Nodes, Height;
    ItemReadsEncoding(Reader(widen, MAX_DEPTH), v, p, Encode(v, p).value, 0, MAX_VALUE_NODES, 0);
  }

  /** Outside the sorting profile the value itself comes back if and only if its integers fit 64 bits and the decoder's
      limits hold. */
  lemma RoundTripExact(widen: seq<byte> -> seq<byte>, v: Value, p: Profile)
    requires WellTyped(v) && !p.SortsKeys()
    ensures Encode(v, p).Ok?
    ensures Decode(widen, Encode(v, p).value) == Ok(v)
       <==> InRange(v) && Height(v) <= MAX_DEPTH && Nodes(v) <= MAX_VALUE_NODES
  {
    UnsortedEncodes(v, p);
    DecodeUndoesEncode(widen, v, p);
    EmittedUnsorted(v, p);
    hide Decode, Encode, Emitted, Nodes, Height, InRange;
  }

  /** The two unsorted profiles differ in octets and not in meaning. */
  lemma ProfilesAgree(widen: seq<byte> -> seq<byte>, v: Value)
    requires WellTyped(v) && InRange(v) && Height(v) <= MAX_DEPTH && Nodes(v) <= MAX_VALUE_NODES
    ensures Encode(v, Definite).Ok? && Encode(v, Indefinite).Ok?
    ensures Decode(widen, Encode(v, Definite).value) == Decode(widen, Encode(v, Indefinite).value) == Ok(v)
  {
    RoundTripExact(widen, v, Definite);
    RoundTripExact(widen, v, Indefinite);
  }

  lemma {:induction false} UnsortedEncodes(v: Value, p: Profile)
    requires !p.SortsKeys()
    ensures Encode(v, p).Ok?
    decreases v, 1
  {
    match v
    case Array(items) => UnsortedEncodesItems(items, p);
    case Map(entries) =>
      forall i | 0 <= i < |entries| ensures EncodeEntries(entries, p)[i].key.Ok? && EncodeEntries(entries, p)[i].val.Ok? {
        UnsortedEncodes(entries[i].key, p);
        UnsortedEncodes(entries[i].val, p);
        EncodeEntriesAt(entries, p, i);
      }
      GatherOk(EncodeEntries(entries, p), EntryOrder(EncodeEntries(entries, p), p));
    case Tag(_, inner) => UnsortedEncodes(inner, p);
    case _ =>
  }

  lemma {:induction false} UnsortedEncodesItems(items: seq<Value>, p: Profile)
    requires !p.SortsKeys()
    ensures EncodeItems(items, p).Ok?
    decreases items, 0
  {
    if items != [] {
      UnsortedEncodes(items[0], p);
      UnsortedEncodesItems(items[1..], p);
    }
  }

  lemma {:induction false} GatherOk(pairs: seq<Pair>, order: seq<nat>)
    requires Indices(order, |pairs|)
    requires forall k :: 0 <= k < |order| ==> pairs[order[k]].key.Ok? && pairs[order[k]].val.Ok?
    ensures Gather(pairs, order).Ok?
  {
    if order != [] {
      GatherOk(pairs, order[1..]);
    }
  }

  /** Outside the sorting profile a value is emitted unchanged exactly when its integers are in range. */
  lemma {:induction false} EmittedUnsorted(v: Value, p: Profile)
    requires !p.SortsKeys()
    ensures Emitted(v, p) == v <==> InRange(v)
    decreases v, 1
  {
    match v
    case Array(items) => EmittedUnsortedItems(v, p);
    case Map(entries) => EmittedUnsortedEntries(v, p);
    case Tag(_, inner) => EmittedUnsorted(inner, p);
    case _ =>
  }

  lemma {:induction false} EmittedUnsortedItems(v: Value, p: Profile)
    requires !p.SortsKeys() && v.Array?
    ensures Emitted(v, p) == v <==> InRange(v)
    decreases v, 0
  {
    hide EmittedItems;
    forall i | 0 <= i < |v.items| ensures EmittedItems(v.items, p)[i] == v.items[i] <==> InRange(v.items[i]) {
      hide Emitted, InRange;
      EmittedItemsAt(v.items, p, i);
      EmittedUnsorted(v.items[i], p);
    }
  }

  lemma {:induction false} EmittedUnsortedEntries(v: Value, p: Profile)
    requires !p.SortsKeys() && v.Map?
    ensures Emitted(v, p) == v <==> InRange(v)
    decreases v, 0
  {
    hide EmittedEntries, EncodeEntries;
    var entries, out := v.entries, EmittedEntries(v.entries, p);
    assert Pick(out, InsertionOrder(|entries|)) == out;
    forall i | 0 <= i < |entries| ensures out[i] == entries[i] <==> InRange(entries[i].key) && InRange(entries[i].val) {
      hide Emitted, InRange;
      EmittedEntriesAt(entries, p, i);
      EmittedUnsorted(entries[i].key, p);
      EmittedUnsorted(entries[i].val, p);
    }
  }

  lemma {:induction false} EmittedItemsAt(items: seq<Value>, p: Profile, i: nat)
    requires i < |items|
    ensures EmittedItems(items, p)[i] == Emitted(items[i], p)
  {
    if i != 0 {
      EmittedItemsAt(items[1..], p, i - 1);
    }
  }

  /** Self-delimitation: if one encoding begins with another, both carry the same value. */
  lemma PrefixFree(v: Value, u: Value, p: Profile)
    requires WellTyped(v) && WellTyped(u) && Encode(v, p).Ok? && Encode(u, p).Ok?
    requires Encode(v, p).value <= Encode(u, p).value
    ensures Emitted(v, p) == Emitted(u, p) && Encode(v, p) == Encode(u, p)
  {
    hide Item, Encode, Emitted, Nodes, Height;
    var a, b := Encode(v, p).value, Encode(u, p).value;
    var ev, eu := Emitted(v, p), Emitted(u, p);
    var w := Reader(s => s, Height(ev) + Height(eu));
    var nodes := Nodes(ev) + Nodes(eu);
    ItemReadsEncoding(w, v, p, b, 0, nodes, 0);
    ItemReadsEncoding(w, u, p, b, 0, nodes, 0);
    assert a == b[..|a|] == b;
  }
}
