/** The routines that append an encoding to an output buffer. */
module CborWriter {
  import opened Octets
  import opened CborValue
  import opened CborOrder
  import opened CborEncode
  import opened CborRoundTrip

  class Output {
    var out: seq<byte>

    constructor ()
      ensures out == []
    {
      out := [];
    }

    method WriteHead(major: nat, arg: u64)
      requires major < 8
      modifies this
      ensures out == old(out) + Head(major, arg)
    {
      if arg < 24 {
        out := out + [major * 32 + arg];
      } else if arg <= 0xff {
        out := out + [major * 32 + 24];
        out := out + [arg];
      } else if arg <= 0xffff {
        out := out + [major * 32 + 25];
        out := out + BigEndian(2, arg);
      } else if arg <= 0xffff_ffff {
        out := out + [major * 32 + 26];
        out := out + BigEndian(4, arg);
      } else {
        out := out + [major * 32 + 27];
        out := out + BigEndian(8, arg);
      }
    }

    method EncodeInt(n: int)
      modifies this
      ensures out == old(out) + IntegerBytes(n)
    {
      if n >= 0 {
        WriteHead(0, n % TWO64);
      } else {
        WriteHead(1, (-1 - n) % TWO64);
      }
    }

    /** Append-only; succeeds exactly when the value is encodable, and then appends exactly its encoding. */
    method EncodeInto(value: Value, p: Profile) returns (r: Result<(), EncodeError>)
      modifies this
      ensures old(out) <= out
      ensures r.Ok? <==> Encode(value, p).Ok?
      ensures r.Ok? ==> out == old(out) + Encode(value, p).value
      decreases value, 2
    {
      hide Head, IntegerBytes, EncodeItems, EncodeEntries, Gather, EntryOrder, Opening;
      r := Ok(());
      match value {
        case Integer(n) => EncodeInt(n);
        case Bytes(b) =>
          WriteHead(2, |b| % TWO64);
          out := out + b;
        case Text(s) =>
          WriteHead(3, |s| % TWO64);
          out := out + s;
        case Array(items) => r := EncodeArray(value, p);
        case Map(entries) => r := EncodeMap(value, p);
        case Tag(tag, inner) =>
          WriteHead(6, tag);
          r := EncodeInto(inner, p);
        case Bool(flag) => out := out + [if flag then 0xf5 else 0xf4];
        case Null => out := out + [0xf6];
        case Float(bits) =>
          if p.SortsKeys() && |bits| == 8 && !Finite(bits) {
            r := Err(NonFiniteFloat);
          } else {
            out := out + [0xfb];
            out := out + bits;
          }
      }
    }

    method EncodeArray(value: Value, p: Profile) returns (r: Result<(), EncodeError>)
      requires value.Array?
      modifies this
      ensures old(out) <= out
      ensures r.Ok? <==> Encode(value, p).Ok?
      ensures r.Ok? ==> out == old(out) + Encode(value, p).value
      decreases value, 1
    {
      EncodeArrayUnfold(value, p);
      hide Encode, EncodeItems, Head;
      if p.Indefinite? {
        out := out + [0x9f];
      } else {
        WriteHead(4, |value.items| % TWO64);
      }
      r := WriteItems(value, p);
      if r.Ok? && p.Indefinite? {
        out := out + [0xff];
      }
    }

    /** The items one after another. */
    method WriteItems(value: Value, p: Profile) returns (r: Result<(), EncodeError>)
      requires value.Array?
      modifies this
      ensures old(out) <= out
      ensures r.Ok? <==> EncodeItems(value.items, p).Ok?
      ensures r.Ok? ==> out == old(out) + EncodeItems(value.items, p).value
      decreases value, 0
    {
      hide Encode, EncodeItems, Resumes;
      var items := value.items;
      ghost var done: seq<byte> := [];
      ItemsStart(items, p);
      for i := 0 to |items|
        invariant out == old(out) + done
        invariant Resumes(EncodeItems(items, p), done, EncodeItems(items[i..], p))
      {
        ItemsTurn(items, p, i, done);
        var item := EncodeInto(items[i], p);
        if item.Err? {
          return item;
        }
        done := done + Encode(items[i], p).value;
      }
      ItemsFinish(items, p, done);
      r := Ok(());
    }

    /** The entries retained and ordered as the canonical profile writes them. */
    method CanonicalSort(value: Value) returns (sorted: seq<Entry>)
      requires value.Map?
      ensures sorted == Pick(value.entries, EntryOrder(EncodeEntries(value.entries, Canonical), Canonical))
      decreases value, 0, 1
    {
      hide Encode, EncodeEntries, Insert, OrderOf, Pick, KeySortKeys;
      ghost var keys := KeySortKeys(EncodeEntries(value.entries, Canonical));
      OrderOfStart(keys);
      ghost var order: seq<nat> := [];
      var sortKeys: seq<seq<byte>> := [];
      sorted := [];
      for i := 0 to |value.entries|
        invariant order == OrderOf(keys, i)
        invariant sorted == Pick(value.entries, order)
        invariant sortKeys == Pick(keys, order)
      {
        var sortKey := EncodedSortKey(value, i);
        OrderOfNext(keys, i);
        sortKeys, sorted := InsertEntry(sortKeys, sorted, sortKey, value.entries[i], keys, value.entries, order, i);
        order := Insert(order, keys, i);
      }
    }

    /** Encode one key on its own and form its sort key. */
    method EncodedSortKey(value: Value, i: nat) returns (sortKey: seq<byte>)
      requires value.Map? && i < |value.entries|
      ensures sortKey == KeySortKeys(EncodeEntries(value.entries, Canonical))[i]
      decreases value, 0, 0
    {
      hide Encode, EncodeEntries, BigEndian;
      var scratch := new Output();
      var encoded := scratch.EncodeInto(value.entries[i].key, Canonical);
      var enc := if encoded.Ok? then scratch.out else [];
      EncodeEntriesAt(value.entries, Canonical, i);
      sortKey := BigEndian(8, |enc| % TWO64) + enc;
    }

    method EncodeMap(value: Value, p: Profile) returns (r: Result<(), EncodeError>)
      requires value.Map?
      modifies this
      ensures old(out) <= out
      ensures r.Ok? <==> Encode(value, p).Ok?
      ensures r.Ok? ==> out == old(out) + Encode(value, p).value
      decreases value, 1
    {
      hide Encode, EncodeEntries, Gather, Head, EntryOrder, Pick;
      ghost var order := EntryOrder(EncodeEntries(value.entries, p), p);
      var entries := value.entries;
      if p.SortsKeys() {
        entries := CanonicalSort(value);
      } else {
        InsertionOrderKept(value, p);
      }
      if p.Indefinite? {
        out := out + [0xbf];
      } else {
        WriteHead(5, |entries| % TWO64);
      }
      r := WriteEntries(value, entries, p, order);
      EncodeMapUnfold(value, p);
      if r.Ok? && p.Indefinite? {
        out := out + [0xff];
      }
    }

    /** Key and value of each entry, in the order given. */
    method WriteEntries(ghost value: Value, entries: seq<Entry>, p: Profile, ghost order: seq<nat>)
      returns (r: Result<(), EncodeError>)
      requires value.Map? && Indices(order, |value.entries|) && entries == Pick(value.entries, order)
      modifies this
      ensures old(out) <= out
      ensures r.Ok? <==> Gather(EncodeEntries(value.entries, p), order).Ok?
      ensures r.Ok? ==> out == old(out) + Gather(EncodeEntries(value.entries, p), order).value
      decreases value, 0
    {
      hide Encode, EncodeEntries, Gather, Resumes, Pick;
      ghost var pairs := EncodeEntries(value.entries, p);
      ghost var done: seq<byte> := [];
      GatherStart(pairs, order);
      for i := 0 to |entries|
        invariant out == old(out) + done
        invariant Resumes(Gather(pairs, order), done, Gather(pairs, order[i..]))
      {
        EncodeEntriesAt(value.entries, p, order[i]);
        GatherTurn(pairs, order, i, done);
        var key := EncodeInto(entries[i].key, p);
        if key.Err? {
          return key;
        }
        var val := EncodeInto(entries[i].val, p);
        if val.Err? {
          return val;
        }
        done := done + (Encode(entries[i].key, p).value + Encode(entries[i].val, p).value);
      }
      GatherFinish(pairs, order, done);
      r := Ok(());
    }
  }

  /** What is still to be written completes what has been written to the whole. */
  ghost predicate Resumes(whole: Encoded, done: seq<byte>, rest: Encoded) {
    if rest.Ok? then whole == Ok(done + rest.value) else whole.Err?
  }

  lemma OrderOfStart(keys: seq<seq<byte>>)
    ensures OrderOf(keys, 0) == []
  {
  }

  lemma OrderOfNext(keys: seq<seq<byte>>, i: nat)
    requires i < |keys|
    ensures OrderOf(keys, i + 1) == Insert(OrderOf(keys, i), keys, i)
  {
    hide Insert;
  }

  lemma InsertionOrderKept(v: Value, p: Profile)
    requires v.Map? && !p.SortsKeys()
    ensures Pick(v.entries, EntryOrder(EncodeEntries(v.entries, p), p)) == v.entries
  {
  }

  lemma EncodeArrayUnfold(v: Value, p: Profile)
    requires v.Array?
    ensures var body := EncodeItems(v.items, p);
            Encode(v, p) == if body.Err? then Err(body.error) else Ok(Opening(4, |v.items|, p) + body.value + Closing(p))
  {
    hide EncodeItems, Opening;
  }

  lemma ItemsStart(items: seq<Value>, p: Profile)
    ensures Resumes(EncodeItems(items, p), [], EncodeItems(items[0..], p))
  {
    hide EncodeItems;
    assert items[0..] == items;
    assert EncodeItems(items, p).Ok? ==> [] + EncodeItems(items, p).value == EncodeItems(items, p).value;
  }

  lemma ItemsTurn(items: seq<Value>, p: Profile, i: nat, done: seq<byte>)
    requires i < |items| && Resumes(EncodeItems(items, p), done, EncodeItems(items[i..], p))
    ensures Encode(items[i], p).Err? ==> EncodeItems(items, p).Err?
    ensures Encode(items[i], p).Ok? ==>
              Resumes(EncodeItems(items, p), done + Encode(items[i], p).value, EncodeItems(items[i + 1..], p))
  {
    hide Encode;
    var rest := items[i..];
    assert rest[0] == items[i] && rest[1..] == items[i + 1..];
    if EncodeItems(rest, p).Ok? {
      var a, b := Encode(items[i], p).value, EncodeItems(rest[1..], p).value;
      assert done + (a + b) == (done + a) + b;
    }
  }

  lemma ItemsFinish(items: seq<Value>, p: Profile, done: seq<byte>)
    requires Resumes(EncodeItems(items, p), done, EncodeItems(items[|items|..], p))
    ensures EncodeItems(items, p) == Ok(done)
  {
    hide Encode;
    assert items[|items|..] == [];
    assert done + [] == done;
  }

  lemma GatherStart(pairs: seq<Pair>, order: seq<nat>)
    requires Indices(order, |pairs|)
    ensures Resumes(Gather(pairs, order), [], Gather(pairs, order[0..]))
  {
    hide Gather;
    assert order[0..] == order;
    assert Gather(pairs, order).Ok? ==> [] + Gather(pairs, order).value == Gather(pairs, order).value;
  }

  lemma GatherTurn(pairs: seq<Pair>, order: seq<nat>, i: nat, done: seq<byte>)
    requires Indices(order, |pairs|) && i < |order|
    requires Resumes(Gather(pairs, order), done, Gather(pairs, order[i..]))
    ensures pairs[order[i]].key.Err? || pairs[order[i]].val.Err? ==> Gather(pairs, order).Err?
    ensures pairs[order[i]].key.Ok? && pairs[order[i]].val.Ok? ==>
              Resumes(Gather(pairs, order), done + (pairs[order[i]].key.value + pairs[order[i]].val.value), Gather(pairs, order[i + 1..]))
  {
    var rest := order[i..];
    assert rest[0] == order[i] && rest[1..] == order[i + 1..];
    if Gather(pairs, rest).Ok? {
      GatherSplit(pairs, rest, []);
      var a, b := pairs[order[i]].key.value + pairs[order[i]].val.value, Gather(pairs, rest[1..]).value;
      assert done + (a + b) == (done + a) + b;
    }
  }

  lemma GatherFinish(pairs: seq<Pair>, order: seq<nat>, done: seq<byte>)
    requires Indices(order, |pairs|) && Resumes(Gather(pairs, order), done, Gather(pairs, order[|order|..]))
    ensures Gather(pairs, order) == Ok(done)
  {
    assert order[|order|..] == [];
    assert done + [] == done;
  }

  /** Insert into the sorted map, replacing the entry that has an equal key. */
  method InsertEntry(sortKeys: seq<seq<byte>>, sorted: seq<Entry>, sortKey: seq<byte>, entry: Entry,
                     ghost keys: seq<seq<byte>>, ghost entries: seq<Entry>, ghost order: seq<nat>, ghost i: nat)
    returns (sortKeys': seq<seq<byte>>, sorted': seq<Entry>)
    requires |keys| == |entries| && i < |keys| && Indices(order, |keys|)
    requires sortKeys == Pick(keys, order) && sorted == Pick(entries, order)
    requires sortKey == keys[i] && entry == entries[i]
    ensures sortKeys' == Pick(keys, Insert(order, keys, i))
    ensures sorted' == Pick(entries, Insert(order, keys, i))
  {
    hide Insert, Less, Pick;
    var at := 0;
    while at < |sortKeys| && sortKeys[at] != sortKey && !Less(sortKey, sortKeys[at])
      invariant at <= |sortKeys|
      invariant forall k :: 0 <= k < at ==> keys[order[k]] != keys[i] && !Less(keys[i], keys[order[k]])
    {
      at := at + 1;
    }
    var next := if at < |sortKeys| && sortKeys[at] == sortKey then at + 1 else at;
    sortKeys' := sortKeys[..at] + [sortKey] + sortKeys[next..];
    sorted' := sorted[..at] + [entry] + sorted[next..];
    InsertAt(order, keys, i, at);
  }

  lemma {:induction false} InsertAt(order: seq<nat>, keys: seq<seq<byte>>, i: nat, at: nat)
    requires i < |keys| && Indices(order, |keys|) && at <= |order|
    requires forall k :: 0 <= k < at ==> keys[order[k]] != keys[i] && !Less(keys[i], keys[order[k]])
    requires at < |order| ==> keys[order[at]] == keys[i] || Less(keys[i], keys[order[at]])
    ensures Insert(order, keys, i)
         == order[..at] + [i] + order[if at < |order| && keys[order[at]] == keys[i] then at + 1 else at..]
  {
    hide Less;
    if at != 0 {
      InsertAt(order[1..], keys, i, at - 1);
    }
  }
}
