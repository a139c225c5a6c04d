/** The encoder: the function it computes, and the routines that append to an output buffer. */
module CborEncode {
  import opened Octets
  import opened CborValue
  import opened CborOrder

  datatype EncodeError = NonFiniteFloat
  type Encoded = Result<seq<byte>, EncodeError>

  /** Encodings of the two halves of a map entry. */
  datatype Pair = Pair(key: Encoded, val: Encoded)

  const BREAK: byte := 0xff

  /** Head of an item: major type and argument, in the shortest form. */
  function Head(major: nat, arg: nat): (h: seq<byte>)
    requires major < 8 && arg < TWO64
    ensures 1 <= |h| <= 9 && h[0] / 32 == major && h[0] % 32 < 28
  {
    if arg < 24 then [major * 32 + arg]
    else if arg < 0x100 then [major * 32 + 24, arg]
    else if arg < 0x1_0000 then [major * 32 + 25] + BigEndian(2, arg)
    else if arg < TWO32 then [major * 32 + 26] + BigEndian(4, arg)
    else [major * 32 + 27] + BigEndian(8, arg)
  }

  /** Integers are narrowed to 64 bits before the head is written. */
  function IntegerBytes(n: int): seq<byte> {
    if n >= 0 then Head(0, n % TWO64) else Head(1, (-1 - n) % TWO64)
  }

  function Encode(v: Value, p: Profile): Encoded
  {
    match v
    case Integer(n) => Ok(IntegerBytes(n))
    case Bytes(b) => Ok(Head(2, |b| % TWO64) + b)
    case Text(s) => Ok(Head(3, |s| % TWO64) + s)
    case Array(items) =>
      var body :- EncodeItems(items, p);
      Ok(Opening(4, |items|, p) + body + Closing(p))
    case Map(entries) =>
      var pairs := EncodeEntries(entries, p);
      var order := EntryOrder(pairs, p);
      var body :- Gather(pairs, order);
      Ok(Opening(5, |order|, p) + body + Closing(p))
    case Tag(tag, inner) =>
      var body :- Encode(inner, p);
      Ok(Head(6, tag) + body)
    case Bool(flag) => Ok([if flag then 0xf5 else 0xf4])
    case Null => Ok([0xf6])
    case Float(bits) =>
      if p.SortsKeys() && |bits| == 8 && !Finite(bits) then Err(NonFiniteFloat) else Ok([0xfb] + bits)
  }

  function EncodeItems(items: seq<Value>, p: Profile): Encoded {
    if items == [] then Ok([])
    else
      var first :- Encode(items[0], p);
      var rest :- EncodeItems(items[1..], p);
      Ok(first + rest)
  }

  function EncodeEntries(entries: seq<Entry>, p: Profile): (r: seq<Pair>)
    ensures |r| == |entries|
  {
    if entries == [] then [] else [EncodeEntry(entries[0], p)] + EncodeEntries(entries[1..], p)
  }

  function EncodeEntry(e: Entry, p: Profile): Pair {
    Pair(Encode(e.key, p), Encode(e.val, p))
  }

  function Opening(major: nat, count: nat, p: Profile): (h: seq<byte>)
    requires major == 4 || major == 5
    ensures 1 <= |h| && h[0] / 32 == major
  {
    if p.Indefinite? then [major * 32 + 31] else Head(major, count % TWO64)
  }

  function Closing(p: Profile): seq<byte> {
    if p.Indefinite? then [BREAK] else []
  }

  /** A key that cannot be encoded sorts as the empty encoding. */
  function KeySortKey(pair: Pair): seq<byte> {
    SortKey(match pair.key case Ok(enc) => enc case Err(_) => [])
  }

  function KeySortKeys(pairs: seq<Pair>): (keys: seq<seq<byte>>)
    ensures |keys| == |pairs|
    ensures forall i :: 0 <= i < |keys| ==> keys[i] == KeySortKey(pairs[i])
  {
    seq(|pairs|, i requires 0 <= i < |pairs| => KeySortKey(pairs[i]))
  }

  /** Entries in the order they are written, by index. */
  function EntryOrder(pairs: seq<Pair>, p: Profile): (order: seq<nat>)
    ensures Indices(order, |pairs|)
  {
    if p.SortsKeys() then OrderOf(KeySortKeys(pairs), |pairs|) else InsertionOrder(|pairs|)
  }

  function InsertionOrder(n: nat): (order: seq<nat>)
    ensures |order| == n && forall i :: 0 <= i < n ==> order[i] == i
  {
    seq(n, i => i)
  }

  /** Write the pairs named by `order`. */
  function Gather(pairs: seq<Pair>, order: seq<nat>): Encoded
    requires Indices(order, |pairs|)
  {
    if order == [] then Ok([])
    else
      var key :- pairs[order[0]].key;
      var val :- pairs[order[0]].val;
      var rest :- Gather(pairs, order[1..]);
      Ok(key + val + rest)
  }

  lemma {:induction false} EncodeEntriesAt(entries: seq<Entry>, p: Profile, i: nat)
    requires i < |entries|
    ensures EncodeEntries(entries, p)[i] == EncodeEntry(entries[i], p)
  {
    if i != 0 {
      EncodeEntriesAt(entries[1..], p, i - 1);
    }
  }

  /** An encoding is nonempty and never starts with the break octet. */
  lemma EncodeStart(v: Value, p: Profile)
    requires Encode(v, p).Ok?
    ensures 1 <= |Encode(v, p).value| && Encode(v, p).value[0] != BREAK
  {
  }

  lemma EncodeMapUnfold(v: Value, p: Profile)
    requires v.Map?
    ensures var pairs := EncodeEntries(v.entries, p);
            var order := EntryOrder(pairs, p);
            Encode(v, p) == (if Gather(pairs, order).Err? then Err(Gather(pairs, order).error)
                             else Ok(Opening(5, |order|, p) + Gather(pairs, order).value + Closing(p)))
  {
    hide EncodeEntries, EntryOrder, Gather, Opening;
  }
}
