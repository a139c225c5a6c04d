/** The CBOR data model and the encoding profiles. */
module CborValue {
  import opened Octets

  /** Order-preserving CBOR value. Text is held as its UTF-8 octets and a float as its eight big-endian octets. */
  datatype Value =
    | Integer(n: int)
    | Bytes(bytes: seq<byte>)
    | Text(utf8: seq<byte>)
    | Array(items: seq<Value>)
    | Map(entries: seq<Entry>)
    | Tag(tag: u64, inner: Value)
    | Bool(flag: bool)
    | Null
    | Float(bits: seq<byte>)

  datatype Entry = Entry(key: Value, val: Value)

  datatype Profile = Indefinite | Definite | Canonical {
    predicate SortsKeys() { Canonical? }
  }

  /** Well-formed UTF-8, Table 3-7 of the Unicode Standard. */
  predicate Utf8(s: seq<byte>) {
    if s == [] then true
    else if s[0] < 0x80 then Utf8(s[1..])
    else if 0xC2 <= s[0] <= 0xDF then |s| >= 2 && Tail(s[1]) && Utf8(s[2..])
    else if 0xE0 <= s[0] <= 0xEF then
      && |s| >= 3
      && (if s[0] == 0xE0 then 0xA0 <= s[1] <= 0xBF else if s[0] == 0xED then 0x80 <= s[1] <= 0x9F else Tail(s[1]))
      && Tail(s[2])
      && Utf8(s[3..])
    else if 0xF0 <= s[0] <= 0xF4 then
      && |s| >= 4
      && (if s[0] == 0xF0 then 0x90 <= s[1] <= 0xBF else if s[0] == 0xF4 then 0x80 <= s[1] <= 0x8F else Tail(s[1]))
      && Tail(s[2]) && Tail(s[3])
      && Utf8(s[4..])
    else false
  }

  predicate Tail(b: byte) { 0x80 <= b <= 0xBF }

  /** A binary64 value is finite unless its exponent field is all ones. */
  predicate Finite(bits: seq<byte>)
    requires |bits| == 8
  {
    !(bits[0] % 128 == 127 && bits[1] >= 240)
  }

  /** What the Rust types guarantee of every value: UTF-8 text, eight-octet floats, lengths that fit a u64. */
  predicate WellTyped(v: Value) {
    match v
    case Integer(_) => true
    case Bytes(b) => |b| < TWO64
    case Text(s) => |s| < TWO64 && Utf8(s)
    case Array(items) => |items| < TWO64 && forall i :: 0 <= i < |items| ==> WellTyped(items[i])
    case Map(entries) =>
      |entries| < TWO64 && forall i :: 0 <= i < |entries| ==> WellTyped(entries[i].key) && WellTyped(entries[i].val)
    case Tag(_, inner) => WellTyped(inner)
    case Bool(_) => true
    case Null => true
    case Float(bits) => |bits| == 8
  }

  /** Every integer, at any depth, is one that CBOR major types 0 and 1 can carry. */
  predicate InRange(v: Value) {
    match v
    case Integer(n) => -TWO64 <= n < TWO64
    case Array(items) => forall i :: 0 <= i < |items| ==> InRange(items[i])
    case Map(entries) => forall i :: 0 <= i < |entries| ==> InRange(entries[i].key) && InRange(entries[i].val)
    case Tag(_, inner) => InRange(inner)
    case _ => true
  }

  /** Nodes a decoder allocates for a value. */
  function Nodes(v: Value): (n: nat)
    ensures n >= 1
  {
    match v
    case Array(items) => 1 + NodesOfItems(items)
    case Map(entries) => 1 + NodesOfEntries(entries)
    case Tag(_, inner) => 1 + Nodes(inner)
    case _ => 1
  }

  function NodesOfItems(items: seq<Value>): nat {
    if items == [] then 0 else Nodes(items[0]) + NodesOfItems(items[1..])
  }

  function NodesOfEntries(entries: seq<Entry>): nat {
    if entries == [] then 0 else NodesOfEntry(entries[0]) + NodesOfEntries(entries[1..])
  }

  function NodesOfEntry(e: Entry): nat {
    Nodes(e.key) + Nodes(e.val)
  }

  /** Nesting below the value itself: zero for a leaf and for an empty collection. */
  function Height(v: Value): nat {
    match v
    case Array(items) => HeightOfItems(items)
    case Map(entries) => HeightOfEntries(entries)
    case Tag(_, inner) => 1 + Height(inner)
    case _ => 0
  }

  function HeightOfItems(items: seq<Value>): nat {
    if items == [] then 0 else Max(1 + Height(items[0]), HeightOfItems(items[1..]))
  }

  function HeightOfEntries(entries: seq<Entry>): nat {
    if entries == [] then 0 else Max(HeightOfEntry(entries[0]), HeightOfEntries(entries[1..]))
  }

  function HeightOfEntry(e: Entry): nat {
    1 + Max(Height(e.key), Height(e.val))
  }
}
