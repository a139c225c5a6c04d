/** The decoder: definite and indefinite items under a nesting limit and a node budget. */
module CborDecode {
  import opened Octets
  import opened CborValue

  const MAX_DEPTH: nat := 64
  const MAX_VALUE_NODES: nat := 0x10_0000

  datatype DecodeError =
    | Eof(at: nat)
    | Unsupported(major: nat, info: nat)
    | DepthExceeded
    | NodeLimitExceeded
    | LengthOverflow(len: nat)
    | Trailing(at: nat)

  /** A parsed thing, the offset after it, and the node budget left. */
  datatype Parsed<+T> = Parsed(value: T, pos: nat, nodes: nat)
  type Parse<T> = Result<Parsed<T>, DecodeError>

  /** How half- and single-precision floats widen to binary64 octets, and the deepest nesting read. */
  datatype Reader = Reader(widen: seq<byte> -> seq<byte>, maxDepth: nat)

  /** Argument of a head octet; absent for the indefinite marker. */
  function Argument(data: seq<byte>, pos: nat, info: nat): (r: Result<(Option<u64>, nat), DecodeError>)
    requires pos <= |data| && info < 32
    ensures r.Ok? ==> pos <= r.value.1 <= |data|
  {
    if info < 24 then Ok((Some(info), pos))
    else if info == 24 then
      if pos < |data| then Ok((Some(data[pos]), pos + 1)) else Err(Eof(pos))
    else if info == 25 then Field(data, pos, 2)
    else if info == 26 then Field(data, pos, 4)
    else if info == 27 then Field(data, pos, 8)
    else if info == 31 then Ok((None, pos))
    else Err(Unsupported(0xff, info))
  }

  function Field(data: seq<byte>, pos: nat, width: nat): (r: Result<(Option<u64>, nat), DecodeError>)
    requires pos <= |data| && width in {2, 4, 8}
    ensures r.Ok? ==> pos <= r.value.1 <= |data|
  {
    if pos + width > |data| then Err(LengthOverflow(width))
    else
      FromBigEndianBound(data[pos..pos + width]);
      Pow256Values();
      Ok((Some(FromBigEndian(data[pos..pos + width])), pos + width))
  }

  function Item(w: Reader, data: seq<byte>, pos: nat, nodes: nat, depth: nat): (r: Parse<Value>)
    requires pos <= |data|
    ensures r.Ok? ==> pos < r.value.pos <= |data|
    decreases |data| - pos, 3
  {
    if depth > w.maxDepth then Err(DepthExceeded)
    else if nodes == 0 then Err(NodeLimitExceeded)
    else if pos == |data| then Err(Eof(pos))
    else
      var major, info := data[pos] / 32, data[pos] % 32;
      if major == 7 then Simple(w, data, pos + 1, nodes - 1, info)
      else
        var (arg, at) :- Argument(data, pos + 1, info);
        match major
        case 0 =>
          if arg.None? then Err(Unsupported(0, 31)) else Ok(Parsed(Integer(arg.value), at, nodes - 1))
        case 1 =>
          if arg.None? then Err(Unsupported(1, 31)) else Ok(Parsed(Integer(-1 - arg.value), at, nodes - 1))
        case 2 =>
          var s :- String(w, data, at, nodes - 1, depth, 2, info, arg);
          Ok(Parsed(Bytes(s.value), s.pos, s.nodes))
        case 3 =>
          var s :- String(w, data, at, nodes - 1, depth, 3, info, arg);
          if Utf8(s.value) then Ok(Parsed(Text(s.value), s.pos, s.nodes)) else Err(Unsupported(3, info))
        case 4 =>
          var l :- Items(w, data, at, nodes - 1, depth + 1, arg);
          Ok(Parsed(Array(l.value), l.pos, l.nodes))
        case 5 =>
          var l :- Entries(w, data, at, nodes - 1, depth + 1, arg);
          Ok(Parsed(Map(l.value), l.pos, l.nodes))
        case _ =>
          if arg.None? then Err(Unsupported(6, 31))
          else
            var inner :- Item(w, data, at, nodes - 1, depth + 1);
            Ok(Parsed(Tag(arg.value, inner.value), inner.pos, inner.nodes))
  }

  function String(w: Reader, data: seq<byte>, pos: nat, nodes: nat, depth: nat, major: nat, info: nat, len: Option<u64>)
    : (r: Parse<seq<byte>>)
    requires pos <= |data|
    ensures r.Ok? ==> pos <= r.value.pos <= |data|
  {
    match len
    case None => Chunks(w, data, pos, nodes, depth + 1, major)
    case Some(n) =>
      if pos + n > |data| then Err(LengthOverflow(n))
      else if major == 3 && !Utf8(data[pos..pos + n]) then Err(Unsupported(3, info))
      else Ok(Parsed(data[pos..pos + n], pos + n, nodes))
  }

  /** Definite chunks of one major type up to the break octet. */
  function Chunks(w: Reader, data: seq<byte>, pos: nat, nodes: nat, depth: nat, major: nat): (r: Parse<seq<byte>>)
    requires pos <= |data|
    ensures r.Ok? ==> pos <= r.value.pos <= |data|
    decreases |data| - pos
  {
    if pos == |data| then Err(Eof(pos))
    else if data[pos] == 0xff then Ok(Parsed([], pos + 1, nodes))
    else if depth > w.maxDepth then Err(DepthExceeded)
    else if nodes == 0 then Err(NodeLimitExceeded)
    else if data[pos] / 32 != major || data[pos] % 32 == 31 then Err(Unsupported(major, 31))
    else
      var (arg, at) :- Argument(data, pos + 1, data[pos] % 32);
      if arg.None? then Err(Unsupported(major, 31))
      else if at + arg.value > |data| then Err(LengthOverflow(arg.value))
      else if major == 3 && !Utf8(data[at..at + arg.value]) then Err(Unsupported(3, 31))
      else
        var rest :- Chunks(w, data, at + arg.value, nodes - 1, depth, major);
        Ok(Parsed(data[at..at + arg.value] + rest.value, rest.pos, rest.nodes))
  }

  /** Items of an array: `count` of them, or as many as precede the break octet. */
  function Items(w: Reader, data: seq<byte>, pos: nat, nodes: nat, depth: nat, count: Option<nat>): (r: Parse<seq<Value>>)
    requires pos <= |data|
    ensures r.Ok? ==> pos <= r.value.pos <= |data|
    decreases |data| - pos, 4
  {
    if count == Some(0) then Ok(Parsed([], pos, nodes))
    else if count.None? && pos == |data| then Err(Eof(pos))
    else if count.None? && data[pos] == 0xff then Ok(Parsed([], pos + 1, nodes))
    else
      var first :- Item(w, data, pos, nodes, depth);
      var rest :- Items(w, data, first.pos, first.nodes, depth, OneFewer(count));
      Ok(Parsed([first.value] + rest.value, rest.pos, rest.nodes))
  }

  function OneFewer(count: Option<nat>): Option<nat>
    requires count != Some(0)
  {
    match count case None => None case Some(n) => Some(n - 1)
  }

  function KeyAndValue(w: Reader, data: seq<byte>, pos: nat, nodes: nat, depth: nat): (r: Parse<Entry>)
    requires pos <= |data|
    ensures r.Ok? ==> pos < r.value.pos <= |data|
    decreases |data| - pos, 4
  {
    var k :- Item(w, data, pos, nodes, depth);
    var v :- Item(w, data, k.pos, k.nodes, depth);
    Ok(Parsed(Entry(k.value, v.value), v.pos, v.nodes))
  }

  /** Entries of a map, counted or up to the break octet. */
  function Entries(w: Reader, data: seq<byte>, pos: nat, nodes: nat, depth: nat, count: Option<nat>): (r: Parse<seq<Entry>>)
    requires pos <= |data|
    ensures r.Ok? ==> pos <= r.value.pos <= |data|
    decreases |data| - pos, 5
  {
    if count == Some(0) then Ok(Parsed([], pos, nodes))
    else if count.None? && pos == |data| then Err(Eof(pos))
    else if count.None? && data[pos] == 0xff then Ok(Parsed([], pos + 1, nodes))
    else
      var first :- KeyAndValue(w, data, pos, nodes, depth);
      var rest :- Entries(w, data, first.pos, first.nodes, depth, OneFewer(count));
      Ok(Parsed([first.value] + rest.value, rest.pos, rest.nodes))
  }

  function Simple(w: Reader, data: seq<byte>, pos: nat, nodes: nat, info: nat): (r: Parse<Value>)
    requires pos <= |data|
    ensures r.Ok? ==> pos <= r.value.pos <= |data|
  {
    if info == 20 then Ok(Parsed(Bool(false), pos, nodes))
    else if info == 21 then Ok(Parsed(Bool(true), pos, nodes))
    else if info == 22 || info == 23 then Ok(Parsed(Null, pos, nodes))
    else if info == 25 || info == 26 || info == 27 then
      var width := if info == 25 then 2 else if info == 26 then 4 else 8;
      if pos + width > |data| then Err(LengthOverflow(width))
      else
        var field := data[pos..pos + width];
        Ok(Parsed(Float(if width == 8 then field else w.widen(field)), pos + width, nodes))
    else Err(Unsupported(7, info))
  }

  /** Decode one top-level item and reject trailing octets. */
  function Decode(widen: seq<byte> -> seq<byte>, data: seq<byte>): Result<Value, DecodeError> {
    var r :- Item(Reader(widen, MAX_DEPTH), data, 0, MAX_VALUE_NODES, 0);
    if r.pos != |data| then Err(Trailing(r.pos)) else Ok(r.value)
  }
}
