/** Every way a value can be written, and that the decoder reads exactly those. */
module CborForms {
  import opened Octets
  import opened CborValue
  import opened CborDecode

  // ---- Heads in any width --------------------------------------------------------------------------

  predicate WidthOk(width: nat, arg: nat) {
    width in {0, 1, 2, 4, 8} && arg < if width == 0 then 24 else Pow256(width)
  }

  function Info(width: nat): nat {
    if width == 1 then 24 else if width == 2 then 25 else if width == 4 then 26 else 27
  }

  /** The argument inside the head octet, or in as many octets after it. */
  function HeadOf(major: nat, width: nat, arg: nat): (h: seq<byte>)
    requires major < 8 && WidthOk(width, arg)
    ensures |h| == 1 + width
  {
    if width == 0 then [major * 32 + arg] else [major * 32 + Info(width)] + BigEndian(width, arg)
  }

  lemma HeadOctet(major: nat, info: nat)
    requires major < 8 && info < 32
    ensures (major * 32 + info) / 32 == major && (major * 32 + info) % 32 == info && major * 32 + info < 256
  {
  }

  lemma HeadReads(data: seq<byte>, pos: nat, major: nat, width: nat, arg: nat)
    requires major < 8 && WidthOk(width, arg) && At(data, pos, HeadOf(major, width, arg))
    ensures pos < |data| && data[pos] / 32 == major && data[pos] % 32 < 28
    ensures arg < TWO64 && Argument(data, pos + 1, data[pos] % 32) == Ok((Some(arg), pos + 1 + width))
  {
    Pow256Values();
    var h := HeadOf(major, width, arg);
    AtIndex(data, pos, h, 0);
    if width == 0 {
      HeadOctet(major, arg);
    } else {
      HeadOctet(major, Info(width));
      AtSplit(data, pos, [h[0]], BigEndian(width, arg));
      BigEndianRoundTrip(width, arg);
      if width == 1 {
        OneOctet(arg);
        AtIndex(data, pos + 1, BigEndian(1, arg), 0);
      }
    }
    hide BigEndian, FromBigEndian, Pow256;
  }

  lemma OneOctet(v: nat)
    requires v < 256
    ensures BigEndian(1, v) == [v]
  {
    assert BigEndian(0, v / 256) == [];
  }

  lemma {:induction false} WritesBack(s: seq<byte>)
    ensures FromBigEndian(s) < Pow256(|s|) && BigEndian(|s|, FromBigEndian(s)) == s
  {
    if s != [] {
      var front, last := s[..|s| - 1], s[|s| - 1];
      WritesBack(front);
      var v := FromBigEndian(front) * 256 + last as int;
      assert v / 256 == FromBigEndian(front) && v % 256 == last;
      assert s == front + [last];
    }
  }

  /** Whatever is read as an argument was written in some width. */
  lemma HeadWasWritten(data: seq<byte>, pos: nat) returns (width: nat)
    requires pos < |data| && Argument(data, pos + 1, data[pos] % 32).Ok? && Argument(data, pos + 1, data[pos] % 32).value.0.Some?
    ensures var (arg, at) := Argument(data, pos + 1, data[pos] % 32).value;
            WidthOk(width, arg.value) && at == pos + 1 + width && data[pos..at] == HeadOf(data[pos] / 32, width, arg.value)
  {
    hide BigEndian, FromBigEndian, Pow256;
    var info := data[pos] % 32;
    var (arg, at) := Argument(data, pos + 1, info).value;
    assert data[pos] == data[pos] / 32 * 32 + info;
    width := if info < 24 then 0 else if info == 24 then 1 else if info == 25 then 2 else if info == 26 then 4 else 8;
    if width == 0 {
      assert data[pos..at] == [data[pos]];
    } else {
      var field := data[pos + 1..at];
      WritesBack(field);
      if width == 1 {
        assert field == [data[pos + 1]];
        OneOctetReads(data[pos + 1]);
      }
      assert data[pos..at] == [data[pos]] + field;
    }
  }

  lemma OneOctetReads(b: byte)
    ensures FromBigEndian([b]) == b
  {
    assert [b][..0] == [];
    assert FromBigEndian([b][..0]) == 0;
  }

  // ---- Forms ---------------------------------------------------------------------------------------------

  /** A piece of a string written in pieces. */
  datatype Piece = Piece(width: nat, octets: seq<byte>)

  /** A value as written: heads in a chosen width, strings whole or in pieces, collections counted or up to a break. */
  datatype Form =
    | Whole(negative: bool, width: nat, arg: nat)
    | Str(text: bool, width: nat, octets: seq<byte>)
    | Pieces(text: bool, pieces: seq<Piece>)
    | List(counted: Option<nat>, items: seq<Form>)
    | Table(counted: Option<nat>, entries: seq<FormEntry>)
    | Tagged(width: nat, tag: nat, inner: Form)
    | Code(code: nat)
    | Real(octets: seq<byte>)

  datatype FormEntry = FormEntry(key: Form, val: Form)

  predicate PieceOk(text: bool, p: Piece) {
    WidthOk(p.width, |p.octets|) && (text ==> Utf8(p.octets))
  }

  predicate PiecesOk(text: bool, pieces: seq<Piece>) {
    forall i :: 0 <= i < |pieces| ==> PieceOk(text, pieces[i])
  }

  predicate FormOk(f: Form) {
    match f
    case Whole(_, width, arg) => WidthOk(width, arg)
    case Str(text, width, octets) => WidthOk(width, |octets|) && (text ==> Utf8(octets))
    case Pieces(text, pieces) => PiecesOk(text, pieces)
    case List(width, items) => (width.Some? ==> WidthOk(width.value, |items|)) && ItemsOk(items)
    case Table(width, entries) => (width.Some? ==> WidthOk(width.value, |entries|)) && EntriesOk(entries)
    case Tagged(width, tag, inner) => WidthOk(width, tag) && FormOk(inner)
    case Code(code) => 20 <= code <= 23
    case Real(octets) => |octets| in {2, 4, 8}
  }

  predicate ItemsOk(items: seq<Form>) {
    items != [] ==> FormOk(items[0]) && ItemsOk(items[1..])
  }

  predicate EntriesOk(entries: seq<FormEntry>) {
    entries != [] ==> EntryOk(entries[0]) && EntriesOk(entries[1..])
  }

  predicate EntryOk(e: FormEntry) {
    FormOk(e.key) && FormOk(e.val)
  }

  function Major(text: bool): nat {
    if text then 3 else 2
  }

  function PiecesOctets(text: bool, pieces: seq<Piece>): seq<byte>
    requires PiecesOk(text, pieces)
  {
    if pieces == [] then [0xff]
    else HeadOf(Major(text), pieces[0].width, |pieces[0].octets|) + pieces[0].octets + PiecesOctets(text, pieces[1..])
  }

  function Start(major: nat, width: Option<nat>, count: nat): seq<byte>
    requires major < 8 && (width.Some? ==> WidthOk(width.value, count))
  {
    if width.Some? then HeadOf(major, width.value, count) else [major * 32 + 31]
  }

  function Stop(width: Option<nat>): seq<byte> {
    if width.Some? then [] else [0xff]
  }

  /** A form written out. */
  function Written(f: Form): (s: seq<byte>)
    requires FormOk(f)
  {
    match f
    case Whole(negative, width, arg) => HeadOf(if negative then 1 else 0, width, arg)
    case Str(text, width, octets) => HeadOf(Major(text), width, |octets|) + octets
    case Pieces(text, pieces) => [Major(text) * 32 + 31] + PiecesOctets(text, pieces)
    case List(width, items) => Start(4, width, |items|) + (ItemsWritten(items) + Stop(width))
    case Table(width, entries) => Start(5, width, |entries|) + (EntriesWritten(entries) + Stop(width))
    case Tagged(width, tag, inner) => HeadOf(6, width, tag) + Written(inner)
    case Code(code) => [7 * 32 + code]
    case Real(octets) => [7 * 32 + Info(|octets|)] + octets
  }

  function ItemsWritten(items: seq<Form>): seq<byte>
    requires ItemsOk(items)
  {
    if items == [] then [] else Written(items[0]) + ItemsWritten(items[1..])
  }

  function EntriesWritten(entries: seq<FormEntry>): seq<byte>
    requires EntriesOk(entries)
  {
    if entries == [] then [] else EntryWritten(entries[0]) + EntriesWritten(entries[1..])
  }

  function EntryWritten(e: FormEntry): seq<byte>
    requires EntryOk(e)
  {
    Written(e.key) + Written(e.val)
  }

  function JoinPieces(pieces: seq<Piece>): seq<byte> {
    if pieces == [] then [] else pieces[0].octets + JoinPieces(pieces[1..])
  }

  /** The value a form stands for. Undefined stands for null, short floats for what they widen to. */
  function Stands(widen: seq<byte> -> seq<byte>, f: Form): Value
    requires FormOk(f)
  {
    match f
    case Whole(negative, _, arg) => Integer(if negative then -1 - arg else arg)
    case Str(text, _, octets) => if text then Text(octets) else Bytes(octets)
    case Pieces(text, pieces) => if text then Text(JoinPieces(pieces)) else Bytes(JoinPieces(pieces))
    case List(_, items) => Array(ItemsStand(widen, items))
    case Table(_, entries) => Map(EntriesStand(widen, entries))
    case Tagged(width, tag, inner) => TagBound(width, tag); Tag(tag, Stands(widen, inner))
    case Code(code) => if code == 20 then Bool(false) else if code == 21 then Bool(true) else Null
    case Real(octets) => Float(if |octets| == 8 then octets else widen(octets))
  }

  lemma TagBound(width: nat, tag: nat)
    requires WidthOk(width, tag)
    ensures tag < TWO64
  {
    Pow256Values();
  }

  function ItemsStand(widen: seq<byte> -> seq<byte>, items: seq<Form>): seq<Value>
    requires ItemsOk(items)
  {
    if items == [] then [] else [Stands(widen, items[0])] + ItemsStand(widen, items[1..])
  }

  function EntriesStand(widen: seq<byte> -> seq<byte>, entries: seq<FormEntry>): seq<Entry>
    requires EntriesOk(entries)
  {
    if entries == [] then [] else [EntryStands(widen, entries[0])] + EntriesStand(widen, entries[1..])
  }

  function EntryStands(widen: seq<byte> -> seq<byte>, e: FormEntry): Entry
    requires EntryOk(e)
  {
    Entry(Stands(widen, e.key), Stands(widen, e.val))
  }

  /** Nodes a form takes: one for each value and each piece. */
  function Cost(f: Form): (n: nat)
    ensures n >= 1
  {
    match f
    case Pieces(_, pieces) => 1 + |pieces|
    case List(_, items) => 1 + ItemsCost(items)
    case Table(_, entries) => 1 + EntriesCost(entries)
    case Tagged(_, _, inner) => 1 + Cost(inner)
    case _ => 1
  }

  function ItemsCost(items: seq<Form>): nat {
    if items == [] then 0 else Cost(items[0]) + ItemsCost(items[1..])
  }

  function EntriesCost(entries: seq<FormEntry>): nat {
    if entries == [] then 0 else EntryCost(entries[0]) + EntriesCost(entries[1..])
  }

  function EntryCost(e: FormEntry): nat {
    Cost(e.key) + Cost(e.val)
  }

  /** Nesting below the value itself; pieces nest like items. */
  function Deep(f: Form): nat {
    match f
    case Pieces(_, pieces) => if pieces == [] then 0 else 1
    case List(_, items) => ItemsDeep(items)
    case Table(_, entries) => EntriesDeep(entries)
    case Tagged(_, _, inner) => 1 + Deep(inner)
    case _ => 0
  }

  function ItemsDeep(items: seq<Form>): nat {
    if items == [] then 0 else Max(1 + Deep(items[0]), ItemsDeep(items[1..]))
  }

  function EntriesDeep(entries: seq<FormEntry>): nat {
    if entries == [] then 0 else Max(EntryDeep(entries[0]), EntriesDeep(entries[1..]))
  }

  function EntryDeep(e: FormEntry): nat {
    1 + Max(Deep(e.key), Deep(e.val))
  }

  // ---- Pieces of UTF-8 make UTF-8 ---------------------------------------------------------------------------

  /** How long the first character is, if it is one. */
  function CharLength(s: seq<byte>): nat
    requires s != []
  {
    if s[0] < 0x80 then 1 else if s[0] < 0xE0 then 2 else if s[0] < 0xF0 then 3 else 4
  }

  /** The octets of the first character, which the rest does not matter to. */
  predicate CharOk(s: seq<byte>)
    requires s != [] && |s| >= CharLength(s)
  {
    if s[0] < 0x80 then true
    else if s[0] < 0xE0 then 0xC2 <= s[0] && Tail(s[1])
    else if s[0] < 0xF0 then
      (if s[0] == 0xE0 then 0xA0 <= s[1] <= 0xBF else if s[0] == 0xED then 0x80 <= s[1] <= 0x9F else Tail(s[1])) && Tail(s[2])
    else
      && s[0] <= 0xF4
      && (if s[0] == 0xF0 then 0x90 <= s[1] <= 0xBF else if s[0] == 0xF4 then 0x80 <= s[1] <= 0x8F else Tail(s[1]))
      && Tail(s[2]) && Tail(s[3])
  }

  lemma Utf8Unfold(s: seq<byte>)
    requires s != []
    ensures Utf8(s) <==> |s| >= CharLength(s) && CharOk(s) && Utf8(s[CharLength(s)..])
  {
  }

  lemma SameChar(a: seq<byte>, b: seq<byte>)
    requires a != [] && |a| >= CharLength(a)
    ensures CharLength(a + b) == CharLength(a) && (CharOk(a + b) <==> CharOk(a))
  {
  }

  lemma {:induction false} Utf8Joins(a: seq<byte>, b: seq<byte>)
    requires Utf8(a) && Utf8(b)
    ensures Utf8(a + b)
  {
    hide Utf8, CharOk, CharLength;
    if a == [] {
      assert a + b == b;
    } else {
      Utf8Unfold(a);
      SameChar(a, b);
      Utf8Unfold(a + b);
      CharLengthBounds(a);
      var n := CharLength(a);
      assert (a + b)[n..] == a[n..] + b;
      Utf8Joins(a[n..], b);
    }
  }

  lemma CharLengthBounds(s: seq<byte>)
    requires s != []
    ensures 1 <= CharLength(s) <= 4
  {
  }

  lemma {:induction false} PiecesUtf8(pieces: seq<Piece>)
    requires PiecesOk(true, pieces)
    ensures Utf8(JoinPieces(pieces))
  {
    hide Utf8;
    if pieces == [] {
      assert Utf8([]) by { EmptyUtf8(); }
    } else {
      PiecesUtf8(pieces[1..]);
      Utf8Joins(pieces[0].octets, JoinPieces(pieces[1..]));
    }
  }

  lemma EmptyUtf8()
    ensures Utf8([])
  {
  }

  // ---- Written forms are read as what they stand for -----------------------------------------------------------

  /** The form's share of depth and nodes is there. */
  predicate Room(w: Reader, f: Form, nodes: nat, depth: nat) {
    depth + Deep(f) <= w.maxDepth && Cost(f) <= nodes
  }

  ghost predicate ReadAs(w: Reader, f: Form, data: seq<byte>, pos: nat, nodes: nat, depth: nat)
    requires FormOk(f)
  {
    && pos <= |data| && Cost(f) <= nodes
    && Item(w, data, pos, nodes, depth) == Ok(Parsed(Stands(w.widen, f), pos + |Written(f)|, nodes - Cost(f)))
  }

  lemma LeafReads(w: Reader, f: Form, data: seq<byte>, pos: nat, nodes: nat, depth: nat)
    requires (f.Whole? || f.Str?) && FormOk(f) && At(data, pos, Written(f)) && Room(w, f, nodes, depth)
    ensures ReadAs(w, f, data, pos, nodes, depth)
  {
    hide Argument, HeadOf, Utf8, Chunks, Items, Entries, Simple, Pow256;
    match f
    case Whole(negative, width, arg) => HeadReads(data, pos, if negative then 1 else 0, width, arg);
    case Str(text, width, octets) =>
      AtSplit(data, pos, HeadOf(Major(text), width, |octets|), octets);
      HeadReads(data, pos, Major(text), width, |octets|);
  }

  lemma CodeReads(w: Reader, f: Form, data: seq<byte>, pos: nat, nodes: nat, depth: nat)
    requires f.Code? && FormOk(f) && At(data, pos, Written(f)) && Room(w, f, nodes, depth)
    ensures ReadAs(w, f, data, pos, nodes, depth)
  {
    hide Argument, Utf8, String, Items, Entries;
    AtIndex(data, pos, Written(f), 0);
    HeadOctet(7, f.code);
  }

  lemma RealReads(w: Reader, f: Form, data: seq<byte>, pos: nat, nodes: nat, depth: nat)
    requires f.Real? && FormOk(f) && At(data, pos, Written(f)) && Room(w, f, nodes, depth)
    ensures ReadAs(w, f, data, pos, nodes, depth)
  {
    hide Argument, Utf8, String, Items, Entries;
    var info := Info(|f.octets|);
    AtSplit(data, pos, [7 * 32 + info], f.octets);
    AtIndex(data, pos, [7 * 32 + info], 0);
    HeadOctet(7, info);
    AtSlice(data, pos + 1, f.octets);
    hide At;
  }

  /** One turn of reading pieces. */
  lemma ChunksOnce(w: Reader, data: seq<byte>, pos: nat, nodes: nat, depth: nat, text: bool, arg: u64, at: nat)
    requires pos < |data| && data[pos] != 0xff && depth <= w.maxDepth && nodes > 0 && data[pos] / 32 == Major(text) && data[pos] % 32 != 31
    requires Argument(data, pos + 1, data[pos] % 32) == Ok((Some(arg), at)) && at + arg <= |data| && (text ==> Utf8(data[at..at + arg]))
    ensures var rest := Chunks(w, data, at + arg, nodes - 1, depth, Major(text));
            Chunks(w, data, pos, nodes, depth, Major(text)) ==
            if rest.Ok? then Ok(Parsed(data[at..at + arg] + rest.value.value, rest.value.pos, rest.value.nodes)) else Err(rest.error)
  {
    hide Argument, Utf8;
  }

  lemma NoPieces(w: Reader, data: seq<byte>, pos: nat, nodes: nat, depth: nat, text: bool)
    requires At(data, pos, [0xff])
    ensures pos < |data| && Chunks(w, data, pos, nodes, depth, Major(text)) == Ok(Parsed([], pos + 1, nodes))
  {
    AtIndex(data, pos, [0xff], 0);
  }

  lemma MajorBound(text: bool)
    ensures Major(text) < 8
  {
  }

  lemma EmptyPieces(text: bool)
    ensures PiecesOk(text, []) && PiecesOctets(text, []) == [0xff] && JoinPieces([]) == []
  {
  }

  lemma FirstPiece(text: bool, pieces: seq<Piece>)
    requires pieces != [] && PiecesOk(text, pieces)
    ensures PieceOk(text, pieces[0]) && PiecesOk(text, pieces[1..])
    ensures PiecesOctets(text, pieces)
         == HeadOf(Major(text), pieces[0].width, |pieces[0].octets|) + pieces[0].octets + PiecesOctets(text, pieces[1..])
    ensures JoinPieces(pieces) == pieces[0].octets + JoinPieces(pieces[1..])
  {
    hide HeadOf, Utf8, WidthOk;
  }

  lemma PieceParts(text: bool, piece: Piece)
    requires PieceOk(text, piece)
    ensures WidthOk(piece.width, |piece.octets|) && (text ==> Utf8(piece.octets))
  {
  }

  lemma AtSlice(data: seq<byte>, at: nat, field: seq<byte>)
    requires At(data, at, field)
    ensures at + |field| <= |data| && data[at..at + |field|] == field
  {
  }

  lemma {:induction false} PiecesRead(w: Reader, text: bool, pieces: seq<Piece>, data: seq<byte>, pos: nat, nodes: nat, depth: nat)
    requires PiecesOk(text, pieces) && At(data, pos, PiecesOctets(text, pieces)) && |pieces| <= nodes && (pieces != [] ==> depth <= w.maxDepth)
    ensures pos <= |data|
    ensures Chunks(w, data, pos, nodes, depth, Major(text))
         == Ok(Parsed(JoinPieces(pieces), pos + |PiecesOctets(text, pieces)|, nodes - |pieces|))
    decreases |pieces|
  {
    hide HeadOf, Utf8, Argument, WidthOk, Chunks, At, PieceOk, PiecesOk, PiecesOctets, JoinPieces, Major;
    if pieces == [] {
      EmptyPieces(text);
      NoPieces(w, data, pos, nodes, depth, text);
    } else {
      var piece, rest := pieces[0], pieces[1..];
      FirstPiece(text, pieces);
      PieceParts(text, piece);
      MajorBound(text);
      var head := HeadOf(Major(text), piece.width, |piece.octets|);
      AtSplit(data, pos, head + piece.octets, PiecesOctets(text, rest));
      AtSplit(data, pos, head, piece.octets);
      HeadReads(data, pos, Major(text), piece.width, |piece.octets|);
      var at := pos + |head|;
      AtSlice(data, at, piece.octets);
      PiecesRead(w, text, rest, data, at + |piece.octets|, nodes - 1, depth);
      ChunksOnce(w, data, pos, nodes, depth, text, |piece.octets|, at);
    }
  }

  lemma PiecedReads(w: Reader, f: Form, data: seq<byte>, pos: nat, nodes: nat, depth: nat)
    requires f.Pieces? && FormOk(f) && At(data, pos, Written(f)) && Room(w, f, nodes, depth)
    ensures ReadAs(w, f, data, pos, nodes, depth)
  {
    hide Utf8, Chunks, Items, Entries, Simple, PiecesOctets, PiecesOk;
    var major := Major(f.text);
    AtSplit(data, pos, [major * 32 + 31], PiecesOctets(f.text, f.pieces));
    AtIndex(data, pos, [major * 32 + 31], 0);
    HeadOctet(major, 31);
    PiecesRead(w, f.text, f.pieces, data, pos + 1, nodes - 1, depth + 1);
    if f.text {
      PiecesUtf8(f.pieces);
    }
  }

  /** No form begins like a break. */
  lemma FormStart(f: Form)
    requires FormOk(f)
    ensures 1 <= |Written(f)| && Written(f)[0] != 0xff
  {
    hide WidthOk, ItemsOk, EntriesOk, PiecesOk, ItemsWritten, EntriesWritten, PiecesOctets, BigEndian;
    HeadStart(f);
  }

  lemma HeadStart(f: Form)
    ensures forall major: nat, width, arg :: major < 7 && WidthOk(width, arg) ==> HeadOf(major, width, arg)[0] != 0xff
  {
  }

  function CountOf(counted: Option<nat>, n: nat): Option<nat> {
    if counted.Some? then Some(n) else None
  }

  /** The opening of a collection: its major type, and its count or that it runs up to a break. */
  lemma StartReads(data: seq<byte>, pos: nat, major: nat, counted: Option<nat>, n: nat)
    requires 4 <= major <= 5 && (counted.Some? ==> WidthOk(counted.value, n)) && At(data, pos, Start(major, counted, n))
    ensures pos < |data| && data[pos] / 32 == major
    ensures (counted.Some? ==> n < TWO64) && Argument(data, pos + 1, data[pos] % 32) == Ok((CountOf(counted, n), pos + |Start(major, counted, n)|))
  {
    hide HeadOf, WidthOk;
    if counted.Some? {
      HeadReads(data, pos, major, counted.value, n);
    } else {
      AtIndex(data, pos, [major * 32 + 31], 0);
      HeadOctet(major, 31);
    }
  }

  /** Nothing more to read. */
  lemma NoneLeft(w: Reader, data: seq<byte>, pos: nat, nodes: nat, depth: nat, counted: Option<nat>)
    requires At(data, pos, Stop(counted))
    ensures pos <= |data|
    ensures Items(w, data, pos, nodes, depth, CountOf(counted, 0)) == Ok(Parsed([], pos + |Stop(counted)|, nodes))
    ensures Entries(w, data, pos, nodes, depth, CountOf(counted, 0)) == Ok(Parsed([], pos + |Stop(counted)|, nodes))
  {
    if counted.None? {
      AtIndex(data, pos, [0xff], 0);
    }
  }

  lemma ItemsOnce(w: Reader, data: seq<byte>, pos: nat, nodes: nat, depth: nat, counted: Option<nat>, n: nat)
    requires n > 0 && pos < |data| && data[pos] != 0xff
    ensures var first := Item(w, data, pos, nodes, depth);
            Items(w, data, pos, nodes, depth, CountOf(counted, n)) ==
            if first.Err? then Err(first.error)
            else
              var rest := Items(w, data, first.value.pos, first.value.nodes, depth, CountOf(counted, n - 1));
              if rest.Err? then Err(rest.error) else Ok(Parsed([first.value.value] + rest.value.value, rest.value.pos, rest.value.nodes))
  {
    hide Item;
  }

  lemma EntriesOnce(w: Reader, data: seq<byte>, pos: nat, nodes: nat, depth: nat, counted: Option<nat>, n: nat)
    requires n > 0 && pos < |data| && data[pos] != 0xff
    ensures var first := KeyAndValue(w, data, pos, nodes, depth);
            Entries(w, data, pos, nodes, depth, CountOf(counted, n)) ==
            if first.Err? then Err(first.error)
            else
              var rest := Entries(w, data, first.value.pos, first.value.nodes, depth, CountOf(counted, n - 1));
              if rest.Err? then Err(rest.error) else Ok(Parsed([first.value.value] + rest.value.value, rest.value.pos, rest.value.nodes))
  {
    hide KeyAndValue;
  }

  lemma {:induction false} ItemsRead(w: Reader, counted: Option<nat>, items: seq<Form>, data: seq<byte>, pos: nat, nodes: nat, depth: nat)
    requires ItemsOk(items) && At(data, pos, ItemsWritten(items) + Stop(counted)) && 1 <= depth
    requires depth - 1 + ItemsDeep(items) <= w.maxDepth && ItemsCost(items) <= nodes
    ensures pos <= |data|
    ensures Items(w, data, pos, nodes, depth, CountOf(counted, |items|))
         == Ok(Parsed(ItemsStand(w.widen, items), pos + |ItemsWritten(items) + Stop(counted)|, nodes - ItemsCost(items)))
    decreases items, 0
  {
    hide Items, Item, At, FormOk, Written, Deep, Cost, Stands, Stop;
    if items == [] {
      assert [] + Stop(counted) == Stop(counted);
      NoneLeft(w, data, pos, nodes, depth, counted);
    } else {
      var f, rest := items[0], items[1..];
      assert ItemsWritten(items) + Stop(counted) == Written(f) + (ItemsWritten(rest) + Stop(counted));
      AtSplit(data, pos, Written(f), ItemsWritten(rest) + Stop(counted));
      FormStart(f);
      AtIndex(data, pos, Written(f), 0);
      AtSlice(data, pos, Written(f));
      FormReads(w, f, data, pos, nodes, depth);
      ItemsRead(w, counted, rest, data, pos + |Written(f)|, nodes - Cost(f), depth);
      ItemsOnce(w, data, pos, nodes, depth, counted, |items|);
    }
  }

  lemma {:induction false} EntryReads(w: Reader, e: FormEntry, data: seq<byte>, pos: nat, nodes: nat, depth: nat)
    requires EntryOk(e) && At(data, pos, EntryWritten(e)) && 1 <= depth
    requires depth - 1 + EntryDeep(e) <= w.maxDepth && EntryCost(e) <= nodes
    ensures pos < |data| && data[pos] != 0xff
    ensures KeyAndValue(w, data, pos, nodes, depth) == Ok(Parsed(EntryStands(w.widen, e), pos + |EntryWritten(e)|, nodes - EntryCost(e)))
    decreases e, 0
  {
    hide Item, At, FormOk, Written, Deep, Cost, Stands;
    AtSplit(data, pos, Written(e.key), Written(e.val));
    FormStart(e.key);
    AtIndex(data, pos, Written(e.key), 0);
    AtSlice(data, pos, Written(e.key));
    FormReads(w, e.key, data, pos, nodes, depth);
    FormReads(w, e.val, data, pos + |Written(e.key)|, nodes - Cost(e.key), depth);
  }

  lemma {:induction false} EntriesRead(w: Reader, counted: Option<nat>, entries: seq<FormEntry>, data: seq<byte>, pos: nat, nodes: nat, depth: nat)
    requires EntriesOk(entries) && At(data, pos, EntriesWritten(entries) + Stop(counted)) && 1 <= depth
    requires depth - 1 + EntriesDeep(entries) <= w.maxDepth && EntriesCost(entries) <= nodes
    ensures pos <= |data|
    ensures Entries(w, data, pos, nodes, depth, CountOf(counted, |entries|))
         == Ok(Parsed(EntriesStand(w.widen, entries), pos + |EntriesWritten(entries) + Stop(counted)|, nodes - EntriesCost(entries)))
    decreases entries, 0
  {
    hide Entries, KeyAndValue, At, EntryOk, EntryWritten, EntryDeep, EntryCost, EntryStands, Stop;
    if entries == [] {
      assert [] + Stop(counted) == Stop(counted);
      NoneLeft(w, data, pos, nodes, depth, counted);
    } else {
      var e, rest := entries[0], entries[1..];
      assert EntriesWritten(entries) + Stop(counted) == EntryWritten(e) + (EntriesWritten(rest) + Stop(counted));
      AtSplit(data, pos, EntryWritten(e), EntriesWritten(rest) + Stop(counted));
      AtSlice(data, pos, EntryWritten(e));
      EntryReads(w, e, data, pos, nodes, depth);
      EntriesRead(w, counted, rest, data, pos + |EntryWritten(e)|, nodes - EntryCost(e), depth);
      EntriesOnce(w, data, pos, nodes, depth, counted, |entries|);
    }
  }

  lemma {:induction false} ListReads(w: Reader, f: Form, data: seq<byte>, pos: nat, nodes: nat, depth: nat)
    requires f.List? && FormOk(f) && At(data, pos, Written(f)) && Room(w, f, nodes, depth)
    ensures ReadAs(w, f, data, pos, nodes, depth)
    decreases f, 0
  {
    hide Argument, WidthOk, Start, Stop, Items, Entries, Simple, String, ItemsOk, ItemsWritten, ItemsDeep, ItemsCost, ItemsStand, At;
    AtSplit(data, pos, Start(4, f.counted, |f.items|), ItemsWritten(f.items) + Stop(f.counted));
    StartReads(data, pos, 4, f.counted, |f.items|);
    ItemsRead(w, f.counted, f.items, data, pos + |Start(4, f.counted, |f.items|)|, nodes - 1, depth + 1);
  }

  lemma {:induction false} TableReads(w: Reader, f: Form, data: seq<byte>, pos: nat, nodes: nat, depth: nat)
    requires f.Table? && FormOk(f) && At(data, pos, Written(f)) && Room(w, f, nodes, depth)
    ensures ReadAs(w, f, data, pos, nodes, depth)
    decreases f, 0
  {
    hide Argument, WidthOk, Start, Stop, Items, Entries, Simple, String, EntriesOk, EntriesWritten, EntriesDeep, EntriesCost, EntriesStand, At;
    AtSplit(data, pos, Start(5, f.counted, |f.entries|), EntriesWritten(f.entries) + Stop(f.counted));
    StartReads(data, pos, 5, f.counted, |f.entries|);
    EntriesRead(w, f.counted, f.entries, data, pos + |Start(5, f.counted, |f.entries|)|, nodes - 1, depth + 1);
  }

  lemma {:induction false} TaggedReads(w: Reader, f: Form, data: seq<byte>, pos: nat, nodes: nat, depth: nat)
    requires f.Tagged? && FormOk(f) && At(data, pos, Written(f)) && Room(w, f, nodes, depth)
    ensures ReadAs(w, f, data, pos, nodes, depth)
    decreases f, 0
  {
    hide Argument, WidthOk, HeadOf, Items, Entries, Simple, String, At;
    AtSplit(data, pos, HeadOf(6, f.width, f.tag), Written(f.inner));
    HeadReads(data, pos, 6, f.width, f.tag);
    FormReads(w, f.inner, data, pos + 1 + f.width, nodes - 1, depth + 1);
  }

  /** Every written form is read, anywhere, as the value it stands for, given its share of depth and nodes. */
  lemma {:induction false} FormReads(w: Reader, f: Form, data: seq<byte>, pos: nat, nodes: nat, depth: nat)
    requires FormOk(f) && At(data, pos, Written(f)) && Room(w, f, nodes, depth)
    ensures ReadAs(w, f, data, pos, nodes, depth)
    decreases f, 1
  {
    hide FormOk, At, Written, Room, ReadAs;
    match f
    case Whole(_, _, _) => LeafReads(w, f, data, pos, nodes, depth);
    case Str(_, _, _) => LeafReads(w, f, data, pos, nodes, depth);
    case Pieces(_, _) => PiecedReads(w, f, data, pos, nodes, depth);
    case List(_, _) => ListReads(w, f, data, pos, nodes, depth);
    case Table(_, _) => TableReads(w, f, data, pos, nodes, depth);
    case Tagged(_, _, _) => TaggedReads(w, f, data, pos, nodes, depth);
    case Code(_) => CodeReads(w, f, data, pos, nodes, depth);
    case Real(_) => RealReads(w, f, data, pos, nodes, depth);
  }

  // ---- Whatever is read is a written form -----------------------------------------------------------------------

  /** From `pos` to where reading ended there is a written form, with its share of depth and nodes. */
  ghost predicate IsForm(w: Reader, data: seq<byte>, pos: nat, nodes: nat, depth: nat, f: Form, end: nat) {
    FormOk(f) && pos <= end <= |data| && data[pos..end] == Written(f) && Room(w, f, nodes, depth)
  }

  lemma Joined(data: seq<byte>, lo: nat, mid: nat, hi: nat, a: seq<byte>, b: seq<byte>)
    requires lo <= mid <= hi <= |data| && data[lo..mid] == a && data[mid..hi] == b
    ensures data[lo..hi] == a + b
  {
    assert data[lo..hi] == data[lo..mid] + data[mid..hi];
  }

  lemma LeafWritten(w: Reader, data: seq<byte>, pos: nat, nodes: nat, depth: nat) returns (f: Form)
    requires pos < |data| && data[pos] / 32 <= 3 && data[pos] % 32 != 31 && Item(w, data, pos, nodes, depth).Ok?
    ensures IsForm(w, data, pos, nodes, depth, f, Item(w, data, pos, nodes, depth).value.pos)
  {
    hide HeadOf, WidthOk, Utf8, Chunks, Items, Entries, Simple;
    NotIndefinite(data, pos);
    var width := HeadWasWritten(data, pos);
    hide Argument;
    var major := data[pos] / 32;
    var (arg, at) := Argument(data, pos + 1, data[pos] % 32).value;
    if major <= 1 {
      f := Whole(major == 1, width, arg.value);
    } else {
      var end := at + arg.value;
      f := Str(major == 3, width, data[at..end]);
      Joined(data, pos, at, end, HeadOf(major, width, arg.value), f.octets);
    }
  }

  lemma NotIndefinite(data: seq<byte>, pos: nat)
    requires pos < |data| && Argument(data, pos + 1, data[pos] % 32).Ok?
    ensures Argument(data, pos + 1, data[pos] % 32).value.0.Some? <==> data[pos] % 32 != 31
    ensures data[pos] % 32 == 31 ==> Argument(data, pos + 1, data[pos] % 32).value.1 == pos + 1 && data[pos] == data[pos] / 32 * 32 + 31
  {
  }

  lemma SimpleWritten(w: Reader, data: seq<byte>, pos: nat, nodes: nat, depth: nat) returns (f: Form)
    requires pos < |data| && data[pos] / 32 == 7 && Item(w, data, pos, nodes, depth).Ok?
    ensures IsForm(w, data, pos, nodes, depth, f, Item(w, data, pos, nodes, depth).value.pos)
  {
    hide Argument, String, Items, Entries;
    var info := data[pos] % 32;
    assert data[pos] == 7 * 32 + info;
    var end := Item(w, data, pos, nodes, depth).value.pos;
    if info <= 23 {
      f := Code(info);
      assert data[pos..end] == [data[pos]];
    } else {
      f := Real(data[pos + 1..end]);
      assert data[pos..end] == [data[pos]] + data[pos + 1..end];
    }
  }

  lemma PiecesCons(text: bool, piece: Piece, rest: seq<Piece>)
    requires PieceOk(text, piece) && PiecesOk(text, rest)
    ensures PiecesOk(text, [piece] + rest)
    ensures PiecesOctets(text, [piece] + rest) == HeadOf(Major(text), piece.width, |piece.octets|) + piece.octets + PiecesOctets(text, rest)
  {
    hide HeadOf, WidthOk, Utf8;
    assert ([piece] + rest)[1..] == rest;
  }

  /** What an accepted piece must be. */
  lemma ChunksParts(w: Reader, data: seq<byte>, pos: nat, nodes: nat, depth: nat, text: bool)
    requires pos <= |data| && Chunks(w, data, pos, nodes, depth, Major(text)).Ok?
    ensures pos < |data|
    ensures data[pos] == 0xff ==> Chunks(w, data, pos, nodes, depth, Major(text)).value.pos == pos + 1
    ensures data[pos] != 0xff ==>
              && depth <= w.maxDepth && nodes > 0 && data[pos] / 32 == Major(text) && data[pos] % 32 != 31
              && Argument(data, pos + 1, data[pos] % 32).Ok?
              && var (arg, at) := Argument(data, pos + 1, data[pos] % 32).value;
                 arg.Some? && at + arg.value <= |data| && (text ==> Utf8(data[at..at + arg.value]))
  {
    hide Argument, Utf8;
  }

  lemma {:induction false} PiecesWritten(w: Reader, data: seq<byte>, pos: nat, nodes: nat, depth: nat, text: bool) returns (pieces: seq<Piece>)
    requires pos <= |data| && Chunks(w, data, pos, nodes, depth, Major(text)).Ok?
    ensures var end := Chunks(w, data, pos, nodes, depth, Major(text)).value.pos;
            && PiecesOk(text, pieces) && pos <= end <= |data| && data[pos..end] == PiecesOctets(text, pieces)
            && |pieces| <= nodes && (pieces != [] ==> depth <= w.maxDepth)
    decreases |data| - pos
  {
    hide HeadOf, WidthOk, Utf8, Chunks, Argument;
    ChunksParts(w, data, pos, nodes, depth, text);
    if data[pos] == 0xff {
      pieces := [];
      assert data[pos..pos + 1] == [0xff];
    } else {
      var width := HeadWasWritten(data, pos);
      var (arg, at) := Argument(data, pos + 1, data[pos] % 32).value;
      var end := at + arg.value;
      var piece := Piece(width, data[at..end]);
      ChunksOnce(w, data, pos, nodes, depth, text, arg.value, at);
      var rest := PiecesWritten(w, data, end, nodes - 1, depth, text);
      pieces := [piece] + rest;
      PiecesCons(text, piece, rest);
      hide PiecesOctets, PiecesOk;
      Joined(data, pos, at, end, HeadOf(Major(text), width, arg.value), piece.octets);
      Joined(data, pos, end, Chunks(w, data, pos, nodes, depth, Major(text)).value.pos, HeadOf(Major(text), width, arg.value) + piece.octets,
             PiecesOctets(text, rest));
    }
  }

  lemma PiecedWritten(w: Reader, data: seq<byte>, pos: nat, nodes: nat, depth: nat) returns (f: Form)
    requires pos < |data| && 2 <= data[pos] / 32 <= 3 && data[pos] % 32 == 31 && Item(w, data, pos, nodes, depth).Ok?
    ensures IsForm(w, data, pos, nodes, depth, f, Item(w, data, pos, nodes, depth).value.pos)
  {
    hide Utf8, Chunks, Items, Entries, Simple, PiecesOctets, PiecesOk;
    var text, end := data[pos] / 32 == 3, Item(w, data, pos, nodes, depth).value.pos;
    NotIndefinite(data, pos);
    hide Argument;
    var pieces := PiecesWritten(w, data, pos + 1, nodes - 1, depth + 1, text);
    f := Pieces(text, pieces);
    assert data[pos..pos + 1] == [data[pos]];
    Joined(data, pos, pos + 1, end, [data[pos]], PiecesOctets(text, pieces));
  }

  lemma StartWritten(data: seq<byte>, pos: nat, n: nat) returns (counted: Option<nat>)
    requires pos < |data| && 4 <= data[pos] / 32 <= 5 && Argument(data, pos + 1, data[pos] % 32).Ok?
    requires Argument(data, pos + 1, data[pos] % 32).value.0.Some? ==> Argument(data, pos + 1, data[pos] % 32).value.0.value == n
    ensures var (arg, at) := Argument(data, pos + 1, data[pos] % 32).value;
            && arg == CountOf(counted, n) && (counted.Some? ==> WidthOk(counted.value, n))
            && pos < at <= |data| && data[pos..at] == Start(data[pos] / 32, counted, n)
  {
    NotIndefinite(data, pos);
    hide HeadOf, WidthOk;
    if data[pos] % 32 == 31 {
      counted := None;
      hide Argument;
      assert data[pos..pos + 1] == [data[pos]];
    } else {
      var width := HeadWasWritten(data, pos);
      counted := Some(width);
      hide Argument;
    }
  }

  /** What follows the opening of a collection: forms one after another, then the break if there is no count. */
  ghost predicate AreItems(w: Reader, data: seq<byte>, pos: nat, nodes: nat, depth: nat, counted: bool, items: seq<Form>, end: nat)
  {
    && ItemsOk(items) && pos <= end <= |data| && 1 <= depth && data[pos..end] == ItemsWritten(items) + (if counted then [] else [0xff])
    && depth - 1 + ItemsDeep(items) <= w.maxDepth && ItemsCost(items) <= nodes
  }

  ghost predicate AreEntries(w: Reader, data: seq<byte>, pos: nat, nodes: nat, depth: nat, counted: bool, entries: seq<FormEntry>, end: nat)
  {
    && EntriesOk(entries) && pos <= end <= |data| && 1 <= depth && data[pos..end] == EntriesWritten(entries) + (if counted then [] else [0xff])
    && depth - 1 + EntriesDeep(entries) <= w.maxDepth && EntriesCost(entries) <= nodes
  }

  lemma ItemsCons(w: Reader, data: seq<byte>, pos: nat, mid: nat, end: nat, nodes: nat, left: nat, depth: nat, counted: bool, f: Form, rest: seq<Form>)
    requires IsForm(w, data, pos, nodes, depth, f, mid) && AreItems(w, data, mid, left, depth, counted, rest, end) && left + Cost(f) == nodes
    ensures AreItems(w, data, pos, nodes, depth, counted, [f] + rest, end)
  {
    hide FormOk, Written, Deep, Cost;
    assert ([f] + rest)[1..] == rest;
    var stop := if counted then [] else [0xff];
    Joined(data, pos, mid, end, Written(f), ItemsWritten(rest) + stop);
    assert Written(f) + (ItemsWritten(rest) + stop) == Written(f) + ItemsWritten(rest) + stop;
  }

  lemma EntriesCons(w: Reader, data: seq<byte>, pos: nat, mid: nat, end: nat, nodes: nat, left: nat, depth: nat, counted: bool, e: FormEntry,
                    rest: seq<FormEntry>)
    requires EntryOk(e) && pos <= mid <= end && AreEntries(w, data, mid, left, depth, counted, rest, end) && left + EntryCost(e) == nodes
    requires data[pos..mid] == EntryWritten(e) && depth - 1 + EntryDeep(e) <= w.maxDepth
    ensures AreEntries(w, data, pos, nodes, depth, counted, [e] + rest, end)
  {
    hide EntryOk, EntryWritten, EntryDeep, EntryCost;
    assert ([e] + rest)[1..] == rest;
    var stop := if counted then [] else [0xff];
    Joined(data, pos, mid, end, EntryWritten(e), EntriesWritten(rest) + stop);
    assert EntryWritten(e) + (EntriesWritten(rest) + stop) == EntryWritten(e) + EntriesWritten(rest) + stop;
  }

  /** A form that was found is what was read. */
  lemma FoundIsRead(w: Reader, data: seq<byte>, pos: nat, nodes: nat, depth: nat, f: Form, end: nat)
    requires IsForm(w, data, pos, nodes, depth, f, end)
    ensures Cost(f) <= nodes && Item(w, data, pos, nodes, depth) == Ok(Parsed(Stands(w.widen, f), end, nodes - Cost(f)))
  {
    hide FormOk, Written, Deep, Cost, Item, Stands;
    FormReads(w, f, data, pos, nodes, depth);
  }

  lemma {:induction false} ItemsWereWritten(w: Reader, data: seq<byte>, pos: nat, nodes: nat, depth: nat, count: Option<nat>) returns (items: seq<Form>)
    requires pos <= |data| && 1 <= depth <= w.maxDepth + 1 && Items(w, data, pos, nodes, depth, count).Ok?
    ensures AreItems(w, data, pos, nodes, depth, count.Some?, items, Items(w, data, pos, nodes, depth, count).value.pos)
    ensures count.Some? ==> |items| == count.value
    decreases |data| - pos, 4
  {
    hide Item, FormOk, Written, Deep, Cost, IsForm;
    var end := Items(w, data, pos, nodes, depth, count).value.pos;
    if count == Some(0) || (count.None? && data[pos] == 0xff) {
      items := [];
      assert data[pos..end] == if count.Some? then [] else [0xff];
    } else {
      var first := Item(w, data, pos, nodes, depth).value;
      var f := ItemWasWritten(w, data, pos, nodes, depth);
      FoundIsRead(w, data, pos, nodes, depth, f, first.pos);
      var rest := ItemsWereWritten(w, data, first.pos, first.nodes, depth, OneFewer(count));
      items := [f] + rest;
      ItemsCons(w, data, pos, first.pos, end, nodes, first.nodes, depth, count.Some?, f, rest);
      hide AreItems;
    }
  }

  lemma {:induction false} EntryWasWritten(w: Reader, data: seq<byte>, pos: nat, nodes: nat, depth: nat) returns (e: FormEntry)
    requires pos <= |data| && 1 <= depth && KeyAndValue(w, data, pos, nodes, depth).Ok?
    ensures var r := KeyAndValue(w, data, pos, nodes, depth).value;
            && EntryOk(e) && data[pos..r.pos] == EntryWritten(e) && depth - 1 + EntryDeep(e) <= w.maxDepth
            && r.nodes + EntryCost(e) == nodes
    decreases |data| - pos, 4
  {
    hide Item, FormOk, Written, Deep, Cost;
    var k := Item(w, data, pos, nodes, depth).value;
    var v := Item(w, data, k.pos, k.nodes, depth).value;
    var key := ItemWasWritten(w, data, pos, nodes, depth);
    FoundIsRead(w, data, pos, nodes, depth, key, k.pos);
    var val := ItemWasWritten(w, data, k.pos, k.nodes, depth);
    FoundIsRead(w, data, k.pos, k.nodes, depth, val, v.pos);
    e := FormEntry(key, val);
    Joined(data, pos, k.pos, v.pos, Written(key), Written(val));
  }

  lemma {:induction false} EntriesWereWritten(w: Reader, data: seq<byte>, pos: nat, nodes: nat, depth: nat, count: Option<nat>)
    returns (entries: seq<FormEntry>)
    requires pos <= |data| && 1 <= depth <= w.maxDepth + 1 && Entries(w, data, pos, nodes, depth, count).Ok?
    ensures AreEntries(w, data, pos, nodes, depth, count.Some?, entries, Entries(w, data, pos, nodes, depth, count).value.pos)
    ensures count.Some? ==> |entries| == count.value
    decreases |data| - pos, 5
  {
    hide KeyAndValue, EntryOk, EntryWritten, EntryDeep, EntryCost;
    var end := Entries(w, data, pos, nodes, depth, count).value.pos;
    if count == Some(0) || (count.None? && data[pos] == 0xff) {
      entries := [];
      assert data[pos..end] == if count.Some? then [] else [0xff];
    } else {
      var first := KeyAndValue(w, data, pos, nodes, depth).value;
      var e := EntryWasWritten(w, data, pos, nodes, depth);
      var rest := EntriesWereWritten(w, data, first.pos, first.nodes, depth, OneFewer(count));
      entries := [e] + rest;
      EntriesCons(w, data, pos, first.pos, end, nodes, first.nodes, depth, count.Some?, e, rest);
      hide AreEntries;
    }
  }

  lemma {:induction false} ListWritten(w: Reader, data: seq<byte>, pos: nat, nodes: nat, depth: nat) returns (f: Form)
    requires pos < |data| && data[pos] / 32 == 4 && Item(w, data, pos, nodes, depth).Ok?
    ensures IsForm(w, data, pos, nodes, depth, f, Item(w, data, pos, nodes, depth).value.pos)
    decreases |data| - pos, 2
  {
    hide Argument, String, Items, Entries, Simple, WidthOk, Start, ItemsOk, ItemsWritten, ItemsDeep, ItemsCost;
    var (arg, at) := Argument(data, pos + 1, data[pos] % 32).value;
    var count: Option<nat> := if arg.None? then None else Some(arg.value);
    var end := Item(w, data, pos, nodes, depth).value.pos;
    var items := ItemsWereWritten(w, data, at, nodes - 1, depth + 1, count);
    var counted := StartWritten(data, pos, |items|);
    f := List(counted, items);
    Joined(data, pos, at, end, Start(4, counted, |items|), ItemsWritten(items) + Stop(counted));
  }

  lemma {:induction false} TableWritten(w: Reader, data: seq<byte>, pos: nat, nodes: nat, depth: nat) returns (f: Form)
    requires pos < |data| && data[pos] / 32 == 5 && Item(w, data, pos, nodes, depth).Ok?
    ensures IsForm(w, data, pos, nodes, depth, f, Item(w, data, pos, nodes, depth).value.pos)
    decreases |data| - pos, 2
  {
    hide Argument, String, Items, Entries, Simple, WidthOk, Start, EntriesOk, EntriesWritten, EntriesDeep, EntriesCost;
    var (arg, at) := Argument(data, pos + 1, data[pos] % 32).value;
    var count: Option<nat> := if arg.None? then None else Some(arg.value);
    var end := Item(w, data, pos, nodes, depth).value.pos;
    var entries := EntriesWereWritten(w, data, at, nodes - 1, depth + 1, count);
    var counted := StartWritten(data, pos, |entries|);
    f := Table(counted, entries);
    Joined(data, pos, at, end, Start(5, counted, |entries|), EntriesWritten(entries) + Stop(counted));
  }

  lemma {:induction false} TaggedWritten(w: Reader, data: seq<byte>, pos: nat, nodes: nat, depth: nat) returns (f: Form)
    requires pos < |data| && data[pos] / 32 == 6 && Item(w, data, pos, nodes, depth).Ok?
    ensures IsForm(w, data, pos, nodes, depth, f, Item(w, data, pos, nodes, depth).value.pos)
    decreases |data| - pos, 2
  {
    hide Argument, String, Items, Entries, Simple, WidthOk, HeadOf;
    var (arg, at) := Argument(data, pos + 1, data[pos] % 32).value;
    var end := Item(w, data, pos, nodes, depth).value.pos;
    var width := HeadWasWritten(data, pos);
    var inner := ItemWasWritten(w, data, at, nodes - 1, depth + 1);
    f := Tagged(width, arg.value, inner);
    Joined(data, pos, at, end, HeadOf(6, width, arg.value), Written(inner));
  }

  /** Whatever is read as an item is a written form. */
  lemma {:induction false} ItemWasWritten(w: Reader, data: seq<byte>, pos: nat, nodes: nat, depth: nat) returns (f: Form)
    requires pos <= |data| && Item(w, data, pos, nodes, depth).Ok?
    ensures IsForm(w, data, pos, nodes, depth, f, Item(w, data, pos, nodes, depth).value.pos)
    decreases |data| - pos, 3
  {
    SomethingRead(w, data, pos, nodes, depth);
    hide Item, IsForm;
    var major := data[pos] / 32;
    if major == 7 {
      f := SimpleWritten(w, data, pos, nodes, depth);
    } else if major == 4 {
      f := ListWritten(w, data, pos, nodes, depth);
    } else if major == 5 {
      f := TableWritten(w, data, pos, nodes, depth);
    } else if major == 6 {
      f := TaggedWritten(w, data, pos, nodes, depth);
    } else if data[pos] % 32 == 31 {
      f := PiecedWritten(w, data, pos, nodes, depth);
    } else {
      f := LeafWritten(w, data, pos, nodes, depth);
    }
  }

  /** An integer is never indefinite. */
  lemma SomethingRead(w: Reader, data: seq<byte>, pos: nat, nodes: nat, depth: nat)
    requires pos <= |data| && Item(w, data, pos, nodes, depth).Ok?
    ensures pos < |data| && (data[pos] / 32 <= 1 ==> data[pos] % 32 != 31)
  {
    hide String, Items, Entries, Simple;
  }

  // ---- Theorem ---------------------------------------------------------------------------------------------------

  /** The decoder accepts exactly the written forms within 64 levels and 2^20 nodes, and reads each as the value it stands for. */
  lemma DecodeExact(widen: seq<byte> -> seq<byte>, data: seq<byte>)
    ensures Decode(widen, data).Ok? <==> exists f :: FormOk(f) && Written(f) == data && Deep(f) <= 64 && Cost(f) <= 0x10_0000
    ensures forall f :: FormOk(f) && Written(f) == data && Deep(f) <= 64 && Cost(f) <= 0x10_0000 ==> Decode(widen, data) == Ok(Stands(widen, f))
  {
    hide FormOk, Written, Deep, Cost, Item, Stands;
    var w := Reader(widen, MAX_DEPTH);
    forall f | FormOk(f) && Written(f) == data && Deep(f) <= 64 && Cost(f) <= 0x10_0000 ensures Decode(widen, data) == Ok(Stands(widen, f)) {
      assert data[0..|data|] == data;
      FormReads(w, f, data, 0, MAX_VALUE_NODES, 0);
    }
    if Decode(widen, data).Ok? {
      var f := ItemWasWritten(w, data, 0, MAX_VALUE_NODES, 0);
      assert Item(w, data, 0, MAX_VALUE_NODES, 0).value.pos == |data|;
      assert data[0..|data|] == data;
      assert FormOk(f) && Written(f) == data && Deep(f) <= 64 && Cost(f) <= 0x10_0000;
    }
  }
}
