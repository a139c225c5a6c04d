/** How the encoder writes: shortest heads, strings whole, collections counted or not as the profile says. */
module CborTidy {
  import opened Octets
  import opened CborValue
  import opened CborOrder
  import opened CborEncode
  import opened CborDecode
  import opened CborRoundTrip
  import opened CborForms

  /** No narrower width would hold the argument. */
  predicate Least(width: nat, arg: nat) {
    && WidthOk(width, arg)
    && arg >= (if width == 0 then 0 else if width == 1 then 24 else if width == 2 then 0x100 else if width == 4 then 0x1_0000 else TWO32)
  }

  /** Written the encoder's way. */
  predicate Tidy(f: Form, counted: bool) {
    match f
    case Whole(_, width, arg) => Least(width, arg)
    case Str(_, width, octets) => Least(width, |octets|)
    case Pieces(_, _) => false
    case List(c, items) => (if counted then c.Some? && Least(c.value, |items|) else c.None?) && ItemsTidy(items, counted)
    case Table(c, entries) => (if counted then c.Some? && Least(c.value, |entries|) else c.None?) && EntriesTidy(entries, counted)
    case Tagged(width, tag, inner) => Least(width, tag) && Tidy(inner, counted)
    case Code(code) => 20 <= code <= 22
    case Real(octets) => |octets| == 8
  }

  predicate ItemsTidy(items: seq<Form>, counted: bool) {
    items != [] ==> Tidy(items[0], counted) && ItemsTidy(items[1..], counted)
  }

  predicate EntriesTidy(entries: seq<FormEntry>, counted: bool) {
    entries != [] ==> EntryTidy(entries[0], counted) && EntriesTidy(entries[1..], counted)
  }

  predicate EntryTidy(e: FormEntry, counted: bool) {
    Tidy(e.key, counted) && Tidy(e.val, counted)
  }

  predicate Counts(p: Profile) {
    !p.Indefinite?
  }

  lemma HeadIsLeast(major: nat, arg: nat) returns (width: nat)
    requires major < 8 && arg < TWO64
    ensures Least(width, arg) && Head(major, arg) == HeadOf(major, width, arg)
  {
    Pow256Values();
    width := if arg < 24 then 0 else if arg < 0x100 then 1 else if arg < 0x1_0000 then 2 else if arg < TWO32 then 4 else 8;
    if width == 1 {
      OneOctet(arg);
    }
    hide BigEndian;
  }

  ghost predicate IsTidy(v: Value, p: Profile, f: Form)
    requires Encode(v, p).Ok?
  {
    FormOk(f) && Tidy(f, Counts(p)) && Written(f) == Encode(v, p).value
  }

  lemma LeafTidy(v: Value, p: Profile) returns (f: Form)
    requires WellTyped(v) && Encode(v, p).Ok? && !v.Array? && !v.Map? && !v.Tag?
    ensures IsTidy(v, p, f)
  {
    hide Head, HeadOf, Least, WidthOk, Utf8, Finite;
    match v
    case Integer(n) =>
      var arg := if n >= 0 then n % TWO64 else (-1 - n) % TWO64;
      var width := HeadIsLeast(if n >= 0 then 0 else 1, arg);
      LeastFits(width, arg);
      f := Whole(n < 0, width, arg);
    case Bytes(b) =>
      var width := HeadIsLeast(2, |b|);
      LeastFits(width, |b|);
      f := Str(false, width, b);
    case Text(s) =>
      var width := HeadIsLeast(3, |s|);
      LeastFits(width, |s|);
      f := Str(true, width, s);
    case Bool(flag) => f := Code(if flag then 21 else 20);
    case Null => f := Code(22);
    case Float(bits) => f := Real(bits);
  }

  lemma LeastFits(width: nat, arg: nat)
    requires Least(width, arg)
    ensures WidthOk(width, arg)
  {
  }

  lemma OpeningTidy(major: nat, count: nat, p: Profile) returns (c: Option<nat>)
    requires 4 <= major <= 5 && count < TWO64
    ensures if Counts(p) then c.Some? && Least(c.value, count) && WidthOk(c.value, count) else c.None?
    ensures Opening(major, count, p) == Start(major, c, count) && Closing(p) == Stop(c)
  {
    hide Head, HeadOf, Least;
    if p.Indefinite? {
      c := None;
    } else {
      var width := HeadIsLeast(major, count);
      LeastFits(width, count);
      c := Some(width);
    }
  }

  lemma {:induction false} ItemsAreTidy(items: seq<Value>, p: Profile) returns (fs: seq<Form>)
    requires (forall i :: 0 <= i < |items| ==> WellTyped(items[i])) && EncodeItems(items, p).Ok?
    ensures |fs| == |items| && ItemsOk(fs) && ItemsTidy(fs, Counts(p)) && ItemsWritten(fs) == EncodeItems(items, p).value
    decreases items, 0
  {
    hide Encode, WellTyped, FormOk, Tidy, Written;
    if items == [] {
      fs := [];
    } else {
      var f := EncodeTidy(items[0], p);
      var rest := ItemsAreTidy(items[1..], p);
      fs := [f] + rest;
      assert fs[1..] == rest;
    }
  }

  /** The entries named by `order`, in that order. */
  lemma {:induction false} GatherTidy(v: Value, p: Profile, order: seq<nat>) returns (fs: seq<FormEntry>)
    requires v.Map? && WellTyped(v) && Indices(order, |v.entries|) && Gather(EncodeEntries(v.entries, p), order).Ok?
    ensures |fs| == |order| && EntriesOk(fs) && EntriesTidy(fs, Counts(p))
    ensures EntriesWritten(fs) == Gather(EncodeEntries(v.entries, p), order).value
    decreases v, 0, 0, |order|
  {
    hide Encode, EncodeEntries, FormOk, Tidy, Written;
    if order == [] {
      fs := [];
    } else {
      var e := v.entries[order[0]];
      EncodeEntriesAt(v.entries, p, order[0]);
      assert WellTyped(e.key) && WellTyped(e.val);
      hide WellTyped;
      var key := EncodeTidy(e.key, p);
      var val := EncodeTidy(e.val, p);
      var rest := GatherTidy(v, p, order[1..]);
      fs := [FormEntry(key, val)] + rest;
      assert fs[1..] == rest;
    }
  }

  lemma {:induction false} ArrayTidy(v: Value, p: Profile) returns (f: Form)
    requires v.Array? && WellTyped(v) && Encode(v, p).Ok?
    ensures IsTidy(v, p, f)
    decreases v, 0
  {
    hide EncodeItems, ItemsOk, ItemsTidy, ItemsWritten, Opening, Closing, Start, Stop, Least, WidthOk;
    var fs := ItemsAreTidy(v.items, p);
    var c := OpeningTidy(4, |v.items|, p);
    f := List(c, fs);
    Regroup(Opening(4, |v.items|, p), EncodeItems(v.items, p).value, Closing(p));
  }

  lemma Regroup(a: seq<byte>, b: seq<byte>, c: seq<byte>)
    ensures a + b + c == a + (b + c)
  {
  }

  lemma {:induction false} MapTidy(v: Value, p: Profile) returns (f: Form)
    requires v.Map? && WellTyped(v) && Encode(v, p).Ok?
    ensures IsTidy(v, p, f)
    decreases v, 0, 1, 0
  {
    hide Encode, EncodeEntries, Gather, EntryOrder, EntriesOk, EntriesTidy, EntriesWritten, Opening, Closing, Start, Stop, Least, WidthOk;
    EncodeMapUnfold(v, p);
    var pairs := EncodeEntries(v.entries, p);
    var order := EntryOrder(pairs, p);
    OrderLength(pairs, p);
    var fs := GatherTidy(v, p, order);
    var c := OpeningTidy(5, |order|, p);
    f := Table(c, fs);
    Regroup(Opening(5, |order|, p), Gather(pairs, order).value, Closing(p));
  }

  lemma {:induction false} TagTidy(v: Value, p: Profile) returns (f: Form)
    requires v.Tag? && WellTyped(v) && Encode(v, p).Ok?
    ensures IsTidy(v, p, f)
    decreases v, 0
  {
    hide Head, HeadOf, Least, WidthOk;
    var g := EncodeTidy(v.inner, p);
    var width := HeadIsLeast(6, v.tag);
    LeastFits(width, v.tag);
    f := Tagged(width, v.tag, g);
  }

  lemma {:induction false} NestedTidy(v: Value, p: Profile) returns (f: Form)
    requires WellTyped(v) && Encode(v, p).Ok? && (v.Array? || v.Map? || v.Tag?)
    ensures IsTidy(v, p, f)
    decreases v, 1
  {
    hide WellTyped, Encode, IsTidy;
    match v
    case Array(_) => f := ArrayTidy(v, p);
    case Map(_) => f := MapTidy(v, p);
    case Tag(_, _) => f := TagTidy(v, p);
  }

  lemma {:induction false} EncodeTidy(v: Value, p: Profile) returns (f: Form)
    requires WellTyped(v) && Encode(v, p).Ok?
    ensures IsTidy(v, p, f)
    decreases v, 2
  {
    hide WellTyped, Encode, IsTidy;
    if v.Array? || v.Map? || v.Tag? {
      f := NestedTidy(v, p);
    } else {
      f := LeafTidy(v, p);
    }
  }

  /** An encoding is the tidy writing of the value it carries: every head as short as can be, every string whole, and collections
      counted exactly if the profile is not the indefinite one. */
  lemma EncodeExact(widen: seq<byte> -> seq<byte>, v: Value, p: Profile)
    requires WellTyped(v) && Encode(v, p).Ok?
    ensures exists f :: FormOk(f) && Tidy(f, Counts(p)) && Written(f) == Encode(v, p).value && Stands(widen, f) == Emitted(v, p)
  {
    hide WellTyped, Encode, FormOk, Tidy, Written, Stands, Emitted, Deep, Cost, Height, Nodes, Item;
    var f := EncodeTidy(v, p);
    var data := Encode(v, p).value;
    var w := Reader(widen, Deep(f) + Height(Emitted(v, p)));
    var nodes := Cost(f) + Nodes(Emitted(v, p));
    assert data[0..|data|] == data;
    FormReads(w, f, data, 0, nodes, 0);
    ItemReadsEncoding(w, v, p, data, 0, nodes, 0);
  }
}
