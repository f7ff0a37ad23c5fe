/**
 The big-endian NBT reader that looks for the spawn (`dsh_world_export.py`).

 `Read*` are the reader as functions on the bytes still ahead; `NbtReader.Reader` is
 the object that moves `pos` through them.  Values keep the tag they were read with.
 Text and floating point stay raw bytes.  A byte array (tag 7) with a negative
 length moves the reader back: these functions end there and say where to, and
 `NbtSteps` goes on from there.
 */
module Nbt {
  import opened Options

  datatype Value =
    | Int(width: nat, value: int)            // tags 1 to 4
    | Float(raw: seq<Byte>)                  // tags 5 and 6
    | Bytes(bytes: seq<Byte>)                // tag 7
    | Text(text: seq<Byte>)                  // tag 8
    | List(inner: int, items: seq<Value>)    // tag 9
    | Compound(entries: seq<Entry>)          // tag 10
    | Ints(width: nat, values: seq<int>)     // tags 11 and 12

  datatype Entry = Entry(key: seq<Byte>, value: Value)

  datatype Read<+T> =
    | Ok(value: T, rest: seq<Byte>)
    | Malformed
    | Rewinds(left: nat)                     // with so many bytes to read again

  const DEPTH_LIMIT: nat := 64

  // --- numbers ------------------------------------------------------------------------

  function Pow256(n: nat): (p: nat)
    ensures p > 0
  {
    if n == 0 then 1 else 256 * Pow256(n - 1)
  }

  function Unsigned(bs: seq<Byte>): (v: nat)
    ensures v < Pow256(|bs|)
  {
    if bs == [] then 0 else Unsigned(bs[..|bs| - 1]) * 256 + bs[|bs| - 1]
  }

  function Signed(bs: seq<Byte>): int {
    var u, p := Unsigned(bs), Pow256(|bs|);
    if u < p / 2 then u else u - p
  }

  function BigEndian(width: nat, v: nat): (bs: seq<Byte>)
    ensures |bs| == width
  {
    if width == 0 then [] else BigEndian(width - 1, v / 256) + [v % 256]
  }

  function Number(width: nat, n: int): (bs: seq<Byte>)
    ensures |bs| == width
  {
    var u := n + Pow256(width);
    BigEndian(width, if n >= 0 then n else if u >= 0 then u else 0)
  }

  predicate Fits(width: nat, n: int) { width > 0 && -(Pow256(width) / 2) <= n < Pow256(width) / 2 }

  lemma {:induction false} UnsignedBack(width: nat, v: nat)
    requires v < Pow256(width)
    ensures Unsigned(BigEndian(width, v)) == v
  {
    if width > 0 {
      UnsignedBack(width - 1, v / 256);
      assert BigEndian(width, v)[..width - 1] == BigEndian(width - 1, v / 256);
    }
  }

  lemma SignedBack(width: nat, n: int)
    requires Fits(width, n)
    ensures Signed(Number(width, n)) == n
  {
    HalfOfPower(width);
    UnsignedBack(width, if n >= 0 then n else n + Pow256(width));
  }

  lemma SignedFits(bs: seq<Byte>)
    requires bs != []
    ensures Fits(|bs|, Signed(bs))
  {
    HalfOfPower(|bs|);
  }

  lemma HalfOfPower(width: nat)
    requires width > 0
    ensures Pow256(width) / 2 == 128 * Pow256(width - 1) && Pow256(width) == 2 * (Pow256(width) / 2)
  {
    var q := Pow256(width - 1);
    assert Pow256(width) == 256 * q;
  }

  /** `struct.unpack` of so many numbers. */
  function Numbers(bs: seq<Byte>, width: nat, count: nat): (ns: seq<int>)
    requires (width == 4 || width == 8) && |bs| == width * count
    ensures |ns| == count
    decreases count
  {
    if count == 0 then [] else [Signed(bs[..width])] + Numbers(bs[width..], width, count - 1)
  }

  // --- the reader as functions ---------------------------------------------------------

  /** `_take`. */
  function ReadBytes(s: seq<Byte>, n: int): (r: Read<seq<Byte>>)
    ensures r.Ok? ==> n >= 0 && s == r.value + r.rest && |r.value| == n
  {
    if n > |s| then Malformed
    else if n < 0 then Rewinds(|s| - n)
    else Ok(s[..n], s[n..])
  }

  function ReadNumber(s: seq<Byte>, width: nat): (r: Read<int>)
    ensures r.Ok? ==> |s| == width + |r.rest|
  {
    if width > |s| then Malformed else Ok(Signed(s[..width]), s[width..])
  }

  /** `_string`: two bytes of length, and so much text. */
  function ReadText(s: seq<Byte>): (r: Read<seq<Byte>>)
    ensures r.Ok? ==> |s| == 2 + |r.value| + |r.rest|
  {
    if 2 > |s| then Malformed else ReadBytes(s[2..], Unsigned(s[..2]))
  }

  function Room(depth: nat): nat { if depth > DEPTH_LIMIT then 0 else DEPTH_LIMIT + 1 - depth }

  function IntWidth(tag: int): nat { if tag == 1 then 1 else if tag == 2 then 2 else if tag == 3 then 4 else 8 }

  function ReadPayload(s: seq<Byte>, tag: int, depth: nat): (r: Read<Value>)
    ensures r.Ok? ==> |r.rest| < |s|
    decreases Room(depth), 0
  {
    if depth > DEPTH_LIMIT then Malformed
    else if 1 <= tag <= 4 then
      match ReadNumber(s, IntWidth(tag))
      case Ok(n, rest) => Ok(Int(IntWidth(tag), n), rest)
      case Malformed => Malformed
      case Rewinds(left) => Rewinds(left)
    else if tag == 5 || tag == 6 then
      match ReadBytes(s, if tag == 5 then 4 else 8)
      case Ok(raw, rest) => Ok(Float(raw), rest)
      case Malformed => Malformed
      case Rewinds(left) => Rewinds(left)
    else if tag == 7 then ReadByteArray(s)
    else if tag == 8 then
      match ReadText(s)
      case Ok(text, rest) => Ok(Text(text), rest)
      case Malformed => Malformed
      case Rewinds(left) => Rewinds(left)
    else if tag == 9 then
      if 5 > |s| then Malformed
      else
        var count := Signed(s[1..5]);
        ReadList(s[5..], Signed(s[..1]), if count > 0 then count else 0, depth + 1, [])
    else if tag == 10 then ReadCompound(s, depth + 1, [])
    else if tag == 11 || tag == 12 then ReadInts(s, if tag == 11 then 4 else 8)
    else Malformed
  }

  function ReadByteArray(s: seq<Byte>): (r: Read<Value>)
    ensures r.Ok? ==> |r.rest| < |s|
  {
    if 4 > |s| then Malformed
    else
      match ReadBytes(s[4..], Signed(s[..4]))
      case Ok(bytes, rest) => Ok(Bytes(bytes), rest)
      case Malformed => Malformed
      case Rewinds(left) => Rewinds(left)
  }

  /** A negative count is moved back over too, but `struct` refuses it. */
  function ReadInts(s: seq<Byte>, width: nat): (r: Read<Value>)
    requires width == 4 || width == 8
    ensures r.Ok? ==> |r.rest| < |s|
  {
    if 4 > |s| then Malformed
    else
      var count := Signed(s[..4]);
      if count < 0 || width * count > |s| - 4 then Malformed
      else Ok(Ints(width, Numbers(s[4..4 + width * count], width, count)), s[4 + width * count..])
  }

  function ReadList(s: seq<Byte>, inner: int, count: nat, depth: nat, acc: seq<Value>): (r: Read<Value>)
    ensures r.Ok? ==> |r.rest| <= |s|
    decreases Room(depth), 1, count
  {
    if count == 0 then Ok(List(inner, acc), s)
    else
      match ReadPayload(s, inner, depth)
      case Ok(v, rest) => ReadList(rest, inner, count - 1, depth, acc + [v])
      case Malformed => Malformed
      case Rewinds(left) => Rewinds(left)
  }

  /** `out[key] = value`: a key already there keeps its place. */
  function Put(entries: seq<Entry>, key: seq<Byte>, value: Value): seq<Entry> {
    if entries == [] then [Entry(key, value)]
    else if entries[0].key == key then [Entry(key, value)] + entries[1..]
    else [entries[0]] + Put(entries[1..], key, value)
  }

  function ReadCompound(s: seq<Byte>, depth: nat, acc: seq<Entry>): (r: Read<Value>)
    ensures r.Ok? ==> |r.rest| < |s|
    decreases Room(depth), 1, |s|
  {
    if 1 > |s| then Malformed
    else
      var inner := Signed(s[..1]);
      if inner == 0 then Ok(Compound(acc), s[1..])
      else
        match ReadText(s[1..])
        case Malformed => Malformed
        case Rewinds(left) => Rewinds(left)
        case Ok(key, body) => ReadEntry(body, inner, key, depth, acc)
  }

  /** The rest of an entry, its tag and key read, and the entries after it. */
  function ReadEntry(s: seq<Byte>, inner: int, key: seq<Byte>, depth: nat, acc: seq<Entry>): (r: Read<Value>)
    ensures r.Ok? ==> |r.rest| < |s|
    decreases Room(depth), 1, |s|
  {
    match ReadPayload(s, inner, depth)
    case Malformed => Malformed
    case Rewinds(left) => Rewinds(left)
    case Ok(v, rest) => ReadCompound(rest, depth, Put(acc, key, v))
  }

  /** `root`. */
  function ReadRoot(s: seq<Byte>): (r: Read<Value>)
    ensures r.Ok? ==> |r.rest| < |s|
  {
    if 1 > |s| || Signed(s[..1]) != 10 then Malformed
    else
      match ReadText(s[1..])
      case Malformed => Malformed
      case Rewinds(left) => Rewinds(left)
      case Ok(_, rest) => ReadPayload(rest, 10, 0)
  }

  // --- the trees ------------------------------------------------------------------------

  function TagOf(v: Value): int {
    match v
    case Int(width, _) => if width == 1 then 1 else if width == 2 then 2 else if width == 4 then 3 else 4
    case Float(raw) => if |raw| == 4 then 5 else 6
    case Bytes(_) => 7
    case Text(_) => 8
    case List(_, _) => 9
    case Compound(_) => 10
    case Ints(width, _) => if width == 4 then 11 else 12
  }

  predicate DistinctKeys(entries: seq<Entry>) {
    forall i, j | 0 <= i < j < |entries| :: entries[i].key != entries[j].key
  }

  const TEXT_LIMIT: nat := 65_536
  const COUNT_LIMIT: nat := 2_147_483_648

  /** The trees the format can hold at this depth of nesting. */
  predicate WellFormed(v: Value, depth: nat)
    decreases v
  {
    depth <= DEPTH_LIMIT
    && match v
       case Int(width, n) => width in {1, 2, 4, 8} && Fits(width, n)
       case Float(raw) => |raw| == 4 || |raw| == 8
       case Bytes(bytes) => |bytes| < COUNT_LIMIT
       case Text(text) => |text| < TEXT_LIMIT
       case List(inner, items) =>
         Fits(1, inner) && |items| < COUNT_LIMIT && ItemsFit(items, inner, depth + 1)
       case Compound(entries) => DistinctKeys(entries) && EntriesFit(entries, depth + 1)
       case Ints(width, values) =>
         && (width == 4 || width == 8) && |values| < COUNT_LIMIT
         && forall i | 0 <= i < |values| :: Fits(width, values[i])
  }

  /** A list's items have one tag. */
  predicate ItemsFit(items: seq<Value>, inner: int, depth: nat)
    decreases items
  {
    items == [] || (TagOf(items[0]) == inner && WellFormed(items[0], depth) && ItemsFit(items[1..], inner, depth))
  }

  predicate EntriesFit(entries: seq<Entry>, depth: nat)
    decreases entries
  {
    entries == []
    || (|entries[0].key| < TEXT_LIMIT && WellFormed(entries[0].value, depth) && EntriesFit(entries[1..], depth))
  }

  function Encode(v: Value): seq<Byte>
    decreases v
  {
    match v
    case Int(width, n) => Number(width, n)
    case Float(raw) => raw
    case Bytes(bytes) => Number(4, |bytes|) + bytes
    case Text(text) => EncodeText(text)
    case List(inner, items) => Number(1, inner) + (Number(4, |items|) + EncodeItems(items))
    case Compound(entries) => EncodeEntries(entries) + [0]
    case Ints(width, values) => Number(4, |values|) + EncodeNumbers(values, width)
  }

  function EncodeText(text: seq<Byte>): seq<Byte> { BigEndian(2, |text|) + text }

  function EncodeNumbers(ns: seq<int>, width: nat): (bs: seq<Byte>)
    ensures |bs| == width * |ns|
  {
    if ns == [] then [] else Number(width, ns[0]) + EncodeNumbers(ns[1..], width)
  }

  function EncodeItems(items: seq<Value>): seq<Byte>
    decreases items
  {
    if items == [] then [] else Encode(items[0]) + EncodeItems(items[1..])
  }

  function EncodeEntries(entries: seq<Entry>): seq<Byte>
    decreases entries
  {
    if entries == [] then []
    else
      Number(1, TagOf(entries[0].value)) + EncodeText(entries[0].key) + Encode(entries[0].value)
      + EncodeEntries(entries[1..])
  }

  /** The whole file: a named compound. */
  function EncodeRoot(name: seq<Byte>, v: Value): seq<Byte> { Number(1, 10) + EncodeText(name) + Encode(v) }

  // --- the round trip ---------------------------------------------------------------------

  lemma Cut(a: seq<Byte>, b: seq<Byte>)
    ensures (a + b)[..|a|] == a && (a + b)[|a|..] == b
  {
  }

  lemma {:induction false} NumbersBack(ns: seq<int>, width: nat)
    requires (width == 4 || width == 8) && forall i | 0 <= i < |ns| :: Fits(width, ns[i])
    ensures Numbers(EncodeNumbers(ns, width), width, |ns|) == ns
  {
    if ns != [] {
      SignedBack(width, ns[0]);
      NumbersBack(ns[1..], width);
      var bs := EncodeNumbers(ns, width);
      assert bs[..width] == Number(width, ns[0]) && bs[width..] == EncodeNumbers(ns[1..], width);
    }
  }

  lemma TextBack(text: seq<Byte>, after: seq<Byte>)
    requires |text| < TEXT_LIMIT
    ensures ReadText(EncodeText(text) + after) == Ok(text, after)
  {
    assert Pow256(2) == TEXT_LIMIT;
    UnsignedBack(2, |text|);
    var s := EncodeText(text) + after;
    assert s[..2] == BigEndian(2, |text|) && s[2..] == text + after;
    assert (text + after)[..|text|] == text && (text + after)[|text|..] == after;
  }

  lemma CountBack(n: nat)
    requires n < COUNT_LIMIT
    ensures Signed(Number(4, n)) == n
  {
    assert Pow256(4) == 2 * COUNT_LIMIT;
    SignedBack(4, n);
  }

  lemma ByteArrayBack(bytes: seq<Byte>, after: seq<Byte>)
    requires |bytes| < COUNT_LIMIT
    ensures ReadByteArray(Encode(Bytes(bytes)) + after) == Ok(Bytes(bytes), after)
  {
    var s := Encode(Bytes(bytes)) + after;
    CountBack(|bytes|);
    assert s[..4] == Number(4, |bytes|) && s[4..] == bytes + after;
    Cut(bytes, after);
  }

  lemma IntArrayBack(width: nat, values: seq<int>, after: seq<Byte>)
    requires WellFormed(Ints(width, values), 0)
    ensures ReadInts(Encode(Ints(width, values)) + after, width) == Ok(Ints(width, values), after)
  {
    var s, body := Encode(Ints(width, values)) + after, EncodeNumbers(values, width);
    CountBack(|values|);
    NumbersBack(values, width);
    assert s[..4] == Number(4, |values|) && s[4..4 + |body|] == body && s[4 + |body|..] == after;
  }

  /** The leaves. */
  lemma LeafRoundTrip(v: Value, depth: nat, after: seq<Byte>)
    requires WellFormed(v, depth) && !v.List? && !v.Compound?
    ensures ReadPayload(Encode(v) + after, TagOf(v), depth) == Ok(v, after)
  {
    if v.Int? {
      SignedBack(v.width, v.value);
      Cut(Number(v.width, v.value), after);
    } else if v.Float? {
      Cut(v.raw, after);
    } else if v.Bytes? {
      ByteArrayBack(v.bytes, after);
    } else if v.Text? {
      TextBack(v.text, after);
    } else {
      IntArrayBack(v.width, v.values, after);
    }
  }

  lemma ListHeaderBack(inner: int, items: seq<Value>, depth: nat, after: seq<Byte>)
    requires depth <= DEPTH_LIMIT && Fits(1, inner) && |items| < COUNT_LIMIT
    ensures ReadPayload(Encode(List(inner, items)) + after, 9, depth)
         == ReadList(EncodeItems(items) + after, inner, |items|, depth + 1, [])
  {
    var s := Encode(List(inner, items)) + after;
    SignedBack(1, inner);
    CountBack(|items|);
    assert s[..1] == Number(1, inner) && s[1..5] == Number(4, |items|);
    assert s[5..] == EncodeItems(items) + after;
  }

  lemma CompoundHeaderBack(entries: seq<Entry>, depth: nat, after: seq<Byte>)
    requires depth <= DEPTH_LIMIT
    ensures ReadPayload(Encode(Compound(entries)) + after, 10, depth)
         == ReadCompound(EncodeEntries(entries) + ([0] + after), depth + 1, [])
  {
    assert Encode(Compound(entries)) + after == EncodeEntries(entries) + ([0] + after);
  }

  /**
   For every tree the format can hold, with nesting up to the limit and distinct
   keys, reading its encoding gives the tree and leaves exactly what follows.
   */
  lemma {:induction false} RoundTrip(v: Value, depth: nat, after: seq<Byte>)
    requires WellFormed(v, depth)
    ensures ReadPayload(Encode(v) + after, TagOf(v), depth) == Ok(v, after)
    decreases v
  {
    if v.List? {
      ListHeaderBack(v.inner, v.items, depth, after);
      ItemsRoundTrip(v.inner, v.items, depth + 1, [], after);
      assert [] + v.items == v.items;
    } else if v.Compound? {
      CompoundHeaderBack(v.entries, depth, after);
      assert [] + v.entries == v.entries;
      EntriesRoundTrip(v.entries, depth + 1, [], after);
    } else {
      LeafRoundTrip(v, depth, after);
    }
  }

  lemma {:induction false} ItemsRoundTrip(inner: int, items: seq<Value>, depth: nat, acc: seq<Value>, after: seq<Byte>)
    requires ItemsFit(items, inner, depth)
    ensures ReadList(EncodeItems(items) + after, inner, |items|, depth, acc) == Ok(List(inner, acc + items), after)
    decreases items
  {
    if items == [] {
      assert acc + items == acc && EncodeItems(items) + after == after;
    } else {
      var rest := EncodeItems(items[1..]) + after;
      assert EncodeItems(items) + after == Encode(items[0]) + rest;
      RoundTrip(items[0], depth, rest);
      ItemsRoundTrip(inner, items[1..], depth, acc + [items[0]], after);
      assert acc + [items[0]] + items[1..] == acc + items;
    }
  }

  predicate Unused(entries: seq<Entry>, key: seq<Byte>) { forall i | 0 <= i < |entries| :: entries[i].key != key }

  lemma {:induction false} PutNew(entries: seq<Entry>, key: seq<Byte>, value: Value)
    requires Unused(entries, key)
    ensures Put(entries, key, value) == entries + [Entry(key, value)]
  {
    if entries != [] {
      PutNew(entries[1..], key, value);
    }
  }

  lemma TagFits(v: Value)
    ensures Signed(Number(1, TagOf(v))) == TagOf(v) && TagOf(v) != 0
  {
    assert Pow256(1) == 256;
    SignedBack(1, TagOf(v));
  }

  lemma EndBack(depth: nat, acc: seq<Entry>, after: seq<Byte>)
    ensures ReadCompound([0] + after, depth, acc) == Ok(Compound(acc), after)
  {
    var s: seq<Byte> := [0] + after;
    assert s[..1] == [0] && s[1..] == after;
    assert [0][..0] == [] && Unsigned([0]) == 0 && Pow256(1) == 256;
  }

  /** The head of an entry, whatever payload follows it. */
  lemma EntryHeadBack(key: seq<Byte>, tag: seq<Byte>, body: seq<Byte>)
    requires |tag| == 1 && |key| < TEXT_LIMIT
    ensures var s := tag + (EncodeText(key) + body);
            s[..1] == tag && ReadText(s[1..]) == Ok(key, body)
  {
    Cut(tag, EncodeText(key) + body);
    TextBack(key, body);
  }

  lemma EntryBack(e: Entry, body: seq<Byte>, rest: seq<Byte>, depth: nat, acc: seq<Entry>)
    requires |e.key| < TEXT_LIMIT && ReadPayload(body, TagOf(e.value), depth) == Ok(e.value, rest) && Unused(acc, e.key)
    ensures ReadCompound(Number(1, TagOf(e.value)) + (EncodeText(e.key) + body), depth, acc)
         == ReadCompound(rest, depth, acc + [e])
  {
    TagFits(e.value);
    EntryHeadBack(e.key, Number(1, TagOf(e.value)), body);
    PutNew(acc, e.key, e.value);
  }

  lemma {:induction false} EntriesRoundTrip(entries: seq<Entry>, depth: nat, acc: seq<Entry>, after: seq<Byte>)
    requires DistinctKeys(acc + entries) && EntriesFit(entries, depth)
    ensures ReadCompound(EncodeEntries(entries) + ([0] + after), depth, acc) == Ok(Compound(acc + entries), after)
    decreases entries
  {
    if entries == [] {
      assert EncodeEntries(entries) + ([0] + after) == [0] + after && acc + entries == acc;
      EndBack(depth, acc, after);
    } else {
      var e, rest := entries[0], EncodeEntries(entries[1..]) + ([0] + after);
      RoundTrip(e.value, depth, rest);
      KeyIsNew(acc, entries);
      EntriesSplit(entries, after);
      EntryBack(e, Encode(e.value) + rest, rest, depth, acc);
      EntriesRoundTrip(entries[1..], depth, acc + [e], after);
    }
  }

  lemma EntriesSplit(entries: seq<Entry>, after: seq<Byte>)
    requires entries != []
    ensures var e := entries[0];
            EncodeEntries(entries) + ([0] + after)
            == Number(1, TagOf(e.value)) + (EncodeText(e.key) + (Encode(e.value) + (EncodeEntries(entries[1..]) + ([0] + after))))
  {
  }

  lemma KeyIsNew(acc: seq<Entry>, entries: seq<Entry>)
    requires entries != [] && DistinctKeys(acc + entries)
    ensures Unused(acc, entries[0].key)
    ensures acc + [entries[0]] + entries[1..] == acc + entries
  {
    forall i | 0 <= i < |acc|
      ensures acc[i].key != entries[0].key
    {
      assert (acc + entries)[i] == acc[i] && (acc + entries)[|acc|] == entries[0];
    }
  }

  lemma RootRoundTrip(name: seq<Byte>, v: Value, after: seq<Byte>)
    requires |name| < TEXT_LIMIT && v.Compound? && WellFormed(v, 0)
    ensures ReadRoot(EncodeRoot(name, v) + after) == Ok(v, after)
  {
    var s := EncodeRoot(name, v) + after;
    TagFits(v);
    assert s[..1] == Number(1, 10) && s[1..] == EncodeText(name) + (Encode(v) + after);
    TextBack(name, Encode(v) + after);
    RoundTrip(v, 0, after);
  }

  // --- what the reader returns ---------------------------------------------------------

  lemma {:induction false} NumbersFit(bs: seq<Byte>, width: nat, count: nat)
    requires (width == 4 || width == 8) && |bs| == width * count
    ensures forall i | 0 <= i < count :: Fits(width, Numbers(bs, width, count)[i])
    decreases count
  {
    if count > 0 {
      SignedFits(bs[..width]);
      NumbersFit(bs[width..], width, count - 1);
    }
  }

  lemma LeafFits(s: seq<Byte>, tag: int, depth: nat)
    requires tag != 9 && tag != 10
    ensures var r := ReadPayload(s, tag, depth);
            r.Ok? ==> WellFormed(r.value, depth) && TagOf(r.value) == tag
  {
    assert Pow256(2) == TEXT_LIMIT && Pow256(4) == 2 * COUNT_LIMIT;
    if ReadPayload(s, tag, depth).Ok? {
      if 1 <= tag <= 4 {
        SignedFits(s[..IntWidth(tag)]);
      } else if tag == 7 || tag == 11 || tag == 12 {
        SignedFits(s[..4]);
        if tag != 7 {
          var width, count := if tag == 11 then 4 else 8, Signed(s[..4]);
          NumbersFit(s[4..4 + width * count], width, count);
        }
      }
    }
  }

  lemma {:induction false} OneMoreItem(items: seq<Value>, v: Value, inner: int, depth: nat)
    requires ItemsFit(items, inner, depth) && TagOf(v) == inner && WellFormed(v, depth)
    ensures ItemsFit(items + [v], inner, depth)
    decreases |items|
  {
    if items == [] {
      assert [v][1..] == [];
    } else {
      assert (items + [v])[1..] == items[1..] + [v];
      OneMoreItem(items[1..], v, inner, depth);
    }
  }

  /** Putting keeps keys distinct and entries fit, and adds no key but its own. */
  lemma {:induction false} PutKeeps(entries: seq<Entry>, key: seq<Byte>, value: Value, depth: nat)
    requires DistinctKeys(entries) && EntriesFit(entries, depth) && |key| < TEXT_LIMIT && WellFormed(value, depth)
    ensures DistinctKeys(Put(entries, key, value)) && EntriesFit(Put(entries, key, value), depth)
    ensures forall k :: k != key && Unused(entries, k) ==> Unused(Put(entries, key, value), k)
    decreases |entries|
  {
    if entries == [] {
      assert [Entry(key, value)][1..] == [];
    } else {
      var head, tail := entries[0], entries[1..];
      assert Unused(tail, head.key) && DistinctKeys(tail);
      PutKeeps(tail, key, value, depth);
      if head.key == key {
        assert ([Entry(key, value)] + tail)[1..] == tail;
      } else {
        assert ([head] + Put(tail, key, value))[1..] == Put(tail, key, value);
        assert Unused(Put(tail, key, value), head.key);
        forall k | k != key && Unused(entries, k)
          ensures Unused(Put(entries, key, value), k)
        {
          assert Unused(tail, k);
        }
      }
    }
  }

  lemma PutFits(entries: seq<Entry>, key: seq<Byte>, value: Value, depth: nat)
    requires DistinctKeys(entries) && EntriesFit(entries, depth) && |key| < TEXT_LIMIT && WellFormed(value, depth)
    ensures DistinctKeys(Put(entries, key, value)) && EntriesFit(Put(entries, key, value), depth)
  {
    PutKeeps(entries, key, value, depth);
  }

  /** Whatever the bytes, a value the reader returns is one the format can hold, of the tag asked for. */
  lemma {:induction false} OutputFits(s: seq<Byte>, tag: int, depth: nat)
    ensures var r := ReadPayload(s, tag, depth);
            r.Ok? ==> WellFormed(r.value, depth) && TagOf(r.value) == tag
    decreases Room(depth), 0
  {
    if depth > DEPTH_LIMIT {
      assert ReadPayload(s, tag, depth) == Malformed;
    } else if tag == 9 {
      if |s| >= 5 {
        SignedFits(s[..1]);
        SignedFits(s[1..5]);
        assert Pow256(4) == 2 * COUNT_LIMIT;
        var count := Signed(s[1..5]);
        ListFits(s[5..], Signed(s[..1]), if count > 0 then count else 0, depth, []);
      }
    } else if tag == 10 {
      CompoundFits(s, depth, []);
    } else {
      LeafFits(s, tag, depth);
    }
  }

  lemma {:induction false} ListFits(s: seq<Byte>, inner: int, count: nat, depth: nat, acc: seq<Value>)
    requires depth <= DEPTH_LIMIT && Fits(1, inner) && |acc| + count < COUNT_LIMIT && ItemsFit(acc, inner, depth + 1)
    ensures var r := ReadList(s, inner, count, depth + 1, acc);
            r.Ok? ==> WellFormed(r.value, depth) && r.value.List?
    decreases Room(depth + 1), 1, count
  {
    if count > 0 {
      OutputFits(s, inner, depth + 1);
      var r := ReadPayload(s, inner, depth + 1);
      if r.Ok? {
        OneMoreItem(acc, r.value, inner, depth + 1);
        ListFits(r.rest, inner, count - 1, depth, acc + [r.value]);
      }
    }
  }

  lemma TextFits(s: seq<Byte>)
    ensures var r := ReadText(s);
            r.Ok? ==> |r.value| < TEXT_LIMIT
  {
    assert Pow256(2) == TEXT_LIMIT;
  }

  lemma {:induction false} CompoundFits(s: seq<Byte>, depth: nat, acc: seq<Entry>)
    requires depth <= DEPTH_LIMIT && DistinctKeys(acc) && EntriesFit(acc, depth + 1)
    ensures var r := ReadCompound(s, depth + 1, acc);
            r.Ok? ==> WellFormed(r.value, depth) && r.value.Compound?
    decreases Room(depth + 1), 1, |s|
  {
    if |s| >= 1 && Signed(s[..1]) != 0 && ReadText(s[1..]).Ok? {
      var key := ReadText(s[1..]);
      OutputFits(key.rest, Signed(s[..1]), depth + 1);
      var r := ReadPayload(key.rest, Signed(s[..1]), depth + 1);
      if r.Ok? {
        TextFits(s[1..]);
        PutFits(acc, key.value, r.value, depth + 1);
        CompoundFits(r.rest, depth, Put(acc, key.value, r.value));
      }
    }
  }

  /** The reader's outputs are exactly the trees the format can hold. */
  lemma ReadsExactlyTheTrees(v: Value, depth: nat)
    ensures (exists s, rest :: ReadPayload(s, TagOf(v), depth) == Ok(v, rest)) <==> WellFormed(v, depth)
  {
    if WellFormed(v, depth) {
      RoundTrip(v, depth, []);
      assert ReadPayload(Encode(v) + [], TagOf(v), depth) == Ok(v, []);
    } else {
      forall s, rest
        ensures ReadPayload(s, TagOf(v), depth) != Ok(v, rest)
      {
        OutputFits(s, TagOf(v), depth);
      }
    }
  }

  /** Writing out what was read, whatever bytes it was read from, reads as the same tree. */
  lemma RereadsTheSame(s: seq<Byte>, tag: int, depth: nat, after: seq<Byte>)
    ensures var r := ReadPayload(s, tag, depth);
            r.Ok? ==> ReadPayload(Encode(r.value) + after, tag, depth) == Ok(r.value, after)
  {
    OutputFits(s, tag, depth);
    if ReadPayload(s, tag, depth).Ok? {
      RoundTrip(ReadPayload(s, tag, depth).value, depth, after);
    }
  }

  // --- in figures -------------------------------------------------------------------------

  function Larger(a: nat, b: nat): nat { if a < b then b else a }

  /** How many lists and compounds deep the deepest value lies. */
  function Height(v: Value): nat
    decreases v
  {
    match v
    case List(_, items) => HeightOfItems(items)
    case Compound(entries) => HeightOfEntries(entries)
    case _ => 0
  }

  function HeightOfItems(items: seq<Value>): nat
    decreases items
  {
    if items == [] then 0 else Larger(1 + Height(items[0]), HeightOfItems(items[1..]))
  }

  function HeightOfEntries(entries: seq<Entry>): nat
    decreases entries
  {
    if entries == [] then 0 else Larger(1 + Height(entries[0].value), HeightOfEntries(entries[1..]))
  }

  /** A tree fits at some depth exactly when it fits at all and nothing in it lies more than 64 deep. */
  lemma {:induction false} FitsToDepth64(v: Value, depth: nat, other: nat)
    ensures WellFormed(v, depth) ==> depth + Height(v) <= 64
    ensures WellFormed(v, depth) && other + Height(v) <= 64 ==> WellFormed(v, other)
    decreases v
  {
    match v
    case List(inner, items) => ItemsToDepth64(items, inner, depth + 1, other + 1);
    case Compound(entries) => EntriesToDepth64(entries, depth + 1, other + 1);
    case _ =>
  }

  lemma {:induction false} ItemsToDepth64(items: seq<Value>, inner: int, depth: nat, other: nat)
    requires depth > 0 && other > 0
    ensures items != [] && ItemsFit(items, inner, depth) ==> depth - 1 + HeightOfItems(items) <= 64
    ensures ItemsFit(items, inner, depth) && other - 1 + HeightOfItems(items) <= 64 ==> ItemsFit(items, inner, other)
    decreases items
  {
    if items != [] {
      FitsToDepth64(items[0], depth, other);
      ItemsToDepth64(items[1..], inner, depth, other);
    }
  }

  lemma {:induction false} EntriesToDepth64(entries: seq<Entry>, depth: nat, other: nat)
    requires depth > 0 && other > 0
    ensures entries != [] && EntriesFit(entries, depth) ==> depth - 1 + HeightOfEntries(entries) <= 64
    ensures EntriesFit(entries, depth) && other - 1 + HeightOfEntries(entries) <= 64 ==> EntriesFit(entries, other)
    decreases entries
  {
    if entries != [] {
      FitsToDepth64(entries[0].value, depth, other);
      EntriesToDepth64(entries[1..], depth, other);
    }
  }

  function OfFour(a: int, b: int, c: int, d: int): int { a * 16_777_216 + b * 65_536 + c * 256 + d }

  /** A number of so many big-endian bytes, the first of them signed. */
  predicate IsNumber(bs: seq<Byte>, n: int) {
    && (|bs| == 1 ==> n == OfFour(0, 0, 0, bs[0]) - if bs[0] < 128 then 0 else 256)
    && (|bs| == 2 ==> n == OfFour(0, 0, bs[0], bs[1]) - if bs[0] < 128 then 0 else 65_536)
    && (|bs| == 4 ==> n == OfFour(bs[0], bs[1], bs[2], bs[3]) - if bs[0] < 128 then 0 else 4_294_967_296)
  }

  lemma SignedIsTheNumber(bs: seq<Byte>)
    requires |bs| == 1 || |bs| == 2 || |bs| == 4
    ensures IsNumber(bs, Signed(bs))
  {
    UnsignedOfFew(bs);
    PowersOf256();
  }

  lemma PowersOf256()
    ensures Pow256(1) == 256 && Pow256(2) == 65_536 && Pow256(4) == 4_294_967_296
  {
    assert Pow256(3) == 256 * Pow256(2);
  }

  lemma UnsignedOfFew(bs: seq<Byte>)
    ensures |bs| == 1 ==> Unsigned(bs) == OfFour(0, 0, 0, bs[0])
    ensures |bs| == 2 ==> Unsigned(bs) == OfFour(0, 0, bs[0], bs[1])
    ensures |bs| == 4 ==> Unsigned(bs) == OfFour(bs[0], bs[1], bs[2], bs[3])
  {
    if |bs| == 1 {
      assert bs[..0] == [];
    } else if |bs| == 2 {
      assert bs[..1][..0] == [];
    } else if |bs| == 4 {
      var three, two := bs[..3], bs[..2];
      assert three[..2] == two && two[..1] == [bs[0]] && [bs[0]][..0] == [];
      assert Unsigned(two) == OfFour(0, 0, bs[0], bs[1]);
      assert Unsigned(three) == Unsigned(two) * 256 + bs[2];
    }
  }

  /** How many bytes each kind of leaf takes, and which number the whole ones are. */
  lemma LeavesInFigures(s: seq<Byte>, tag: int, depth: nat)
    requires ReadPayload(s, tag, depth).Ok?
    ensures var r := ReadPayload(s, tag, depth);
            var taken := |s| - |r.rest|;
            && depth <= 64 && 1 <= tag <= 12
            && (tag == 1 ==> taken == 1 && r.value.Int? && IsNumber(s[..1], r.value.value))
            && (tag == 2 ==> taken == 2 && r.value.Int? && IsNumber(s[..2], r.value.value))
            && (tag == 3 ==> taken == 4 && r.value.Int? && IsNumber(s[..4], r.value.value))
            && (tag == 4 ==> taken == 8 && r.value.Int?)
            && (tag == 5 ==> taken == 4 && r.value == Float(s[..4]))
            && (tag == 6 ==> taken == 8 && r.value == Float(s[..8]))
            && (tag == 7 ==> r.value.Bytes? && taken == 4 + |r.value.bytes| && IsNumber(s[..4], |r.value.bytes|))
            && (tag == 8 ==> r.value.Text? && taken == 2 + |r.value.text| && OfFour(0, 0, s[0], s[1]) == |r.value.text|)
            && (tag == 11 ==> r.value.Ints? && taken == 4 + 4 * |r.value.values| && IsNumber(s[..4], |r.value.values|))
            && (tag == 12 ==> r.value.Ints? && taken == 4 + 8 * |r.value.values| && IsNumber(s[..4], |r.value.values|))
  {
    if tag == 1 || tag == 2 || tag == 3 {
      SignedIsTheNumber(s[..IntWidth(tag)]);
    } else if tag == 7 || tag == 11 || tag == 12 {
      SignedIsTheNumber(s[..4]);
    } else if tag == 8 {
      UnsignedOfFew(s[..2]);
    }
  }

  /** A list of no or a negative number of items is empty, and ends behind its head. */
  lemma NegativeCountIsEmpty(s: seq<Byte>, depth: nat)
    requires depth <= 64 && |s| >= 5 && Signed(s[1..5]) <= 0
    ensures ReadPayload(s, 9, depth) == Ok(List(Signed(s[..1]), []), s[5..])
  {
  }

  /** A file is a compound with a name, from depth 0 on. */
  lemma RootInFigures(s: seq<Byte>)
    requires ReadRoot(s).Ok?
    ensures s[0] == 10 && ReadRoot(s).value.Compound?
    ensures |s| >= 3 && var name := OfFour(0, 0, s[1], s[2]);
            3 + name <= |s| && ReadPayload(s[3 + name..], 10, 0) == Ok(ReadRoot(s).value, ReadRoot(s).rest)
  {
    SignedIsTheNumber(s[..1]);
    UnsignedOfFew(s[1..][..2]);
    var body := s[1..][2..];
    var name := Unsigned(s[1..][..2]);
    assert body[name..] == s[3 + name..];
    OutputFits(s[3 + name..], 10, 0);
  }

  /** What a key stands for. */
  function Lookup(entries: seq<Entry>, key: seq<Byte>): Option<Value> {
    if entries == [] then None else if entries[0].key == key then Some(entries[0].value) else Lookup(entries[1..], key)
  }

  /** A key put again stands for its last value, and every other for what it did. */
  lemma {:induction false} PutIsFound(entries: seq<Entry>, key: seq<Byte>, value: Value, other: seq<Byte>)
    ensures Lookup(Put(entries, key, value), other) == if other == key then Some(value) else Lookup(entries, other)
  {
    if entries == [] {
      assert [Entry(key, value)][1..] == [];
    } else {
      PutIsFound(entries[1..], key, value, other);
      var tail := Put(entries[1..], key, value);
      assert ([entries[0]] + tail)[1..] == tail && ([Entry(key, value)] + entries[1..])[1..] == entries[1..];
    }
  }
}
