/**
 The NBT reader step by step, going on wherever `pos` is moved to.  Each call and
 each turn of a loop takes a step off a budget; a reader that is not done within any
 budget is never done.  Slices follow the source's rules for indices below zero.
 */
module NbtSteps {
  import opened Options
  import opened Nbt
  import opened NbtBounds

  datatype Ran<+T> =
    | Done(value: T, pos: int)
    | Failed                                 // a ValueError or struct error
    | Unfinished                             // the budget is spent

  // --- `_take` and what is unpacked from it --------------------------------------------

  /** `data[from:to]`: an index below zero counts from the back, and both are clamped. */
  function Slice(data: seq<Byte>, from: int, to: int): seq<Byte>
    decreases (if from < 0 then 1 else 0) + (if to < 0 then 1 else 0)
  {
    if from < 0 then Slice(data, FromBack(data, from), to)
    else if to < 0 then Slice(data, from, FromBack(data, to))
    else if from <= to && from <= |data| then data[from..if to < |data| then to else |data|]
    else []
  }

  function FromBack(data: seq<Byte>, i: int): nat { if i + |data| < 0 then 0 else i + |data| }

  /** From the back at most as far as there is, and never past the end. */
  function Clamp(i: int, length: nat): nat { if i < 0 then 0 else if i > length then length else i }

  lemma SliceInFigures(data: seq<Byte>, from: int, to: int)
    ensures var n := |data|;
            var lo, hi := Clamp(if from < 0 then from + n else from, n), Clamp(if to < 0 then to + n else to, n);
            Slice(data, from, to) == if lo <= hi then data[lo..hi] else []
  {
    var f, t := if from < 0 then FromBack(data, from) else from, if to < 0 then FromBack(data, to) else to;
    assert Slice(data, from, to) == Slice(data, f, to) == Slice(data, f, t);
    assert data[|data|..|data|] == [];
  }

  function RunTake(data: seq<Byte>, pos: int, n: int): Ran<seq<Byte>> {
    if pos + n > |data| then Failed else Done(Slice(data, pos, pos + n), pos + n)
  }

  /** `struct.unpack` of one signed number: the chunk must be whole. */
  function RunNumber(data: seq<Byte>, pos: int, width: nat): Ran<int> {
    match RunTake(data, pos, width)
    case Done(chunk, after) => if |chunk| == width then Done(Signed(chunk), after) else Failed
    case _ => Failed
  }

  function RunText(data: seq<Byte>, pos: int): Ran<seq<Byte>> {
    match RunTake(data, pos, 2)
    case Done(chunk, after) => if |chunk| == 2 then RunTake(data, after, Unsigned(chunk)) else Failed
    case _ => Failed
  }

  function RunByteArray(data: seq<Byte>, pos: int): Ran<Value> {
    match RunNumber(data, pos, 4)
    case Done(n, after) =>
      (match RunTake(data, after, n)
       case Done(chunk, end) => Done(Bytes(chunk), end)
       case _ => Failed)
    case _ => Failed
  }

  function RunInts(data: seq<Byte>, pos: int, width: nat): Ran<Value>
    requires width == 4 || width == 8
  {
    match RunNumber(data, pos, 4)
    case Done(count, after) =>
      (match RunTake(data, after, width * count)
       case Done(chunk, end) =>
         if count >= 0 && |chunk| == width * count then Done(Ints(width, Numbers(chunk, width, count)), end) else Failed
       case _ => Failed)
    case _ => Failed
  }

  function RunFloat(data: seq<Byte>, pos: int, width: nat): Ran<Value> {
    match RunTake(data, pos, width)
    case Done(chunk, after) => if |chunk| == width then Done(Float(chunk), after) else Failed
    case _ => Failed
  }

  // --- payloads ---------------------------------------------------------------------------

  function RunPayload(data: seq<Byte>, pos: int, tag: int, depth: nat, steps: nat): Ran<Value>
    decreases steps, 1
  {
    if steps == 0 then Unfinished
    else if depth > DEPTH_LIMIT then Failed
    else if tag == 9 then
      match RunNumber(data, pos, 1)
      case Done(inner, after) =>
        (match RunNumber(data, after, 4)
         case Done(count, start) => RunList(data, start, inner, AtLeastZero(count), depth + 1, [], steps - 1)
         case _ => Failed)
      case _ => Failed
    else if tag == 10 then RunCompound(data, pos, depth + 1, [], steps - 1)
    else RunLeaf(data, pos, tag)
  }

  function RunLeaf(data: seq<Byte>, pos: int, tag: int): Ran<Value> {
    if 1 <= tag <= 4 then
      match RunNumber(data, pos, IntWidth(tag))
      case Done(n, after) => Done(Int(IntWidth(tag), n), after)
      case _ => Failed
    else if tag == 5 || tag == 6 then RunFloat(data, pos, if tag == 5 then 4 else 8)
    else if tag == 7 then RunByteArray(data, pos)
    else if tag == 8 then
      match RunText(data, pos)
      case Done(text, after) => Done(Text(text), after)
      case _ => Failed
    else if tag == 11 || tag == 12 then RunInts(data, pos, if tag == 11 then 4 else 8)
    else Failed
  }

  function RunList(data: seq<Byte>, pos: int, inner: int, count: nat, depth: nat, acc: seq<Value>, steps: nat): Ran<Value>
    decreases steps, 1
  {
    if steps == 0 then Unfinished
    else if count == 0 then Done(List(inner, acc), pos)
    else
      match RunPayload(data, pos, inner, depth, steps - 1)
      case Done(v, after) => RunList(data, after, inner, count - 1, depth, acc + [v], steps - 1)
      case Failed => Failed
      case Unfinished => Unfinished
  }

  function RunCompound(data: seq<Byte>, pos: int, depth: nat, acc: seq<Entry>, steps: nat): Ran<Value>
    decreases steps, 1
  {
    if steps == 0 then Unfinished
    else
      match RunNumber(data, pos, 1)
      case Done(inner, at) =>
        if inner == 0 then Done(Compound(acc), at)
        else
          (match RunText(data, at)
           case Done(key, start) => RunEntry(data, start, inner, key, depth, acc, steps)
           case _ => Failed)
      case _ => Failed
  }

  function RunEntry(data: seq<Byte>, pos: int, inner: int, key: seq<Byte>, depth: nat, acc: seq<Entry>, steps: nat): Ran<Value>
    requires steps > 0
    decreases steps, 0
  {
    match RunPayload(data, pos, inner, depth, steps - 1)
    case Done(v, after) => RunCompound(data, after, depth, Put(acc, key, v), steps - 1)
    case Failed => Failed
    case Unfinished => Unfinished
  }

  function RunRoot(data: seq<Byte>, steps: nat): Ran<Value> {
    match RunNumber(data, 0, 1)
    case Done(tag, at) =>
      if tag != 10 then Failed
      else
        (match RunText(data, at)
         case Done(_, start) => RunPayload(data, start, 10, 0, steps)
         case _ => Failed)
    case _ => Failed
  }

  // --- it ends when nothing turns it back ---------------------------------------------------

  /** The run ends as the reading of what is ahead says, where what is left begins. */
  ghost predicate Ends<T>(data: seq<Byte>, ran: Ran<T>, r: Read<T>) {
    && (r.Ok? ==> ran.Done? && ran.value == r.value && 0 <= ran.pos <= |data| && data[ran.pos..] == r.rest)
    && (r.Malformed? ==> ran.Failed?)
  }

  lemma TakeEnds(data: seq<Byte>, pos: nat, n: int)
    requires pos <= |data|
    ensures Ends(data, RunTake(data, pos, n), ReadBytes(data[pos..], n))
    ensures 0 <= n && pos + n <= |data| ==> RunTake(data, pos, n) == Done(data[pos..][..n], pos + n)
  {
    if 0 <= n && pos + n <= |data| {
      assert data[pos..][..n] == data[pos..pos + n] && data[pos..][n..] == data[pos + n..];
    }
  }

  lemma NumberEnds(data: seq<Byte>, pos: nat, width: nat)
    requires pos <= |data|
    ensures Ends(data, RunNumber(data, pos, width), ReadNumber(data[pos..], width))
    ensures RunNumber(data, pos, width) == if pos + width > |data| then Failed
                                           else Done(Signed(data[pos..][..width]), pos + width)
  {
    TakeEnds(data, pos, width);
    if pos + width <= |data| {
      assert data[pos..][width..] == data[pos + width..];
    }
  }

  lemma TextEnds(data: seq<Byte>, pos: nat)
    requires pos <= |data|
    ensures Ends(data, RunText(data, pos), ReadText(data[pos..]))
  {
    TakeEnds(data, pos, 2);
    if pos + 2 <= |data| {
      assert data[pos..][2..] == data[pos + 2..];
      TakeEnds(data, pos + 2, Unsigned(data[pos..][..2]));
    }
  }

  lemma ByteArrayEnds(data: seq<Byte>, pos: nat)
    requires pos <= |data|
    ensures Ends(data, RunByteArray(data, pos), ReadByteArray(data[pos..]))
  {
    NumberEnds(data, pos, 4);
    if pos + 4 <= |data| {
      assert data[pos..][4..] == data[pos + 4..];
      TakeEnds(data, pos + 4, Signed(data[pos..][..4]));
    }
  }

  /** The numbers of an array that is all there. */
  lemma WholeIntsEnd(data: seq<Byte>, pos: nat, width: nat, count: nat, size: nat)
    requires (width == 4 || width == 8) && size == width * count && pos + 4 + size <= |data|
    requires Signed(data[pos..][..4]) == count
    ensures Ends(data, RunInts(data, pos, width), ReadInts(data[pos..], width))
  {
    NumberEnds(data, pos, 4);
    TakeEnds(data, pos + 4, size);
    assert data[pos + 4..][..size] == data[pos..][4..4 + size];
    assert data[pos..][4 + size..] == data[pos + 4 + size..];
  }

  lemma IntsEnd(data: seq<Byte>, pos: nat, width: nat)
    requires pos <= |data| && (width == 4 || width == 8)
    ensures Ends(data, RunInts(data, pos, width), ReadInts(data[pos..], width))
  {
    NumberEnds(data, pos, 4);
    if pos + 4 <= |data| {
      var count := Signed(data[pos..][..4]);
      if 0 <= count && pos + 4 + width * count <= |data| {
        WholeIntsEnd(data, pos, width, count, width * count);
      }
    }
  }

  lemma FloatEnds(data: seq<Byte>, pos: nat, tag: int, depth: nat)
    requires pos <= |data| && depth <= DEPTH_LIMIT && (tag == 5 || tag == 6)
    ensures Ends(data, RunLeaf(data, pos, tag), ReadPayload(data[pos..], tag, depth))
  {
    TakeEnds(data, pos, if tag == 5 then 4 else 8);
  }

  lemma IntEnds(data: seq<Byte>, pos: nat, tag: int, depth: nat)
    requires pos <= |data| && depth <= DEPTH_LIMIT && 1 <= tag <= 4
    ensures Ends(data, RunLeaf(data, pos, tag), ReadPayload(data[pos..], tag, depth))
  {
    NumberEnds(data, pos, IntWidth(tag));
  }

  lemma LeafEnds(data: seq<Byte>, pos: nat, tag: int, depth: nat)
    requires pos <= |data| && depth <= DEPTH_LIMIT && tag != 9 && tag != 10
    ensures Ends(data, RunLeaf(data, pos, tag), ReadPayload(data[pos..], tag, depth))
  {
    if 1 <= tag <= 4 {
      IntEnds(data, pos, tag, depth);
    } else if tag == 5 || tag == 6 {
      FloatEnds(data, pos, tag, depth);
    } else if tag == 7 {
      ByteArrayEnds(data, pos);
    } else if tag == 8 {
      TextEnds(data, pos);
    } else if tag == 11 || tag == 12 {
      IntsEnd(data, pos, if tag == 11 then 4 else 8);
    }
  }

  /** Steps enough for so many bytes. */
  function Enough(bytes: nat): nat { 2 * bytes + 3 }

  /**
   On any bytes, unless a byte array it meets has a negative length, the source's
   reader ends, within two steps a byte and three more, with the value the bytes hold,
   just behind it, or with an error.
   */
  lemma {:induction false} ReaderEnds(data: seq<Byte>, pos: nat, tag: int, depth: nat, steps: nat)
    requires pos <= |data| && steps >= Enough(|data| - pos)
    ensures Ends(data, RunPayload(data, pos, tag, depth, steps), ReadPayload(data[pos..], tag, depth))
    decreases Room(depth), 0
  {
    if depth > DEPTH_LIMIT {
    } else if tag == 9 {
      ListHeader(data, pos, depth, steps);
      var s := data[pos..];
      if |s| >= 5 {
        ListEnds(data, pos + 5, Signed(s[..1]), AtLeastZero(Signed(s[1..5])), depth + 1, [], steps - 1);
      }
    } else if tag == 10 {
      CompoundEnds(data, pos, depth + 1, [], steps - 1);
    } else {
      LeafEnds(data, pos, tag, depth);
    }
  }

  lemma ListHeader(data: seq<Byte>, pos: nat, depth: nat, steps: nat)
    requires pos <= |data| && depth <= DEPTH_LIMIT && steps > 0
    ensures var s := data[pos..];
            if |s| < 5 then RunPayload(data, pos, 9, depth, steps) == Failed
            else
              && data[pos + 5..] == s[5..]
              && RunPayload(data, pos, 9, depth, steps)
                 == RunList(data, pos + 5, Signed(s[..1]), AtLeastZero(Signed(s[1..5])), depth + 1, [], steps - 1)
  {
    var s := data[pos..];
    NumberEnds(data, pos, 1);
    if |s| >= 1 {
      NumberEnds(data, pos + 1, 4);
    }
    if |s| >= 5 {
      assert data[pos + 1..][..4] == s[1..5] && s[5..] == data[pos + 5..];
    }
  }

  lemma {:induction false} ListEnds(data: seq<Byte>, pos: nat, inner: int, count: nat, depth: nat, acc: seq<Value>, steps: nat)
    requires pos <= |data| && steps >= 2 * (|data| - pos) + 4
    ensures Ends(data, RunList(data, pos, inner, count, depth, acc, steps), ReadList(data[pos..], inner, count, depth, acc))
    decreases Room(depth), 1, count
  {
    if count > 0 {
      ReaderEnds(data, pos, inner, depth, steps - 1);
      var r := ReadPayload(data[pos..], inner, depth);
      if r.Ok? {
        ListEnds(data, RunPayload(data, pos, inner, depth, steps - 1).pos, inner, count - 1, depth, acc + [r.value], steps - 1);
      }
    }
  }

  lemma {:induction false} CompoundEnds(data: seq<Byte>, pos: nat, depth: nat, acc: seq<Entry>, steps: nat)
    requires pos <= |data| && steps >= 2 * (|data| - pos) + 2
    ensures Ends(data, RunCompound(data, pos, depth, acc, steps), ReadCompound(data[pos..], depth, acc))
    decreases Room(depth), 1, |data| - pos
  {
    NumberEnds(data, pos, 1);
    if pos < |data| && Signed(data[pos..][..1]) != 0 {
      var s := data[pos..];
      assert s[1..] == data[pos + 1..];
      TextEnds(data, pos + 1);
      if ReadText(s[1..]).Ok? {
        var text := RunText(data, pos + 1);
        EntryEnds(data, text.pos, Signed(s[..1]), text.value, depth, acc, steps);
      }
    }
  }

  /** The rest of an entry, and the entries after it. */
  lemma {:induction false} EntryEnds(data: seq<Byte>, pos: nat, inner: int, key: seq<Byte>, depth: nat, acc: seq<Entry>, steps: nat)
    requires pos <= |data| && steps >= 2 * (|data| - pos) + 4
    ensures Ends(data, RunEntry(data, pos, inner, key, depth, acc, steps), ReadEntry(data[pos..], inner, key, depth, acc))
    decreases Room(depth), 1, |data| - pos
  {
    var r, ran := ReadPayload(data[pos..], inner, depth), RunPayload(data, pos, inner, depth, steps - 1);
    ReaderEnds(data, pos, inner, depth, steps - 1);
    if r.Ok? {
      CompoundEnds(data, ran.pos, depth, Put(acc, key, ran.value), steps - 1);
      assert ReadEntry(data[pos..], inner, key, depth, acc) == ReadCompound(r.rest, depth, Put(acc, key, r.value));
    }
  }

  /** A whole file, too. */
  lemma RootEnds(data: seq<Byte>, steps: nat)
    requires steps >= Enough(|data|)
    ensures Ends(data, RunRoot(data, steps), ReadRoot(data))
  {
    assert data[0..] == data;
    NumberEnds(data, 0, 1);
    if |data| >= 1 {
      TextEnds(data, 1);
      var name := ReadText(data[1..]);
      if name.Ok? {
        ReaderEnds(data, RunText(data, 1).pos, 10, 0, steps);
      }
    }
  }

  // --- and may not end when something does ---------------------------------------------------

  /** An entry whose byte array is as long, below zero, as the entry. */
  function RoundEntry(key: seq<Byte>): seq<Byte> {
    Number(1, 7) + (EncodeText(key) + Number(4, -(7 + |key|)))
  }

  /** The data holds such an entry here. */
  ghost predicate RoundAt(data: seq<Byte>, pos: nat, key: seq<Byte>) {
    |key| < TEXT_LIMIT && pos + 7 + |key| <= |data| && data[pos..pos + 7 + |key|] == RoundEntry(key)
  }

  lemma RoundParts(data: seq<Byte>, pos: nat, key: seq<Byte>)
    requires RoundAt(data, pos, key)
    ensures var k := |key|;
            && data[pos..][..1] == Number(1, 7) && data[pos + 1..][..2] == BigEndian(2, k)
            && data[pos + 3..][..k] == key && data[pos + 3 + k..][..4] == Number(4, -(7 + k))
  {
    var k, e := |key|, RoundEntry(key);
    assert e[0..1] == Number(1, 7) && e[1..3] == BigEndian(2, k) && e[3..3 + k] == key;
    assert e[3 + k..7 + k] == Number(4, -(7 + k));
    SliceOfSlice(data, pos, 7 + k, 0, 1);
    SliceOfSlice(data, pos, 7 + k, 1, 3);
    SliceOfSlice(data, pos, 7 + k, 3, 3 + k);
    SliceOfSlice(data, pos, 7 + k, 3 + k, 7 + k);
  }

  lemma SliceOfSlice(data: seq<Byte>, pos: nat, n: nat, a: nat, b: nat)
    requires pos + n <= |data| && a <= b <= n
    ensures data[pos..pos + n][a..b] == data[pos + a..][..b - a]
  {
    var e := data[pos..pos + n];
    assert |e[a..b]| == b - a == |data[pos + a..][..b - a]|;
    forall k | 0 <= k < b - a
      ensures e[a..b][k] == data[pos + a..][..b - a][k]
    {
      assert e[a..b][k] == e[a + k] == data[pos + (a + k)];
    }
  }

  lemma RoundNumbers(k: nat)
    requires k < TEXT_LIMIT
    ensures Signed(Number(1, 7)) == 7 && Unsigned(BigEndian(2, k)) == k && Signed(Number(4, -(7 + k))) == -(7 + k)
  {
    assert Pow256(1) == 256 && Pow256(2) == TEXT_LIMIT && Pow256(4) == 2 * COUNT_LIMIT;
    SignedBack(1, 7);
    UnsignedBack(2, k);
    SignedBack(4, -(7 + k));
  }

  /** Reading the entry takes the reader back to where the entry starts. */
  lemma RoundTurn(data: seq<Byte>, pos: nat, key: seq<Byte>)
    requires RoundAt(data, pos, key)
    ensures RunNumber(data, pos, 1) == Done(7, pos + 1)
    ensures RunText(data, pos + 1) == Done(key, pos + 3 + |key|)
    ensures RunByteArray(data, pos + 3 + |key|) == Done(Bytes([]), pos)
  {
    RoundParts(data, pos, key);
    RoundNumbers(|key|);
    NumberEnds(data, pos, 1);
    TakeEnds(data, pos + 1, 2);
    TakeEnds(data, pos + 3, |key|);
    NumberEnds(data, pos + 3 + |key|, 4);
  }

  /**
   A byte array whose length is minus that of its own entry takes the reader round for
   ever: wherever it stands, whatever its key, and whatever comes before and after,
   no number of steps is enough.
   */
  lemma {:induction false} ANegativeLengthGoesRound(data: seq<Byte>, pos: nat, key: seq<Byte>, depth: nat, acc: seq<Entry>, steps: nat)
    requires RoundAt(data, pos, key) && depth <= DEPTH_LIMIT
    ensures RunCompound(data, pos, depth, acc, steps) == Unfinished
    decreases steps
  {
    if steps > 1 {
      RoundTurn(data, pos, key);
      RoundAgain(data, pos, key, depth, acc, steps);
      ANegativeLengthGoesRound(data, pos, key, depth, Put(acc, key, Bytes([])), steps - 1);
    } else if steps > 0 {
      RoundTurn(data, pos, key);
      assert RunPayload(data, pos + 3 + |key|, 7, depth, 0) == Unfinished;
    }
  }

  lemma RoundAgain(data: seq<Byte>, pos: nat, key: seq<Byte>, depth: nat, acc: seq<Entry>, steps: nat)
    requires steps > 1 && depth <= DEPTH_LIMIT
    requires RunNumber(data, pos, 1) == Done(7, pos + 1) && RunText(data, pos + 1) == Done(key, pos + 3 + |key|)
    requires RunByteArray(data, pos + 3 + |key|) == Done(Bytes([]), pos)
    ensures RunCompound(data, pos, depth, acc, steps)
         == RunCompound(data, pos, depth, Put(acc, key, Bytes([])), steps - 1)
  {
    EntryTurns(data, pos + 3 + |key|, pos, key, depth, acc, steps);
  }

  lemma EntryTurns(data: seq<Byte>, pos: nat, back: nat, key: seq<Byte>, depth: nat, acc: seq<Entry>, steps: nat)
    requires steps > 1 && depth <= DEPTH_LIMIT && RunByteArray(data, pos) == Done(Bytes([]), back)
    ensures RunEntry(data, pos, 7, key, depth, acc, steps)
         == RunCompound(data, back, depth, Put(acc, key, Bytes([])), steps - 1)
  {
    assert RunPayload(data, pos, 7, depth, steps - 1) == Done(Bytes([]), back);
  }

  /** A whole file of one such entry is never read. */
  lemma AFileThatIsNeverRead(name: seq<Byte>, key: seq<Byte>, after: seq<Byte>, steps: nat)
    requires |name| < TEXT_LIMIT && |key| < TEXT_LIMIT
    ensures RunRoot(Number(1, 10) + (EncodeText(name) + (RoundEntry(key) + after)), steps) == Unfinished
  {
    var data := Number(1, 10) + (EncodeText(name) + (RoundEntry(key) + after));
    var start := 3 + |name|;
    FileStarts(name, RoundEntry(key) + after);
    assert data[start..start + 7 + |key|] == RoundEntry(key);
    if steps > 0 {
      ANegativeLengthGoesRound(data, start, key, 1, [], steps - 1);
    }
  }

  lemma FileStarts(name: seq<Byte>, body: seq<Byte>)
    requires |name| < TEXT_LIMIT
    ensures var data := Number(1, 10) + (EncodeText(name) + body);
            && RunNumber(data, 0, 1) == Done(10, 1) && RunText(data, 1) == Done(name, 3 + |name|)
            && data[3 + |name|..] == body
  {
    var data := Number(1, 10) + (EncodeText(name) + body);
    assert Pow256(1) == 256;
    SignedBack(1, 10);
    NumberEnds(data, 0, 1);
    assert data[0..][..1] == Number(1, 10) && data[1..] == EncodeText(name) + body;
    TextBack(name, body);
    TextEnds(data, 1);
  }
}
