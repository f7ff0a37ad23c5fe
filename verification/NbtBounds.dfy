/** Where the NBT reader goes: forward, through its own bytes, exactly while no byte array it meets has a negative length. */
module NbtBounds {
  import opened Options
  import opened Nbt

  // --- the lengths of byte arrays, in the order they are met ----------------------------

  function LengthsMet(s: seq<Byte>, tag: int, depth: nat): seq<int>
    decreases Room(depth), 0
  {
    if depth > DEPTH_LIMIT then []
    else if tag == 7 then if 4 > |s| then [] else [Signed(s[..4])]
    else if tag == 9 then
      if 5 > |s| then [] else ListLengths(s[5..], Signed(s[..1]), AtLeastZero(Signed(s[1..5])), depth + 1)
    else if tag == 10 then CompoundLengths(s, depth + 1)
    else []
  }

  function AtLeastZero(n: int): nat { if n > 0 then n else 0 }

  function ListLengths(s: seq<Byte>, inner: int, count: nat, depth: nat): seq<int>
    decreases Room(depth), 1, count
  {
    if count == 0 then []
    else
      LengthsMet(s, inner, depth)
      + match ReadPayload(s, inner, depth)
        case Ok(_, rest) => ListLengths(rest, inner, count - 1, depth)
        case _ => []
  }

  function CompoundLengths(s: seq<Byte>, depth: nat): seq<int>
    decreases Room(depth), 1, |s|
  {
    if 1 > |s| || Signed(s[..1]) == 0 then []
    else
      match ReadText(s[1..])
      case Ok(_, more) =>
        LengthsMet(more, Signed(s[..1]), depth)
        + (match ReadPayload(more, Signed(s[..1]), depth)
           case Ok(_, rest) => CompoundLengths(rest, depth)
           case _ => [])
      case _ => []
  }

  predicate AnyNegative(lengths: seq<int>) { exists n :: n in lengths && n < 0 }

  lemma NegativeInEither(a: seq<int>, b: seq<int>)
    ensures AnyNegative(a + b) <==> AnyNegative(a) || AnyNegative(b)
  {
    if AnyNegative(a) {
      var n :| n in a && n < 0;
      assert n in a + b;
    }
    if AnyNegative(b) {
      var n :| n in b && n < 0;
      assert n in a + b;
    }
  }

  lemma OneLength(n: int)
    ensures AnyNegative([n]) <==> n < 0
  {
    assert n in [n];
  }

  /** On any bytes, the reader turns back exactly when a byte array it meets has a negative length. */
  lemma {:induction false} TurnsBackExactly(s: seq<Byte>, tag: int, depth: nat)
    ensures ReadPayload(s, tag, depth).Rewinds? <==> AnyNegative(LengthsMet(s, tag, depth))
    decreases Room(depth), 0
  {
    if depth > DEPTH_LIMIT {
    } else if tag == 7 {
      if |s| >= 4 {
        OneLength(Signed(s[..4]));
      }
    } else if tag == 9 {
      if |s| >= 5 {
        ListTurnsBack(s[5..], Signed(s[..1]), AtLeastZero(Signed(s[1..5])), depth + 1, []);
      }
    } else if tag == 10 {
      CompoundTurnsBack(s, depth + 1, []);
    } else {
      LeafStaysForward(s, tag, depth);
    }
  }

  lemma TextNeverTurnsBack(s: seq<Byte>)
    ensures !ReadText(s).Rewinds?
  {
  }

  lemma LeafStaysForward(s: seq<Byte>, tag: int, depth: nat)
    requires tag != 7 && tag != 9 && tag != 10
    ensures !ReadPayload(s, tag, depth).Rewinds?
  {
    TextNeverTurnsBack(s);
  }

  lemma {:induction false} ListTurnsBack(s: seq<Byte>, inner: int, count: nat, depth: nat, acc: seq<Value>)
    ensures ReadList(s, inner, count, depth, acc).Rewinds? <==> AnyNegative(ListLengths(s, inner, count, depth))
    decreases Room(depth), 1, count
  {
    if count > 0 {
      TurnsBackExactly(s, inner, depth);
      var r := ReadPayload(s, inner, depth);
      if r.Ok? {
        NegativeInEither(LengthsMet(s, inner, depth), ListLengths(r.rest, inner, count - 1, depth));
        ListTurnsBack(r.rest, inner, count - 1, depth, acc + [r.value]);
      } else {
        NegativeInEither(LengthsMet(s, inner, depth), []);
      }
    }
  }

  lemma {:induction false} CompoundTurnsBack(s: seq<Byte>, depth: nat, acc: seq<Entry>)
    ensures ReadCompound(s, depth, acc).Rewinds? <==> AnyNegative(CompoundLengths(s, depth))
    decreases Room(depth), 1, |s|
  {
    if |s| >= 1 && Signed(s[..1]) != 0 {
      TextNeverTurnsBack(s[1..]);
      var key := ReadText(s[1..]);
      if key.Ok? {
        var inner := Signed(s[..1]);
        TurnsBackExactly(key.rest, inner, depth);
        var r := ReadPayload(key.rest, inner, depth);
        if r.Ok? {
          NegativeInEither(LengthsMet(key.rest, inner, depth), CompoundLengths(r.rest, depth));
          CompoundTurnsBack(r.rest, depth, Put(acc, key.value, r.value));
        } else {
          NegativeInEither(LengthsMet(key.rest, inner, depth), []);
        }
      }
    }
  }

  // --- forward --------------------------------------------------------------------------

  /** What is left is the end of what there was. */
  predicate Suffix(t: seq<Byte>, s: seq<Byte>) { |t| <= |s| && s[|s| - |t|..] == t }

  ghost predicate Forward<T>(s: seq<Byte>, r: Read<T>) { r.Ok? ==> Suffix(r.rest, s) }

  lemma SuffixOfSuffix(t: seq<Byte>, u: seq<Byte>, s: seq<Byte>)
    requires Suffix(t, u) && Suffix(u, s)
    ensures Suffix(t, s)
  {
  }

  lemma StillForward<T>(t: seq<Byte>, s: seq<Byte>, r: Read<T>)
    requires Suffix(t, s) && Forward(t, r)
    ensures Forward(s, r)
  {
    if r.Ok? {
      SuffixOfSuffix(r.rest, t, s);
    }
  }

  lemma TextForward(s: seq<Byte>)
    ensures Forward(s, ReadText(s))
  {
  }

  lemma ByteArrayForward(s: seq<Byte>)
    ensures Forward(s, ReadByteArray(s))
  {
  }

  lemma IntArrayForward(s: seq<Byte>, width: nat)
    requires width == 4 || width == 8
    ensures Forward(s, ReadInts(s, width))
  {
  }

  lemma LeafForward(s: seq<Byte>, tag: int, depth: nat)
    requires depth <= DEPTH_LIMIT && tag != 9 && tag != 10
    ensures Forward(s, ReadPayload(s, tag, depth))
  {
    if tag == 7 {
      ByteArrayForward(s);
    } else if tag == 8 {
      TextForward(s);
    } else if tag == 11 || tag == 12 {
      IntArrayForward(s, if tag == 11 then 4 else 8);
    }
  }

  lemma ListPayloadForward(s: seq<Byte>, depth: nat)
    requires depth <= DEPTH_LIMIT
    requires |s| >= 5 ==> Forward(s[5..], ReadList(s[5..], Signed(s[..1]), AtLeastZero(Signed(s[1..5])), depth + 1, []))
    ensures Forward(s, ReadPayload(s, 9, depth))
  {
    if |s| >= 5 {
      StillForward(s[5..], s, ReadList(s[5..], Signed(s[..1]), AtLeastZero(Signed(s[1..5])), depth + 1, []));
    }
  }

  /** A payload read takes at least a byte, and leaves exactly the end of what it was given. */
  lemma {:induction false} ReadsForward(s: seq<Byte>, tag: int, depth: nat)
    ensures Forward(s, ReadPayload(s, tag, depth))
    ensures ReadPayload(s, tag, depth).Ok? ==> |ReadPayload(s, tag, depth).rest| < |s|
    decreases Room(depth), 0
  {
    if depth > DEPTH_LIMIT {
    } else if tag == 9 {
      if |s| >= 5 {
        ListForward(s[5..], Signed(s[..1]), AtLeastZero(Signed(s[1..5])), depth + 1, []);
      }
      ListPayloadForward(s, depth);
    } else if tag == 10 {
      CompoundForward(s, depth + 1, []);
    } else {
      LeafForward(s, tag, depth);
    }
  }

  lemma {:induction false} ListForward(s: seq<Byte>, inner: int, count: nat, depth: nat, acc: seq<Value>)
    ensures Forward(s, ReadList(s, inner, count, depth, acc))
    decreases Room(depth), 1, count
  {
    if count > 0 {
      ReadsForward(s, inner, depth);
      var r := ReadPayload(s, inner, depth);
      if r.Ok? {
        ListForward(r.rest, inner, count - 1, depth, acc + [r.value]);
        StillForward(r.rest, s, ReadList(s, inner, count, depth, acc));
      }
    }
  }

  lemma {:induction false} CompoundForward(s: seq<Byte>, depth: nat, acc: seq<Entry>)
    ensures Forward(s, ReadCompound(s, depth, acc))
    decreases Room(depth), 1, |s|
  {
    if |s| >= 1 && Signed(s[..1]) != 0 {
      TextForward(s[1..]);
      var key := ReadText(s[1..]);
      if key.Ok? {
        EntryForward(s, depth, acc, key.value, key.rest);
      }
    }
  }

  lemma {:induction false} EntryForward(s: seq<Byte>, depth: nat, acc: seq<Entry>, key: seq<Byte>, body: seq<Byte>)
    requires |s| >= 1 && Signed(s[..1]) != 0 && ReadText(s[1..]) == Ok(key, body) && |body| < |s| && Suffix(body, s[1..])
    ensures Forward(s, ReadCompound(s, depth, acc))
    decreases Room(depth), 1, |body|
  {
    SuffixOfSuffix(body, s[1..], s);
    ReadsForward(body, Signed(s[..1]), depth);
    var r := ReadPayload(body, Signed(s[..1]), depth);
    if r.Ok? {
      SuffixOfSuffix(r.rest, body, s);
      CompoundForward(r.rest, depth, Put(acc, key, r.value));
      StillForward(r.rest, s, ReadCompound(s, depth, acc));
    }
  }
}
