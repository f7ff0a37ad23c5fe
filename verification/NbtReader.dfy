/**
 The reader object (`_Nbt` in `dsh_world_export.py`): it moves `pos` through its
 data with loops, wherever that takes it, and does exactly what the steps of
 `NbtSteps` say.  The budget stands for how long it is watched.
 */
module NbtReader {
  import opened Options
  import opened Nbt
  import opened NbtBounds
  import opened NbtSteps

  /** How a call ends: a value, a ValueError or struct error, or still reading. */
  datatype Outcome<+T> = Got(value: T) | Error | Reading

  /** The call ended as the steps say, and left `pos` where they do. */
  ghost predicate Told<T>(o: Outcome<T>, pos: int, ran: Ran<T>) {
    && (ran.Done? <==> o.Got?) && (ran.Done? ==> o.value == ran.value && pos == ran.pos)
    && (ran.Failed? <==> o.Error?)
  }

  class Reader {
    const data: seq<Byte>
    var pos: int

    constructor (data: seq<Byte>)
      ensures this.data == data && pos == 0
    {
      this.data, pos := data, 0;
    }

    /** `_take`: a negative size moves `pos` back. */
    method Take(n: int) returns (o: Outcome<seq<Byte>>)
      modifies this
      ensures Told(o, pos, RunTake(data, old(pos), n))
      ensures o.Got? && 0 <= old(pos) && 0 <= n ==> pos <= |data| && o.value == data[old(pos)..pos]
    {
      if pos + n > |data| {
        return Error;
      }
      var chunk := Slice(data, pos, pos + n);
      pos := pos + n;
      o := Got(chunk);
    }

    /** `_unpack` of a signed number. */
    method UnpackSigned(width: nat) returns (o: Outcome<int>)
      modifies this
      ensures Told(o, pos, RunNumber(data, old(pos), width))
    {
      var chunk := Take(width);
      if !chunk.Got? || |chunk.value| != width {
        return Error;
      }
      o := Got(Signed(chunk.value));
    }

    /** `_string`. */
    method String() returns (o: Outcome<seq<Byte>>)
      modifies this
      ensures Told(o, pos, RunText(data, old(pos)))
    {
      var length := Take(2);
      if !length.Got? || |length.value| != 2 {
        return Error;
      }
      o := Take(Unsigned(length.value));
    }

    method Payload(tag: int, depth: nat, steps: nat) returns (o: Outcome<Value>)
      modifies this
      ensures Told(o, pos, RunPayload(data, old(pos), tag, depth, steps))
      decreases steps, 1
    {
      if steps == 0 {
        return Reading;
      }
      if depth > DEPTH_LIMIT {
        return Error;
      }
      if tag == 9 {
        o := ListOf(depth, steps);
        return;
      }
      if tag == 10 {
        o := CompoundOf(depth + 1, steps - 1);
        return;
      }
      o := Leaf(tag);
    }

    method Leaf(tag: int) returns (o: Outcome<Value>)
      modifies this
      ensures Told(o, pos, RunLeaf(data, old(pos), tag))
    {
      if 1 <= tag <= 4 {
        var n := UnpackSigned(IntWidth(tag));
        return if n.Got? then Got(Int(IntWidth(tag), n.value)) else Error;
      }
      if tag == 5 || tag == 6 {
        var width := if tag == 5 then 4 else 8;
        var raw := Take(width);
        return if raw.Got? && |raw.value| == width then Got(Float(raw.value)) else Error;
      }
      if tag == 7 {
        o := ByteArray();
        return;
      }
      if tag == 8 {
        var text := String();
        return if text.Got? then Got(Text(text.value)) else Error;
      }
      if tag == 11 || tag == 12 {
        o := IntArray(if tag == 11 then 4 else 8);
        return;
      }
      return Error;
    }

    method ByteArray() returns (o: Outcome<Value>)
      modifies this
      ensures Told(o, pos, RunByteArray(data, old(pos)))
    {
      var n := UnpackSigned(4);
      if !n.Got? {
        return Error;
      }
      var chunk := Take(n.value);
      return if chunk.Got? then Got(Bytes(chunk.value)) else Error;
    }

    /** Taking a negative size moves back, and then `struct` raises. */
    method IntArray(width: nat) returns (o: Outcome<Value>)
      requires width == 4 || width == 8
      modifies this
      ensures Told(o, pos, RunInts(data, old(pos), width))
    {
      var count := UnpackSigned(4);
      if !count.Got? {
        return Error;
      }
      var chunk := Take(width * count.value);
      if !chunk.Got? || count.value < 0 || |chunk.value| != width * count.value {
        return Error;
      }
      o := Got(Ints(width, Numbers(chunk.value, width, count.value)));
    }

    /** The items of a list, one after another. */
    method ListOf(depth: nat, steps: nat) returns (o: Outcome<Value>)
      requires steps > 0 && depth <= DEPTH_LIMIT
      modifies this
      ensures Told(o, pos, RunPayload(data, old(pos), 9, depth, steps))
      decreases steps, 0
    {
      var inner := UnpackSigned(1);
      if !inner.Got? {
        return Error;
      }
      var count := UnpackSigned(4);
      if !count.Got? {
        return Error;
      }
      var left, watch: nat := AtLeastZero(count.value), steps - 1;
      var items: seq<Value> := [];
      while left > 0 && watch > 0
        invariant left >= 0 && 0 <= watch < steps
        invariant RunList(data, pos, inner.value, left, depth + 1, items, watch)
               == RunPayload(data, old(pos), 9, depth, steps)
        decreases watch
      {
        var item := Payload(inner.value, depth + 1, watch - 1);
        if !item.Got? {
          return item;
        }
        items, left, watch := items + [item.value], left - 1, watch - 1;
      }
      return if watch == 0 then Reading else Got(List(inner.value, items));
    }

    /** The entries of a compound, up to the end tag. */
    method CompoundOf(depth: nat, steps: nat) returns (o: Outcome<Value>)
      modifies this
      ensures Told(o, pos, RunCompound(data, old(pos), depth, [], steps))
      decreases steps, 0
    {
      var out: seq<Entry> := [];
      var watch := steps;
      while watch > 0
        invariant 0 <= watch <= steps
        invariant RunCompound(data, pos, depth, out, watch) == RunCompound(data, old(pos), depth, [], steps)
        decreases watch
      {
        ghost var start := pos;
        var inner := UnpackSigned(1);
        if !inner.Got? {
          return Error;
        }
        if inner.value == 0 {
          return Got(Compound(out));
        }
        var key := String();
        if !key.Got? {
          return Error;
        }
        assert RunCompound(data, start, depth, out, watch)
            == RunEntry(data, pos, inner.value, key.value, depth, out, watch);
        var value := Payload(inner.value, depth, watch - 1);
        if !value.Got? {
          return value;
        }
        out, watch := Put(out, key.value, value.value), watch - 1;
      }
      return Reading;
    }

    method Root(steps: nat) returns (o: Outcome<Value>)
      requires pos == 0
      modifies this
      ensures Told(o, pos, RunRoot(data, steps))
      ensures steps >= Enough(|data|) && !ReadRoot(data).Rewinds? ==> !o.Reading?
      ensures steps >= Enough(|data|) && ReadRoot(data).Ok? ==> o == Got(ReadRoot(data).value) && 0 <= pos <= |data|
    {
      RootEndsFor(data, steps);
      var tag := UnpackSigned(1);
      if !tag.Got? || tag.value != 10 {
        return Error;
      }
      var name := String();
      if !name.Got? {
        return Error;
      }
      o := Payload(10, 0, steps);
    }
  }

  lemma RootEndsFor(data: seq<Byte>, steps: nat)
    ensures steps >= Enough(|data|) ==> Ends(data, RunRoot(data, steps), ReadRoot(data))
  {
    if steps >= Enough(|data|) {
      RootEnds(data, steps);
    }
  }
}
