/**
 The variable-length integers and length-prefixed frames of the status
 handshake (`cluster.py`).  Seven payload bits a byte, least significant group
 first, the high bit set on every byte but the last.

 The source combines groups with `|` and `<<`; the groups never overlap, so the
 model writes the same value with `+` and powers of 128.
 */
module VarInt {
  import opened Options

  /** `2^42`: six groups of seven bits. */
  const LIMIT: nat := 128 * 128 * 128 * 128 * 128 * 128

  datatype Outcome = Value(value: nat, rest: seq<Byte>) | Closed | TooLong

  function Pow128(k: nat): (p: nat)
    ensures p > 0
  {
    if k == 0 then 1 else 128 * Pow128(k - 1)
  }

  /** The encoding, by its recurrence on groups. */
  function Encode(value: nat): (s: seq<Byte>)
    ensures |s| > 0
  {
    if value < 128 then [value] else [value % 128 + 128] + Encode(value / 128)
  }

  /** What a reader that has taken `groups` bytes, all with the high bit set, makes of the rest. */
  function DecodeFrom(s: seq<Byte>, acc: nat, groups: nat): Outcome
    decreases |s|
  {
    if s == [] then Closed
    else
      var value := acc + s[0] % 128 * Pow128(groups);
      if s[0] < 128 then Value(value, s[1..])
      else if groups >= 5 then TooLong
      else DecodeFrom(s[1..], value, groups + 1)
  }

  function Decode(s: seq<Byte>): Outcome {
    DecodeFrom(s, 0, 0)
  }

  /** The peer's bytes, handed out one `recv(1)` at a time. */
  class Socket {
    var incoming: seq<Byte>

    constructor (bytes: seq<Byte>)
      ensures incoming == bytes
    {
      incoming := bytes;
    }

    method Recv() returns (byte: Option<Byte>)
      modifies this
      ensures byte == if old(incoming) == [] then None else Some(old(incoming)[0])
      ensures incoming == if old(incoming) == [] then [] else old(incoming)[1..]
    {
      if incoming == [] {
        byte := None;
      } else {
        byte, incoming := Some(incoming[0]), incoming[1..];
      }
    }
  }

  /** `_varint`: the loop appends the low group until nothing is left. */
  method WriteVarInt(value: nat) returns (out: seq<Byte>)
    ensures out == Encode(value)
  {
    var left := value;
    out := [];
    while true
      invariant out + Encode(left) == Encode(value)
      decreases left
    {
      var low: Byte := left % 128;
      left := left / 128;
      if left != 0 {
        var high: Byte := low + 128;
        out := out + [high];
      } else {
        out := out + [low];
        return;
      }
    }
  }

  /** `_read_varint`: agrees with `Decode`, takes exactly the bytes it used, and never more than six. */
  method ReadVarInt(sock: Socket) returns (r: Outcome)
    modifies sock
    ensures r == Decode(old(sock.incoming))
    ensures r.Value? ==> sock.incoming == r.rest
    ensures |old(sock.incoming)| - 6 <= |sock.incoming| <= |old(sock.incoming)|
    ensures sock.incoming == old(sock.incoming)[|old(sock.incoming)| - |sock.incoming|..]
  {
    var value: nat, groups: nat := 0, 0;
    ghost var start := sock.incoming;
    while true
      invariant groups <= 5 && groups <= |start|
      invariant sock.incoming == start[groups..]
      invariant DecodeFrom(sock.incoming, value, groups) == Decode(start)
      decreases 6 - groups
    {
      var byte := sock.Recv();
      if byte.None? {
        return Closed;
      }
      value := value + byte.value % 128 * Pow128(groups);
      if byte.value < 128 {
        return Value(value, sock.incoming);
      }
      groups := groups + 1;
      if groups > 5 {
        return TooLong;
      }
    }
  }

  /** Splitting off the low group of `v` keeps its weight. */
  lemma LowGroup(v: nat, p: nat)
    ensures v * p == v % 128 * p + v / 128 * (128 * p)
  {
    var q, r := v / 128, v % 128;
    assert v == q * 128 + r;
    assert (q * 128 + r) * p == q * 128 * p + r * p;
    assert q * 128 * p == q * (128 * p);
  }

  /** The reader, mid-way, on the tail of an encoding. */
  lemma {:induction false} DecodeFromEncode(v: nat, acc: nat, groups: nat, rest: seq<Byte>)
    requires groups <= 5
    ensures v < Pow128(6 - groups) ==>
              DecodeFrom(Encode(v) + rest, acc, groups) == Value(acc + v * Pow128(groups), rest)
    ensures v >= Pow128(6 - groups) ==> DecodeFrom(Encode(v) + rest, acc, groups) == TooLong
    decreases v
  {
    var s := Encode(v) + rest;
    assert Pow128(6 - groups) == 128 * Pow128(5 - groups);
    if v < 128 {
      assert s[1..] == rest;
    } else {
      assert s[0] == v % 128 + 128 && s[1..] == Encode(v / 128) + rest;
      if groups < 5 {
        assert Pow128(groups + 1) == 128 * Pow128(groups);
        LowGroup(v, Pow128(groups));
        DecodeFromEncode(v / 128, acc + v % 128 * Pow128(groups), groups + 1, rest);
      }
    }
  }

  lemma LimitIsPow128()
    ensures Pow128(6) == LIMIT
  {
    assert Pow128(1) == 128 * Pow128(0) && Pow128(2) == 128 * Pow128(1) && Pow128(3) == 128 * Pow128(2);
    assert Pow128(4) == 128 * Pow128(3) && Pow128(5) == 128 * Pow128(4) && Pow128(6) == 128 * Pow128(5);
  }

  /**
   Reading undoes writing below `2^42` and leaves what follows unread; every
   encoding of a larger value is refused as too long.
   */
  lemma RoundTrip(v: nat, rest: seq<Byte>)
    ensures v < 4_398_046_511_104 ==> Decode(Encode(v) + rest) == Value(v, rest)
    ensures v >= 4_398_046_511_104 ==> Decode(Encode(v) + rest) == TooLong
  {
    DecodeFromEncode(v, 0, 0, rest);
    LimitIsPow128();
  }

  // --- any bytes ------------------------------------------------------------------------

  /** The first so many bytes, seven bits of each, the first the least. */
  function Weighed(s: seq<Byte>, count: nat): nat
    requires count <= |s|
  {
    if count == 0 then 0 else s[0] % 128 + 128 * Weighed(s[1..], count - 1)
  }

  /** The first so many bytes all have the high bit. */
  predicate AllHigh(s: seq<Byte>, count: nat) { count <= |s| && forall i | 0 <= i < count :: s[i] >= 128 }

  lemma {:induction false} DecodesFrom(s: seq<Byte>, acc: nat, groups: nat, count: nat)
    requires count <= 6 - groups && groups <= 5 && AllHigh(s, count)
    ensures count < 6 - groups && count < |s| && s[count] < 128 ==>
              DecodeFrom(s, acc, groups) == Value(acc + Weighed(s, count + 1) * Pow128(groups), s[count + 1..])
    ensures count == 6 - groups ==> DecodeFrom(s, acc, groups) == TooLong
    ensures count < 6 - groups && count == |s| ==> DecodeFrom(s, acc, groups) == Closed
    decreases count
  {
    if count > 0 {
      var tail := s[1..];
      if groups < 5 {
        var value := acc + s[0] % 128 * Pow128(groups);
        DecodesFrom(tail, value, groups + 1, count - 1);
        assert Pow128(groups + 1) == 128 * Pow128(groups);
        if count < |s| {
          assert tail[count..] == s[count + 1..];
          Weights(s[0] % 128, Weighed(tail, count), Pow128(groups));
        }
      }
    } else if s != [] && s[0] < 128 {
      assert Weighed(s, 1) == s[0];
    }
  }

  lemma Weights(low: nat, high: nat, p: nat)
    ensures low * p + high * (128 * p) == (low + 128 * high) * p
  {
    assert high * (128 * p) == 128 * high * p;
  }

  /**
   Any bytes at all: the first of the first six without the high bit ends the number;
   six with it are too long, and fewer, with nothing after them, are cut off.
   */
  lemma DecodesAnyBytes(s: seq<Byte>, count: nat)
    requires count <= 6 && AllHigh(s, count)
    ensures count < 6 && count < |s| && s[count] < 128 ==> Decode(s) == Value(Weighed(s, count + 1), s[count + 1..])
    ensures count == 6 ==> Decode(s) == TooLong
    ensures count < 6 && count == |s| ==> Decode(s) == Closed
  {
    DecodesFrom(s, 0, 0, count);
  }

  /** `_packet`: the id and payload behind their length. */
  function Packet(id: nat, payload: seq<Byte>): seq<Byte> {
    var body := Encode(id) + payload;
    Encode(|body|) + body
  }

  datatype Frame = Frame(id: nat, payload: seq<Byte>)

  function Concat(frames: seq<Frame>): seq<Byte> {
    if frames == [] then [] else Packet(frames[0].id, frames[0].payload) + Concat(frames[1..])
  }

  /** A reader of frames: a length, then an id and the rest of that many bytes. */
  function ParseFrame(s: seq<Byte>): Option<(Frame, seq<Byte>)> {
    match Decode(s)
    case Value(length, rest) =>
      if length > |rest| then None
      else (
        match Decode(rest[..length])
        case Value(id, payload) => Some((Frame(id, payload), rest[length..]))
        case _ => None)
    case _ => None
  }

  function ParseFrames(s: seq<Byte>, count: nat): Option<seq<Frame>>
    decreases count
  {
    if count == 0 then (if s == [] then Some([]) else None)
    else
      match ParseFrame(s)
      case None => None
      case Some((frame, rest)) =>
        match ParseFrames(rest, count - 1)
        case None => None
        case Some(frames) => Some([frame] + frames)
  }

  ghost predicate Sendable(f: Frame) {
    f.id < LIMIT && |Encode(f.id) + f.payload| < LIMIT
  }

  lemma FrameRoundTrip(f: Frame, rest: seq<Byte>)
    requires Sendable(f)
    ensures ParseFrame(Packet(f.id, f.payload) + rest) == Some((f, rest))
  {
    var body := Encode(f.id) + f.payload;
    assert Packet(f.id, f.payload) + rest == Encode(|body|) + (body + rest);
    RoundTrip(|body|, body + rest);
    assert (body + rest)[..|body|] == body && (body + rest)[|body|..] == rest;
    RoundTrip(f.id, f.payload);
  }

  /** Frames written one after another parse back in sequence, with nothing left over. */
  lemma {:induction false} FramesRoundTrip(frames: seq<Frame>)
    requires forall f | f in frames :: Sendable(f)
    ensures ParseFrames(Concat(frames), |frames|) == Some(frames)
  {
    if frames == [] {
    } else {
      FrameRoundTrip(frames[0], Concat(frames[1..]));
      FramesRoundTrip(frames[1..]);
      assert [frames[0]] + frames[1..] == frames;
    }
  }
}
