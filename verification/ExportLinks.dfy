/**
 Signed download links (`export_service.py`): a payload naming a server, an export
 and an expiry, and its authentication code, each in unpadded base64url
 (sections 3.2 and 5 of RFC 4648), joined by a dot.

 The authentication code is any function of the payload, and decoding and `int` are
 whatever the library's are, as long as they read what the service writes.
 */
module ExportLinks {
  import opened Options
  import opened Db
  import opened ExportLifecycle
  import ExportTheorems

  predicate Ascii(s: string) { forall c | c in s :: c as int < 128 }

  // --- base64url --------------------------------------------------------------------

  type Sextet = n: int | 0 <= n < 64

  function CharOf(v: Sextet): char {
    if v < 26 then 'A' + v as char
    else if v < 52 then 'a' + (v - 26) as char
    else if v < 62 then '0' + (v - 52) as char
    else if v == 62 then '-' else '_'
  }

  /** The decoder takes both alphabets. */
  function ValueOf(c: char): Option<Sextet> {
    if 'A' <= c <= 'Z' then Some(c as int - 'A' as int)
    else if 'a' <= c <= 'z' then Some(c as int - 'a' as int + 26)
    else if '0' <= c <= '9' then Some(c as int - '0' as int + 52)
    else if c == '-' || c == '+' then Some(62)
    else if c == '_' || c == '/' then Some(63)
    else None
  }

  /** One to three bytes as two to four characters. */
  function EncodeGroup(g: seq<Byte>): string
    requires 1 <= |g| <= 3
  {
    var y: Byte, z: Byte := if |g| > 1 then g[1] else 0, if |g| > 2 then g[2] else 0;
    [CharOf(g[0] / 4), CharOf(g[0] % 4 * 16 + y / 16), CharOf(y % 16 * 4 + z / 64), CharOf(z % 64)][..|g| + 1]
  }

  /** `_b64`: the padding is stripped. */
  function Encode(data: seq<Byte>): string {
    if data == [] then ""
    else if |data| <= 3 then EncodeGroup(data)
    else EncodeGroup(data[..3]) + Encode(data[3..])
  }

  /** The bits kept from the last character: of a sextet, those not yet in a byte. */
  function Kept(quad: nat, v: Sextet): Sextet {
    if quad == 0 then v else if quad == 1 then v % 16 else if quad == 2 then v % 4 else 0
  }

  /** The bytes of a group, from the bits kept and the next sextet. */
  function First(left: Sextet, v: Sextet): Byte { left * 4 + v / 16 }
  function Second(left: Sextet, v: Sextet): Byte { left % 16 * 16 + v / 4 }
  function Third(left: Sextet, v: Sextet): Byte { left % 4 * 64 + v }

  /** The byte that a character completes, unless it is the first of its four. */
  function Completed(quad: nat, left: Sextet, v: Sextet): seq<Byte> {
    if quad == 0 then []
    else if quad == 1 then [First(left, v)]
    else if quad == 2 then [Second(left, v)]
    else [Third(left, v)]
  }

  /**
   The library's decoder, not told to be strict: `quad` characters of four read, and
   `pads` signs of padding since.  Foreign characters are skipped, and padding that
   completes the four ends it, whatever follows.
   */
  function Scan(text: string, quad: nat, left: Sextet, pads: nat): Option<seq<Byte>>
    requires quad < 4
  {
    if text == "" then if quad == 0 then Some([]) else None
    else if text[0] == '=' then
      if quad >= 2 && quad + pads + 1 >= 4 then Some([])
      else Scan(text[1..], quad, left, if quad >= 2 then pads + 1 else pads)
    else
      match ValueOf(text[0])
      case None => Scan(text[1..], quad, left, pads)
      case Some(v) =>
        match Scan(text[1..], if quad < 3 then quad + 1 else 0, Kept(quad, v), 0)
        case None => None
        case Some(rest) => Some(Completed(quad, left, v) + rest)
  }

  /** `"=" * n`. */
  function Padding(n: nat): string { seq(n, i => '=') }

  /** `-n % 4`. */
  function Missing(n: nat): nat { (4 - n % 4) % 4 }

  /** `_unb64`. */
  function Decode(text: string): Option<seq<Byte>> {
    if Ascii(text) then Scan(text + Padding(Missing(|text|)), 0, 0, 0) else None
  }

  lemma CharHasItsValue(v: Sextet)
    ensures ValueOf(CharOf(v)) == Some(v) && CharOf(v) != '.' && CharOf(v) != '=' && CharOf(v) as int < 128
  {
  }

  /** The alphabet of table 2 in section 5 of RFC 4648: where its runs begin, and that each goes on by one. */
  lemma AlphabetIsTheTable()
    ensures CharOf(0) == 'A' && CharOf(26) == 'a' && CharOf(52) == '0' && CharOf(62) == '-' && CharOf(63) == '_'
    ensures forall v: Sextet | v < 61 && v != 25 && v != 51 :: CharOf(v + 1) as int == CharOf(v) as int + 1
  {
  }

  /** Safe in a path: letters, digits, `-` and `_`. */
  predicate UrlSafe(c: char) { 'A' <= c <= 'Z' || 'a' <= c <= 'z' || '0' <= c <= '9' || c == '-' || c == '_' }

  /** A group is its 24 bits, six at a time; those it lacks are zero. */
  lemma GroupIsItsBits(g: seq<Byte>) returns (a: Sextet, b: Sextet, c: Sextet, d: Sextet)
    requires 1 <= |g| <= 3
    ensures EncodeGroup(g) == [CharOf(a), CharOf(b), CharOf(c), CharOf(d)][..|g| + 1]
    ensures var x: int, y: int, z: int := g[0], if |g| > 1 then g[1] else 0, if |g| > 2 then g[2] else 0;
            a * 262_144 + b * 4_096 + c * 64 + d == x * 65_536 + y * 256 + z
  {
    var y: Byte, z: Byte := if |g| > 1 then g[1] else 0, if |g| > 2 then g[2] else 0;
    a, b, c, d := g[0] / 4, g[0] % 4 * 16 + y / 16, y % 16 * 4 + z / 64, z % 64;
    BitsOfThree(g[0], y, z);
  }

  lemma BitsOfThree(x: int, y: int, z: int)
    ensures x / 4 * 262_144 + (x % 4 * 16 + y / 16) * 4_096 + (y % 16 * 4 + z / 64) * 64 + z % 64 == x * 65_536 + y * 256 + z
  {
  }

  /** The whole text, group after group. */
  lemma {:induction false} EncodedIsUrlSafe(data: seq<Byte>)
    ensures forall c | c in Encode(data) :: UrlSafe(c)
  {
    if 0 < |data| <= 3 {
      GroupIsUrlSafe(data);
    } else if |data| > 3 {
      GroupIsUrlSafe(data[..3]);
      EncodedIsUrlSafe(data[3..]);
    }
  }

  lemma GroupIsUrlSafe(g: seq<Byte>)
    requires 1 <= |g| <= 3
    ensures forall c | c in EncodeGroup(g) :: UrlSafe(c)
  {
    forall v: Sextet
      ensures UrlSafe(CharOf(v))
    {
    }
  }

  /** The two alphabets read alike. */
  function Standard(c: char): char { if c == '-' then '+' else if c == '_' then '/' else c }

  lemma {:induction false} AlphabetsReadAlike(text: string, other: string, quad: nat, left: Sextet, pads: nat)
    requires quad < 4 && |other| == |text| && forall i | 0 <= i < |text| :: other[i] == Standard(text[i])
    ensures Scan(other, quad, left, pads) == Scan(text, quad, left, pads)
    decreases |text|
  {
    if text != "" {
      var c := text[0];
      assert ValueOf(Standard(c)) == ValueOf(c) && (Standard(c) == '=' <==> c == '=');
      if c == '=' {
        AlphabetsReadAlike(text[1..], other[1..], quad, left, if quad >= 2 then pads + 1 else pads);
      } else if ValueOf(c).None? {
        AlphabetsReadAlike(text[1..], other[1..], quad, left, pads);
      } else {
        AlphabetsReadAlike(text[1..], other[1..], if quad < 3 then quad + 1 else 0, Kept(quad, ValueOf(c).value), 0);
      }
    }
  }

  lemma SextetsRebuild(x: Byte, y: Byte, z: Byte)
    ensures x / 4 * 4 + (x % 4 * 16 + y / 16) / 16 == x
    ensures (x % 4 * 16 + y / 16) % 16 * 16 + (y % 16 * 4 + z / 64) / 4 == y
    ensures (y % 16 * 4 + z / 64) % 4 * 64 + z % 64 == z
  {
  }

  /** What a character of a group adds to what follows it. */
  function Adding(bytes: seq<Byte>, more: Option<seq<Byte>>): Option<seq<Byte>> {
    if more.None? then None else Some(bytes + more.value)
  }

  function NextQuad(quad: nat): nat { if quad < 3 then quad + 1 else 0 }

  lemma ScanChar(v: Sextet, rest: string, quad: nat, left: Sextet)
    requires quad < 4
    ensures Scan([CharOf(v)] + rest, quad, left, 0)
         == Adding(Completed(quad, left, v), Scan(rest, NextQuad(quad), Kept(quad, v), 0))
  {
    CharHasItsValue(v);
    assert ([CharOf(v)] + rest)[1..] == rest;
  }

  /** Two characters at the start of a group, and what follows. */
  lemma ScanTwo(a: Sextet, b: Sextet, rest: string)
    ensures Scan([CharOf(a), CharOf(b)] + rest, 0, 0, 0) == Adding([First(a, b)], Scan(rest, 2, b % 16, 0))
  {
    ScanChar(a, [CharOf(b)] + rest, 0, 0);
    ScanChar(b, rest, 1, a);
    assert [CharOf(a), CharOf(b)] + rest == [CharOf(a)] + ([CharOf(b)] + rest);
    AddNothing(Scan([CharOf(b)] + rest, 1, a, 0));
  }

  lemma AddNothing(more: Option<seq<Byte>>)
    ensures Adding([], more) == more
  {
    if more.Some? {
      assert [] + more.value == more.value;
    }
  }

  lemma AddTwice(x: seq<Byte>, y: seq<Byte>, more: Option<seq<Byte>>)
    ensures Adding(x, Adding(y, more)) == Adding(x + y, more)
  {
    if more.Some? {
      assert x + (y + more.value) == (x + y) + more.value;
    }
  }

  /** The third and the fourth, and what follows. */
  lemma ScanThird(left: Sextet, c: Sextet, rest: string)
    ensures Scan([CharOf(c)] + rest, 2, left, 0) == Adding([Second(left, c)], Scan(rest, 3, c % 4, 0))
  {
    ScanChar(c, rest, 2, left);
  }

  lemma ScanFourth(left: Sextet, d: Sextet, rest: string)
    ensures Scan([CharOf(d)] + rest, 3, left, 0) == Adding([Third(left, d)], Scan(rest, 0, 0, 0))
  {
    ScanChar(d, rest, 3, left);
  }

  lemma ScanLatter(left: Sextet, c: Sextet, d: Sextet, rest: string)
    ensures Scan([CharOf(c)] + ([CharOf(d)] + rest), 2, left, 0)
         == Adding([Second(left, c)] + [Third(c % 4, d)], Scan(rest, 0, 0, 0))
  {
    ScanThird(left, c, [CharOf(d)] + rest);
    ScanFourth(c % 4, d, rest);
    AddTwice([Second(left, c)], [Third(c % 4, d)], Scan(rest, 0, 0, 0));
  }

  /** Two characters, once it is known what is made of the rest. */
  lemma ScanTwoThen(a: Sextet, b: Sextet, rest: string, x: Byte, y: seq<Byte>, more: Option<seq<Byte>>)
    requires x == First(a, b) && Scan(rest, 2, b % 16, 0) == Adding(y, more)
    ensures Scan([CharOf(a), CharOf(b)] + rest, 0, 0, 0) == Adding([x] + y, more)
  {
    ScanTwo(a, b, rest);
    AddTwice([x], y, more);
  }

  lemma ScanLatterOf(left: Sextet, c: Sextet, d: Sextet, rest: string, y: Byte, z: Byte)
    requires y == Second(left, c) && z == Third(c % 4, d)
    ensures Scan([CharOf(c), CharOf(d)] + rest, 2, left, 0) == Adding([y, z], Scan(rest, 0, 0, 0))
  {
    ScanLatter(left, c, d, rest);
    assert [CharOf(c), CharOf(d)] + rest == [CharOf(c)] + ([CharOf(d)] + rest);
    assert [y, z] == [Second(left, c)] + [Third(c % 4, d)];
  }

  lemma GroupHasFour(g: seq<Byte>, a: Sextet, b: Sextet, c: Sextet, d: Sextet, rest: string)
    requires |g| == 3
    requires a == g[0] / 4 && b == g[0] % 4 * 16 + g[1] / 16 && c == g[1] % 16 * 4 + g[2] / 64 && d == g[2] % 64
    ensures EncodeGroup(g) + rest == [CharOf(a), CharOf(b)] + ([CharOf(c), CharOf(d)] + rest)
  {
    assert EncodeGroup(g) == [CharOf(a), CharOf(b), CharOf(c), CharOf(d)];
  }

  /** Four characters and what follows. */
  lemma ScanGroup(g: seq<Byte>, rest: string)
    requires |g| == 3
    ensures Scan(EncodeGroup(g) + rest, 0, 0, 0) == Adding(g, Scan(rest, 0, 0, 0))
  {
    var a: Sextet, b: Sextet, c: Sextet, d: Sextet :=
      g[0] / 4, g[0] % 4 * 16 + g[1] / 16, g[1] % 16 * 4 + g[2] / 64, g[2] % 64;
    var latter := [CharOf(c), CharOf(d)] + rest;
    SextetsRebuild(g[0], g[1], g[2]);
    GroupHasFour(g, a, b, c, d, rest);
    ScanLatterOf(b % 16, c, d, rest, g[1], g[2]);
    ScanTwoThen(a, b, latter, g[0], [g[1], g[2]], Scan(rest, 0, 0, 0));
    assert g == [g[0]] + [g[1], g[2]];
  }

  /** Padding at the end. */
  lemma ScanSign(quad: nat, left: Sextet)
    requires quad == 2 || quad == 3
    ensures Scan(Padding(4 - quad), quad, left, 0) == Some([])
  {
    assert Padding(4 - quad)[1..] == Padding(3 - quad);
  }

  /** A last group of one or two bytes, and its padding. */
  lemma ScanOne(g: seq<Byte>)
    requires |g| == 1
    ensures Scan(EncodeGroup(g) + Padding(2), 0, 0, 0) == Some(g)
  {
    var a: Sextet, b: Sextet := g[0] / 4, g[0] % 4 * 16;
    SextetsRebuild(g[0], 0, 0);
    ScanTwo(a, b, Padding(2));
    ScanSign(2, b % 16);
    assert EncodeGroup(g) == [CharOf(a), CharOf(b)];
    assert g == [g[0]] + [];
  }

  lemma ScanThirdLast(left: Sextet, c: Sextet)
    ensures Scan([CharOf(c)] + Padding(1), 2, left, 0) == Some([Second(left, c)])
  {
    var y: seq<Byte> := [Second(left, c)];
    ScanThird(left, c, Padding(1));
    ScanSign(3, c % 4);
    assert y + [] == y;
  }

  lemma GroupHasThree(g: seq<Byte>, a: Sextet, b: Sextet, c: Sextet, rest: string)
    requires |g| == 2
    requires a == g[0] / 4 && b == g[0] % 4 * 16 + g[1] / 16 && c == g[1] % 16 * 4
    ensures EncodeGroup(g) + rest == [CharOf(a), CharOf(b)] + ([CharOf(c)] + rest)
  {
    assert EncodeGroup(g) == [CharOf(a), CharOf(b), CharOf(c)];
  }

  lemma ScanThreeOf(a: Sextet, b: Sextet, c: Sextet, x: Byte, y: Byte)
    requires x == First(a, b) && y == Second(b % 16, c)
    ensures Scan([CharOf(a), CharOf(b)] + ([CharOf(c)] + Padding(1)), 0, 0, 0) == Some([x, y])
  {
    ScanThirdLast(b % 16, c);
    AddNothing(Some([y]));
    ScanTwoThen(a, b, [CharOf(c)] + Padding(1), x, [], Some([y]));
    assert [x] + [] + [y] == [x, y];
  }

  lemma ScanPair(g: seq<Byte>)
    requires |g| == 2
    ensures Scan(EncodeGroup(g) + Padding(1), 0, 0, 0) == Some(g)
  {
    var a: Sextet, b: Sextet, c: Sextet := g[0] / 4, g[0] % 4 * 16 + g[1] / 16, g[1] % 16 * 4;
    SextetsRebuild(g[0], g[1], 0);
    ScanThreeOf(a, b, c, g[0], g[1]);
    GroupHasThree(g, a, b, c, Padding(1));
    assert g == [g[0], g[1]];
  }

  lemma GroupText(g: seq<Byte>)
    requires 1 <= |g| <= 3
    ensures Plain(EncodeGroup(g))
  {
    var y: Byte, z: Byte := if |g| > 1 then g[1] else 0, if |g| > 2 then g[2] else 0;
    CharHasItsValue(g[0] / 4);
    CharHasItsValue(g[0] % 4 * 16 + y / 16);
    CharHasItsValue(y % 16 * 4 + z / 64);
    CharHasItsValue(z % 64);
  }

  /** How many characters so many bytes take. */
  function TextLength(n: nat): nat { if n <= 3 then (if n == 0 then 0 else n + 1) else 4 + TextLength(n - 3) }

  lemma {:induction false} EncodedText(data: seq<Byte>)
    ensures Plain(Encode(data)) && |Encode(data)| == TextLength(|data|)
  {
    if 0 < |data| <= 3 {
      GroupText(data);
    } else if |data| > 3 {
      GroupText(data[..3]);
      EncodedText(data[3..]);
    }
  }

  /** The padding put back is the padding a last group asks for. */
  lemma {:induction false} LastPadding(n: nat)
    ensures Missing(TextLength(n)) == if n == 0 then 0 else if n <= 3 then 3 - n else Missing(TextLength(n - 3))
  {
  }

  lemma ScanWhole(g: seq<Byte>)
    requires |g| == 3
    ensures Scan(EncodeGroup(g) + Padding(0), 0, 0, 0) == Some(g)
  {
    ScanGroup(g, "");
    assert EncodeGroup(g) + Padding(0) == EncodeGroup(g) + "";
    assert g + [] == g;
  }

  lemma ScanSmall(g: seq<Byte>)
    requires 1 <= |g| <= 3
    ensures Scan(EncodeGroup(g) + Padding(3 - |g|), 0, 0, 0) == Some(g)
  {
    if |g| == 1 {
      ScanOne(g);
    } else if |g| == 2 {
      ScanPair(g);
    } else {
      ScanWhole(g);
    }
  }

  lemma GroupFirst(data: seq<Byte>, padding: string)
    requires |data| > 3
    ensures Scan(Encode(data) + padding, 0, 0, 0) == Adding(data[..3], Scan(Encode(data[3..]) + padding, 0, 0, 0))
  {
    ScanGroup(data[..3], Encode(data[3..]) + padding);
    assert Encode(data) + padding == EncodeGroup(data[..3]) + (Encode(data[3..]) + padding);
  }

  lemma {:induction false} ScanBack(data: seq<Byte>)
    ensures Scan(Encode(data) + Padding(Missing(TextLength(|data|))), 0, 0, 0) == Some(data)
  {
    LastPadding(|data|);
    if data == [] {
      assert Encode(data) + Padding(0) == "";
    } else if |data| <= 3 {
      ScanSmall(data);
    } else {
      ScanBack(data[3..]);
      GroupFirst(data, Padding(Missing(TextLength(|data|))));
      assert data == data[..3] + data[3..];
    }
  }

  /** Every byte string survives, and its text has no dot. */
  lemma Base64RoundTrip(data: seq<Byte>)
    ensures Decode(Encode(data)) == Some(data)
    ensures '.' !in Encode(data)
  {
    EncodedText(data);
    ScanBack(data);
  }

  /** How many characters of either alphabet. */
  function Letters(text: string): nat {
    if text == "" then 0 else (if ValueOf(text[0]).Some? then 1 else 0) + Letters(text[1..])
  }

  lemma {:induction false} LettersSplit(text: string, i: nat)
    requires i < |text|
    ensures i > 0 ==> Letters(text[..i]) == Letters(text[..1]) + Letters(text[1..][..i - 1])
    ensures Letters(text) == Letters(text[..1]) + Letters(text[1..])
  {
    assert text[..1][1..] == "";
    if i > 0 {
      assert text[..i][1..] == text[1..][..i - 1];
    }
  }

  /** A sign of padding before `i` and no letter since; `pads` of them before the text. */
  predicate SignBefore(text: string, pads: nat, i: nat)
    requires i < |text|
  {
    (pads > 0 && Letters(text[..i]) == 0) || SomeLastSign(text, i)
  }

  /** The sign at `i` completes four, after `quad` letters and `pads` signs before the text. */
  predicate Completes(text: string, quad: nat, pads: nat, i: nat)
    requires i < |text|
  {
    var q := (quad + Letters(text[..i])) % 4;
    text[i] == '=' && (q == 3 || (q == 2 && SignBefore(text, pads, i)))
  }

  /** Signs count for a group only after two of its letters, and at most one is waited on. */
  predicate Scanning(quad: nat, pads: nat) { quad < 4 && pads <= (if quad == 2 then 1 else 0) }

  /** What stands after the first character. */
  function PadsThen(c: char, quad: nat, pads: nat): nat {
    if c == '=' then (if quad >= 2 then pads + 1 else pads) else if ValueOf(c).Some? then 0 else pads
  }

  function QuadThen(c: char, quad: nat): nat { if ValueOf(c).Some? then NextQuad(quad) else quad }

  lemma SliceShifts(text: string, j: nat, i: nat)
    requires 0 < j <= i <= |text|
    ensures text[j..i] == text[1..][j - 1..i - 1]
  {
    var rest := text[1..];
    forall k | 0 <= k < i - j
      ensures text[j..i][k] == rest[j - 1..i - 1][k]
    {
      assert rest[j - 1 + k] == text[j + k];
    }
  }

  /** The sign at `j` is the last thing before `i` that counts. */
  predicate LastSign(text: string, j: nat, i: nat)
    requires j < i <= |text|
  {
    text[j] == '=' && Letters(text[j..i]) == 0
  }

  predicate SomeLastSign(text: string, i: nat)
    requires i <= |text|
  {
    exists j | 0 <= j < i :: LastSign(text, j, i)
  }

  /** A sign before `i` in the whole text is the first character or one in the rest. */
  lemma LastSignShifts(text: string, i: nat)
    requires 0 < i <= |text|
    ensures SomeLastSign(text, i) <==> LastSign(text, 0, i) || SomeLastSign(text[1..], i - 1)
  {
    var rest := text[1..];
    if SomeLastSign(text, i) {
      var j :| 0 <= j < i && LastSign(text, j, i);
      if j > 0 {
        SliceShifts(text, j, i);
        assert LastSign(rest, j - 1, i - 1);
      }
    }
    if SomeLastSign(rest, i - 1) {
      var k :| 0 <= k < i - 1 && LastSign(rest, k, i - 1);
      SliceShifts(text, k + 1, i);
      assert LastSign(text, k + 1, i);
    }
  }

  lemma SignShifts(text: string, quad: nat, pads: nat, i: nat)
    requires Scanning(quad, pads) && 0 < i < |text|
    requires (quad + Letters(text[..i])) % 4 == 2
    ensures SignBefore(text, pads, i) <==> SignBefore(text[1..], PadsThen(text[0], quad, pads), i - 1)
  {
    FirstLetter(text, i);
    LastSignShifts(text, i);
  }

  /** How the letters before `i` divide into the first and the rest. */
  lemma FirstLetter(text: string, i: nat)
    requires 0 < i < |text|
    ensures text[0..i] == text[..i]
    ensures Letters(text[..i]) == (if ValueOf(text[0]).Some? then 1 else 0) + Letters(text[1..][..i - 1])
  {
    assert text[..i][1..] == text[1..][..i - 1];
  }

  /** Counting on from the quad that stands after the first character comes to the same. */
  lemma QuadShifts(text: string, quad: nat, more: nat)
    requires quad < 4 && text != ""
    ensures (quad + (Letters(text[..1]) + more)) % 4 == (QuadThen(text[0], quad) + more) % 4
  {
    assert text[..1][1..] == "";
    assert Letters(text[..1]) == if ValueOf(text[0]).Some? then 1 else 0;
    assert quad == 3 ==> (quad + (1 + more)) % 4 == more % 4;
  }

  lemma CompletesShifts(text: string, quad: nat, pads: nat, i: nat)
    requires Scanning(quad, pads) && 0 < i < |text|
    ensures Completes(text, quad, pads, i)
       <==> Completes(text[1..], QuadThen(text[0], quad), PadsThen(text[0], quad, pads), i - 1)
  {
    LettersSplit(text, i);
    QuadShifts(text, quad, Letters(text[1..][..i - 1]));
    if (quad + Letters(text[..i])) % 4 == 2 {
      SignShifts(text, quad, pads, i);
    }
  }

  /** The scan ends well exactly at a sign that completes four, or after whole fours. */
  lemma {:induction false} ScanExactly(text: string, quad: nat, left: Sextet, pads: nat)
    requires Scanning(quad, pads)
    ensures Scan(text, quad, left, pads).Some?
       <==> (quad + Letters(text)) % 4 == 0 || exists i | 0 <= i < |text| :: Completes(text, quad, pads, i)
    decreases |text|
  {
    if text != "" {
      var c, rest := text[0], text[1..];
      LettersSplit(text, 0);
      QuadShifts(text, quad, Letters(rest));
      var first := c == '=' && quad >= 2 && quad + pads + 1 >= 4;
      assert text[..0] == "";
      assert first <==> Completes(text, quad, pads, 0);
      if !first {
        var quad', pads' := QuadThen(c, quad), PadsThen(c, quad, pads);
        ScanExactly(rest, quad', if ValueOf(c).Some? then Kept(quad, ValueOf(c).value) else left, pads');
        forall i | 0 < i < |text|
          ensures Completes(text, quad, pads, i) <==> Completes(rest, quad', pads', i - 1)
        {
          CompletesShifts(text, quad, pads, i);
        }
        if exists k | 0 <= k < |rest| :: Completes(rest, quad', pads', k) {
          var k :| 0 <= k < |rest| && Completes(rest, quad', pads', k);
          assert Completes(text, quad, pads, k + 1);
        }
      }
    }
  }

  /**
   A text decodes exactly when, with the padding put on for its length, its letters come
   out in fours or a sign of padding stands where a group lacks one or two.
   */
  lemma DecodesExactly(text: string)
    ensures var padded := text + Padding(Missing(|text|));
            Decode(text).Some? <==>
              Ascii(text) && (Letters(padded) % 4 == 0 || exists i | 0 <= i < |padded| :: Completes(padded, 0, 0, i))
  {
    ScanExactly(text + Padding(Missing(|text|)), 0, 0, 0);
  }

  // --- text -------------------------------------------------------------------------

  function Code(c: char): Byte
    requires c as int < 128
  {
    c as int
  }

  function Bytes(s: string): seq<Byte>
    requires Ascii(s)
  {
    seq(|s|, i requires 0 <= i < |s| => assert s[i] in s; Code(s[i]))
  }

  function Text(data: seq<Byte>): Option<string> {
    if exists b :: b in data && b >= 128 then None
    else Some(seq(|data|, i requires 0 <= i < |data| => data[i] as char))
  }

  lemma TextOfBytes(s: string)
    requires Ascii(s)
    ensures Text(Bytes(s)) == Some(s)
  {
    var data := Bytes(s);
    forall b | b in data
      ensures b < 128
    {
      var i :| 0 <= i < |data| && data[i] == b;
      assert s[i] in s;
    }
    assert Text(data).value == s;
  }

  /** `str` of a number. */
  function Digits(n: nat): string {
    (if n < 10 then "" else Digits(n / 10)) + ['0' + (n % 10) as char]
  }

  function Print(n: int): string { if n < 0 then "-" + Digits(-n) else Digits(n) }

  predicate IsDigit(c: char) { '0' <= c <= '9' }

  predicate AllDigits(s: string) { s != "" && forall c | c in s :: IsDigit(c) }

  function NatOf(s: string): nat
    requires forall c | c in s :: IsDigit(c)
  {
    if s == "" then 0
    else
      assert IsDigit(s[|s| - 1]);
      NatOf(s[..|s| - 1]) * 10 + (s[|s| - 1] as int - '0' as int)
  }

  /** The plainest of what `int` takes: an optional sign and digits. */
  function Parse(s: string): Option<int> {
    if s != "" && (s[0] == '-' || s[0] == '+') then
      if !AllDigits(s[1..]) then None
      else
        var n: int := NatOf(s[1..]);
        Some(if s[0] == '-' then -n else n)
    else if AllDigits(s) then Some(NatOf(s)) else None
  }

  lemma {:induction false} DigitsReadBack(n: nat)
    ensures AllDigits(Digits(n)) && NatOf(Digits(n)) == n
  {
    var last := ['0' + (n % 10) as char];
    if n < 10 {
      assert Digits(n) == last && last[..0] == "";
    } else {
      DigitsReadBack(n / 10);
      assert Digits(n)[..|Digits(n)| - 1] == Digits(n / 10);
    }
  }

  lemma PrintReadsBack(n: int)
    ensures Parse(Print(n)) == Some(n)
    ensures Plain(Print(n))
  {
    DigitsReadBack(if n < 0 then -n else n);
    if n < 0 {
      assert Print(n)[1..] == Digits(-n);
    } else {
      assert IsDigit(Digits(n)[0]);
    }
  }

  lemma PrintIsDecimal()
    ensures Print(0) == "0" && Print(9) == "9" && Print(10) == "10" && Print(907) == "907" && Print(-12) == "-12"
  {
  }

  // --- fields -----------------------------------------------------------------------

  /** No dot, and nothing UTF-8 would change. */
  predicate Plain(s: string) { Ascii(s) && '.' !in s }

  predicate ValidName(s: string) {
    && 2 <= |s| <= 31
    && 'a' <= s[0] <= 'z' && s[|s| - 1] != '-'
    && forall c | c in s :: 'a' <= c <= 'z' || '0' <= c <= '9' || c == '-'
  }

  predicate ValidId(s: string) {
    |s| == 12 && forall c | c in s :: '0' <= c <= '9' || 'a' <= c <= 'f'
  }

  lemma NamesAndIdsArePlain(s: string)
    requires ValidName(s) || ValidId(s)
    ensures Plain(s)
  {
  }

  /** `split(".")`. */
  function Split(s: string): (fields: seq<string>)
    ensures fields != []
  {
    if s == "" then [""]
    else if s[0] == '.' then [""] + Split(s[1..])
    else
      var rest := Split(s[1..]);
      [[s[0]] + rest[0]] + rest[1..]
  }

  /** `split(".", 1)`, when there is a dot. */
  function SplitOnce(s: string): Option<(string, string)> {
    if s == "" then None
    else if s[0] == '.' then Some(("", s[1..]))
    else
      match SplitOnce(s[1..])
      case None => None
      case Some(halves) => Some(([s[0]] + halves.0, halves.1))
  }

  lemma {:induction false} SplitAtDot(a: string, b: string)
    requires '.' !in a
    ensures Split(a + "." + b) == [a] + Split(b)
    ensures SplitOnce(a + "." + b) == Some((a, b))
  {
    var s := a + "." + b;
    if a == "" {
      assert s[1..] == b;
    } else {
      assert s[1..] == a[1..] + "." + b;
      SplitAtDot(a[1..], b);
      assert a == [a[0]] + a[1..];
      var rest := Split(s[1..]);
      assert rest[0] == a[1..] && rest[1..] == Split(b);
    }
  }

  lemma {:induction false} NoDotNoSplit(a: string)
    requires '.' !in a
    ensures Split(a) == [a]
  {
    if a != "" {
      NoDotNoSplit(a[1..]);
      assert a == [a[0]] + a[1..];
    }
  }

  // --- links ------------------------------------------------------------------------

  datatype Claim = Claim(server: string, id: string, expires: int)

  function PayloadText(c: Claim): string { c.server + "." + c.id + "." + Print(c.expires) }

  predicate Signable(c: Claim) { Plain(c.server) && Plain(c.id) }

  lemma AsciiConcat(a: string, b: string)
    requires Ascii(a) && Ascii(b)
    ensures Ascii(a + b)
  {
  }

  lemma PayloadIsAscii(c: Claim)
    requires Signable(c)
    ensures Ascii(PayloadText(c))
  {
    PrintReadsBack(c.expires);
    AsciiConcat(c.server, ".");
    AsciiConcat(c.server + ".", c.id);
    AsciiConcat(c.server + "." + c.id, ".");
    AsciiConcat(c.server + "." + c.id + ".", Print(c.expires));
  }

  function Payload(c: Claim): seq<Byte>
    requires Signable(c)
  {
    PayloadIsAscii(c);
    Bytes(PayloadText(c))
  }

  function Sign(mac: seq<Byte> -> seq<Byte>, c: Claim): string
    requires Signable(c)
  {
    Encode(Payload(c)) + "." + Encode(mac(Payload(c)))
  }

  /** `bytes.decode` and `int`, as the library has them: both take far more than the service writes. */
  datatype Library = Library(text: seq<Byte> -> Option<string>, number: string -> Option<int>)

  /** All that is asked of them: ASCII is its own UTF-8, and a printed number reads back. */
  ghost predicate Reads(lib: Library) {
    && (forall s | Ascii(s) :: lib.text(Bytes(s)) == Some(s))
    && (forall n :: lib.number(Print(n)) == Some(n))
  }

  /** Reading ASCII and plain digits only is enough for that. */
  lemma StrictReads()
    ensures Reads(Library(Text, Parse))
  {
    forall s | Ascii(s)
      ensures Text(Bytes(s)) == Some(s)
    {
      TextOfBytes(s);
    }
    forall n
      ensures Parse(Print(n)) == Some(n)
    {
      PrintReadsBack(n);
    }
  }

  function ParsePayload(lib: Library, data: seq<Byte>): Option<Claim> {
    var text := lib.text(data);
    if text.None? then None
    else
      var fields := Split(text.value);
      if |fields| != 3 || lib.number(fields[2]).None? then None
      else Some(Claim(fields[0], fields[1], lib.number(fields[2]).value))
  }

  /** What a token says, before anything is believed: its payload, its code, and the claim. */
  datatype Said = Said(payload: seq<Byte>, code: seq<Byte>, claim: Claim)

  function Read(lib: Library, token: string): Option<Said> {
    var halves := SplitOnce(token);
    if halves.None? then None
    else
      var payload, code := Decode(halves.value.0), Decode(halves.value.1);
      if payload.None? || code.None? then None
      else
        var claim := ParsePayload(lib, payload.value);
        if claim.None? then None else Some(Said(payload.value, code.value, claim.value))
  }

  /** `download`: the directory whose zip is served. */
  function Download(lib: Library, mac: seq<Byte> -> seq<Byte>, exports: map<string, ExportRow>, dirs: set<Place>,
                    token: string, now: int)
    : Option<Place>
  {
    var said := Read(lib, token);
    if said.None? then None
    else
      var c := said.value.claim;
      if said.value.code != mac(said.value.payload) || c.expires * MICROS < now then None
      else if c.id !in exports || exports[c.id].server != c.server || !exports[c.id].status.Done? then None
      else if Expired(exports[c.id], now) then None
      else if (c.server, c.id) !in dirs then None
      else Some((c.server, c.id))
  }

  lemma ThreeFields(a: string, b: string, c: string)
    requires '.' !in a && '.' !in b && '.' !in c
    ensures Split(a + "." + b + "." + c) == [a, b, c]
  {
    var latter := b + "." + c;
    SplitAtDot(a, latter);
    SplitAtDot(b, c);
    NoDotNoSplit(c);
    assert a + "." + b + "." + c == a + "." + latter;
  }

  lemma PayloadReadsBack(lib: Library, c: Claim)
    requires Reads(lib) && Signable(c)
    ensures ParsePayload(lib, Payload(c)) == Some(c)
  {
    PayloadIsAscii(c);
    PrintReadsBack(c.expires);
    ThreeFields(c.server, c.id, Print(c.expires));
  }

  /** A signed token says exactly what was signed. */
  lemma TokenReadsBack(lib: Library, mac: seq<Byte> -> seq<Byte>, c: Claim)
    requires Reads(lib) && Signable(c)
    ensures Read(lib, Sign(mac, c)) == Some(Said(Payload(c), mac(Payload(c)), c))
  {
    Base64RoundTrip(Payload(c));
    Base64RoundTrip(mac(Payload(c)));
    SplitAtDot(Encode(Payload(c)), Encode(mac(Payload(c))));
    PayloadReadsBack(lib, c);
  }

  /** A link can stand in a path: its token is letters, digits, `-`, `_` and one dot. */
  lemma TokenIsUrlSafe(mac: seq<Byte> -> seq<Byte>, c: Claim)
    requires Signable(c)
    ensures forall x | x in Sign(mac, c) :: UrlSafe(x) || x == '.'
    ensures SplitOnce(Sign(mac, c)).Some? && '.' !in SplitOnce(Sign(mac, c)).value.0 && '.' !in SplitOnce(Sign(mac, c)).value.1
  {
    EncodedIsUrlSafe(Payload(c));
    EncodedIsUrlSafe(mac(Payload(c)));
    Base64RoundTrip(Payload(c));
    Base64RoundTrip(mac(Payload(c)));
    SplitAtDot(Encode(Payload(c)), Encode(mac(Payload(c))));
  }

  /** Different claims have different payloads, so no code signs two of them by signing one. */
  lemma DistinctClaimsDistinctPayloads(c: Claim, d: Claim)
    requires Signable(c) && Signable(d)
    ensures Payload(c) == Payload(d) <==> c == d
  {
    StrictReads();
    PayloadReadsBack(Library(Text, Parse), c);
    PayloadReadsBack(Library(Text, Parse), d);
  }

  /**
   A link for a valid server name and export id downloads exactly while it has not
   run out, its code is the one the service computes, and the export it names is
   that server's, finished, not expired, and on disk.  It serves that export.
   */
  lemma SignedLinkDownloads(lib: Library, mac: seq<Byte> -> seq<Byte>, signer: seq<Byte> -> seq<Byte>, c: Claim,
                            exports: map<string, ExportRow>, dirs: set<Place>, now: int)
    requires Reads(lib)
    requires ValidName(c.server) && ValidId(c.id)
    ensures Plain(c.server) && Plain(c.id)
    ensures Download(lib, mac, exports, dirs, Sign(signer, c), now)
         == if && signer(Payload(c)) == mac(Payload(c))
               && now <= c.expires * 1_000_000
               && c.id in exports && exports[c.id].server == c.server && exports[c.id].status.Done?
               && (exports[c.id].expires.None? || now < exports[c.id].expires.value * 1_000_000)
               && (c.server, c.id) in dirs
            then Some((c.server, c.id)) else None
  {
    NamesAndIdsArePlain(c.server);
    NamesAndIdsArePlain(c.id);
    TokenReadsBack(lib, signer, c);
  }

  /**
   Whatever the token, and however leniently its text and its number are read, what is
   served is a finished export of the server it names, under the service's own code.
   */
  lemma OnlySignedClaimsAreServed(lib: Library, mac: seq<Byte> -> seq<Byte>, exports: map<string, ExportRow>,
                                  dirs: set<Place>, token: string, now: int)
    requires Reads(lib) && Download(lib, mac, exports, dirs, token, now).Some?
    requires forall id | id in exports :: ValidName(exports[id].server) && ValidId(id)
    ensures var p := Download(lib, mac, exports, dirs, token, now).value;
            && p in dirs && p.1 in exports && exports[p.1].server == p.0 && exports[p.1].status.Done?
            && Read(lib, token).Some? && Read(lib, token).value.code == mac(Read(lib, token).value.payload)
            && var c := Read(lib, token).value.claim;
               Signable(c) && (c.server, c.id) == p && now <= c.expires * 1_000_000
               && Download(lib, mac, exports, dirs, Sign(mac, c), now) == Some(p)
  {
    var c := Read(lib, token).value.claim;
    SignedLinkDownloads(lib, mac, mac, c, exports, dirs, now);
  }

  /** A quarter of an hour. */
  const LINK_TTL: int := 900

  /** `link`: what a link given out now says. */
  function FreshClaim(exports: map<string, ExportRow>, id: string, now: int): Claim
    requires id in exports
  {
    Claim(exports[id].server, id, Iso(now) + LINK_TTL)
  }

  /**
   In any run, the link given out for a finished export downloads it, then and later,
   exactly while it is not older than 900 whole seconds, the export is not due, and no
   sweep took its world.
   */
  lemma AFreshLinkDownloads(lib: Library, actions: seq<Action>, mac: seq<Byte> -> seq<Byte>, id: string, now: int, later: int)
    requires Reads(lib)
    requires var d := Run(actions).db;
             && id in d.exports && d.exports[id].status.Done? && ValidName(d.exports[id].server) && ValidId(id)
    ensures var s := Run(actions);
            var r := s.db.exports[id];
            var c := FreshClaim(s.db.exports, id, now);
            Signable(c)
            && (Download(lib, mac, s.db.exports, s.dirs, Sign(mac, c), later) == Some((r.server, id))
                <==> && later <= (now / 1_000_000 + 900) * 1_000_000
                     && (r.expires.None? || later < r.expires.value * 1_000_000)
                     && id !in s.lost)
  {
    var s := Run(actions);
    SignedLinkDownloads(lib, mac, mac, FreshClaim(s.db.exports, id, now), s.db.exports, s.dirs, later);
    ExportTheorems.FinishedHasItsWorld(actions, id);
  }
}
