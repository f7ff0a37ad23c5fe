/**
 `selection.json` (`selection.py`): the text a selection is written as, and why
 equal texts, hence equal hashes, mean equal selections.
 */
module SelectionText {
  import opened Options
  import opened Db

  /** What the text says of a plugin. */
  datatype Pin = Pin(slug: string, tag: string, filename: string, url: string)

  // --- the order of slugs: by code point -------------------------------------------

  predicate Less(a: string, b: string) {
    if b == [] then false
    else if a == [] then true
    else if a[0] == b[0] then Less(a[1..], b[1..])
    else a[0] < b[0]
  }

  /** One text comes before another when it is its beginning, or is smaller where they first differ. */
  lemma {:induction false} LessIsByCodePoint(a: string, b: string)
    ensures Less(a, b) <==> exists k: nat :: FirstDifference(a, b, k) && k < |b| && (k == |a| || a[k] as int < b[k] as int)
    decreases |a|
  {
    if a != [] && b != [] && a[0] == b[0] {
      LessIsByCodePoint(a[1..], b[1..]);
      forall k: nat
        ensures FirstDifference(a[1..], b[1..], k) <==> FirstDifference(a, b, k + 1)
      {
        DifferenceShifts(a, b, k);
      }
      if k: nat :| FirstDifference(a, b, k) && k < |b| && (k == |a| || a[k] as int < b[k] as int) {
        assert k > 0 && FirstDifference(a[1..], b[1..], k - 1);
      }
      if Less(a, b) {
        var k: nat :| FirstDifference(a[1..], b[1..], k) && k < |b| - 1 && (k == |a| - 1 || a[1..][k] as int < b[1..][k] as int);
        assert FirstDifference(a, b, k + 1);
      }
    } else {
      assert FirstDifference(a, b, 0);
    }
  }

  /** They agree before `k`, and there one ends or they differ. */
  predicate FirstDifference(a: string, b: string, k: nat) {
    k <= |a| && k <= |b| && a[..k] == b[..k] && (k == |a| || k == |b| || a[k] != b[k])
  }

  lemma DifferenceShifts(a: string, b: string, k: nat)
    requires a != [] && b != [] && a[0] == b[0]
    ensures FirstDifference(a[1..], b[1..], k) <==> FirstDifference(a, b, k + 1)
  {
    if k < |a| && k < |b| {
      assert a[..k + 1] == [a[0]] + a[1..][..k] && b[..k + 1] == [b[0]] + b[1..][..k];
      assert a[..k + 1] == b[..k + 1] ==> a[1..][..k] == a[..k + 1][1..] == b[1..][..k];
    }
  }

  lemma {:induction false} LessIsTotal(a: string, b: string)
    ensures Less(a, b) || Less(b, a) || a == b
    ensures !(Less(a, b) && Less(b, a)) && !Less(a, a)
    decreases |a|
  {
    if a != [] && b != [] && a[0] == b[0] {
      LessIsTotal(a[1..], b[1..]);
      assert a == [a[0]] + a[1..] && b == [b[0]] + b[1..];
    }
    if a != [] {
      LessIsIrreflexive(a);
    }
  }

  lemma {:induction false} LessIsIrreflexive(a: string)
    ensures !Less(a, a)
  {
    if a != [] {
      LessIsIrreflexive(a[1..]);
    }
  }

  lemma {:induction false} LessIsTransitive(a: string, b: string, c: string)
    requires Less(a, b) && Less(b, c)
    ensures Less(a, c)
    decreases |a|
  {
    if a != [] && b != [] && c != [] && a[0] == b[0] == c[0] {
      LessIsTransitive(a[1..], b[1..], c[1..]);
    }
  }

  function Insert(p: Pin, s: seq<Pin>): seq<Pin> {
    if s == [] then [p]
    else if !Less(s[0].slug, p.slug) then [p] + s
    else [s[0]] + Insert(p, s[1..])
  }

  function Sort(s: seq<Pin>): seq<Pin> {
    if s == [] then [] else Insert(s[0], Sort(s[1..]))
  }

  ghost predicate Ascending(s: seq<Pin>) {
    forall i, j | 0 <= i < j < |s| :: Less(s[i].slug, s[j].slug)
  }

  ghost predicate DistinctSlugs(s: seq<Pin>) {
    forall i, j | 0 <= i < j < |s| :: s[i].slug != s[j].slug
  }

  function Elements(s: seq<Pin>): set<Pin> { set p | p in s }

  lemma {:induction false} InsertIsAscending(p: Pin, s: seq<Pin>)
    requires Ascending(s) && forall q | q in s :: q.slug != p.slug
    ensures Ascending(Insert(p, s))
    ensures Elements(Insert(p, s)) == Elements(s) + {p}
  {
    if s == [] {
    } else {
      LessIsTotal(p.slug, s[0].slug);
      if Less(s[0].slug, p.slug) {
        InsertIsAscending(p, s[1..]);
        var tail := Insert(p, s[1..]);
        assert s == [s[0]] + s[1..];
        forall q | q in tail
          ensures Less(s[0].slug, q.slug)
        {
          assert q in Elements(tail);
        }
      } else {
        forall j | 0 <= j < |s|
          ensures Less(p.slug, s[j].slug)
        {
          if j > 0 {
            LessIsTransitive(p.slug, s[0].slug, s[j].slug);
          }
        }
      }
    }
  }

  lemma {:induction false} SortIsAscending(s: seq<Pin>)
    requires DistinctSlugs(s)
    ensures Ascending(Sort(s)) && Elements(Sort(s)) == Elements(s)
  {
    if s == [] {
    } else {
      SortIsAscending(s[1..]);
      forall q | q in Sort(s[1..])
        ensures q.slug != s[0].slug
      {
        assert q in Elements(s[1..]);
      }
      InsertIsAscending(s[0], Sort(s[1..]));
      assert s == [s[0]] + s[1..];
    }
  }

  lemma NonEmptyToo(a: seq<Pin>, b: seq<Pin>)
    requires Elements(a) == Elements(b) && a != []
    ensures b != []
  {
    assert a[0] in Elements(a);
  }

  /** An ascending listing is determined by its elements. */
  lemma {:induction false} AscendingIsUnique(a: seq<Pin>, b: seq<Pin>)
    requires Ascending(a) && Ascending(b) && Elements(a) == Elements(b)
    ensures a == b
  {
    if a != [] {
      NonEmptyToo(a, b);
    }
    if b != [] {
      NonEmptyToo(b, a);
    }
    if a == [] {
    } else {
      assert a[0] in Elements(b) && b[0] in Elements(a);
      var i :| 0 <= i < |b| && b[i] == a[0];
      var j :| 0 <= j < |a| && a[j] == b[0];
      if i > 0 && j > 0 {
        LessIsTotal(a[0].slug, b[0].slug);
      }
      LessIsIrreflexive(a[0].slug);
      LessIsIrreflexive(b[0].slug);
      TailElements(a);
      TailElements(b);
      AscendingIsUnique(a[1..], b[1..]);
      assert a == [a[0]] + a[1..] && b == [b[0]] + b[1..];
    }
  }

  lemma TailElements(a: seq<Pin>)
    requires Ascending(a) && a != []
    ensures Elements(a[1..]) == Elements(a) - {a[0]}
  {
    LessIsIrreflexive(a[0].slug);
    assert forall p | p in a[1..] :: p != a[0];
    assert a == [a[0]] + a[1..];
  }

  // --- JSON strings -------------------------------------------------------------------

  // A text is written in front of what follows it, so that nothing needs regrouping.

  function HexDigit(k: nat): (c: char)
    requires k < 16
    ensures '0' <= c <= '9' || 'a' <= c <= 'f'
  {
    if k < 10 then ('0' as int + k) as char else ('a' as int + k - 10) as char
  }

  /** One UTF-16 unit, `\uXXXX`. */
  function Unit(n: nat): (s: string)
    requires n < 0x1_0000
    ensures |s| == 6
  {
    ['\\', 'u', HexDigit(n / 4096), HexDigit(n / 256 % 16), HexDigit(n / 16 % 16), HexDigit(n % 16)]
  }

  predicate Short(c: char) {
    c == '"' || c == '\\' || c == '\n' || c == '\r' || c == '\t' || c == '\U{0008}' || c == '\U{000C}'
  }

  function Letter(c: char): (d: char)
    requires Short(c)
    ensures d != 'u'
  {
    if c == '\n' then 'n' else if c == '\r' then 'r' else if c == '\t' then 't'
    else if c == '\U{0008}' then 'b' else if c == '\U{000C}' then 'f' else c
  }

  predicate Plain(c: char) { !Short(c) && ' ' <= c <= '~' }

  predicate Wide(c: char) { c as int >= 0x1_0000 }

  function High(c: char): (n: nat)
    requires Wide(c)
    ensures 0xD800 <= n < 0xDC00
  {
    0xD800 + (c as int - 0x1_0000) / 1024
  }

  function Low(c: char): (n: nat)
    requires Wide(c)
    ensures 0xDC00 <= n < 0xE000
  {
    0xDC00 + (c as int - 0x1_0000) % 1024
  }

  /** One character of a JSON string, everything but printable ASCII escaped. */
  function Escape(c: char, rest: string): string {
    if Plain(c) then [c] + rest
    else if Short(c) then ['\\', Letter(c)] + rest
    else if Wide(c) then Unit(High(c)) + (Unit(Low(c)) + rest)
    else Unit(c as int) + rest
  }

  function Body(s: string, rest: string): string {
    if s == [] then ['"'] + rest else Escape(s[0], Body(s[1..], rest))
  }

  function Quote(s: string, rest: string): string { ['"'] + Body(s, rest) }

  lemma Cancel(p: string, x: string, y: string)
    requires p + x == p + y
    ensures x == y
  {
    assert (p + x)[|p|..] == x && (p + y)[|p|..] == y;
  }

  lemma DigitsMakeTheNumber(n: nat)
    requires n < 0x1_0000
    ensures n == n / 4096 * 4096 + n / 256 % 16 * 256 + n / 16 % 16 * 16 + n % 16
  {
    var a := n / 16;
    var b := a / 16;
    var c := b / 16;
    assert n == a * 16 + n % 16 && a == b * 16 + a % 16 && b == c * 16 + b % 16;
    assert b == n / 256;
    assert c == n / 4096;
  }

  lemma HexDigitIsInjective(j: nat, k: nat)
    requires j < 16 && k < 16 && HexDigit(j) == HexDigit(k)
    ensures j == k
  {
  }

  lemma UnitCancels(m: nat, n: nat, x: string, y: string)
    requires m < 0x1_0000 && n < 0x1_0000 && Unit(m) + x == Unit(n) + y
    ensures m == n && x == y
  {
    var s := Unit(m) + x;
    assert s[2] == Unit(m)[2] == Unit(n)[2] && s[3] == Unit(m)[3] == Unit(n)[3];
    assert s[4] == Unit(m)[4] == Unit(n)[4] && s[5] == Unit(m)[5] == Unit(n)[5];
    HexDigitIsInjective(m / 4096, n / 4096);
    HexDigitIsInjective(m / 256 % 16, n / 256 % 16);
    HexDigitIsInjective(m / 16 % 16, n / 16 % 16);
    HexDigitIsInjective(m % 16, n % 16);
    DigitsMakeTheNumber(m);
    DigitsMakeTheNumber(n);
    Cancel(Unit(m), x, y);
  }

  lemma EscapeStarts(c: char, x: string)
    ensures var s := Escape(c, x);
            && s != [] && s[0] != '"'
            && (Plain(c) ==> s[0] == c)
            && (!Plain(c) ==> |s| > 1 && s[0] == '\\' && s[1] == if Short(c) then Letter(c) else 'u')
  {
  }

  lemma EscapeCancels(c: char, d: char, x: string, y: string)
    requires Escape(c, x) == Escape(d, y)
    ensures c == d && x == y
  {
    EscapeStarts(c, x);
    EscapeStarts(d, y);
    if Plain(c) {
      Cancel([c], x, y);
    } else if Short(c) {
      Cancel(['\\', Letter(c)], x, y);
    } else {
      var x' := if Wide(c) then Unit(Low(c)) + x else x;
      var y' := if Wide(d) then Unit(Low(d)) + y else y;
      UnitCancels(if Wide(c) then High(c) else c as int, if Wide(d) then High(d) else d as int, x', y');
      if Wide(c) {
        UnitCancels(Low(c), Low(d), x, y);
      }
    }
  }

  lemma {:induction false} BodyCancels(a: string, b: string, x: string, y: string)
    requires Body(a, x) == Body(b, y)
    ensures a == b && x == y
    decreases |a|
  {
    if a != [] {
      EscapeStarts(a[0], Body(a[1..], x));
    }
    if b != [] {
      EscapeStarts(b[0], Body(b[1..], y));
    }
    assert Body(a, x)[0] == '"' <==> a == [];
    assert Body(b, y)[0] == '"' <==> b == [];
    if a == [] {
      Cancel(['"'], x, y);
    } else {
      EscapeCancels(a[0], b[0], Body(a[1..], x), Body(b[1..], y));
      BodyCancels(a[1..], b[1..], x, y);
      assert a == [a[0]] + a[1..] && b == [b[0]] + b[1..];
    }
  }

  /** A JSON string ends where it says it ends. */
  lemma QuoteCancels(a: string, b: string, x: string, y: string)
    requires Quote(a, x) == Quote(b, y)
    ensures a == b && x == y
  {
    Cancel(['"'], Body(a, x), Body(b, y));
    BodyCancels(a, b, x, y);
  }

  // --- the document -------------------------------------------------------------------

  /** A key with its punctuation, and its value. */
  function Field(key: string, value: string, rest: string): string { key + Quote(value, rest) }

  const FILENAME := "    {\n      \"filename\": "
  const SLUG := ",\n      \"slug\": "
  const TAG := ",\n      \"tag\": "
  const URL := ",\n      \"url\": "
  const END := "\n    }"

  /** An entry, its keys in order, indented by two. */
  function Item(p: Pin, rest: string): string {
    Field(FILENAME, p.filename, Field(SLUG, p.slug, Field(TAG, p.tag, Field(URL, p.url, END + rest))))
  }

  const CLOSE := "\n  ]"
  const NEXT := ",\n"

  function Items(s: seq<Pin>, rest: string): string
    requires s != []
  {
    Item(s[0], if |s| == 1 then CLOSE + rest else NEXT + Items(s[1..], rest))
  }

  const OPEN := "{\n  \"plugins\": ["
  const VERSION := ",\n  \"version\": 1\n}\n"

  function Document(s: seq<Pin>): string {
    OPEN + if s == [] then [']'] + VERSION else ['\n'] + Items(s, VERSION)
  }

  lemma FieldCancels(key: string, a: string, b: string, x: string, y: string)
    requires Field(key, a, x) == Field(key, b, y)
    ensures a == b && x == y
  {
    Cancel(key, Quote(a, x), Quote(b, y));
    QuoteCancels(a, b, x, y);
  }

  /** Whatever the keys and the punctuation are. */
  lemma FourFieldsCancel(k1: string, k2: string, k3: string, k4: string, end: string, p: Pin, q: Pin, x: string, y: string)
    requires Field(k1, p.filename, Field(k2, p.slug, Field(k3, p.tag, Field(k4, p.url, end + x))))
          == Field(k1, q.filename, Field(k2, q.slug, Field(k3, q.tag, Field(k4, q.url, end + y))))
    ensures p == q && x == y
  {
    var p4, q4 := Field(k4, p.url, end + x), Field(k4, q.url, end + y);
    var p3, q3 := Field(k3, p.tag, p4), Field(k3, q.tag, q4);
    var p2, q2 := Field(k2, p.slug, p3), Field(k2, q.slug, q3);
    FieldCancels(k1, p.filename, q.filename, p2, q2);
    FieldCancels(k2, p.slug, q.slug, p3, q3);
    FieldCancels(k3, p.tag, q.tag, p4, q4);
    FieldCancels(k4, p.url, q.url, end + x, end + y);
    Cancel(end, x, y);
  }

  lemma ItemCancels(p: Pin, q: Pin, x: string, y: string)
    requires Item(p, x) == Item(q, y)
    ensures p == q && x == y
  {
    FourFieldsCancel(FILENAME, SLUG, TAG, URL, END, p, q, x, y);
  }

  lemma {:induction false} ItemsCancel(a: seq<Pin>, b: seq<Pin>, x: string, y: string)
    requires a != [] && b != [] && Items(a, x) == Items(b, y)
    ensures a == b
  {
    var a1 := if |a| == 1 then CLOSE + x else NEXT + Items(a[1..], x);
    var b1 := if |b| == 1 then CLOSE + y else NEXT + Items(b[1..], y);
    ItemCancels(a[0], b[0], a1, b1);
    assert a1[0] == (if |a| == 1 then '\n' else ',') && b1[0] == (if |b| == 1 then '\n' else ',');
    if |a| > 1 {
      Cancel(NEXT, Items(a[1..], x), Items(b[1..], y));
      ItemsCancel(a[1..], b[1..], x, y);
    }
    assert a == [a[0]] + a[1..] && b == [b[0]] + b[1..];
  }

  lemma DocumentIsInjective(a: seq<Pin>, b: seq<Pin>)
    requires Document(a) == Document(b)
    ensures a == b
  {
    var a1 := if a == [] then [']'] + VERSION else ['\n'] + Items(a, VERSION);
    var b1 := if b == [] then [']'] + VERSION else ['\n'] + Items(b, VERSION);
    Cancel(OPEN, a1, b1);
    assert a1[0] == (if a == [] then ']' else '\n') && b1[0] == (if b == [] then ']' else '\n');
    if a != [] {
      Cancel(['\n'], Items(a, VERSION), Items(b, VERSION));
      ItemsCancel(a, b, VERSION, VERSION);
    }
  }

  // --- the selection --------------------------------------------------------------------

  function PinOf(r: Plugin): Pin { Pin(r.slug, r.tag, r.filename, r.url) }

  function Pins(rows: seq<Plugin>): seq<Pin> {
    seq(|rows|, i requires 0 <= i < |rows| => PinOf(rows[i]))
  }

  /** `selection_json`. */
  function SelectionJson(rows: seq<Plugin>): string { Document(Sort(Pins(rows))) }

  ghost predicate Distinct(rows: seq<Plugin>) {
    forall i, j | 0 <= i < j < |rows| :: rows[i].slug != rows[j].slug
  }

  ghost function PinSet(rows: seq<Plugin>): set<Pin> { set r | r in rows :: PinOf(r) }

  lemma PinsAreThePins(rows: seq<Plugin>)
    requires Distinct(rows)
    ensures DistinctSlugs(Pins(rows)) && Elements(Pins(rows)) == PinSet(rows)
  {
    forall p
      ensures p in Elements(Pins(rows)) <==> p in PinSet(rows)
    {
      if p in PinSet(rows) {
        var i :| 0 <= i < |rows| && PinOf(rows[i]) == p;
        assert Pins(rows)[i] == p;
      }
    }
  }

  /** Two selections have one text exactly when they pin the same plugins, in whatever order the rows come. */
  lemma TextIsThePins(a: seq<Plugin>, b: seq<Plugin>)
    requires Distinct(a) && Distinct(b)
    ensures SelectionJson(a) == SelectionJson(b) <==> PinSet(a) == PinSet(b)
  {
    PinsAreThePins(a);
    PinsAreThePins(b);
    SortIsAscending(Pins(a));
    SortIsAscending(Pins(b));
    if SelectionJson(a) == SelectionJson(b) {
      DocumentIsInjective(Sort(Pins(a)), Sort(Pins(b)));
    }
    if PinSet(a) == PinSet(b) {
      AscendingIsUnique(Sort(Pins(a)), Sort(Pins(b)));
    }
  }
}
