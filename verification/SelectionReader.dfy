/**
 What a reader of `selection.json` gets: a reader of JSON's tokens (RFC 8259) that knows
 nothing of how the text was written, and what it makes of a selection's text.
 */
module SelectionReader {
  import opened Options
  import opened Db
  import opened SelectionText

  // --- strings (section 7 of RFC 8259) ------------------------------------------------

  function HexValue(c: char): Option<nat> {
    if '0' <= c <= '9' then Some(c as int - '0' as int)
    else if 'a' <= c <= 'f' then Some(c as int - 'a' as int + 10)
    else if 'A' <= c <= 'F' then Some(c as int - 'A' as int + 10)
    else None
  }

  /** Four hexadecimal digits. */
  function ReadUnit(s: string): (n: Option<nat>)
    requires |s| >= 4
    ensures n.Some? ==> n.value < 0x1_0000
  {
    var a, b, c, d := HexValue(s[0]), HexValue(s[1]), HexValue(s[2]), HexValue(s[3]);
    if a.Some? && b.Some? && c.Some? && d.Some? then SomeUnit(a.value, b.value, c.value, d.value) else None
  }

  function SomeUnit(a: nat, b: nat, c: nat, d: nat): (n: Option<nat>)
    ensures n.Some? ==> n.value < 0x1_0000
  {
    if a < 16 && b < 16 && c < 16 && d < 16 then Some(a * 4096 + b * 256 + c * 16 + d) else None
  }

  function ShortEscape(c: char): Option<char> {
    if c == '"' || c == '\\' || c == '/' then Some(c)
    else if c == 'b' then Some('\U{0008}')
    else if c == 'f' then Some('\U{000C}')
    else if c == 'n' then Some('\n')
    else if c == 'r' then Some('\r')
    else if c == 't' then Some('\t')
    else None
  }

  /** One character of a string, and what follows it. */
  function ReadChar(s: string): (r: Option<(char, string)>)
    requires s != ""
    ensures r.Some? ==> |r.value.1| < |s|
  {
    if s[0] != '\\' then (if s[0] < ' ' then None else Some((s[0], s[1..])))
    else if |s| >= 2 && s[1] != 'u' then
      match ShortEscape(s[1])
      case Some(c) => Some((c, s[2..]))
      case None => None
    else if |s| >= 6 then
      match ReadUnit(s[2..])
      case None => None
      case Some(n) =>
        if n < 0xD800 || n >= 0xE000 then Some((n as char, s[6..]))
        else ReadPair(n, s[6..])
    else None
  }

  /** The second half of a surrogate pair. */
  function ReadPair(high: nat, s: string): (r: Option<(char, string)>)
    requires 0xD800 <= high < 0xE000
    ensures r.Some? ==> |r.value.1| <= |s|
  {
    if high >= 0xDC00 || |s| < 6 || s[0] != '\\' || s[1] != 'u' then None
    else
      match ReadUnit(s[2..])
      case None => None
      case Some(low) =>
        if 0xDC00 <= low < 0xE000
        then Some(((0x1_0000 + (high - 0xD800) * 1024 + (low - 0xDC00)) as char, s[6..])) else None
  }

  /** A string up to its closing quote. */
  function ReadText(s: string): (r: Option<(string, string)>)
    ensures r.Some? ==> |r.value.1| < |s|
  {
    if s == "" then None
    else if s[0] == '"' then Some(("", s[1..]))
    else
      match ReadChar(s)
      case None => None
      case Some((c, rest)) =>
        match ReadText(rest)
        case None => None
        case Some((text, after)) => Some(([c] + text, after))
  }

  lemma HexReads(k: nat)
    requires k < 16
    ensures HexValue(HexDigit(k)) == Some(k)
  {
  }

  lemma FourHexRead(n: nat)
    requires n < 0x1_0000
    ensures var u := Unit(n);
            && HexValue(u[2]) == Some(n / 4096) && HexValue(u[3]) == Some(n / 256 % 16)
            && HexValue(u[4]) == Some(n / 16 % 16) && HexValue(u[5]) == Some(n % 16)
  {
    HexReads(n / 4096);
    HexReads(n / 256 % 16);
    HexReads(n / 16 % 16);
    HexReads(n % 16);
  }

  lemma UnitReads(n: nat, rest: string)
    requires n < 0x1_0000
    ensures var s := Unit(n) + rest;
            |s| >= 6 && s[0] == '\\' && s[1] == 'u' && s[6..] == rest && ReadUnit(s[2..]) == Some(n)
  {
    var s, u := Unit(n) + rest, Unit(n);
    assert s[2..][0] == u[2] && s[2..][1] == u[3] && s[2..][2] == u[4] && s[2..][3] == u[5];
    FourHexRead(n);
    DigitsMakeTheNumber(n);
  }

  lemma WideIsAPair(c: char)
    requires Wide(c)
    ensures 0x1_0000 + (High(c) - 0xD800) * 1024 + (Low(c) - 0xDC00) == c as int
  {
  }

  lemma PairReads(c: char, rest: string)
    requires Wide(c)
    ensures ReadPair(High(c), Unit(Low(c)) + rest) == Some((c, rest))
  {
    UnitReads(Low(c), rest);
    WideIsAPair(c);
  }

  lemma WideReads(c: char, rest: string)
    requires Wide(c)
    ensures ReadChar(Unit(High(c)) + (Unit(Low(c)) + rest)) == Some((c, rest))
  {
    UnitReads(High(c), Unit(Low(c)) + rest);
    PairReads(c, rest);
  }

  lemma ShortReads(c: char, rest: string)
    requires Short(c)
    ensures ReadChar(['\\', Letter(c)] + rest) == Some((c, rest))
  {
    assert (['\\', Letter(c)] + rest)[2..] == rest;
  }

  /** Every escape means its character. */
  lemma EscapeReads(c: char, rest: string)
    ensures Escape(c, rest) != "" && Escape(c, rest)[0] != '"' && ReadChar(Escape(c, rest)) == Some((c, rest))
  {
    if Plain(c) {
      assert ([c] + rest)[1..] == rest;
    } else if Short(c) {
      ShortReads(c, rest);
    } else if Wide(c) {
      WideReads(c, rest);
    } else {
      UnitReads(c as int, rest);
    }
  }

  lemma {:induction false} BodyReads(text: string, rest: string)
    ensures ReadText(Body(text, rest)) == Some((text, rest))
  {
    if text == "" {
      assert (['"'] + rest)[1..] == rest;
    } else {
      EscapeReads(text[0], Body(text[1..], rest));
      BodyReads(text[1..], rest);
      assert text == [text[0]] + text[1..];
    }
  }

  // --- tokens -------------------------------------------------------------------------

  datatype Token = Mark(c: char) | Text(text: string) | One

  predicate Blank(c: char) { c == ' ' || c == '\n' || c == '\r' || c == '\t' }

  predicate IsMark(c: char) { c == '{' || c == '}' || c == '[' || c == ']' || c == ':' || c == ',' }

  function Behind(t: Token, more: Option<seq<Token>>): Option<seq<Token>> {
    if more.None? then None else Some([t] + more.value)
  }

  /** The tokens of a text; of numbers it knows the one digit there is here. */
  function Tokens(s: string): Option<seq<Token>>
    decreases |s|
  {
    if s == "" then Some([])
    else if Blank(s[0]) then Tokens(s[1..])
    else if IsMark(s[0]) then Behind(Mark(s[0]), Tokens(s[1..]))
    else if s[0] == '1' then Behind(One, Tokens(s[1..]))
    else if s[0] == '"' then
      match ReadText(s[1..])
      case None => None
      case Some((text, rest)) => Behind(Text(text), Tokens(rest))
    else None
  }

  lemma {:induction false} BlanksAreSkipped(blanks: string, rest: string)
    requires forall c | c in blanks :: Blank(c)
    ensures Tokens(blanks + rest) == Tokens(rest)
  {
    if blanks == "" {
      assert blanks + rest == rest;
    } else {
      assert blanks[0] in blanks && (blanks + rest)[1..] == blanks[1..] + rest;
      BlanksAreSkipped(blanks[1..], rest);
    }
  }

  lemma MarkReads(c: char, rest: string)
    requires IsMark(c)
    ensures Tokens([c] + rest) == Behind(Mark(c), Tokens(rest))
  {
    assert ([c] + rest)[1..] == rest;
  }

  lemma QuoteReads(text: string, rest: string)
    ensures Tokens(Quote(text, rest)) == Behind(Text(text), Tokens(rest))
  {
    BodyReads(text, rest);
    assert Quote(text, rest)[1..] == Body(text, rest);
  }

  /** A key as it stands in the text. */
  lemma {:induction false} PlainBody(key: string, rest: string)
    requires forall c | c in key :: Plain(c)
    ensures Body(key, rest) == key + (['"'] + rest)
  {
    var quoted := ['"'] + rest;
    if key == "" {
      assert key + quoted == quoted;
    } else {
      assert key[0] in key;
      PlainBody(key[1..], rest);
      assert Body(key, rest) == [key[0]] + Body(key[1..], rest);
      FirstAndRest(key, quoted);
    }
  }

  lemma FirstAndRest(key: string, rest: string)
    requires key != ""
    ensures [key[0]] + (key[1..] + rest) == key + rest
  {
  }

  /** A key with its punctuation, taken apart. */
  function KeyText(mark: char, blanks: string, key: string): string {
    [mark] + blanks + ['"'] + key + ['"', ':', ' ']
  }

  lemma KeyTextSplits(mark: char, blanks: string, key: string, tail: string)
    ensures KeyText(mark, blanks, key) + tail == [mark] + (blanks + (['"'] + (key + (['"'] + ([':'] + ([' '] + tail))))))
  {
  }

  predicate AllBlank(s: string) { forall c | c in s :: Blank(c) }

  predicate AllPlain(s: string) { forall c | c in s :: Plain(c) }

  // --- the document ---------------------------------------------------------------------

  function Before(ts: seq<Token>, more: Option<seq<Token>>): Option<seq<Token>> {
    if more.None? then None else Some(ts + more.value)
  }

  lemma BehindBefore(t: Token, ts: seq<Token>, more: Option<seq<Token>>)
    ensures Behind(t, Before(ts, more)) == Before([t] + ts, more)
  {
    if more.Some? {
      assert [t] + (ts + more.value) == ([t] + ts) + more.value;
    }
  }

  lemma BeforeTwice(a: seq<Token>, b: seq<Token>, more: Option<seq<Token>>)
    ensures Before(a, Before(b, more)) == Before(a + b, more)
  {
    if more.Some? {
      assert a + (b + more.value) == (a + b) + more.value;
    }
  }

  lemma ThreeBehind(a: Token, b: Token, c: Token, more: Option<seq<Token>>)
    ensures Behind(a, Behind(b, Behind(c, more))) == Before([a, b, c], more)
  {
    if more.Some? {
      assert [a] + ([b] + ([c] + more.value)) == [a, b, c] + more.value;
    }
  }

  /** A mark, blanks, a key and its colon. */
  lemma KeyReads(mark: char, blanks: string, key: string, tail: string)
    requires IsMark(mark) && AllBlank(blanks) && AllPlain(key)
    ensures Tokens(KeyText(mark, blanks, key) + tail) == Before([Mark(mark), Text(key), Mark(':')], Tokens(tail))
  {
    var spaced := [' '] + tail;
    var colon := [':'] + spaced;
    KeyTextSplits(mark, blanks, key, tail);
    PlainBody(key, colon);
    MarkReads(mark, blanks + Quote(key, colon));
    BlanksAreSkipped(blanks, Quote(key, colon));
    QuoteReads(key, colon);
    MarkReads(':', spaced);
    BlanksAreSkipped([' '], tail);
    ThreeBehind(Mark(mark), Text(key), Mark(':'), Tokens(tail));
  }

  /** One field of an object. */
  function FieldTokens(mark: char, key: string, value: string): seq<Token> {
    [Mark(mark), Text(key), Mark(':'), Text(value)]
  }

  lemma FieldReadsAs(mark: char, blanks: string, key: string, value: string, rest: string)
    requires IsMark(mark) && AllBlank(blanks) && AllPlain(key)
    ensures Tokens(Field(KeyText(mark, blanks, key), value, rest)) == Before(FieldTokens(mark, key, value), Tokens(rest))
  {
    KeyReads(mark, blanks, key, Quote(value, rest));
    QuoteReads(value, rest);
    BeforeOne([Mark(mark), Text(key), Mark(':')], Text(value), Tokens(rest));
    assert [Mark(mark), Text(key), Mark(':')] + [Text(value)] == FieldTokens(mark, key, value);
  }

  lemma BeforeOne(a: seq<Token>, t: Token, more: Option<seq<Token>>)
    ensures Before(a, Behind(t, more)) == Before(a + [t], more)
  {
    if more.Some? {
      assert a + ([t] + more.value) == (a + [t]) + more.value;
    }
  }

  /** A plugin as an object of the document. */
  function PluginTokens(slug: string, tag: string, filename: string, url: string): seq<Token> {
    FieldTokens('{', "filename", filename) + (FieldTokens(',', "slug", slug) + (FieldTokens(',', "tag", tag)
    + (FieldTokens(',', "url", url) + [Mark('}')])))
  }

  lemma KeysAreTheKeys()
    ensures FILENAME == "    " + KeyText('{', "\n      ", "filename")
    ensures SLUG == KeyText(',', "\n      ", "slug")
    ensures TAG == KeyText(',', "\n      ", "tag")
    ensures URL == KeyText(',', "\n      ", "url")
  {
  }

  lemma EndReads(rest: string)
    ensures Tokens(END + rest) == Before([Mark('}')], Tokens(rest))
  {
    assert END + rest == "\n    " + (['}'] + rest);
    BlanksAreSkipped("\n    ", ['}'] + rest);
    MarkReads('}', rest);
  }

  lemma ItemReads(p: Pin, rest: string)
    ensures Tokens(Item(p, rest)) == Before(PluginTokens(p.slug, p.tag, p.filename, p.url), Tokens(rest))
  {
    var blanks := "\n      ";
    var end := END + rest;
    var url := Field(URL, p.url, end);
    var tag := Field(TAG, p.tag, url);
    var slug := Field(SLUG, p.slug, tag);
    KeysAreTheKeys();
    EndReads(rest);
    FieldReadsAs(',', blanks, "url", p.url, end);
    FieldReadsAs(',', blanks, "tag", p.tag, url);
    FieldReadsAs(',', blanks, "slug", p.slug, tag);
    FirstFieldReads(p.filename, slug);
    BeforeFive(FieldTokens('{', "filename", p.filename), FieldTokens(',', "slug", p.slug), FieldTokens(',', "tag", p.tag),
               FieldTokens(',', "url", p.url), [Mark('}')], Tokens(rest));
  }

  lemma FirstFieldReads(filename: string, rest: string)
    ensures Tokens(Field(FILENAME, filename, rest)) == Before(FieldTokens('{', "filename", filename), Tokens(rest))
  {
    var key := KeyText('{', "\n      ", "filename");
    KeysAreTheKeys();
    assert FILENAME + Quote(filename, rest) == "    " + (key + Quote(filename, rest));
    BlanksAreSkipped("    ", Field(key, filename, rest));
    FieldReadsAs('{', "\n      ", "filename", filename, rest);
  }

  lemma BeforeFive(a: seq<Token>, b: seq<Token>, c: seq<Token>, d: seq<Token>, e: seq<Token>, more: Option<seq<Token>>)
    ensures Before(a, Before(b, Before(c, Before(d, Before(e, more))))) == Before(a + (b + (c + (d + e))), more)
  {
    BeforeTwice(d, e, more);
    BeforeTwice(c, d + e, more);
    BeforeTwice(b, c + (d + e), more);
    BeforeTwice(a, b + (c + (d + e)), more);
  }

  /** The plugins, with commas between. */
  function ListTokens(s: seq<Pin>): seq<Token>
    requires s != []
  {
    PluginTokens(s[0].slug, s[0].tag, s[0].filename, s[0].url)
    + if |s| == 1 then [] else [Mark(',')] + ListTokens(s[1..])
  }

  lemma CloseReads(rest: string)
    ensures Tokens(CLOSE + rest) == Before([Mark(']')], Tokens(rest))
  {
    assert CLOSE + rest == "\n  " + ([']'] + rest);
    BlanksAreSkipped("\n  ", [']'] + rest);
    MarkReads(']', rest);
  }

  lemma NextReads(rest: string)
    ensures Tokens(NEXT + rest) == Before([Mark(',')], Tokens(rest))
  {
    assert NEXT + rest == [','] + ("\n" + rest);
    MarkReads(',', "\n" + rest);
    BlanksAreSkipped("\n", rest);
  }

  lemma {:induction false} ItemsRead(s: seq<Pin>, rest: string)
    requires s != []
    ensures Tokens(Items(s, rest)) == Before(ListTokens(s) + [Mark(']')], Tokens(rest))
  {
    var first := PluginTokens(s[0].slug, s[0].tag, s[0].filename, s[0].url);
    if |s| == 1 {
      ItemReads(s[0], CLOSE + rest);
      CloseReads(rest);
      BeforeTwice(first, [Mark(']')], Tokens(rest));
      assert first + [] == first;
    } else {
      ItemReads(s[0], NEXT + Items(s[1..], rest));
      NextReads(Items(s[1..], rest));
      ItemsRead(s[1..], rest);
      CommaBetween(first, ListTokens(s[1..]), Tokens(rest));
    }
  }

  lemma CommaBetween(first: seq<Token>, others: seq<Token>, more: Option<seq<Token>>)
    ensures Before(first, Before([Mark(',')], Before(others + [Mark(']')], more)))
         == Before(first + ([Mark(',')] + others) + [Mark(']')], more)
  {
    BeforeTwice([Mark(',')], others + [Mark(']')], more);
    BeforeTwice(first, [Mark(',')] + (others + [Mark(']')]), more);
    assert first + ([Mark(',')] + (others + [Mark(']')])) == first + ([Mark(',')] + others) + [Mark(']')];
  }

  // --- the selection --------------------------------------------------------------------

  /** Plugins as the reader sees them, one object each. */
  function RowTokens(rows: seq<Plugin>): seq<Token> {
    if rows == [] then []
    else
      PluginTokens(rows[0].slug, rows[0].tag, rows[0].filename, rows[0].url)
      + if |rows| == 1 then [] else [Mark(',')] + RowTokens(rows[1..])
  }

  const OPENING := [Mark('{'), Text("plugins"), Mark(':'), Mark('[')]
  const VERSIONED := [Mark(','), Text("version"), Mark(':'), One, Mark('}')]
  const CLOSING := [Mark(']')] + VERSIONED

  lemma OpenIsAKey(rest: string)
    ensures OPEN + rest == KeyText('{', "\n  ", "plugins") + (['['] + rest)
  {
    assert OPEN == KeyText('{', "\n  ", "plugins") + ['['];
  }

  lemma OpeningReads(rest: string)
    ensures Tokens(OPEN + rest) == Before(OPENING, Tokens(rest))
  {
    OpenIsAKey(rest);
    KeyReads('{', "\n  ", "plugins", ['['] + rest);
    MarkReads('[', rest);
    BeforeOne([Mark('{'), Text("plugins"), Mark(':')], Mark('['), Tokens(rest));
    assert [Mark('{'), Text("plugins"), Mark(':')] + [Mark('[')] == OPENING;
  }

  lemma NothingLeft()
    ensures Tokens("\n") == Some([])
  {
    BlanksAreSkipped("\n", "");
    assert "\n" + "" == "\n";
  }

  lemma OneReads(rest: string)
    ensures Tokens(['1'] + rest) == Behind(One, Tokens(rest))
  {
    assert (['1'] + rest)[1..] == rest;
  }

  lemma EndOfDocumentReads()
    ensures Tokens(['1'] + ("\n" + (['}'] + "\n"))) == Some([One, Mark('}')])
  {
    NothingLeft();
    MarkReads('}', "\n");
    BlanksAreSkipped("\n", ['}'] + "\n");
    var end := "\n" + (['}'] + "\n");
    assert [Mark('}')] + [] == [Mark('}')];
    OneReads(end);
    assert [One] + [Mark('}')] == [One, Mark('}')];
  }

  lemma VersionIsAKey()
    ensures VERSION == KeyText(',', "\n  ", "version") + (['1'] + ("\n" + (['}'] + "\n")))
  {
    assert ['1'] + ("\n" + (['}'] + "\n")) == "1\n}\n";
  }

  lemma VersionKeyReads(end: string)
    requires Tokens(end) == Some([One, Mark('}')])
    ensures Tokens(KeyText(',', "\n  ", "version") + end) == Some(VERSIONED)
  {
    KeyReads(',', "\n  ", "version", end);
    assert VERSIONED == [Mark(','), Text("version"), Mark(':')] + [One, Mark('}')];
  }

  lemma VersionReads()
    ensures Tokens(VERSION) == Some(VERSIONED)
  {
    EndOfDocumentReads();
    VersionKeyReads(['1'] + ("\n" + (['}'] + "\n")));
    VersionIsAKey();
  }

  lemma ListReads(list: string, ts: seq<Token>)
    requires Tokens(list) == Before(ts + [Mark(']')], Tokens(VERSION))
    ensures Tokens(OPEN + list) == Some(OPENING + ts + CLOSING)
  {
    OpeningReads(list);
    VersionReads();
    assert OPENING + ts + CLOSING == OPENING + ((ts + [Mark(']')]) + VERSIONED);
  }

  lemma DocumentReads(s: seq<Pin>)
    ensures Tokens(Document(s)) == Some(OPENING + (if s == [] then [] else ListTokens(s)) + CLOSING)
  {
    if s == [] {
      MarkReads(']', VERSION);
      ThatAndNothing(Tokens(VERSION));
      ListReads([']'] + VERSION, []);
    } else {
      BlanksAreSkipped(['\n'], Items(s, VERSION));
      ItemsRead(s, VERSION);
      ListReads(['\n'] + Items(s, VERSION), ListTokens(s));
    }
  }

  lemma ThatAndNothing(more: Option<seq<Token>>)
    ensures Behind(Mark(']'), more) == Before([] + [Mark(']')], more)
  {
    assert [] + [Mark(']')] == [Mark(']')];
  }

  /** The rows in the order of the sorted pins. */
  lemma {:induction false} RowsInOrder(rows: seq<Plugin>, s: seq<Pin>) returns (order: seq<Plugin>)
    requires forall p | p in s :: exists r :: r in rows && PinOf(r) == p
    ensures Pins(order) == s && forall r | r in order :: r in rows
  {
    order := [];
    if s != [] {
      assert s[0] in s && forall p | p in s[1..] :: p in s;
      var others := RowsInOrder(rows, s[1..]);
      var r :| r in rows && PinOf(r) == s[0];
      order := [r] + others;
      assert Pins(order) == [s[0]] + Pins(others);
      assert s == [s[0]] + s[1..];
    }
  }

  lemma {:induction false} ListIsOfRows(order: seq<Plugin>)
    requires order != []
    ensures ListTokens(Pins(order)) == RowTokens(order)
  {
    if |order| > 1 {
      assert Pins(order)[1..] == Pins(order[1..]);
      ListIsOfRows(order[1..]);
    }
  }

  /** Each row, and no other, once, by ascending slug. */
  ghost predicate Listing(rows: seq<Plugin>, order: seq<Plugin>) {
    && (forall r :: r in order <==> r in rows)
    && forall i, j | 0 <= i < j < |order| :: Less(order[i].slug, order[j].slug)
  }

  /**
   A reader of the text gets `plugins`, a list of every selected plugin once, by
   ascending slug, each with its own slug, tag, filename and url, and `version` 1.
   */
  lemma SelectionReadsBack(rows: seq<Plugin>) returns (order: seq<Plugin>)
    requires Distinct(rows)
    ensures Listing(rows, order) && Tokens(SelectionJson(rows)) == Some(OPENING + RowTokens(order) + CLOSING)
  {
    var s := Sort(Pins(rows));
    PinsAreThePins(rows);
    SortIsAscending(Pins(rows));
    forall p | p in s
      ensures exists r :: r in rows && PinOf(r) == p
    {
      assert p in Elements(s);
    }
    order := RowsInOrder(rows, s);
    DocumentReads(s);
    if order != [] {
      ListIsOfRows(order);
    }
    forall i, j | 0 <= i < j < |order|
      ensures Less(order[i].slug, order[j].slug)
    {
      assert Pins(order)[i].slug == order[i].slug && Pins(order)[j].slug == order[j].slug;
    }
    forall r | r in rows
      ensures r in order
    {
      assert PinOf(r) in Elements(s);
      var i :| 0 <= i < |s| && s[i] == PinOf(r);
      assert PinOf(order[i]) == s[i] && order[i] in order;
      SameSlugSameRow(rows, order[i], r);
    }
  }

  lemma SameSlugSameRow(rows: seq<Plugin>, a: Plugin, b: Plugin)
    requires Distinct(rows) && a in rows && b in rows && a.slug == b.slug
    ensures a == b
  {
  }
}
