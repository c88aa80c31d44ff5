/** JSON texts (RFC 8259) printed into the framer: every stream of objects, with any whitespace the
    grammar allows, is cut into exactly those objects. */
module JsonFraming {
  import opened Collections
  import opened Options
  import opened Framer

  /** One character of a string (section 7): unescaped, a two-character escape, or \uXXXX. */
  datatype StringChar = Plain(b: byte) | Escape(c: byte) | Unicode(hex: seq<byte>)

  datatype Json =
    | Null
    | True
    | False
    | Number(literal: seq<byte>)
    | Text(chars: seq<StringChar>)
    | Array(open: seq<byte>, items: seq<Element>)
    | Object(open: seq<byte>, members: seq<Member>)

  /** A value with the whitespace around it. */
  datatype Element = Element(pre: seq<byte>, value: Json, post: seq<byte>)
  datatype Member = Member(pre: seq<byte>, name: seq<StringChar>, mid: seq<byte>, element: Element)

  const COMMA: byte := 0x2C
  const COLON: byte := 0x3A
  const OPEN_BRACKET: byte := 0x5B
  const CLOSE_BRACKET: byte := 0x5D
  const LETTER_U: byte := 0x75

  /** Section 2: space, tab, line feed, carriage return. */
  predicate IsWhitespace(s: seq<byte>) {
    forall b | b in s :: b == 0x20 || b == 0x09 || b == 0x0A || b == 0x0D
  }

  predicate IsDigit(b: byte) { 0x30 <= b <= 0x39 }

  /** Any nonempty text over digits, sign, point and exponent, so every number of section 6. */
  predicate IsNumber(s: seq<byte>) {
    s != [] && forall b | b in s :: IsDigit(b) || b == 0x2B || b == 0x2D || b == 0x2E || b == 0x45 || b == 0x65
  }

  predicate IsHex(b: byte) { IsDigit(b) || 0x41 <= b <= 0x46 || 0x61 <= b <= 0x66 }

  /** Section 7; bytes of multi-byte UTF-8 characters are plain. */
  predicate ValidChar(c: StringChar) {
    match c
    case Plain(b) => b >= 0x20 && b != QUOTE && b != BACKSLASH
    case Escape(e) => e == QUOTE || e == BACKSLASH || e == 0x2F || e == 0x62 || e == 0x66
                      || e == 0x6E || e == 0x72 || e == 0x74
    case Unicode(h) => |h| == 4 && forall b | b in h :: IsHex(b)
  }

  predicate ValidText(chars: seq<StringChar>) { forall c | c in chars :: ValidChar(c) }

  predicate ValidJson(v: Json)
    decreases v
  {
    match v
    case Number(s) => IsNumber(s)
    case Text(chars) => ValidText(chars)
    case Array(open, items) => IsWhitespace(open) && forall e | e in items :: ValidElement(e)
    case Object(open, members) => IsWhitespace(open) && forall m | m in members :: ValidMember(m)
    case _ => true
  }

  predicate ValidElement(e: Element)
    decreases e
  {
    IsWhitespace(e.pre) && ValidJson(e.value) && IsWhitespace(e.post)
  }

  predicate ValidMember(m: Member)
    decreases m
  {
    IsWhitespace(m.pre) && ValidText(m.name) && IsWhitespace(m.mid) && ValidElement(m.element)
  }

  function PrintChar(c: StringChar): seq<byte> {
    match c
    case Plain(b) => [b]
    case Escape(e) => [BACKSLASH, e]
    case Unicode(h) => [BACKSLASH, LETTER_U] + h
  }

  function PrintChars(chars: seq<StringChar>): seq<byte> {
    if chars == [] then [] else PrintChar(chars[0]) + PrintChars(chars[1..])
  }

  function PrintText(chars: seq<StringChar>): seq<byte> {
    [QUOTE] + PrintChars(chars) + [QUOTE]
  }

  function Print(v: Json): seq<byte>
    decreases v
  {
    match v
    case Null => [0x6E, 0x75, 0x6C, 0x6C]
    case True => [0x74, 0x72, 0x75, 0x65]
    case False => [0x66, 0x61, 0x6C, 0x73, 0x65]
    case Number(s) => s
    case Text(chars) => PrintText(chars)
    case Array(open, items) => [OPEN_BRACKET] + (open + PrintItems(items, true)) + [CLOSE_BRACKET]
    case Object(open, members) => [OPEN] + (open + PrintMembers(members, true)) + [CLOSE]
  }

  function PrintElement(e: Element): seq<byte>
    decreases e
  {
    e.pre + Print(e.value) + e.post
  }

  function PrintMember(m: Member): seq<byte>
    decreases m
  {
    m.pre + PrintText(m.name) + m.mid + [COLON] + PrintElement(m.element)
  }

  function PrintItems(items: seq<Element>, first: bool): seq<byte>
    decreases items
  {
    if items == [] then []
    else (if first then [] else [COMMA]) + PrintElement(items[0]) + PrintItems(items[1..], false)
  }

  function PrintMembers(members: seq<Member>, first: bool): seq<byte>
    decreases members
  {
    if members == [] then []
    else (if first then [] else [COMMA]) + PrintMember(members[0]) + PrintMembers(members[1..], false)
  }

  // ---------------------------------------------------------------- passing over text

  function After(st: Scan, s: seq<byte>): Scan
    decreases |s|
  {
    if s == [] then st else After(Step(st, s[0]), s[1..])
  }

  /** Scanning `s` takes the scanner from `st` to `st'` without ending a frame. */
  ghost predicate Passes(s: seq<byte>, st: Scan, st': Scan) {
    Boundary(st, s) == None && After(st, s) == st'
  }

  lemma {:induction false} PassesConcat(a: seq<byte>, b: seq<byte>, st: Scan, mid: Scan, st': Scan)
    requires Passes(a, st, mid) && Passes(b, mid, st')
    ensures Passes(a + b, st, st')
    decreases |a|
  {
    if a == [] {
      assert a + b == b;
    } else {
      assert (a + b)[0] == a[0] && (a + b)[1..] == a[1..] + b;
      PassesConcat(a[1..], b, Step(st, a[0]), mid, st');
    }
  }

  lemma {:induction false} BoundaryAfter(a: seq<byte>, b: seq<byte>, st: Scan, mid: Scan)
    requires Passes(a, st, mid)
    ensures Boundary(st, a + b) == match Boundary(mid, b) case None => None case Some(n) => Some(|a| + n)
    decreases |a|
  {
    if a == [] {
      assert a + b == b;
    } else {
      assert (a + b)[0] == a[0] && (a + b)[1..] == a[1..] + b;
      BoundaryAfter(a[1..], b, Step(st, a[0]), mid);
    }
  }

  /** Text that leaves the scanner as it was, at every depth a value can have. */
  ghost predicate Neutral(s: seq<byte>) {
    forall d | d >= 1 :: Passes(s, Scan(d, false, false), Scan(d, false, false))
  }

  lemma {:induction false} NeutralConcat(a: seq<byte>, b: seq<byte>)
    requires Neutral(a) && Neutral(b)
    ensures Neutral(a + b)
  {
    forall d | d >= 1 ensures Passes(a + b, Scan(d, false, false), Scan(d, false, false)) {
      var st := Scan(d, false, false);
      PassesConcat(a, b, st, st, st);
    }
  }

  /** Bytes that mean nothing to the scanner outside strings. */
  predicate Inert(s: seq<byte>) {
    forall b | b in s :: b != QUOTE && b != OPEN && b != CLOSE
  }

  lemma {:induction false} InertPasses(s: seq<byte>, d: int)
    requires Inert(s)
    ensures Passes(s, Scan(d, false, false), Scan(d, false, false))
    decreases |s|
  {
    if s != [] {
      assert s[0] in s && forall b | b in s[1..] :: b in s;
      InertPasses(s[1..], d);
    }
  }

  lemma {:induction false} InertNeutral(s: seq<byte>)
    requires Inert(s)
    ensures Neutral(s)
  {
    forall d | d >= 1 ensures Passes(s, Scan(d, false, false), Scan(d, false, false)) {
      InertPasses(s, d);
    }
  }

  // ---------------------------------------------------------------- strings

  /** Hexadecimal digits are inert inside a string too. */
  lemma {:induction false} PlainRun(s: seq<byte>, d: int)
    requires forall b | b in s :: b != QUOTE && b != BACKSLASH
    ensures Passes(s, Scan(d, true, false), Scan(d, true, false))
    decreases |s|
  {
    if s != [] {
      assert s[0] in s && forall b | b in s[1..] :: b in s;
      PlainRun(s[1..], d);
    }
  }

  lemma {:induction false} EscapePasses(e: byte, d: int)
    ensures Passes([BACKSLASH, e], Scan(d, true, false), Scan(d, true, false))
  {
    var s := [BACKSLASH, e];
    assert s[1..] == [e] && [e][1..] == [];
    assert Step(Scan(d, true, false), BACKSLASH) == Scan(d, true, true);
    assert Step(Scan(d, true, true), e) == Scan(d, true, false);
    assert Boundary(Scan(d, true, true), [e]) == None;
    assert After(Scan(d, true, true), [e]) == Scan(d, true, false);
  }

  lemma {:induction false} CharPasses(c: StringChar, d: int)
    requires ValidChar(c)
    ensures Passes(PrintChar(c), Scan(d, true, false), Scan(d, true, false))
  {
    var st := Scan(d, true, false);
    match c
    case Plain(b) => PlainRun([b], d);
    case Escape(e) => EscapePasses(e, d);
    case Unicode(h) =>
      EscapePasses(LETTER_U, d);
      PlainRun(h, d);
      PassesConcat([BACKSLASH, LETTER_U], h, st, st, st);
  }

  lemma {:induction false} CharsPass(chars: seq<StringChar>, d: int)
    requires ValidText(chars)
    ensures Passes(PrintChars(chars), Scan(d, true, false), Scan(d, true, false))
    decreases |chars|
  {
    if chars != [] {
      var st := Scan(d, true, false);
      assert chars[0] in chars;
      CharPasses(chars[0], d);
      CharsPass(chars[1..], d);
      PassesConcat(PrintChar(chars[0]), PrintChars(chars[1..]), st, st, st);
    }
  }

  lemma {:induction false} QuotePasses(d: int, inString: bool)
    ensures Passes([QUOTE], Scan(d, inString, false), Scan(d, !inString, false))
  {
    assert [QUOTE][1..] == [];
    assert Boundary(Step(Scan(d, inString, false), QUOTE), []) == None;
  }

  /** Whatever a string contains, braces and quotes included, the scanner passes over it. */
  lemma {:induction false} TextNeutral(chars: seq<StringChar>)
    requires ValidText(chars)
    ensures Neutral(PrintText(chars))
  {
    forall d | d >= 1 ensures Passes(PrintText(chars), Scan(d, false, false), Scan(d, false, false)) {
      var outside, inside := Scan(d, false, false), Scan(d, true, false);
      CharsPass(chars, d);
      QuotePasses(d, false);
      QuotePasses(d, true);
      PassesConcat([QUOTE], PrintChars(chars), outside, inside, inside);
      PassesConcat([QUOTE] + PrintChars(chars), [QUOTE], outside, inside, outside);
    }
  }

  // ---------------------------------------------------------------- values

  lemma {:induction false} BracesPass(body: seq<byte>)
    requires Neutral(body)
    ensures Neutral([OPEN] + body + [CLOSE])
  {
    forall d | d >= 1 ensures Passes([OPEN] + body + [CLOSE], Scan(d, false, false), Scan(d, false, false)) {
      var st, deeper := Scan(d, false, false), Scan(d + 1, false, false);
      assert Passes([OPEN], st, deeper) by { assert [OPEN][1..] == []; assert Boundary(deeper, []) == None; }
      assert Passes([CLOSE], deeper, st) by { assert [CLOSE][1..] == []; assert Boundary(st, []) == None; }
      PassesConcat([OPEN], body, st, deeper, deeper);
      PassesConcat([OPEN] + body, [CLOSE], st, deeper, st);
    }
  }

  lemma {:induction false} JsonNeutral(v: Json)
    requires ValidJson(v)
    ensures Neutral(Print(v))
    decreases v
  {
    match v
    case Null => InertNeutral(Print(v));
    case True => InertNeutral(Print(v));
    case False => InertNeutral(Print(v));
    case Number(s) => InertNeutral(s);
    case Text(chars) => TextNeutral(chars);
    case Array(open, items) =>
      InertNeutral(open);
      ItemsNeutral(items, true);
      InertNeutral([OPEN_BRACKET]);
      InertNeutral([CLOSE_BRACKET]);
      NeutralConcat(open, PrintItems(items, true));
      NeutralConcat([OPEN_BRACKET], open + PrintItems(items, true));
      NeutralConcat([OPEN_BRACKET] + (open + PrintItems(items, true)), [CLOSE_BRACKET]);
    case Object(open, members) =>
      InertNeutral(open);
      MembersNeutral(members, true);
      NeutralConcat(open, PrintMembers(members, true));
      BracesPass(open + PrintMembers(members, true));
  }

  lemma {:induction false} ElementNeutral(e: Element)
    requires ValidElement(e)
    ensures Neutral(PrintElement(e))
    decreases e
  {
    InertNeutral(e.pre);
    JsonNeutral(e.value);
    InertNeutral(e.post);
    NeutralConcat(e.pre, Print(e.value));
    NeutralConcat(e.pre + Print(e.value), e.post);
  }

  lemma {:induction false} MemberNeutral(m: Member)
    requires ValidMember(m)
    ensures Neutral(PrintMember(m))
    decreases m
  {
    InertNeutral(m.pre);
    TextNeutral(m.name);
    InertNeutral(m.mid);
    InertNeutral([COLON]);
    ElementNeutral(m.element);
    NeutralConcat(m.pre, PrintText(m.name));
    NeutralConcat(m.pre + PrintText(m.name), m.mid);
    NeutralConcat(m.pre + PrintText(m.name) + m.mid, [COLON]);
    NeutralConcat(m.pre + PrintText(m.name) + m.mid + [COLON], PrintElement(m.element));
  }

  lemma {:induction false} SeparatorNeutral(first: bool)
    ensures Neutral(if first then [] else [COMMA])
  {
    InertNeutral(if first then [] else [COMMA]);
  }

  lemma {:induction false} ItemsNeutral(items: seq<Element>, first: bool)
    requires forall e | e in items :: ValidElement(e)
    ensures Neutral(PrintItems(items, first))
    decreases items
  {
    if items == [] {
      InertNeutral([]);
    } else {
      var separator := if first then [] else [COMMA];
      SeparatorNeutral(first);
      ElementNeutral(items[0]);
      ItemsNeutral(items[1..], false);
      NeutralConcat(separator, PrintElement(items[0]));
      NeutralConcat(separator + PrintElement(items[0]), PrintItems(items[1..], false));
    }
  }

  lemma {:induction false} MembersNeutral(members: seq<Member>, first: bool)
    requires forall m | m in members :: ValidMember(m)
    ensures Neutral(PrintMembers(members, first))
    decreases members
  {
    if members == [] {
      InertNeutral([]);
    } else {
      var separator := if first then [] else [COMMA];
      SeparatorNeutral(first);
      MemberNeutral(members[0]);
      MembersNeutral(members[1..], false);
      NeutralConcat(separator, PrintMember(members[0]));
      NeutralConcat(separator + PrintMember(members[0]), PrintMembers(members[1..], false));
    }
  }

  // ---------------------------------------------------------------- recovery

  /** An object, after any whitespace, is a frame as a whole and not before. */
  lemma {:induction false} ObjectIsFrame(ws: seq<byte>, v: Json, more: seq<byte>)
    requires IsWhitespace(ws) && ValidJson(v) && v.Object?
    ensures Boundary(START, ws + Print(v) + more) == Some(|ws + Print(v)|)
  {
    var body := v.open + PrintMembers(v.members, true);
    InertNeutral(v.open);
    MembersNeutral(v.members, true);
    NeutralConcat(v.open, PrintMembers(v.members, true));
    var inside := Scan(1, false, false);
    InertPasses(ws, 0);
    assert Passes([OPEN], START, inside) by { assert [OPEN][1..] == []; assert Boundary(inside, []) == None; }
    PassesConcat(ws, [OPEN], START, START, inside);
    PassesConcat(ws + [OPEN], body, START, inside, inside);
    BoundaryAfter(ws + [OPEN] + body, [CLOSE] + more, START, inside);
    Regroup(ws, [OPEN], body, [CLOSE], more);
  }

  lemma {:induction false} Regroup(a: seq<byte>, b: seq<byte>, c: seq<byte>, d: seq<byte>, e: seq<byte>)
    ensures a + (b + c + d) + e == a + b + c + (d + e)
  {
    assert a + (b + c + d) + e == a + b + c + (d + e);
  }

  /** An object of a stream with the whitespace in front of it. */
  datatype Document = Document(pre: seq<byte>, root: Json)

  ghost predicate ValidDocument(d: Document) {
    IsWhitespace(d.pre) && ValidJson(d.root) && d.root.Object?
  }

  function PrintDocument(d: Document): seq<byte> { d.pre + Print(d.root) }

  function PrintAll(docs: seq<Document>): seq<byte> {
    if docs == [] then [] else PrintDocument(docs[0]) + PrintAll(docs[1..])
  }

  function PrintEach(docs: seq<Document>): seq<seq<byte>> {
    if docs == [] then [] else [PrintDocument(docs[0])] + PrintEach(docs[1..])
  }

  /** Main result: a stream of printed objects is cut into exactly these objects, one frame each,
      and only the whitespace after the last one is left over. */
  lemma {:induction false} StreamRecovered(docs: seq<Document>, tail: seq<byte>)
    requires forall d | d in docs :: ValidDocument(d)
    requires IsWhitespace(tail)
    ensures Frames(PrintAll(docs) + tail) == (PrintEach(docs), tail)
    decreases |docs|
  {
    if docs == [] {
      assert PrintAll(docs) + tail == tail;
      InertPasses(tail, 0);
    } else {
      var d, rest := docs[0], PrintAll(docs[1..]) + tail;
      assert d in docs;
      var s := PrintAll(docs) + tail;
      assert s == PrintDocument(d) + rest;
      ObjectIsFrame(d.pre, d.root, rest);
      assert s[..|PrintDocument(d)|] == PrintDocument(d) && s[|PrintDocument(d)|..] == rest;
      StreamRecovered(docs[1..], tail);
    }
  }

  /** The same when the stream arrives in arbitrary chunks, cut anywhere, even inside a character. */
  lemma {:induction false} ChunkedStreamRecovered(docs: seq<Document>, tail: seq<byte>, chunks: seq<seq<byte>>)
    requires forall d | d in docs :: ValidDocument(d)
    requires IsWhitespace(tail)
    requires Flatten(chunks) == PrintAll(docs) + tail
    ensures FeedAll([], chunks) == (PrintEach(docs), tail)
  {
    StreamRecovered(docs, tail);
    assert [] + Flatten(chunks) == Flatten(chunks);
    ChunkingInvariance([], chunks);
  }

  lemma {:induction false} FrameEndsWithBrace(st: Scan, s: seq<byte>)
    ensures Boundary(st, s).Some? ==> s[Boundary(st, s).value - 1] == CLOSE
    decreases |s|
  {
    if s != [] && !Ends(st, s[0]) {
      FrameEndsWithBrace(Step(st, s[0]), s[1..]);
    }
  }

  lemma {:induction false} SoleFrameEndsWithBrace(s: seq<byte>)
    ensures Frames(s) == ([s], []) ==> s != [] && s[|s| - 1] == CLOSE
  {
    FrameEndsWithBrace(START, s);
    if Boundary(START, s).Some? {
      assert Frames(s).0[0] == s[..Boundary(START, s).value];
    }
  }

  lemma {:induction false} OnlyObjectsEndWithBrace(v: Json)
    requires ValidJson(v) && !v.Object?
    ensures Print(v) != [] ==> Print(v)[|Print(v)| - 1] != CLOSE
  {
    if v.Number? && Print(v) != [] {
      assert Print(v)[|Print(v)| - 1] in Print(v);
    }
  }

  /** Objects are the only JSON texts that come out of the framer as they went in. */
  lemma {:induction false} OnlyObjectsAreFrames(v: Json)
    requires ValidJson(v)
    ensures Frames(Print(v)) == ([Print(v)], []) <==> v.Object?
  {
    var s := Print(v);
    if v.Object? {
      ObjectIsFrame([], v, []);
      assert [] + s + [] == s && [] + s == s;
      assert s[..|s|] == s && s[|s|..] == [];
      assert Frames([]) == ([], []);
      assert [s] + [] == [s];
    } else {
      OnlyObjectsEndWithBrace(v);
      SoleFrameEndsWithBrace(s);
    }
  }
}
