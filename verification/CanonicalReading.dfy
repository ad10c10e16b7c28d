/** A reader of JSON texts without white space, after the grammar of RFC 8259, and that it reads canonical text back:
    the text means the value it was written for. */
module CanonicalReading {
  import opened Common
  import opened CanonicalJson
  import opened CanonicalNormalForms
  import opened CanonicalText

  /** What a reader makes of a text. A number with a point or an exponent stays as it is written. */
  datatype Doc =
    | NullDoc
    | BoolDoc(flag: bool)
    | IntDoc(n: int)
    | RealDoc(numeral: string)
    | TextDoc(text: Text)
    | ArrayDoc(items: List<Doc>)
    | ObjectDoc(members: List<Entry>)

  datatype Entry = Entry(key: Text, value: Doc)

  /** Something read, and the text after it. */
  datatype Read<+T> = Read(value: T, rest: string)

  // ---- strings, section 7 ----

  function HexValue(c: char): (r: Option<int>)
    ensures r.Some? ==> 0 <= r.value < 16
  {
    if '0' <= c <= '9' then Some(c as int - '0' as int)
    else if 'a' <= c <= 'f' then Some(c as int - 'a' as int + 10)
    else if 'A' <= c <= 'F' then Some(c as int - 'A' as int + 10)
    else None
  }

  function UnitValue(a: int, b: int, c: int, d: int): (u: int)
    requires 0 <= a < 16 && 0 <= b < 16 && 0 <= c < 16 && 0 <= d < 16
    ensures 0 <= u < 0x1_0000
  {
    4096 * a + 256 * b + 16 * c + d
  }

  /** `\u` and four hexadecimal digits. */
  function ReadUnit(s: string): (r: Option<Read<int>>)
    ensures r.Some? ==> |r.value.rest| < |s| && 0 <= r.value.value < 0x1_0000
  {
    if |s| < 6 || s[0] != '\\' || s[1] != 'u' then None else
      var a, b, c, d := HexValue(s[2]), HexValue(s[3]), HexValue(s[4]), HexValue(s[5]);
      if a.None? || b.None? || c.None? || d.None? then None
      else Some(Read(UnitValue(a.value, b.value, c.value, d.value), s[6..]))
  }

  function ReadShort(c: char): (r: Option<Scalar>) {
    match c
    case '\"' => Some(0x22)
    case '\\' => Some(0x5C)
    case '/' => Some(0x2F)
    case 'b' => Some(0x08)
    case 'f' => Some(0x0C)
    case 'n' => Some(0x0A)
    case 'r' => Some(0x0D)
    case 't' => Some(0x09)
    case _ => None
  }

  /** An escaped code unit, or a pair of surrogates for a character beyond the basic plane. */
  function ReadEscaped(s: string): (r: Option<Read<Scalar>>)
    ensures r.Some? ==> |r.value.rest| < |s|
  {
    var first := ReadUnit(s);
    if first.None? then None
    else if first.value.value < 0xD800 || first.value.value >= 0xE000 then
      Some(Read(first.value.value, first.value.rest))
    else
      var second := ReadUnit(first.value.rest);
      if second.None? || first.value.value >= 0xDC00 || !(0xDC00 <= second.value.value < 0xE000) then None
      else Some(Read(0x1_0000 + (first.value.value - 0xD800) * 1024 + (second.value.value - 0xDC00), second.value.rest))
  }

  /** One character of a string. */
  function ReadScalar(s: string): (r: Option<Read<Scalar>>)
    ensures r.Some? ==> |r.value.rest| < |s|
  {
    if s == "" || s[0] as int < 0x20 then None
    else if s[0] != '\\' then Some(Read(s[0] as int, s[1..]))
    else if |s| >= 2 && ReadShort(s[1]).Some? then Some(Read(ReadShort(s[1]).value, s[2..]))
    else ReadEscaped(s)
  }

  /** The characters of a string up to its closing quote. */
  function ReadText(s: string): (r: Option<Read<Text>>)
    ensures r.Some? ==> |r.value.rest| < |s|
    decreases |s|
  {
    if s == "" then None
    else if s[0] == '\"' then Some(Read([], s[1..]))
    else
      var first := ReadScalar(s);
      if first.None? then None else
        var more := ReadText(first.value.rest);
        if more.None? then None else Some(Read([first.value.value] + more.value.value, more.value.rest))
  }

  // ---- numbers, section 6 ----

  function DigitsValue(s: string): (n: nat) {
    if s == "" then 0
    else 10 * DigitsValue(s[..|s| - 1]) +
         (if '0' <= s[|s| - 1] <= '9' then s[|s| - 1] as int - '0' as int else 0)
  }

  /** Digits without a leading zero. */
  predicate IsNatural(s: string) {
    DigitText(s) && (s[0] == '0' ==> |s| == 1)
  }

  function ReadInteger(s: string): (r: Option<int>) {
    if IsNatural(s) then Some(DigitsValue(s))
    else if s != "" && s[0] == '-' && IsNatural(s[1..]) then Some(0 - DigitsValue(s[1..]))
    else None
  }

  /** How far the number at the head of a text goes. */
  function NumberLength(s: string): (n: nat)
    ensures n <= |s|
  {
    if s == "" || !NumberChar(s[0]) then 0 else 1 + NumberLength(s[1..])
  }

  function ReadNumber(s: string): (r: Option<Read<Doc>>)
    ensures r.Some? ==> |r.value.rest| < |s|
  {
    var n := NumberLength(s);
    if n == 0 then None
    else if ReadInteger(s[..n]).Some? then Some(Read(IntDoc(ReadInteger(s[..n]).value), s[n..]))
    else if HasFraction(s[..n]) then Some(Read(RealDoc(s[..n]), s[n..]))
    else None
  }

  // ---- values, sections 3 to 5 ----

  function ReadWord(s: string, word: string, doc: Doc): (r: Option<Read<Doc>>)
    requires word != ""
    ensures r.Some? ==> |r.value.rest| < |s|
  {
    if |word| <= |s| && s[..|word|] == word then Some(Read(doc, s[|word|..])) else None
  }

  /** The three literal names. */
  function ReadName(s: string): (r: Option<Read<Doc>>)
    ensures r.Some? ==> |r.value.rest| < |s|
  {
    if s == "" then None
    else if s[0] == 'n' then ReadWord(s, "null", NullDoc)
    else if s[0] == 't' then ReadWord(s, "true", BoolDoc(true))
    else ReadWord(s, "false", BoolDoc(false))
  }

  function ReadValue(s: string): (r: Option<Read<Doc>>)
    ensures r.Some? ==> |r.value.rest| < |s|
    decreases |s|, 1
  {
    if s == "" then None
    else if NumberChar(s[0]) then ReadNumber(s)
    else if s[0] == '\"' then
      var text := ReadText(s[1..]);
      if text.None? then None else Some(Read(TextDoc(text.value.value), text.value.rest))
    else if s[0] == '[' then
      var items := ReadItems(s[1..], true);
      if items.None? then None else Some(Read(ArrayDoc(items.value.value), items.value.rest))
    else if s[0] == '{' then
      var members := ReadMembers(s[1..], true);
      if members.None? then None else Some(Read(ObjectDoc(members.value.value), members.value.rest))
    else ReadName(s)
  }

  /** What follows a comma, which the first element does without. */
  function AfterComma(s: string, first: bool): (r: Option<string>)
    ensures r.Some? ==> |r.value| <= |s|
  {
    if first then Some(s) else if s != "" && s[0] == ',' then Some(s[1..]) else None
  }

  function ReadItems(s: string, first: bool): (r: Option<Read<List<Doc>>>)
    ensures r.Some? ==> |r.value.rest| < |s|
    decreases |s|, 2
  {
    if s == "" then None
    else if s[0] == ']' then Some(Read(Nil, s[1..]))
    else
      var body := AfterComma(s, first);
      if body.None? then None else
        var head := ReadValue(body.value);
        if head.None? then None else
          var tail := ReadItems(head.value.rest, false);
          if tail.None? then None else Some(Read(Cons(head.value.value, tail.value.value), tail.value.rest))
  }

  /** A quoted key and the colon after it. */
  function ReadKey(s: string): (r: Option<Read<Text>>)
    ensures r.Some? ==> |r.value.rest| < |s|
  {
    if s == "" || s[0] != '\"' then None else
      var key := ReadText(s[1..]);
      if key.None? || key.value.rest == "" || key.value.rest[0] != ':' then None
      else Some(Read(key.value.value, key.value.rest[1..]))
  }

  function ReadMembers(s: string, first: bool): (r: Option<Read<List<Entry>>>)
    ensures r.Some? ==> |r.value.rest| < |s|
    decreases |s|, 2
  {
    if s == "" then None
    else if s[0] == '}' then Some(Read(Nil, s[1..]))
    else
      var body := AfterComma(s, first);
      if body.None? then None else
        var key := ReadKey(body.value);
        if key.None? then None else
          var value := ReadValue(key.value.rest);
          if value.None? then None else
            var tail := ReadMembers(value.value.rest, false);
            if tail.None? then None
            else Some(Read(Cons(Entry(key.value.value, value.value.value), tail.value.value), tail.value.rest))
  }

  // ---- what a value should be read as ----

  function DocOf(show: real -> string, v: Json): (d: Doc) {
    match v
    case Null => NullDoc
    case Bool(flag) => BoolDoc(flag)
    case Int(n) => IntDoc(n)
    case Float(x) => RealDoc(show(x))
    case Str(text) => TextDoc(text)
    case Arr(items) => ArrayDoc(DocsOf(show, items))
    case Obj(members) => ObjectDoc(EntriesOf(show, members))
  }

  function DocsOf(show: real -> string, items: List<Json>): (d: List<Doc>) {
    match items
    case Nil => Nil
    case Cons(v, rest) => Cons(DocOf(show, v), DocsOf(show, rest))
  }

  function EntriesOf(show: real -> string, members: List<Member>): (d: List<Entry>) {
    match members
    case Nil => Nil
    case Cons(m, rest) => Cons(Entry(m.key, DocOf(show, m.value)), EntriesOf(show, rest))
  }

  // ---- strings are read back ----

  lemma HexReadBack(d: int)
    requires 0 <= d < 16
    ensures HexValue(HexDigit(d)) == Some(d)
  {
  }

  lemma UnitReadBack(u: int, rest: string)
    requires 0 <= u < 0x1_0000
    ensures ReadUnit(EscapedUnit(u, rest)) == Some(Read(u, rest))
  {
    var s := EscapedUnit(u, rest);
    assert s[6..] == rest;
    HexReadBack(u / 4096);
    HexReadBack(u / 256 % 16);
    HexReadBack(u / 16 % 16);
    HexReadBack(u % 16);
    UnitFromDigits(u);
  }

  lemma EscapedReadBack(c: Scalar, rest: string)
    requires FormOf(c).Unit? || FormOf(c).Pair?
    ensures ReadEscaped(EmitScalar(c, rest)) == Some(Read(c, rest))
  {
    var unit, follow := FirstUnit(c, rest);
    UnitReadBack(unit, follow);
    if FormOf(c).Pair? {
      UnitReadBack(LowUnit(c), rest);
      assert 0x1_0000 + (HighUnit(c) - 0xD800) * 1024 + (LowUnit(c) - 0xDC00) == c;
    }
  }

  lemma ScalarReadBack(c: Scalar, rest: string)
    ensures ReadScalar(EmitScalar(c, rest)) == Some(Read(c, rest))
  {
    var s := EmitScalar(c, rest);
    FormShows(c, rest);
    if FormOf(c).Plain? {
      assert s[1..] == rest;
    } else if FormOf(c).Short? {
      assert s[2..] == rest && ReadShort(ShortEscape(c).value) == Some(c);
    } else {
      assert s[1] == 'u' && ReadShort('u').None?;
      EscapedReadBack(c, rest);
    }
  }

  lemma {:induction false} TextReadBack(text: Text, rest: string)
    ensures ReadText(EmitText(text, rest)) == Some(Read(text, rest))
    decreases |text|
  {
    var s := EmitText(text, rest);
    if text == [] {
      assert s[1..] == rest;
    } else {
      var more := EmitText(text[1..], rest);
      FormShows(text[0], more);
      ScalarReadBack(text[0], more);
      TextReadBack(text[1..], rest);
      assert text == [text[0]] + text[1..];
    }
  }

  // ---- numbers are read back ----

  lemma {:induction false} DigitsReadBack(n: nat)
    ensures IsNatural(Digits(n)) && DigitsValue(Digits(n)) == n && (n > 0 ==> Digits(n)[0] != '0')
    decreases n
  {
    DigitsAreDigits(n);
    DigitsEnd(n);
    var s := Digits(n);
    if n >= 10 {
      DigitsReadBack(n / 10);
      DigitsAreDigits(n / 10);
      assert s[..|s| - 1] == Digits(n / 10);
    } else {
      assert s[..0] == "";
    }
  }

  lemma IntegerReadBack(n: int)
    ensures ReadInteger(Decimal(n)) == Some(n)
  {
    if n < 0 {
      DigitsReadBack(-n);
      assert Decimal(n)[1..] == Digits(-n);
    } else {
      DigitsReadBack(n);
      DigitsAreDigits(n);
    }
  }

  lemma {:induction false} NumberEnds(text: string, rest: string)
    requires NumberText(text) && Delimited(rest)
    ensures NumberLength(text + rest) == |text|
    decreases |text|
  {
    var s := text + rest;
    assert s[0] == text[0] && s[1..] == text[1..] + rest;
    if |text| == 1 {
      assert text[1..] + rest == rest;
    } else {
      NumberEnds(text[1..], rest);
    }
  }

  lemma FractionIsNoInteger(s: string)
    requires HasFraction(s)
    ensures ReadInteger(s).None?
  {
    var i :| 0 <= i < |s| && (s[i] == '.' || s[i] == 'e');
    if s[0] == '-' {
      assert s[1..][i - 1] == s[i];
    }
  }

  lemma NumberTextReadBack(text: string, rest: string)
    requires NumberText(text) && Delimited(rest)
    ensures ReadNumber(text + rest) ==
            if ReadInteger(text).Some? then Some(Read(IntDoc(ReadInteger(text).value), rest))
            else if HasFraction(text) then Some(Read(RealDoc(text), rest)) else None
  {
    var s := text + rest;
    NumberEnds(text, rest);
    assert s[..|text|] == text && s[|text|..] == rest;
  }

  lemma NumberReadBack(show: real -> string, v: Json, rest: string)
    requires Faithful(show) && (v.Int? || v.Float?) && Normal(v) && Delimited(rest)
    ensures ReadValue(Emit(show, v, rest)) == Some(Read(DocOf(show, v), rest))
  {
    var text := NumberOf(show, v);
    NumberIsNumber(show, v);
    NumberTextReadBack(text, rest);
    assert (text + rest)[0] == text[0];
    if v.Int? {
      IntegerReadBack(v.n);
    } else {
      FractionIsNoInteger(text);
    }
  }

  // ---- values are read back ----

  lemma WordReadBack(word: string, doc: Doc, rest: string)
    requires word != ""
    ensures ReadWord(word + rest, word, doc) == Some(Read(doc, rest))
  {
    assert (word + rest)[..|word|] == word && (word + rest)[|word|..] == rest;
  }

  lemma TextValueReadBack(s: string, text: Text, rest: string)
    requires s == ['\"'] + EmitText(text, rest)
    ensures ReadValue(s) == Some(Read(TextDoc(text), rest))
  {
    assert s[1..] == EmitText(text, rest);
    TextReadBack(text, rest);
  }

  lemma ArrayReadBack(s: string, body: string, docs: List<Doc>, rest: string)
    requires s == ['['] + body && ReadItems(body, true) == Some(Read(docs, rest))
    ensures ReadValue(s) == Some(Read(ArrayDoc(docs), rest))
  {
    assert s[1..] == body;
  }

  lemma ObjectReadBack(s: string, body: string, entries: List<Entry>, rest: string)
    requires s == ['{'] + body && ReadMembers(body, true) == Some(Read(entries, rest))
    ensures ReadValue(s) == Some(Read(ObjectDoc(entries), rest))
  {
    assert s[1..] == body;
  }

  lemma WordValueReadBack(show: real -> string, v: Json, rest: string)
    requires v.Null? || v.Bool?
    ensures ReadValue(Emit(show, v, rest)) == Some(Read(DocOf(show, v), rest))
  {
    if v.Null? {
      WordReadBack("null", NullDoc, rest);
    } else if v.flag {
      WordReadBack("true", BoolDoc(true), rest);
    } else {
      WordReadBack("false", BoolDoc(false), rest);
    }
  }

  /** One element in front of elements that are read back. */
  lemma ItemReadBack(s: string, first: bool, body: string, head: Doc, more: string, docs: List<Doc>, rest: string)
    requires s == (if first then [] else [',']) + body && body != "" && body[0] != ']'
    requires ReadValue(body) == Some(Read(head, more)) && ReadItems(more, false) == Some(Read(docs, rest))
    ensures ReadItems(s, first) == Some(Read(Cons(head, docs), rest))
  {
    assert AfterComma(s, first) == Some(body) by {
      if first { assert s == body; } else { assert s[1..] == body; }
    }
  }

  /** One member in front of members that are read back. */
  lemma MemberReadBack(s: string, first: bool, body: string, key: Text, text: string, value: Doc, more: string,
                       entries: List<Entry>, rest: string)
    requires s == (if first then [] else [',']) + body && body != "" && body[0] != '}'
    requires ReadKey(body) == Some(Read(key, text)) && ReadValue(text) == Some(Read(value, more))
    requires ReadMembers(more, false) == Some(Read(entries, rest))
    ensures ReadMembers(s, first) == Some(Read(Cons(Entry(key, value), entries), rest))
  {
    assert AfterComma(s, first) == Some(body) by {
      if first { assert s == body; } else { assert s[1..] == body; }
    }
  }

  /** A rendered value is read back as that value, and what follows it is left. */
  lemma {:induction false} ValueReadBack(show: real -> string, v: Json, rest: string)
    requires Faithful(show) && Normal(v) && Delimited(rest)
    ensures ReadValue(Emit(show, v, rest)) == Some(Read(DocOf(show, v), rest))
    decreases v
  {
    match v
    case Null => WordValueReadBack(show, v, rest);
    case Bool(_) => WordValueReadBack(show, v, rest);
    case Int(_) => NumberReadBack(show, v, rest);
    case Float(_) => NumberReadBack(show, v, rest);
    case Str(text) => TextValueReadBack(Emit(show, v, rest), text, rest);
    case Arr(items) =>
      ItemsReadBack(show, items, true, rest);
      ArrayReadBack(Emit(show, v, rest), EmitItems(show, items, true, rest), DocsOf(show, items), rest);
    case Obj(members) =>
      MembersReadBack(show, members, true, rest);
      ObjectReadBack(Emit(show, v, rest), EmitMembers(show, members, true, rest), EntriesOf(show, members), rest);
  }

  lemma NoItems(rest: string, first: bool)
    ensures ReadItems([']'] + rest, first) == Some(Read(Nil, rest))
  {
    assert ([']'] + rest)[1..] == rest;
  }

  lemma NoMembers(rest: string, first: bool)
    ensures ReadMembers(['}'] + rest, first) == Some(Read(Nil, rest))
  {
    assert (['}'] + rest)[1..] == rest;
  }

  lemma {:induction false} ItemsReadBack(show: real -> string, items: List<Json>, first: bool, rest: string)
    requires Faithful(show) && NormalItems(items) && Delimited(rest)
    ensures ReadItems(EmitItems(show, items, first, rest), first) == Some(Read(DocsOf(show, items), rest))
    decreases items
  {
    if items.Nil? {
      NoItems(rest, first);
    } else {
      var more := EmitItems(show, items.tail, false, rest);
      ItemsFirst(show, items.tail, false, rest);
      KindShows(show, items.head, more);
      ValueReadBack(show, items.head, more);
      ItemsReadBack(show, items.tail, false, rest);
      ItemReadBack(EmitItems(show, items, first, rest), first, Emit(show, items.head, more), DocOf(show, items.head),
                   more, DocsOf(show, items.tail), rest);
    }
  }

  function KeyText(key: Text, rest: string): (r: string) {
    ['\"'] + EmitText(key, [':'] + rest)
  }

  lemma KeyReadBack(key: Text, rest: string)
    ensures ReadKey(KeyText(key, rest)) == Some(Read(key, rest))
  {
    assert KeyText(key, rest)[1..] == EmitText(key, [':'] + rest);
    TextReadBack(key, [':'] + rest);
    assert ([':'] + rest)[1..] == rest;
  }

  /** A rendered object, taken apart at its first member. */
  lemma MembersSplit(show: real -> string, members: List<Member>, first: bool, rest: string)
    requires members.Cons?
    ensures var more := EmitMembers(show, members.tail, false, rest);
            EmitMembers(show, members, first, rest) ==
              (if first then [] else [',']) + KeyText(members.head.key, Emit(show, members.head.value, more))
  {
  }

  lemma {:induction false} MembersReadBack(show: real -> string, members: List<Member>, first: bool, rest: string)
    requires Faithful(show) && NormalMembers(members) && Delimited(rest)
    ensures ReadMembers(EmitMembers(show, members, first, rest), first) == Some(Read(EntriesOf(show, members), rest))
    decreases members
  {
    if members.Nil? {
      NoMembers(rest, first);
    } else {
      var key, v := members.head.key, members.head.value;
      var more := EmitMembers(show, members.tail, false, rest);
      var text := Emit(show, v, more);
      MembersFirst(show, members.tail, false, rest);
      KeyReadBack(key, text);
      ValueReadBack(show, v, more);
      MembersReadBack(show, members.tail, false, rest);
      MembersSplit(show, members, first, rest);
      MemberReadBack(EmitMembers(show, members, first, rest), first, KeyText(key, text), key, text, DocOf(show, v),
                     more, EntriesOf(show, members.tail), rest);
    }
  }

  /** The canonical text of a value is JSON, and reads as the normal form of that value. */
  lemma CanonicalReadBack(show: real -> string, v: Json)
    requires Faithful(show) && WellFormed(v)
    ensures ReadValue(Canonical(show, v)) == Some(Read(DocOf(show, Normalize(v)), ""))
  {
    NormalizeIdempotent(v);
    NormalizeNormal(v);
    ValueReadBack(show, Normalize(v), "");
  }

  /** A fingerprint is the digest of a text that reads as the normal form of the creation's envelope. */
  lemma FingerprintDigestsEnvelope(show: real -> string, digest: string -> string, c: CanonicalText.Creation)
    requires Faithful(show) && WellFormed(Obj(c.payload))
    ensures exists text ::
      && Fingerprint(show, digest, c) == digest(text)
      && ReadValue(text) == Some(Read(DocOf(show, Normalize(Envelope(c))), ""))
  {
    EnvelopeWellFormed(c);
    CanonicalReadBack(show, Envelope(c));
    assert Fingerprint(show, digest, c) == digest(Canonical(show, Envelope(c)));
  }

  // ---- form ----

  /** Keys are ordered as sequences of code points: a proper prefix comes first, and otherwise the first difference
      decides. */
  lemma {:induction false} BeforeIsCodePointOrder(a: Text, b: Text, k: nat)
    requires k <= |a| && k <= |b| && a[..k] == b[..k]
    requires k == |a| || k == |b| || a[k] != b[k]
    ensures Before(a, b) <==> (k == |a| && k < |b|) || (k < |a| && k < |b| && a[k] < b[k])
    decreases k
  {
    if k > 0 {
      assert a[0] == a[..k][0] && b[0] == b[..k][0];
      assert a[1..][..k - 1] == a[..k][1..] && b[1..][..k - 1] == b[..k][1..];
      BeforeIsCodePointOrder(a[1..], b[1..], k - 1);
    }
  }

  predicate Printable(s: string) {
    forall i :: 0 <= i < |s| ==> ' ' <= s[i] <= '~'
  }

  /** A character is written in printable ASCII, and hexadecimal digits in lower case. */
  lemma ScalarPrintable(c: Scalar, rest: string)
    requires Printable(rest)
    ensures Printable(EmitScalar(c, rest))
    ensures forall d :: 0 <= d < 16 ==> '0' <= HexDigit(d) <= '9' || 'a' <= HexDigit(d) <= 'f'
  {
    if !FormOf(c).Plain? && !FormOf(c).Short? {
      var unit, follow := FirstUnit(c, rest);
      if FormOf(c).Pair? { UnitPrintable(LowUnit(c), rest); }
      UnitPrintable(unit, follow);
    }
  }

  lemma UnitPrintable(unit: int, rest: string)
    requires 0 <= unit < 0x1_0000 && Printable(rest)
    ensures Printable(EscapedUnit(unit, rest))
  {
    var s := EscapedUnit(unit, rest);
    assert forall i :: 6 <= i < |s| ==> s[i] == rest[i - 6];
  }

  /** So a rendered string is printable ASCII whatever characters it holds. */
  lemma {:induction false} TextPrintable(text: Text, rest: string)
    requires Printable(rest)
    ensures Printable(EmitText(text, rest))
    decreases |text|
  {
    if text != [] {
      TextPrintable(text[1..], rest);
      ScalarPrintable(text[0], EmitText(text[1..], rest));
    }
  }
}
