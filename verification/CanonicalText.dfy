/** The canonical text can be read back in one way only, so it decides sameness. */
module CanonicalText {
  import opened Common
  import opened CanonicalJson
  import opened CanonicalNormalForms

  lemma SplitAt(a: string, s: string, b: string, t: string)
    requires |a| == |b| && a + s == b + t
    ensures a == b && s == t
  {
    assert (a + s)[..|a|] == a && (b + t)[..|b|] == b;
    assert (a + s)[|a|..] == s && (b + t)[|b|..] == t;
  }

  // ---- strings ----

  lemma HexDigitsDiffer(d: int, e: int)
    requires 0 <= d < 16 && 0 <= e < 16 && HexDigit(d) == HexDigit(e)
    ensures d == e
  {
  }

  lemma UnitFromDigits(u: int)
    requires 0 <= u < 0x1_0000
    ensures u == u / 4096 * 4096 + u / 256 % 16 * 256 + u / 16 % 16 * 16 + u % 16
  {
    var a := u / 16;
    var b := a / 16;
    assert b == u / 256 && b / 16 == u / 4096;
    assert u == a * 16 + u % 16 && a == b * 16 + a % 16 && b == b / 16 * 16 + b % 16;
  }

  lemma UnitUnique(u: int, s: string, v: int, t: string)
    requires 0 <= u < 0x1_0000 && 0 <= v < 0x1_0000 && EscapedUnit(u, s) == EscapedUnit(v, t)
    ensures u == v && s == t
  {
    var a := ['\\', 'u', HexDigit(u / 4096), HexDigit(u / 256 % 16), HexDigit(u / 16 % 16), HexDigit(u % 16)];
    var b := ['\\', 'u', HexDigit(v / 4096), HexDigit(v / 256 % 16), HexDigit(v / 16 % 16), HexDigit(v % 16)];
    SplitAt(a, s, b, t);
    assert a[2] == b[2] && a[3] == b[3] && a[4] == b[4] && a[5] == b[5];
    HexDigitsDiffer(u / 4096, v / 4096);
    HexDigitsDiffer(u / 256 % 16, v / 256 % 16);
    HexDigitsDiffer(u / 16 % 16, v / 16 % 16);
    HexDigitsDiffer(u % 16, v % 16);
    UnitFromDigits(u);
    UnitFromDigits(v);
  }

  /** How a character is written. */
  datatype Form = Short | Plain | Unit | Pair

  function FormOf(c: Scalar): (r: Form) {
    if ShortEscape(c).Some? then Short else if 0x20 <= c <= 0x7E then Plain else if c < 0x1_0000 then Unit else Pair
  }

  /** What the first two characters give away. */
  lemma FormShows(c: Scalar, rest: string)
    ensures var text := EmitScalar(c, rest);
            && |text| > 0 && text[0] != '\"'
            && (text[0] == '\\' <==> !FormOf(c).Plain?)
            && (!FormOf(c).Plain? ==> |text| > 1 && (text[1] == 'u' <==> !FormOf(c).Short?))
  {
  }

  lemma ShortEscapesDiffer(c: Scalar, d: Scalar)
    requires ShortEscape(c).Some? && ShortEscape(c) == ShortEscape(d)
    ensures c == d
  {
  }

  function HighUnit(c: Scalar): (r: int)
    requires c >= 0x1_0000
  {
    0xD800 + (c - 0x1_0000) / 1024
  }

  function LowUnit(c: Scalar): (r: int)
    requires c >= 0x1_0000
  {
    0xDC00 + (c - 0x1_0000) % 1024
  }

  /** The first code unit written for an escaped character, and what follows it. */
  lemma FirstUnit(c: Scalar, rest: string) returns (unit: int, follow: string)
    requires FormOf(c).Unit? || FormOf(c).Pair?
    ensures 0 <= unit < 0x1_0000 && EmitScalar(c, rest) == EscapedUnit(unit, follow)
    ensures FormOf(c).Pair? <==> 0xD800 <= unit < 0xDC00
    ensures FormOf(c).Unit? ==> unit == c && follow == rest
    ensures FormOf(c).Pair? ==> unit == HighUnit(c) && follow == EscapedUnit(LowUnit(c), rest)
  {
    if FormOf(c).Unit? {
      unit, follow := c, rest;
    } else {
      unit, follow := HighUnit(c), EscapedUnit(LowUnit(c), rest);
    }
  }

  lemma EscapedUnique(c: Scalar, s: string, d: Scalar, t: string)
    requires FormOf(c).Unit? || FormOf(c).Pair?
    requires FormOf(d).Unit? || FormOf(d).Pair?
    requires EmitScalar(c, s) == EmitScalar(d, t)
    ensures c == d && s == t
  {
    var u, after := FirstUnit(c, s);
    var v, follow := FirstUnit(d, t);
    UnitUnique(u, after, v, follow);
    if FormOf(c).Pair? {
      UnitUnique(LowUnit(c), s, LowUnit(d), t);
    }
  }

  lemma ScalarUnique(c: Scalar, s: string, d: Scalar, t: string)
    requires EmitScalar(c, s) == EmitScalar(d, t)
    ensures c == d && s == t
  {
    FormShows(c, s);
    FormShows(d, t);
    if FormOf(c).Plain? {
      SplitAt([c as char], s, [d as char], t);
      assert [c as char][0] == [d as char][0];
    } else if FormOf(c).Short? {
      SplitAt(['\\', ShortEscape(c).value], s, ['\\', ShortEscape(d).value], t);
      assert ['\\', ShortEscape(c).value][1] == ['\\', ShortEscape(d).value][1];
      ShortEscapesDiffer(c, d);
    } else {
      EscapedUnique(c, s, d, t);
    }
  }

  lemma {:induction false} TextUnique(a: Text, s: string, b: Text, t: string)
    requires EmitText(a, s) == EmitText(b, t)
    ensures a == b && s == t
    decreases |a|
  {
    if a != [] {
      FormShows(a[0], EmitText(a[1..], s));
    }
    if b != [] {
      FormShows(b[0], EmitText(b[1..], t));
    }
    assert a == [] <==> b == [];
    if a == [] {
      SplitAt(['\"'], s, ['\"'], t);
    } else {
      ScalarUnique(a[0], EmitText(a[1..], s), b[0], EmitText(b[1..], t));
      TextUnique(a[1..], s, b[1..], t);
      assert a == [a[0]] + a[1..] && b == [b[0]] + b[1..];
    }
  }

  // ---- numbers ----

  predicate NumberChar(c: char) {
    '0' <= c <= '9' || c == '-' || c == '+' || c == '.' || c == 'e'
  }

  predicate NumberText(s: string) {
    |s| > 0 && forall i :: 0 <= i < |s| ==> NumberChar(s[i])
  }

  /** A number ends where the next character is not part of one. */
  predicate Delimited(s: string) {
    s == [] || !NumberChar(s[0])
  }

  predicate HasFraction(s: string) {
    exists i :: 0 <= i < |s| && (s[i] == '.' || s[i] == 'e')
  }

  /** A float the renderer is asked for. */
  ghost predicate Fractional(x: real) {
    IsBinary(x) && !IsIntegral(x)
  }

  /** What is asked of the float renderer: different fractional floats get different texts, each made of number
      characters with a point or an exponent in it. */
  ghost predicate Faithful(show: real -> string) {
    && (forall x :: Fractional(x) ==> NumberText(show(x)) && HasFraction(show(x)))
    && (forall x, y :: Fractional(x) && Fractional(y) && show(x) == show(y) ==> x == y)
  }

  lemma NumberUnique(a: string, s: string, b: string, t: string)
    requires NumberText(a) && NumberText(b) && Delimited(s) && Delimited(t) && a + s == b + t
    ensures a == b && s == t
  {
    NotShorter(a, s, b, t);
    NotShorter(b, t, a, s);
    SplitAt(a, s, b, t);
  }

  lemma NotShorter(a: string, s: string, b: string, t: string)
    requires NumberText(b) && Delimited(s) && a + s == b + t
    ensures |a| >= |b|
  {
    assert |a| + |s| == |b| + |t|;
    assert forall i :: 0 <= i < |b| ==> (b + t)[i] == b[i];
    if s != [] {
      assert (a + s)[|a|] == s[0];
    }
  }

  predicate DigitText(s: string) {
    |s| > 0 && forall i :: 0 <= i < |s| ==> '0' <= s[i] <= '9'
  }

  lemma {:induction false} DigitsAreDigits(n: nat)
    ensures DigitText(Digits(n))
    decreases n
  {
    if n >= 10 {
      DigitsAreDigits(n / 10);
    }
  }

  lemma {:induction false} DigitsUnique(m: nat, n: nat)
    requires Digits(m) == Digits(n)
    ensures m == n
    decreases m
  {
    DigitsEnd(m);
    DigitsEnd(n);
    if m >= 10 {
      DigitsUnique(m / 10, n / 10);
    }
  }

  /** The last digit, and what is left before it. */
  lemma DigitsEnd(n: nat)
    ensures var s := Digits(n);
            && |s| > 0 && s[|s| - 1] == '0' + (n % 10) as char
            && (|s| == 1 <==> n < 10)
            && (n >= 10 ==> s[..|s| - 1] == Digits(n / 10))
  {
    if n >= 10 {
      DigitsAreDigits(n / 10);
    }
  }

  lemma DecimalIsNumber(n: int)
    ensures NumberText(Decimal(n)) && !HasFraction(Decimal(n))
  {
    DigitsAreDigits(if n < 0 then -n else n);
  }

  lemma DecimalUnique(m: int, n: int)
    requires Decimal(m) == Decimal(n)
    ensures m == n
  {
    DigitsAreDigits(if m < 0 then -m else m);
    DigitsAreDigits(if n < 0 then -n else n);
    assert m < 0 <==> Decimal(m)[0] == '-';
    assert n < 0 <==> Decimal(n)[0] == '-';
    if m < 0 {
      SplitAt(['-'], Digits(-m), ['-'], Digits(-n));
      DigitsUnique(-m, -n);
    } else {
      DigitsUnique(m, n);
    }
  }

  function NumberOf(show: real -> string, v: Json): (r: string)
    requires v.Int? || v.Float?
  {
    if v.Int? then Decimal(v.n) else show(v.x)
  }

  lemma NumbersUnique(show: real -> string, u: Json, s: string, v: Json, t: string)
    requires Faithful(show) && (u.Int? || u.Float?) && (v.Int? || v.Float?) && Normal(u) && Normal(v)
    requires Delimited(s) && Delimited(t) && NumberOf(show, u) + s == NumberOf(show, v) + t
    ensures u == v && s == t
  {
    NumberIsNumber(show, u);
    NumberIsNumber(show, v);
    NumberUnique(NumberOf(show, u), s, NumberOf(show, v), t);
    if u.Int? && v.Int? {
      DecimalUnique(u.n, v.n);
    }
  }

  lemma NumberIsNumber(show: real -> string, v: Json)
    requires Faithful(show) && (v.Int? || v.Float?) && Normal(v)
    ensures NumberText(NumberOf(show, v)) && (HasFraction(NumberOf(show, v)) <==> v.Float?)
  {
    if v.Int? {
      DecimalIsNumber(v.n);
    }
  }

  // ---- a faithful renderer ----

  /** Numerator and exponent of a fractional float, written out; nothing is asked of other numbers. */
  ghost function ShowFraction(x: real): (r: string) {
    if Fractional(x) then
      var m, e :| Denotes(x, m, e);
      Decimal(m) + ['e'] + Digits(e)
    else ""
  }

  lemma FractionShown(x: real) returns (m: int, e: nat)
    requires Fractional(x)
    ensures Denotes(x, m, e) && ShowFraction(x) == Decimal(m) + ['e'] + Digits(e)
  {
    var a, b :| Denotes(x, a, b) && ShowFraction(x) == Decimal(a) + ['e'] + Digits(b);
    m, e := a, b;
  }

  lemma DenotesOne(x: real, y: real, m: int, e: nat)
    requires Denotes(x, m, e) && Denotes(y, m, e)
    ensures x == y
  {
    var p := PowerOfTwo(e) as real;
    assert (x - y) * p == 0.0;
  }

  /** The exponent mark is the first one, so the text splits in one way only. */
  lemma MarkUnique(a: string, s: string, b: string, t: string)
    requires 'e' !in a && 'e' !in b && a + ['e'] + s == b + ['e'] + t
    ensures a == b && s == t
  {
    var whole := a + ['e'] + s;
    assert whole[|a|] == 'e' && whole[|b|] == 'e';
    assert forall i :: 0 <= i < |a| ==> whole[i] == a[i];
    assert forall i :: 0 <= i < |b| ==> whole[i] == b[i];
    assert |a| == |b|;
    assert whole == a + (['e'] + s) && whole == b + (['e'] + t);
    SplitAt(a, ['e'] + s, b, ['e'] + t);
    SplitAt(['e'], s, ['e'], t);
  }

  lemma FractionsDiffer(x: real, y: real)
    requires Fractional(x) && Fractional(y) && ShowFraction(x) == ShowFraction(y)
    ensures x == y
  {
    var m, d := FractionShown(x);
    var n, e := FractionShown(y);
    DecimalIsNumber(m);
    DecimalIsNumber(n);
    MarkUnique(Decimal(m), Digits(d), Decimal(n), Digits(e));
    DecimalUnique(m, n);
    DigitsUnique(d, e);
    DenotesOne(x, y, m, d);
  }

  lemma FractionIsNumber(x: real)
    requires Fractional(x)
    ensures NumberText(ShowFraction(x)) && HasFraction(ShowFraction(x))
  {
    var m, e := FractionShown(x);
    DecimalIsNumber(m);
    DigitsAreDigits(e);
    assert ShowFraction(x)[|Decimal(m)|] == 'e';
  }

  /** There is such a renderer, so what follows is not said of nothing. */
  lemma FaithfulRendererExists()
    ensures exists show: real -> string :: Faithful(show)
  {
    var show := x => ShowFraction(x);
    forall x | Fractional(x) ensures NumberText(show(x)) && HasFraction(show(x)) {
      FractionIsNumber(x);
    }
    forall x, y | Fractional(x) && Fractional(y) && show(x) == show(y) ensures x == y {
      FractionsDiffer(x, y);
    }
    assert Faithful(show);
  }

  // ---- values ----

  datatype Kind = NullKind | TrueKind | FalseKind | NumberKind | TextKind | ListKind | ObjectKind

  function KindOf(v: Json): (r: Kind) {
    match v
    case Null => NullKind
    case Bool(flag) => if flag then TrueKind else FalseKind
    case Int(_) => NumberKind
    case Float(_) => NumberKind
    case Str(_) => TextKind
    case Arr(_) => ListKind
    case Obj(_) => ObjectKind
  }

  function KindFrom(c: char): (r: Kind) {
    if c == 'n' then NullKind else if c == 't' then TrueKind else if c == 'f' then FalseKind
    else if c == '\"' then TextKind else if c == '[' then ListKind else if c == '{' then ObjectKind
    else NumberKind
  }

  /** The first character tells what is coming. */
  lemma KindShows(show: real -> string, v: Json, rest: string)
    requires Faithful(show) && Normal(v)
    ensures var text := Emit(show, v, rest);
            |text| > 0 && KindFrom(text[0]) == KindOf(v) && text[0] != ']' && text[0] != '}' && text[0] != ','
  {
    if v.Int? || v.Float? {
      NumberIsNumber(show, v);
      assert Emit(show, v, rest) == NumberOf(show, v) + rest;
      assert NumberChar(NumberOf(show, v)[0]);
    }
  }

  /** A value followed by something that cannot continue a number is read back in one way only. */
  lemma {:induction false} EmitUnique(show: real -> string, u: Json, s: string, v: Json, t: string)
    requires Faithful(show) && Normal(u) && Normal(v) && Delimited(s) && Delimited(t)
    requires Emit(show, u, s) == Emit(show, v, t)
    ensures u == v && s == t
    decreases u
  {
    KindShows(show, u, s);
    KindShows(show, v, t);
    match u
    case Null => SplitAt(['n', 'u', 'l', 'l'], s, ['n', 'u', 'l', 'l'], t);
    case Bool(flag) =>
      var word := if flag then ['t', 'r', 'u', 'e'] else ['f', 'a', 'l', 's', 'e'];
      SplitAt(word, s, word, t);
    case Int(_) => NumbersUnique(show, u, s, v, t);
    case Float(_) => NumbersUnique(show, u, s, v, t);
    case Str(text) =>
      SplitAt(['\"'], EmitText(text, s), ['\"'], EmitText(v.text, t));
      TextUnique(text, s, v.text, t);
    case Arr(items) =>
      SplitAt(['['], EmitItems(show, items, true, s), ['['], EmitItems(show, v.items, true, t));
      ItemsUnique(show, items, s, v.items, t, true);
    case Obj(members) =>
      SplitAt(['{'], EmitMembers(show, members, true, s), ['{'], EmitMembers(show, v.members, true, t));
      MembersUnique(show, members, s, v.members, t, true);
  }

  lemma ItemsFirst(show: real -> string, items: List<Json>, first: bool, rest: string)
    requires Faithful(show) && NormalItems(items)
    ensures var text := EmitItems(show, items, first, rest);
            && |text| > 0 && (text[0] == ']' <==> items.Nil?)
            && (!first ==> Delimited(text))
  {
    if items.Cons? {
      KindShows(show, items.head, EmitItems(show, items.tail, false, rest));
    }
  }

  lemma {:induction false} ItemsUnique(show: real -> string, us: List<Json>, s: string, vs: List<Json>, t: string,
                                       first: bool)
    requires Faithful(show) && NormalItems(us) && NormalItems(vs) && Delimited(s) && Delimited(t)
    requires EmitItems(show, us, first, s) == EmitItems(show, vs, first, t)
    ensures us == vs && s == t
    decreases us
  {
    ItemsFirst(show, us, first, s);
    ItemsFirst(show, vs, first, t);
    if us.Nil? {
      SplitAt([']'], s, [']'], t);
    } else {
      var more, others := EmitItems(show, us.tail, false, s), EmitItems(show, vs.tail, false, t);
      var comma: string := if first then [] else [','];
      SplitAt(comma, Emit(show, us.head, more), comma, Emit(show, vs.head, others));
      ItemsFirst(show, us.tail, false, s);
      ItemsFirst(show, vs.tail, false, t);
      EmitUnique(show, us.head, more, vs.head, others);
      ItemsUnique(show, us.tail, s, vs.tail, t, false);
    }
  }

  lemma MembersFirst(show: real -> string, members: List<Member>, first: bool, rest: string)
    ensures var text := EmitMembers(show, members, first, rest);
            && |text| > 0 && (text[0] == '}' <==> members.Nil?)
            && Delimited(text)
  {
  }

  lemma {:induction false} MembersUnique(show: real -> string, us: List<Member>, s: string, vs: List<Member>,
                                         t: string, first: bool)
    requires Faithful(show) && NormalMembers(us) && NormalMembers(vs) && Delimited(s) && Delimited(t)
    requires EmitMembers(show, us, first, s) == EmitMembers(show, vs, first, t)
    ensures us == vs && s == t
    decreases us
  {
    MembersFirst(show, us, first, s);
    MembersFirst(show, vs, first, t);
    if us.Nil? {
      SplitAt(['}'], s, ['}'], t);
    } else {
      var more, others := EmitMembers(show, us.tail, false, s), EmitMembers(show, vs.tail, false, t);
      var after, follow := Emit(show, us.head.value, more), Emit(show, vs.head.value, others);
      var lead: string := (if first then [] else [',']) + ['\"'];
      SplitAt(lead, EmitText(us.head.key, [':'] + after), lead, EmitText(vs.head.key, [':'] + follow));
      TextUnique(us.head.key, [':'] + after, vs.head.key, [':'] + follow);
      SplitAt([':'], after, [':'], follow);
      MembersFirst(show, us.tail, false, s);
      MembersFirst(show, vs.tail, false, t);
      EmitUnique(show, us.head.value, more, vs.head.value, others);
      MembersUnique(show, us.tail, s, vs.tail, t, false);
    }
  }

  // ---- main results ----

  /** Two values have the same canonical text exactly when they are equal up to the order of object keys at any depth
      and the collapse of integral floats. */
  lemma CanonicalTextDecidesSameness(show: real -> string, u: Json, v: Json)
    requires Faithful(show) && WellFormed(u) && WellFormed(v)
    ensures Canonical(show, u) == Canonical(show, v) <==> Same(u, v)
  {
    NormalizeIdempotent(u);
    NormalizeIdempotent(v);
    NormalizeNormal(u);
    NormalizeNormal(v);
    SameIffNormalEqual(u, v);
    if Canonical(show, u) == Canonical(show, v) {
      EmitUnique(show, Normalize(u), [], Normalize(v), []);
    }
  }

  // ---- fingerprints ----

  datatype Creation = Creation(provider: Text, operation: Text, reference: Text, payload: List<Member>)

  function Ascii(s: string): (r: Text)
    requires forall i :: 0 <= i < |s| ==> s[i] as int < 0x80
  {
    seq(|s|, i requires 0 <= i < |s| => s[i] as int)
  }

  const PROVIDER_KEY := Ascii("provider")
  const OPERATION_KEY := Ascii("operation_type")
  const REFERENCE_KEY := Ascii("external_reference")
  const PAYLOAD_KEY := Ascii("payload")

  function Envelope(c: Creation): (r: Json) {
    Obj(Cons(Member(PROVIDER_KEY, Str(c.provider)), Cons(Member(OPERATION_KEY, Str(c.operation)), Inner(c))))
  }

  function Inner(c: Creation): (r: List<Member>) {
    Cons(Member(REFERENCE_KEY, Str(c.reference)), Cons(Member(PAYLOAD_KEY, Obj(c.payload)), Nil))
  }

  function Fingerprint(show: real -> string, digest: string -> string, c: Creation): (r: string) {
    digest(Canonical(show, Envelope(c)))
  }

  lemma KeysDiffer()
    ensures |PROVIDER_KEY| == 8 && |OPERATION_KEY| == 14 && |REFERENCE_KEY| == 18 && |PAYLOAD_KEY| == 7
  {
  }

  lemma EnvelopeWellFormed(c: Creation)
    requires WellFormed(Obj(c.payload))
    ensures WellFormed(Envelope(c))
  {
    KeysDiffer();
    var last := Cons(Member(PAYLOAD_KEY, Obj(c.payload)), Nil);
    assert KeysOf(last) == {PAYLOAD_KEY} && DistinctKeys(last) && WellFormedMembers(last);
    assert KeysOf(Inner(c)) == {REFERENCE_KEY, PAYLOAD_KEY} && DistinctKeys(Inner(c)) && WellFormedMembers(Inner(c));
    var rest := Cons(Member(OPERATION_KEY, Str(c.operation)), Inner(c));
    assert KeysOf(rest) == {OPERATION_KEY, REFERENCE_KEY, PAYLOAD_KEY} && DistinctKeys(rest) && WellFormedMembers(rest);
  }

  /** What each key of an envelope leads to. */
  lemma EnvelopeLookups(c: Creation)
    ensures var members := Envelope(c).members;
            && KeysOf(members) == {PROVIDER_KEY, OPERATION_KEY, REFERENCE_KEY, PAYLOAD_KEY}
            && Lookup(members, PROVIDER_KEY) == Some(Str(c.provider))
            && Lookup(members, OPERATION_KEY) == Some(Str(c.operation))
            && Lookup(members, REFERENCE_KEY) == Some(Str(c.reference))
            && Lookup(members, PAYLOAD_KEY) == Some(Obj(c.payload))
  {
    KeysDiffer();
    var last := Cons(Member(PAYLOAD_KEY, Obj(c.payload)), Nil);
    assert KeysOf(last) == {PAYLOAD_KEY} && Lookup(last, PAYLOAD_KEY) == Some(Obj(c.payload));
    assert KeysOf(Inner(c)) == {REFERENCE_KEY, PAYLOAD_KEY} && Lookup(Inner(c), PAYLOAD_KEY) == Some(Obj(c.payload));
    var rest := Cons(Member(OPERATION_KEY, Str(c.operation)), Inner(c));
    assert KeysOf(rest) == {OPERATION_KEY, REFERENCE_KEY, PAYLOAD_KEY};
    assert Lookup(rest, PAYLOAD_KEY) == Some(Obj(c.payload)) && Lookup(rest, REFERENCE_KEY) == Some(Str(c.reference));
  }

  lemma EnvelopesSame(a: Creation, b: Creation)
    ensures Same(Envelope(a), Envelope(b)) <==>
            && a.provider == b.provider && a.operation == b.operation && a.reference == b.reference
            && Same(Obj(a.payload), Obj(b.payload))
  {
    EnvelopeLookups(a);
    EnvelopeLookups(b);
    var others := Envelope(b).members;
    var last := Cons(Member(PAYLOAD_KEY, Obj(a.payload)), Nil);
    assert SameMembers(last, others) <==> Same(Obj(a.payload), Obj(b.payload));
    assert SameMembers(Inner(a), others) <==> a.reference == b.reference && SameMembers(last, others);
    var rest := Cons(Member(OPERATION_KEY, Str(a.operation)), Inner(a));
    assert SameMembers(rest, others) <==> a.operation == b.operation && SameMembers(Inner(a), others);
    var all := Cons(Member(PROVIDER_KEY, Str(a.provider)), rest);
    assert SameMembers(all, others) <==> a.provider == b.provider && SameMembers(rest, others);
    assert Same(Envelope(a), Envelope(b)) <==> SameMembers(all, others);
  }

  /** With a digest that never collides, two creations share a fingerprint exactly when provider, operation and external
      reference are equal and the payloads are the same. */
  lemma FingerprintsDecideSameness(show: real -> string, digest: string -> string, a: Creation, b: Creation)
    requires Faithful(show) && (forall x, y :: digest(x) == digest(y) ==> x == y)
    requires WellFormed(Obj(a.payload)) && WellFormed(Obj(b.payload))
    ensures Fingerprint(show, digest, a) == Fingerprint(show, digest, b) <==>
            && a.provider == b.provider && a.operation == b.operation && a.reference == b.reference
            && Same(Obj(a.payload), Obj(b.payload))
  {
    EnvelopesSame(a, b);
    EnvelopeWellFormed(a);
    EnvelopeWellFormed(b);
    CanonicalTextDecidesSameness(show, Envelope(a), Envelope(b));
  }
}
