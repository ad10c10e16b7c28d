/** JSON values and the canonical text that decides whether two bodies count as the same request. */
module CanonicalJson {
  import opened Common

  /** A Unicode scalar value. */
  type Scalar = x: int | 0 <= x < 0xD800 || 0xE000 <= x < 0x11_0000

  type Text = seq<Scalar>

  datatype List<T> = Nil | Cons(head: T, tail: List<T>)

  datatype Member = Member(key: Text, value: Json)

  /** A parsed JSON value; a float is taken as the real it denotes. */
  datatype Json =
    | Null
    | Bool(flag: bool)
    | Int(n: int)
    | Float(x: real)
    | Str(text: Text)
    | Arr(items: List<Json>)
    | Obj(members: List<Member>)

  // ---- floats ----

  function PowerOfTwo(e: nat): (p: int)
    ensures p >= 1
  {
    if e == 0 then 1 else 2 * PowerOfTwo(e - 1)
  }

  /** `x` is the integer `m` divided by two, `e` times over. */
  predicate Denotes(x: real, m: int, e: nat) {
    x * PowerOfTwo(e) as real == m as real
  }

  /** A finite binary float denotes such a fraction. */
  ghost predicate IsBinary(x: real) {
    exists m, e :: Denotes(x, m, e)
  }

  // ---- objects ----

  function KeysOf(members: List<Member>): (r: set<Text>) {
    match members
    case Nil => {}
    case Cons(m, rest) => {m.key} + KeysOf(rest)
  }

  function Lookup(members: List<Member>, key: Text): (r: Option<Json>) {
    match members
    case Nil => None
    case Cons(m, rest) => if m.key == key then Some(m.value) else Lookup(rest, key)
  }

  predicate DistinctKeys(members: List<Member>) {
    match members
    case Nil => true
    case Cons(m, rest) => m.key !in KeysOf(rest) && DistinctKeys(rest)
  }

  /** Every object has distinct keys, as a dictionary does, and every float is a binary fraction. */
  ghost predicate WellFormed(v: Json) {
    match v
    case Arr(items) => WellFormedItems(items)
    case Obj(members) => DistinctKeys(members) && WellFormedMembers(members)
    case Float(x) => IsBinary(x)
    case _ => true
  }

  ghost predicate WellFormedItems(items: List<Json>) {
    match items
    case Nil => true
    case Cons(v, rest) => WellFormed(v) && WellFormedItems(rest)
  }

  ghost predicate WellFormedMembers(members: List<Member>) {
    match members
    case Nil => true
    case Cons(m, rest) => WellFormed(m.value) && WellFormedMembers(rest)
  }

  /** Keys compare code point by code point. */
  predicate Before(a: Text, b: Text) {
    if a == [] then b != []
    else b != [] && (a[0] < b[0] || (a[0] == b[0] && Before(a[1..], b[1..])))
  }

  /** Puts a member in its place in a list sorted by key. */
  function Insert(m: Member, members: List<Member>): (r: List<Member>) {
    match members
    case Nil => Cons(m, Nil)
    case Cons(first, rest) => if Before(first.key, m.key) then Cons(first, Insert(m, rest)) else Cons(m, members)
  }

  // ---- normalization ----

  predicate IsIntegral(x: real) {
    x == x.Floor as real
  }

  /** Sorts every object by key and turns integral floats into integers. */
  function Normalize(v: Json): (r: Json) {
    match v
    case Arr(items) => Arr(NormalizeItems(items))
    case Obj(members) => Obj(NormalizeMembers(members))
    case Float(x) => if IsIntegral(x) then Int(x.Floor) else v
    case _ => v
  }

  function NormalizeItems(items: List<Json>): (r: List<Json>) {
    match items
    case Nil => Nil
    case Cons(v, rest) => Cons(Normalize(v), NormalizeItems(rest))
  }

  function NormalizeMembers(members: List<Member>): (r: List<Member>) {
    match members
    case Nil => Nil
    case Cons(m, rest) => Insert(Member(m.key, Normalize(m.value)), NormalizeMembers(rest))
  }

  /** The rendering library sorts keys once more. */
  function SortKeys(v: Json): (r: Json) {
    match v
    case Arr(items) => Arr(SortItems(items))
    case Obj(members) => Obj(SortMembers(members))
    case _ => v
  }

  function SortItems(items: List<Json>): (r: List<Json>) {
    match items
    case Nil => Nil
    case Cons(v, rest) => Cons(SortKeys(v), SortItems(rest))
  }

  function SortMembers(members: List<Member>): (r: List<Member>) {
    match members
    case Nil => Nil
    case Cons(m, rest) => Insert(Member(m.key, SortKeys(m.value)), SortMembers(rest))
  }

  // ---- rendering: each function writes a value followed by `rest` ----

  function HexDigit(d: int): (r: char)
    requires 0 <= d < 16
  {
    if d < 10 then '0' + d as char else 'a' + (d - 10) as char
  }

  function EscapedUnit(unit: int, rest: string): (r: string)
    requires 0 <= unit < 0x1_0000
  {
    ['\\', 'u', HexDigit(unit / 4096), HexDigit(unit / 256 % 16), HexDigit(unit / 16 % 16), HexDigit(unit % 16)] + rest
  }

  /** The short escapes of section 7 of RFC 8259 that the renderer uses. */
  function ShortEscape(c: Scalar): (r: Option<char>) {
    if c == 0x22 then Some('\"')
    else if c == 0x5C then Some('\\')
    else if c == 0x08 then Some('b')
    else if c == 0x0C then Some('f')
    else if c == 0x0A then Some('n')
    else if c == 0x0D then Some('r')
    else if c == 0x09 then Some('t')
    else None
  }

  /** Printable ASCII stands for itself, everything else is escaped, beyond the basic plane as a surrogate pair. */
  function EmitScalar(c: Scalar, rest: string): (r: string) {
    if ShortEscape(c).Some? then ['\\', ShortEscape(c).value] + rest
    else if 0x20 <= c <= 0x7E then [c as char] + rest
    else if c < 0x1_0000 then EscapedUnit(c, rest)
    else EscapedUnit(0xD800 + (c - 0x1_0000) / 1024, EscapedUnit(0xDC00 + (c - 0x1_0000) % 1024, rest))
  }

  /** The characters of a string and its closing quote. */
  function EmitText(text: Text, rest: string): (r: string)
    decreases |text|
  {
    if text == [] then ['\"'] + rest else EmitScalar(text[0], EmitText(text[1..], rest))
  }

  function Digits(n: nat): (r: string) {
    if n < 10 then ['0' + n as char] else Digits(n / 10) + ['0' + (n % 10) as char]
  }

  function Decimal(n: int): (r: string) {
    if n < 0 then ['-'] + Digits(-n) else Digits(n)
  }

  /** `show` renders floats, and is only asked for those that are not integral. */
  function Emit(show: real -> string, v: Json, rest: string): (r: string)
    decreases v
  {
    match v
    case Null => ['n', 'u', 'l', 'l'] + rest
    case Bool(flag) => (if flag then ['t', 'r', 'u', 'e'] else ['f', 'a', 'l', 's', 'e']) + rest
    case Int(n) => Decimal(n) + rest
    case Float(x) => show(x) + rest
    case Str(text) => ['\"'] + EmitText(text, rest)
    case Arr(items) => ['['] + EmitItems(show, items, true, rest)
    case Obj(members) => ['{'] + EmitMembers(show, members, true, rest)
  }

  function EmitItems(show: real -> string, items: List<Json>, first: bool, rest: string): (r: string)
    decreases items
  {
    match items
    case Nil => [']'] + rest
    case Cons(v, more) => (if first then [] else [',']) + Emit(show, v, EmitItems(show, more, false, rest))
  }

  function EmitMembers(show: real -> string, members: List<Member>, first: bool, rest: string): (r: string)
    decreases members
  {
    match members
    case Nil => ['}'] + rest
    case Cons(m, more) =>
      (if first then [] else [',']) + ['\"'] +
      EmitText(m.key, [':'] + Emit(show, m.value, EmitMembers(show, more, false, rest)))
  }

  function Canonical(show: real -> string, v: Json): (r: string) {
    Emit(show, SortKeys(Normalize(v)), "")
  }

  // ---- when two values count as the same ----

  predicate IsNumber(v: Json, x: real) {
    (v.Int? && v.n as real == x) || (v.Float? && v.x == x)
  }

  /** Equal up to the order of object keys at any depth and the collapse of integral floats. */
  predicate Same(u: Json, v: Json) {
    match u
    case Null => v.Null?
    case Bool(flag) => v == Bool(flag)
    case Int(n) => IsNumber(v, n as real)
    case Float(x) => IsNumber(v, x)
    case Str(text) => v == Str(text)
    case Arr(items) => v.Arr? && SameItems(items, v.items)
    case Obj(members) => v.Obj? && KeysOf(members) == KeysOf(v.members) && SameMembers(members, v.members)
  }

  predicate SameItems(us: List<Json>, vs: List<Json>) {
    match us
    case Nil => vs.Nil?
    case Cons(u, rest) => vs.Cons? && Same(u, vs.head) && SameItems(rest, vs.tail)
  }

  /** Every member of `us` has a counterpart under the same key. */
  predicate SameMembers(us: List<Member>, vs: List<Member>) {
    match us
    case Nil => true
    case Cons(m, rest) =>
      var other := Lookup(vs, m.key);
      other.Some? && Same(m.value, other.value) && SameMembers(rest, vs)
  }
}

/** Normal forms: what normalization produces, and that it decides sameness. */
module CanonicalNormalForms {
  import opened Common
  import opened CanonicalJson

  // ---- key order ----

  lemma {:induction false} BeforeIrreflexive(a: Text)
    ensures !Before(a, a)
    decreases |a|
  {
    if a != [] {
      BeforeIrreflexive(a[1..]);
    }
  }

  lemma {:induction false} BeforeTransitive(a: Text, b: Text, c: Text)
    requires Before(a, b) && Before(b, c)
    ensures Before(a, c)
    decreases |a|
  {
    if a != [] && a[0] == b[0] && b[0] == c[0] {
      BeforeTransitive(a[1..], b[1..], c[1..]);
    }
  }

  lemma {:induction false} BeforeTotal(a: Text, b: Text)
    ensures a == b || Before(a, b) || Before(b, a)
    decreases |a|
  {
    if a != [] && b != [] && a[0] == b[0] {
      BeforeTotal(a[1..], b[1..]);
      assert a == [a[0]] + a[1..] && b == [b[0]] + b[1..];
    }
  }

  /** Sorted strictly by key. */
  predicate Sorted(members: List<Member>) {
    match members
    case Nil => true
    case Cons(m, rest) => Sorted(rest) && (rest.Cons? ==> Before(m.key, rest.head.key))
  }

  lemma {:induction false} SortedAhead(m: Member, members: List<Member>, key: Text)
    requires Sorted(Cons(m, members)) && key in KeysOf(members)
    ensures Before(m.key, key)
    decreases members
  {
    if members.head.key != key {
      SortedAhead(members.head, members.tail, key);
      BeforeTransitive(m.key, members.head.key, key);
    }
  }

  lemma {:induction false} SortedAbsent(members: List<Member>, key: Text)
    requires Sorted(members) && (members.Cons? ==> Before(key, members.head.key))
    ensures key !in KeysOf(members)
    decreases members
  {
    if members.Cons? {
      BeforeIrreflexive(key);
      if members.tail.Cons? {
        BeforeTransitive(key, members.head.key, members.tail.head.key);
      }
      SortedAbsent(members.tail, key);
    }
  }

  lemma {:induction false} LookupIffKey(members: List<Member>, key: Text)
    ensures Lookup(members, key).Some? <==> key in KeysOf(members)
    decreases members
  {
    if members.Cons? {
      LookupIffKey(members.tail, key);
    }
  }

  lemma {:induction false} InsertKeeps(m: Member, members: List<Member>)
    requires Sorted(members) && m.key !in KeysOf(members)
    ensures Sorted(Insert(m, members)) && KeysOf(Insert(m, members)) == {m.key} + KeysOf(members)
    decreases members
  {
    if members.Cons? {
      BeforeTotal(members.head.key, m.key);
      if Before(members.head.key, m.key) {
        InsertKeeps(m, members.tail);
      }
    }
  }

  lemma {:induction false} InsertLookup(m: Member, members: List<Member>, key: Text)
    requires m.key !in KeysOf(members)
    ensures Lookup(Insert(m, members), key) == if key == m.key then Some(m.value) else Lookup(members, key)
    decreases members
  {
    if members.Cons? {
      InsertLookup(m, members.tail, key);
    }
  }

  lemma InsertInFront(m: Member, members: List<Member>)
    requires Sorted(Cons(m, members))
    ensures Insert(m, members) == Cons(m, members)
  {
    if members.Cons? && Before(members.head.key, m.key) {
      BeforeTransitive(m.key, members.head.key, m.key);
      BeforeIrreflexive(m.key);
      assert false;
    }
  }

  /** A sorted list is determined by what it maps each key to. */
  lemma {:induction false} SortedExtensional(us: List<Member>, vs: List<Member>)
    requires Sorted(us) && Sorted(vs) && KeysOf(us) == KeysOf(vs)
    requires forall key :: key in KeysOf(us) ==> Lookup(us, key) == Lookup(vs, key)
    ensures us == vs
    decreases us
  {
    assert us.Cons? <==> vs.Cons?;
    if us.Cons? {
      SameFirstKey(us, vs);
      assert Lookup(us, us.head.key) == Lookup(vs, us.head.key);
      SortedTailKeys(us);
      SortedTailKeys(vs);
      forall key | key in KeysOf(us.tail) ensures Lookup(us.tail, key) == Lookup(vs.tail, key) {
        assert Lookup(us, key) == Lookup(vs, key);
      }
      SortedExtensional(us.tail, vs.tail);
    }
  }

  lemma SameFirstKey(us: List<Member>, vs: List<Member>)
    requires Sorted(us) && Sorted(vs) && us.Cons? && vs.Cons? && KeysOf(us) == KeysOf(vs)
    ensures us.head.key == vs.head.key
  {
    var a, b := us.head.key, vs.head.key;
    assert a in KeysOf(vs) && b in KeysOf(us);
    if a != b {
      SortedAhead(us.head, us.tail, b);
      SortedAhead(vs.head, vs.tail, a);
      BeforeTransitive(a, b, a);
      BeforeIrreflexive(a);
      assert false;
    }
  }

  lemma SortedTailKeys(us: List<Member>)
    requires Sorted(us) && us.Cons?
    ensures us.head.key !in KeysOf(us.tail) && KeysOf(us.tail) == KeysOf(us) - {us.head.key}
  {
    SortedAbsent(us.tail, us.head.key);
  }

  // ---- normal values ----

  /** Objects sorted, and only floats left that are no integers. */
  ghost predicate Normal(v: Json) {
    match v
    case Arr(items) => NormalItems(items)
    case Obj(members) => Sorted(members) && NormalMembers(members)
    case Float(x) => IsBinary(x) && !IsIntegral(x)
    case _ => true
  }

  ghost predicate NormalItems(items: List<Json>) {
    match items
    case Nil => true
    case Cons(v, rest) => Normal(v) && NormalItems(rest)
  }

  ghost predicate NormalMembers(members: List<Member>) {
    match members
    case Nil => true
    case Cons(m, rest) => Normal(m.value) && NormalMembers(rest)
  }

  lemma {:induction false} InsertNormal(m: Member, members: List<Member>)
    requires Normal(m.value) && NormalMembers(members)
    ensures NormalMembers(Insert(m, members))
    decreases members
  {
    if members.Cons? {
      InsertNormal(m, members.tail);
    }
  }

  lemma {:induction false} NormalizeNormal(v: Json)
    requires WellFormed(v)
    ensures Normal(Normalize(v))
    decreases v
  {
    match v
    case Arr(items) => NormalizeItemsNormal(items);
    case Obj(members) => NormalizeMembersNormal(members);
    case _ =>
  }

  lemma {:induction false} NormalizeItemsNormal(items: List<Json>)
    requires WellFormedItems(items)
    ensures NormalItems(NormalizeItems(items))
    decreases items
  {
    if items.Cons? {
      NormalizeNormal(items.head);
      NormalizeItemsNormal(items.tail);
    }
  }

  lemma {:induction false} NormalizeMembersNormal(members: List<Member>)
    requires DistinctKeys(members) && WellFormedMembers(members)
    ensures Sorted(NormalizeMembers(members)) && NormalMembers(NormalizeMembers(members))
    ensures KeysOf(NormalizeMembers(members)) == KeysOf(members)
    decreases members
  {
    if members.Cons? {
      var m := Member(members.head.key, Normalize(members.head.value));
      NormalizeNormal(members.head.value);
      NormalizeMembersNormal(members.tail);
      InsertKeeps(m, NormalizeMembers(members.tail));
      InsertNormal(m, NormalizeMembers(members.tail));
    }
  }

  // ---- normal values stay as they are ----

  lemma {:induction false} NormalFixed(v: Json)
    requires Normal(v)
    ensures Normalize(v) == v && SortKeys(v) == v
    decreases v
  {
    match v
    case Arr(items) => NormalItemsFixed(items);
    case Obj(members) => NormalMembersFixed(members);
    case _ =>
  }

  lemma {:induction false} NormalItemsFixed(items: List<Json>)
    requires NormalItems(items)
    ensures NormalizeItems(items) == items && SortItems(items) == items
    decreases items
  {
    if items.Cons? {
      NormalFixed(items.head);
      NormalItemsFixed(items.tail);
    }
  }

  lemma {:induction false} NormalMembersFixed(members: List<Member>)
    requires Sorted(members) && NormalMembers(members)
    ensures NormalizeMembers(members) == members && SortMembers(members) == members
    decreases members
  {
    if members.Cons? {
      NormalFixed(members.head.value);
      NormalMembersFixed(members.tail);
      InsertInFront(members.head, members.tail);
    }
  }

  /** Normalizing twice is normalizing once, and the renderer's own sort has nothing left to do. */
  lemma NormalizeIdempotent(v: Json)
    requires WellFormed(v)
    ensures Normalize(Normalize(v)) == Normalize(v) && SortKeys(Normalize(v)) == Normalize(v)
  {
    NormalizeNormal(v);
    NormalFixed(Normalize(v));
  }

  // ---- sameness is equality of normal forms ----

  lemma {:induction false} NormalizeLookup(members: List<Member>, key: Text)
    requires DistinctKeys(members) && WellFormedMembers(members)
    ensures Lookup(NormalizeMembers(members), key) ==
            (if Lookup(members, key).Some? then Some(Normalize(Lookup(members, key).value)) else None)
    decreases members
  {
    if members.Cons? {
      NormalizeLookup(members.tail, key);
      NormalizeMembersNormal(members.tail);
      InsertLookup(Member(members.head.key, Normalize(members.head.value)), NormalizeMembers(members.tail), key);
      LookupIffKey(members.tail, key);
    }
  }

  lemma {:induction false} WellFormedLookup(members: List<Member>, key: Text)
    requires WellFormedMembers(members) && Lookup(members, key).Some?
    ensures WellFormed(Lookup(members, key).value)
    decreases members
  {
    if members.head.key != key {
      WellFormedLookup(members.tail, key);
    }
  }

  lemma {:induction false} SameIffNormalEqual(u: Json, v: Json)
    requires WellFormed(u) && WellFormed(v)
    ensures Same(u, v) <==> Normalize(u) == Normalize(v)
    decreases u
  {
    match u
    case Arr(items) =>
      if v.Arr? {
        SameItemsIff(items, v.items);
      }
    case Obj(members) =>
      if v.Obj? {
        SameObjectIff(members, v.members);
      }
    case _ =>
  }

  lemma {:induction false} SameItemsIff(us: List<Json>, vs: List<Json>)
    requires WellFormedItems(us) && WellFormedItems(vs)
    ensures SameItems(us, vs) <==> NormalizeItems(us) == NormalizeItems(vs)
    decreases us
  {
    if us.Cons? && vs.Cons? {
      SameIffNormalEqual(us.head, vs.head);
      SameItemsIff(us.tail, vs.tail);
    }
  }

  /** Counterparts under each key are the same exactly when the normalized lookups agree. */
  lemma {:induction false} SameMembersIff(us: List<Member>, vs: List<Member>)
    requires DistinctKeys(us) && DistinctKeys(vs) && WellFormedMembers(us) && WellFormedMembers(vs)
    requires KeysOf(us) <= KeysOf(vs)
    ensures SameMembers(us, vs) <==>
            forall key :: key in KeysOf(us) ==> Lookup(NormalizeMembers(us), key) == Lookup(NormalizeMembers(vs), key)
    decreases us, 0
  {
    if us.Cons? {
      var k := us.head.key;
      LookupIffKey(vs, k);
      WellFormedLookup(vs, k);
      SameIffNormalEqual(us.head.value, Lookup(vs, k).value);
      SameMembersIff(us.tail, vs);
      NormalizeLookup(vs, k);
      NormalizeLookup(us, k);
      forall key | key in KeysOf(us.tail)
        ensures Lookup(NormalizeMembers(us), key) == Lookup(NormalizeMembers(us.tail), key)
      {
        NormalizeLookup(us, key);
        NormalizeLookup(us.tail, key);
      }
    }
  }

  lemma {:induction false} SameObjectIff(us: List<Member>, vs: List<Member>)
    requires DistinctKeys(us) && DistinctKeys(vs) && WellFormedMembers(us) && WellFormedMembers(vs)
    ensures KeysOf(us) == KeysOf(vs) && SameMembers(us, vs) <==> NormalizeMembers(us) == NormalizeMembers(vs)
    decreases us, 1
  {
    NormalizeMembersNormal(us);
    NormalizeMembersNormal(vs);
    if KeysOf(us) == KeysOf(vs) {
      SameMembersIff(us, vs);
      if SameMembers(us, vs) {
        SortedExtensional(NormalizeMembers(us), NormalizeMembers(vs));
      }
    }
  }
}
