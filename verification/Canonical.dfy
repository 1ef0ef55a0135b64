/**
 The identity of a telemetry event (apps/home-assistant-climate-provider/src/telemetry.ts:220-233): the text that is
 hashed, and the canonical JSON printer that ends it.
 */
module Canonical {
  import opened Utf16

  const NEWLINE: Unit := 10
  const QUOTE: Unit := 34
  const COMMA: Unit := 44
  const COLON: Unit := 58
  const BACKSLASH: Unit := 92
  const NULL: Text := [110, 117, 108, 108]
  const TRUE: Text := [116, 114, 117, 101]
  const FALSE: Text := [102, 97, 108, 115, 101]

  datatype Field = Field(key: Text, value: Json)

  /** What JavaScript's decimal notation of a number consists of: digits, `+`, `-`, `.` and `e`. */
  predicate NumberUnit(c: Unit) {
    48 <= c <= 57 || c == 43 || c == 45 || c == 46 || c == 101
  }

  type Digits = t: Text | t != [] && forall c <- t :: NumberUnit(c) witness [48]

  datatype Number = Finite(digits: Digits) | NegativeZero | NotFinite

  /** A JSON tree as JavaScript holds it: the properties of an object have an order. */
  datatype Json =
    | Null
    | Bool(flag: bool)
    | Num(number: Number)
    | Str(text: Text)
    | Arr(items: seq<Json>)
    | Obj(fields: seq<Field>)

  function Keys(fields: seq<Field>): seq<Text> {
    seq(|fields|, i requires 0 <= i < |fields| => fields[i].key)
  }

  predicate Distinct(keys: seq<Text>) {
    forall i, j :: 0 <= i < j < |keys| ==> keys[i] != keys[j]
  }

  function IndexOf(keys: seq<Text>, k: Text): (i: nat)
    requires k in keys
    ensures i < |keys| && keys[i] == k
  {
    if keys[0] == k then 0 else IndexOf(keys[1..], k) + 1
  }

  /** `v[k]`. */
  function Property(v: Json, k: Text): (r: Json)
    requires v.Obj? && k in Keys(v.fields)
    ensures r < v
    ensures WellFormed(v) ==> WellFormed(r)
  {
    v.fields[IndexOf(Keys(v.fields), k)].value
  }

  /** No object names a property twice. */
  predicate WellFormed(j: Json) {
    match j
    case Arr(items) => forall i :: 0 <= i < |items| ==> WellFormed(items[i])
    case Obj(fields) => Distinct(Keys(fields)) && forall i :: 0 <= i < |fields| ==> WellFormed(fields[i].value)
    case _ => true
  }

  /**
   What a tree says, apart from the order of properties. JSON has one zero, and writes NaN and the infinities as null.
   */
  datatype Value =
    | VNull
    | VBool(flag: bool)
    | VNum(digits: Digits)
    | VStr(text: Text)
    | VArr(items: seq<Value>)
    | VObj(fields: map<Text, Value>)

  function Meaning(j: Json): Value {
    match j
    case Null => VNull
    case Bool(b) => VBool(b)
    case Num(Finite(digits)) => VNum(digits)
    case Num(NegativeZero) => VNum([48])
    case Num(NotFinite) => VNull
    case Str(s) => VStr(s)
    case Arr(items) => VArr(seq(|items|, i requires 0 <= i < |items| => Meaning(items[i])))
    case Obj(fields) =>
      VObj(map k | k in Keys(fields) :: Meaning(Property(j, k)))
  }

  // ------------------------------------------------------------------------------------------ JSON.stringify

  predicate Lead(c: Unit) { 0xD800 <= c < 0xDC00 }
  predicate Trail(c: Unit) { 0xDC00 <= c < 0xE000 }

  predicate StartsWithPair(s: Text) {
    |s| >= 2 && Lead(s[0]) && Trail(s[1])
  }

  function HexDigit(d: nat): Unit
    requires d < 16
  {
    if d < 10 then 48 + d else 87 + d
  }

  function Escape(c: Unit): Text {
    if c == 8 then [BACKSLASH, 98]
    else if c == 9 then [BACKSLASH, 116]
    else if c == 10 then [BACKSLASH, 110]
    else if c == 12 then [BACKSLASH, 102]
    else if c == 13 then [BACKSLASH, 114]
    else if c == QUOTE || c == BACKSLASH then [BACKSLASH, c]
    else if c < 32 || Lead(c) || Trail(c) then
      [BACKSLASH, 117, HexDigit(c / 16 / 16 / 16), HexDigit(c / 16 / 16 % 16), HexDigit(c / 16 % 16), HexDigit(c % 16)]
    else [c]
  }

  /** The inside of a quoted string: surrogate pairs stay, lone surrogates are escaped. */
  function Escaped(s: Text): Text {
    if s == [] then []
    else if StartsWithPair(s) then s[..2] + Escaped(s[2..])
    else Escape(s[0]) + Escaped(s[1..])
  }

  function Quoted(s: Text): Text {
    [QUOTE] + Escaped(s) + [QUOTE]
  }

  function NumberText(n: Number): Text {
    match n
    case Finite(digits) => digits
    case NegativeZero => [48]
    case NotFinite => NULL
  }

  // ------------------------------------------------------------------------------------------ canonical

  /** The order of `sort()`: by code units, a prefix first. */
  predicate Less(a: Text, b: Text) {
    b != [] && (a == [] || a[0] < b[0] || (a[0] == b[0] && Less(a[1..], b[1..])))
  }

  function Insert(k: Text, sorted: seq<Text>): (r: seq<Text>)
    ensures |r| == |sorted| + 1
    ensures forall x :: x in r <==> x == k || x in sorted
  {
    if sorted == [] || Less(k, sorted[0]) then [k] + sorted else [sorted[0]] + Insert(k, sorted[1..])
  }

  function Sorted(keys: seq<Text>): (r: seq<Text>)
    ensures |r| == |keys|
    ensures forall x :: x in r <==> x in keys
  {
    if keys == [] then [] else Insert(keys[0], Sorted(keys[1..]))
  }

  /** `join(",")`. */
  function Joined(texts: seq<Text>): Text {
    if texts == [] then [] else texts[0] + Continued(texts[1..])
  }

  function Continued(texts: seq<Text>): Text {
    if texts == [] then [] else [COMMA] + texts[0] + Continued(texts[1..])
  }

  function Canonical(j: Json): Text {
    match j
    case Null => NULL
    case Bool(b) => if b then TRUE else FALSE
    case Num(n) => NumberText(n)
    case Str(s) => Quoted(s)
    case Arr(items) => [91] + Joined(seq(|items|, i requires 0 <= i < |items| => Canonical(items[i]))) + [93]
    case Obj(fields) =>
      var keys := Sorted(Keys(fields));
      [123] + Joined(seq(|keys|, i requires 0 <= i < |keys| =>
        Quoted(keys[i]) + [COLON] + Canonical(Property(j, keys[i])))) + [125]
  }

  datatype Identity = Identity(provider: Text, entity: Text, observed: Text, kind: Text, payload: Json)

  /** The text hashed into `providerEventId`. */
  function Preimage(x: Identity): Text {
    x.provider + [NEWLINE] + x.entity + [NEWLINE] + x.observed + [NEWLINE] + x.kind + [NEWLINE] + Canonical(x.payload)
  }

  // ------------------------------------------------------------------------------------------ strings read back

  function HexValue(c: Unit): nat {
    if c <= 57 then (if c < 48 then 0 else c - 48) else if 97 <= c <= 102 then c - 87 else 0
  }

  function Unescape(c: Unit): Unit {
    if c == 98 then 8 else if c == 116 then 9 else if c == 110 then 10
    else if c == 102 then 12 else if c == 114 then 13 else c
  }

  /** How many units the next character of a quoted string takes, and which character it stands for. */
  function Width(t: Text): (w: nat)
    requires t != []
    ensures 1 <= w <= |t|
  {
    if t[0] != BACKSLASH || |t| < 2 then 1 else if t[1] != 117 || |t| < 6 then 2 else 6
  }

  function Character(t: Text): Unit
    requires t != []
  {
    if Width(t) == 1 then t[0]
    else if Width(t) == 2 then Unescape(t[1])
    else HexValue(t[2]) * 4096 + HexValue(t[3]) * 256 + HexValue(t[4]) * 16 + HexValue(t[5])
  }

  datatype Read = Read(text: Text, rest: Text)

  /** The string whose quoted form, after the opening quote, starts `t`, and what follows the closing quote. */
  function Unquoted(t: Text): Read {
    if t == [] then Read([], [])
    else if t[0] == QUOTE then Read([], t[1..])
    else
      var more := Unquoted(t[Width(t)..]);
      Read([Character(t)] + more.text, more.rest)
  }

  lemma HexDigitReadsBack(d: nat)
    requires d < 16
    ensures HexValue(HexDigit(d)) == d
  {}

  lemma HexReadsBack(c: Unit)
    ensures HexValue(HexDigit(c / 16 / 16 / 16)) * 4096 + HexValue(HexDigit(c / 16 / 16 % 16)) * 256
          + HexValue(HexDigit(c / 16 % 16)) * 16 + HexValue(HexDigit(c % 16)) == c
  {
    HexDigitReadsBack(c / 16 / 16 / 16);
    HexDigitReadsBack(c / 16 / 16 % 16);
    HexDigitReadsBack(c / 16 % 16);
    HexDigitReadsBack(c % 16);
  }

  lemma EscapeReadsBack(c: Unit, t: Text)
    ensures var whole := Escape(c) + t;
            && whole[0] != QUOTE && Width(whole) == |Escape(c)| && Character(whole) == c
            && whole[Width(whole)..] == t
  {
    HexReadsBack(c);
  }

  lemma EscapeThenUnquoted(c: Unit, t: Text)
    ensures Unquoted(Escape(c) + t) == Read([c] + Unquoted(t).text, Unquoted(t).rest)
  {
    EscapeReadsBack(c, t);
  }

  lemma PlainThenUnquoted(c: Unit, t: Text)
    requires c != QUOTE && c != BACKSLASH
    ensures Unquoted([c] + t) == Read([c] + Unquoted(t).text, Unquoted(t).rest)
  {
    var whole := [c] + t;
    assert Width(whole) == 1 && whole[1..] == t;
  }

  lemma PairThenUnquoted(lead: Unit, trail: Unit, tail: Text)
    requires Lead(lead) && Trail(trail)
    ensures Unquoted([lead] + ([trail] + tail))
         == Read([lead] + ([trail] + Unquoted(tail).text), Unquoted(tail).rest)
  {
    PlainThenUnquoted(trail, tail);
    PlainThenUnquoted(lead, [trail] + tail);
  }

  lemma PairReadsBack(s: Text, rest: Text)
    requires StartsWithPair(s)
    requires Unquoted(Escaped(s[2..]) + [QUOTE] + rest) == Read(s[2..], rest)
    ensures Unquoted(Escaped(s) + [QUOTE] + rest) == Read(s, rest)
  {
    PairThenUnquoted(s[0], s[1], Escaped(s[2..]) + [QUOTE] + rest);
    PairText(s[0], s[1], Escaped(s[2..]), rest);
    StartsAs(s);
  }

  lemma StartsAs(s: Text)
    requires |s| >= 2
    ensures s[..2] == [s[0], s[1]] && [s[0]] + ([s[1]] + s[2..]) == s
  {}

  lemma PairText(lead: Unit, trail: Unit, more: Text, rest: Text)
    ensures [lead, trail] + more + [QUOTE] + rest == [lead] + ([trail] + (more + [QUOTE] + rest))
  {}

  lemma UnitReadsBack(s: Text, rest: Text)
    requires s != [] && !StartsWithPair(s)
    requires Unquoted(Escaped(s[1..]) + [QUOTE] + rest) == Read(s[1..], rest)
    ensures Unquoted(Escaped(s) + [QUOTE] + rest) == Read(s, rest)
  {
    EscapeThenUnquoted(s[0], Escaped(s[1..]) + [QUOTE] + rest);
    UnitText(Escape(s[0]), Escaped(s[1..]), rest);
    FirstAndRest(s);
  }

  lemma UnitText(unit: Text, more: Text, rest: Text)
    ensures unit + more + [QUOTE] + rest == unit + (more + [QUOTE] + rest)
  {}

  lemma FirstAndRest(s: Text)
    requires s != []
    ensures [s[0]] + s[1..] == s
  {}

  /** Whatever follows, a quoted string can be read back from it. */
  lemma {:induction false} EscapedReadsBack(s: Text, rest: Text)
    ensures Unquoted(Escaped(s) + [QUOTE] + rest) == Read(s, rest)
  {
    if s == [] {
      assert [] + [QUOTE] + rest == [QUOTE] + rest;
    } else if StartsWithPair(s) {
      EscapedReadsBack(s[2..], rest);
      PairReadsBack(s, rest);
    } else {
      EscapedReadsBack(s[1..], rest);
      UnitReadsBack(s, rest);
    }
  }

  lemma QuotedDetermines(a: Text, b: Text, r: Text, s: Text)
    requires Quoted(a) + r == Quoted(b) + s
    ensures a == b && r == s
  {
    var x, y := Quoted(a) + r, Quoted(b) + s;
    assert x[1..] == Escaped(a) + [QUOTE] + r;
    assert y[1..] == Escaped(b) + [QUOTE] + s;
    EscapedReadsBack(a, r);
    EscapedReadsBack(b, s);
  }

  // ------------------------------------------------------------------------------------------ sorting

  predicate Ascending(keys: seq<Text>) {
    forall i, j :: 0 <= i < j < |keys| ==> Less(keys[i], keys[j])
  }

  lemma {:induction false} LessIsAnOrder(a: Text, b: Text, c: Text)
    ensures !Less(a, a)
    ensures Less(a, b) && Less(b, c) ==> Less(a, c)
    ensures a != b ==> Less(a, b) || Less(b, a)
  {
    if a != [] {
      LessIsAnOrder(a[1..], if b == [] then b else b[1..], if c == [] then c else c[1..]);
      if b != [] {
        assert a == [a[0]] + a[1..] && b == [b[0]] + b[1..];
      }
    }
  }

  /** At the first difference the smaller unit comes first, and a proper prefix comes first. */
  predicate DiffersAt(a: Text, b: Text, i: nat) {
    i <= |a| && i < |b| && a[..i] == b[..i] && (i < |a| ==> a[i] < b[i])
  }

  /** The order of the keys is by code units. */
  lemma {:induction false} LessExactly(a: Text, b: Text)
    ensures Less(a, b) <==> exists i: nat :: DiffersAt(a, b, i)
  {
    if a == [] || b == [] {
      assert a == [] && b != [] ==> DiffersAt(a, b, 0);
    } else {
      LessExactly(a[1..], b[1..]);
      if a[0] < b[0] {
        assert DiffersAt(a, b, 0);
      }
      if Less(a, b) && a[0] == b[0] {
        var i: nat :| DiffersAt(a[1..], b[1..], i);
        assert a[..i + 1] == [a[0]] + a[1..][..i] && b[..i + 1] == [b[0]] + b[1..][..i];
        assert DiffersAt(a, b, i + 1);
      }
      if i: nat :| DiffersAt(a, b, i) {
        FirstUnitOfDifference(a, b, i);
      }
    }
  }

  lemma FirstUnitOfDifference(a: Text, b: Text, i: nat)
    requires a != [] && b != [] && DiffersAt(a, b, i)
    ensures if i == 0 then a[0] < b[0] else a[0] == b[0] && DiffersAt(a[1..], b[1..], i - 1)
  {
    if i > 0 {
      assert a[0] == a[..i][0] && b[0] == b[..i][0];
      assert a[1..][..i - 1] == a[..i][1..] && b[1..][..i - 1] == b[..i][1..];
    }
  }

  /**
   Which units of a string are escaped: those that have a short form by it, the other controls and lone surrogates by
   four lower-case hexadecimal digits, and no other.
   */
  lemma EscapeExactly(c: Unit)
    ensures |Escape(c)| == 1 <==> Escape(c) == [c]
    ensures Escape(c) == [c] <==> c >= 32 && c != 34 && c != 92 && !(0xD800 <= c < 0xE000)
    ensures |Escape(c)| == 2 <==> c in {8, 9, 10, 12, 13, 34, 92}
    ensures c == 8 ==> Escape(c) == [92, 98]
    ensures c == 9 ==> Escape(c) == [92, 116]
    ensures c == 10 ==> Escape(c) == [92, 110]
    ensures c == 12 ==> Escape(c) == [92, 102]
    ensures c == 13 ==> Escape(c) == [92, 114]
    ensures c == 34 || c == 92 ==> Escape(c) == [92, c]
    ensures |Escape(c)| > 2 ==> |Escape(c)| == 6 && Escape(c)[..2] == [92, 117]
                                && forall i :: 2 <= i < 6 ==> 48 <= Escape(c)[i] <= 57 || 97 <= Escape(c)[i] <= 102
  {}

  lemma LessThanAll(k: Text, keys: seq<Text>)
    requires Ascending(keys) && keys != [] && Less(k, keys[0])
    ensures forall x <- keys :: Less(k, x)
  {
    forall i | 0 <= i < |keys| ensures Less(k, keys[i]) {
      LessIsAnOrder(k, keys[0], keys[i]);
    }
  }

  lemma {:induction false} InsertAscends(k: Text, sorted: seq<Text>)
    requires Ascending(sorted) && k !in sorted
    ensures Ascending(Insert(k, sorted))
  {
    if sorted != [] {
      if Less(k, sorted[0]) {
        LessThanAll(k, sorted);
      } else {
        InsertAscends(k, sorted[1..]);
        LessIsAnOrder(sorted[0], k, k);
        assert forall x <- Insert(k, sorted[1..]) :: Less(sorted[0], x);
      }
    }
  }

  lemma {:induction false} SortedAscends(keys: seq<Text>)
    requires Distinct(keys)
    ensures Ascending(Sorted(keys))
  {
    if keys != [] {
      SortedAscends(keys[1..]);
      InsertAscends(keys[0], Sorted(keys[1..]));
    }
  }

  lemma InTailExactly(keys: seq<Text>, x: Text)
    requires keys != [] && Ascending(keys)
    ensures x in keys[1..] <==> x in keys && x != keys[0]
  {
    LessIsAnOrder(x, x, x);
    assert keys == [keys[0]] + keys[1..];
  }

  lemma LeastComesFirst(a: seq<Text>, b: seq<Text>)
    requires a != [] && b != [] && Ascending(a) && Ascending(b)
    requires a[0] in b && b[0] in a
    ensures a[0] == b[0]
  {
    LessIsAnOrder(a[0], b[0], a[0]);
  }

  /** A set of keys has one ascending order. */
  lemma {:induction false} AscendingIsUnique(a: seq<Text>, b: seq<Text>)
    requires Ascending(a) && Ascending(b)
    requires forall x :: x in a <==> x in b
    ensures a == b
  {
    assert b != [] ==> b[0] in b;
    if a != [] {
      assert a[0] in a && a[0] in b;
      LeastComesFirst(a, b);
      forall x ensures x in a[1..] <==> x in b[1..] {
        InTailExactly(a, x);
        InTailExactly(b, x);
      }
      AscendingIsUnique(a[1..], b[1..]);
      assert a == [a[0]] + a[1..] && b == [b[0]] + b[1..];
    }
  }

  /** Sorting forgets the order of the keys, and nothing else. */
  lemma SortedIsCanonical(a: seq<Text>, b: seq<Text>)
    requires Distinct(a) && Distinct(b)
    ensures Sorted(a) == Sorted(b) <==> forall x :: x in a <==> x in b
  {
    SortedAscends(a);
    SortedAscends(b);
    if forall x :: x in a <==> x in b {
      AscendingIsUnique(Sorted(a), Sorted(b));
    }
    if Sorted(a) == Sorted(b) {
      forall x ensures x in a <==> x in b {
        assert x in Sorted(a) <==> x in Sorted(b);
      }
    }
  }

  // ------------------------------------------------------------------------------------------ the printer is injective

  /** The first unit tells what kind of value a text stands for. */
  lemma FirstUnit(j: Json)
    ensures Canonical(j) != []
    ensures var c, m := Canonical(j)[0], Meaning(j);
            && (c == 110 <==> m.VNull?) && (c == 116 <==> m == VBool(true)) && (c == 102 <==> m == VBool(false))
            && (NumberUnit(c) <==> m.VNum?) && (c == QUOTE <==> m.VStr?)
            && (c == 91 <==> m.VArr?) && (c == 123 <==> m.VObj?)
  {
    if j.Num? && j.number.Finite? {
      assert NumberUnit(j.number.digits[0]);
    }
  }

  /** The end of the text, or something that cannot continue a number. */
  predicate Delimited(rest: Text) {
    rest == [] || !NumberUnit(rest[0])
  }

  lemma {:induction false} DigitsDetermine(a: Text, b: Text, r: Text, s: Text)
    requires (forall c <- a :: NumberUnit(c)) && (forall c <- b :: NumberUnit(c))
    requires Delimited(r) && Delimited(s) && a + r == b + s
    ensures a == b && r == s
  {
    assert a != [] ==> (a + r)[0] == a[0] && (a + r)[1..] == a[1..] + r;
    assert b != [] ==> (b + s)[0] == b[0] && (b + s)[1..] == b[1..] + s;
    assert a == [] ==> a + r == r;
    assert b == [] ==> b + s == s;
    if a != [] && b != [] {
      DigitsDetermine(a[1..], b[1..], r, s);
      assert a == [a[0]] + a[1..] && b == [b[0]] + b[1..];
    }
  }

  /** What follows an element of a list: more elements, the closing bracket, and the rest of the text. */
  function Closing(texts: seq<Text>, close: Unit, rest: Text): Text {
    if texts == [] then [close] + rest else [COMMA] + (texts[0] + Closing(texts[1..], close, rest))
  }

  lemma {:induction false} ContinuedThenClose(texts: seq<Text>, close: Unit, rest: Text)
    ensures Continued(texts) + [close] + rest == Closing(texts, close, rest)
  {
    if texts != [] {
      ContinuedThenClose(texts[1..], close, rest);
      assert Continued(texts) + [close] + rest == [COMMA] + (texts[0] + (Continued(texts[1..]) + [close] + rest));
    } else {
      assert [] + [close] + rest == [close] + rest;
    }
  }

  function Opened(texts: seq<Text>, close: Unit, rest: Text): Text {
    if texts == [] then [close] + rest else texts[0] + Closing(texts[1..], close, rest)
  }

  lemma JoinedThenClose(open: Unit, texts: seq<Text>, close: Unit, rest: Text)
    ensures [open] + Joined(texts) + [close] + rest == [open] + Opened(texts, close, rest)
  {
    if texts != [] {
      ContinuedThenClose(texts[1..], close, rest);
      assert Joined(texts) + [close] + rest == texts[0] + (Continued(texts[1..]) + [close] + rest);
    } else {
      assert [] + [close] + rest == [close] + rest;
    }
    assert [open] + Joined(texts) + [close] + rest == [open] + (Joined(texts) + [close] + rest);
  }

  lemma SameHead(c: Unit, x: Text, d: Unit, y: Text)
    requires [c] + x == [d] + y
    ensures c == d && x == y
  {
    assert ([c] + x)[0] == c && ([c] + x)[1..] == x;
    assert ([d] + y)[0] == d && ([d] + y)[1..] == y;
  }

  function Items(j: Json): seq<Text>
    requires j.Arr?
  {
    seq(|j.items|, i requires 0 <= i < |j.items| => Canonical(j.items[i]))
  }

  function SortedKeys(j: Json): seq<Text>
    requires j.Obj?
  {
    Sorted(Keys(j.fields))
  }

  function Line(j: Json, k: Text): Text
    requires j.Obj? && k in Keys(j.fields)
  {
    Quoted(k) + [COLON] + Canonical(Property(j, k))
  }

  function Lines(j: Json): seq<Text>
    requires j.Obj?
  {
    var keys := SortedKeys(j);
    seq(|keys|, i requires 0 <= i < |keys| => Line(j, keys[i]))
  }

  /** Neither text is the start of the other, whatever follows. */
  ghost predicate Separate(t: Text, u: Text) {
    forall r, s :: Delimited(r) && Delimited(s) && t + r == u + s ==> t == u && r == s
  }

  lemma {:induction false} ClosingDetermines(ts: seq<Text>, us: seq<Text>, close: Unit, r: Text, s: Text)
    requires forall i :: 0 <= i < |ts| && i < |us| ==> Separate(ts[i], us[i])
    requires close != COMMA && !NumberUnit(close)
    requires Closing(ts, close, r) == Closing(us, close, s)
    ensures ts == us && r == s
  {
    var x, y := Closing(ts, close, r), Closing(us, close, s);
    assert x[0] == if ts == [] then close else COMMA;
    assert y[0] == if us == [] then close else COMMA;
    if ts != [] {
      var x', y' := Closing(ts[1..], close, r), Closing(us[1..], close, s);
      SameHead(COMMA, ts[0] + x', COMMA, us[0] + y');
      assert Separate(ts[0], us[0]);
      ClosingDetermines(ts[1..], us[1..], close, r, s);
      assert ts == [ts[0]] + ts[1..] && us == [us[0]] + us[1..];
    } else {
      SameHead(close, r, close, s);
    }
  }

  /** No element is empty or starts like the closing bracket. */
  predicate OpenWell(texts: seq<Text>, close: Unit) {
    forall i :: 0 <= i < |texts| ==> texts[i] != [] && texts[i][0] != close
  }

  lemma OpenedDetermines(ts: seq<Text>, us: seq<Text>, close: Unit, r: Text, s: Text)
    requires forall i :: 0 <= i < |ts| && i < |us| ==> Separate(ts[i], us[i])
    requires OpenWell(ts, close) && OpenWell(us, close) && close != COMMA && !NumberUnit(close)
    requires Opened(ts, close, r) == Opened(us, close, s)
    ensures ts == us && r == s
  {
    var x, y := Opened(ts, close, r), Opened(us, close, s);
    assert x[0] == if ts == [] then close else ts[0][0];
    assert y[0] == if us == [] then close else us[0][0];
    if ts != [] {
      assert Separate(ts[0], us[0]);
      ClosingDetermines(ts[1..], us[1..], close, r, s);
      assert ts == [ts[0]] + ts[1..] && us == [us[0]] + us[1..];
    } else {
      SameHead(close, r, close, s);
    }
  }

  lemma ArrayText(a: Json, r: Text)
    requires a.Arr?
    ensures Canonical(a) + r == [91] + Opened(Items(a), 93, r)
    ensures OpenWell(Items(a), 93)
  {
    JoinedThenClose(91, Items(a), 93, r);
    forall i | 0 <= i < |a.items| ensures Items(a)[i] != [] && Items(a)[i][0] != 93 {
      FirstUnit(a.items[i]);
    }
  }

  lemma ObjectText(a: Json, r: Text)
    requires a.Obj?
    ensures Canonical(a) + r == [123] + Opened(Lines(a), 125, r)
    ensures OpenWell(Lines(a), 125)
  {
    var keys := SortedKeys(a);
    JoinedThenClose(123, Lines(a), 125, r);
    assert Lines(a) == seq(|keys|, i requires 0 <= i < |keys| =>
      Quoted(keys[i]) + [COLON] + Canonical(Property(a, keys[i])));
  }

  lemma LineThenRest(k: Text, v: Text, r: Text)
    ensures Quoted(k) + [COLON] + v + r == Quoted(k) + ([COLON] + (v + r))
  {
    var q := Quoted(k);
    assert q + [COLON] + v + r == q + ([COLON] + (v + r));
  }

  lemma LineDetermines(k: Text, l: Text, v: Text, w: Text, r: Text, s: Text)
    requires Quoted(k) + [COLON] + v + r == Quoted(l) + [COLON] + w + s
    ensures k == l && v + r == w + s
  {
    LineThenRest(k, v, r);
    LineThenRest(l, w, s);
    QuotedDetermines(k, l, [COLON] + (v + r), [COLON] + (w + s));
    SameHead(COLON, v + r, COLON, w + s);
  }

  lemma LinesSeparate(k: Text, l: Text, v: Text, w: Text)
    requires Separate(v, w)
    ensures Separate(Quoted(k) + [COLON] + v, Quoted(l) + [COLON] + w)
  {
    var x, y := Quoted(k) + [COLON] + v, Quoted(l) + [COLON] + w;
    forall r, s | Delimited(r) && Delimited(s) && x + r == y + s ensures x == y && r == s {
      LineDetermines(k, l, v, w, r, s);
    }
  }

  /** Equal texts of two arrays, whatever follows them, have equal items. */
  lemma ArraysSplit(a: Json, b: Json, r: Text, s: Text)
    requires a.Arr? && b.Arr? && Canonical(a) + r == Canonical(b) + s
    ensures Items(a) == Items(b) && r == s
    decreases a, 0
  {
    ArrayText(a, r);
    ArrayText(b, s);
    SameHead(91, Opened(Items(a), 93, r), 91, Opened(Items(b), 93, s));
    forall i | 0 <= i < |a.items| && i < |b.items| ensures Separate(Items(a)[i], Items(b)[i]) {
      PrintsSeparate(a.items[i], b.items[i]);
    }
    OpenedDetermines(Items(a), Items(b), 93, r, s);
  }

  lemma ObjectsSplit(a: Json, b: Json, r: Text, s: Text)
    requires a.Obj? && b.Obj? && Canonical(a) + r == Canonical(b) + s
    ensures Lines(a) == Lines(b) && r == s
    decreases a, 0
  {
    ObjectText(a, r);
    ObjectText(b, s);
    SameHead(123, Opened(Lines(a), 125, r), 123, Opened(Lines(b), 125, s));
    var ka, kb := SortedKeys(a), SortedKeys(b);
    forall i | 0 <= i < |ka| && i < |kb| ensures Separate(Lines(a)[i], Lines(b)[i]) {
      PrintsSeparate(Property(a, ka[i]), Property(b, kb[i]));
      LinesSeparate(ka[i], kb[i], Canonical(Property(a, ka[i])), Canonical(Property(b, kb[i])));
    }
    OpenedDetermines(Lines(a), Lines(b), 125, r, s);
  }

  lemma SameLinesSameText(a: Json, b: Json)
    requires a.Obj? && b.Obj? && Lines(a) == Lines(b)
    ensures Canonical(a) == Canonical(b)
  {
    ObjectText(a, []);
    ObjectText(b, []);
    var x, y := Canonical(a), Canonical(b);
    assert x + [] == x && y + [] == y;
  }

  lemma SamePrefix(p: Text, r: Text, s: Text)
    requires p + r == p + s
    ensures r == s
  {
    assert (p + r)[|p|..] == r && (p + s)[|p|..] == s;
  }

  /** A printed tree can be told apart from whatever follows it. */
  lemma {:induction false} PrintsSeparate(a: Json, b: Json)
    ensures Separate(Canonical(a), Canonical(b))
    decreases a, 2
  {
    forall r, s | Delimited(r) && Delimited(s) && Canonical(a) + r == Canonical(b) + s
      ensures Canonical(a) == Canonical(b) && r == s
    {
      PrintsSplit(a, b, r, s);
    }
  }

  lemma PrintsSplit(a: Json, b: Json, r: Text, s: Text)
    requires Delimited(r) && Delimited(s) && Canonical(a) + r == Canonical(b) + s
    ensures Canonical(a) == Canonical(b) && r == s
    decreases a, 1
  {
    SameKind(a, b, r, s);
    match Meaning(a)
    case VStr(_) => QuotedDetermines(a.text, b.text, r, s);
    case VNum(_) => DigitsDetermine(Canonical(a), Canonical(b), r, s);
    case VArr(_) => ArraysSplit(a, b, r, s);
    case VObj(_) =>
      ObjectsSplit(a, b, r, s);
      SameLinesSameText(a, b);
    case _ => SamePrefix(Canonical(a), r, s);
  }

  lemma SameKind(a: Json, b: Json, r: Text, s: Text)
    requires Canonical(a) + r == Canonical(b) + s
    ensures var m, n := Meaning(a), Meaning(b);
            && (m.VNull? <==> n.VNull?) && (m.VBool? <==> n.VBool?) && (m.VNum? <==> n.VNum?)
            && (m.VStr? <==> n.VStr?) && (m.VArr? <==> n.VArr?) && (m.VObj? <==> n.VObj?)
            && ((m.VNull? || m.VBool?) ==> m == n && Canonical(a) == Canonical(b))
            && (m.VNum? ==> Canonical(a) == m.digits && Canonical(b) == n.digits)
  {
    FirstUnit(a);
    FirstUnit(b);
    assert (Canonical(a) + r)[0] == (Canonical(b) + s)[0];
  }

  predicate SameLine(a: Json, b: Json, k: Text, l: Text)
    requires a.Obj? && b.Obj?
  {
    && k == l && k in Keys(a.fields) && l in Keys(b.fields)
    && Meaning(Property(a, k)) == Meaning(Property(b, l))
  }

  ghost predicate SameLines(a: Json, b: Json)
    requires a.Obj? && b.Obj?
  {
    && |SortedKeys(a)| == |SortedKeys(b)|
    && forall k :: 0 <= k < |SortedKeys(a)| ==> SameLine(a, b, SortedKeys(a)[k], SortedKeys(b)[k])
  }

  lemma SameLinesSameMeaning(a: Json, b: Json)
    requires a.Obj? && b.Obj? && WellFormed(a) && WellFormed(b) && SameLines(a, b)
    ensures Meaning(a) == Meaning(b)
  {
    var ka, kb := SortedKeys(a), SortedKeys(b);
    assert forall i :: 0 <= i < |ka| ==> SameLine(a, b, ka[i], kb[i]);
    assert ka == kb;
    SortedIsCanonical(Keys(a.fields), Keys(b.fields));
    forall k | k in Keys(a.fields) ensures Meaning(Property(a, k)) == Meaning(Property(b, k)) {
      assert k in ka;
      var i :| 0 <= i < |ka| && ka[i] == k;
      assert SameLine(a, b, ka[i], kb[i]);
    }
    assert Meaning(a).fields == Meaning(b).fields;
  }

  lemma SameMeaningSameLines(a: Json, b: Json)
    requires a.Obj? && b.Obj? && WellFormed(a) && WellFormed(b) && Meaning(a) == Meaning(b)
    ensures SameLines(a, b)
  {
    var ka, kb := SortedKeys(a), SortedKeys(b);
    SortedIsCanonical(Keys(a.fields), Keys(b.fields));
    forall x ensures x in Keys(a.fields) <==> x in Keys(b.fields) {
      assert x in Meaning(a).fields <==> x in Meaning(b).fields;
    }
    forall k | 0 <= k < |ka| ensures SameLine(a, b, ka[k], kb[k]) {
      assert ka[k] in ka;
      assert Meaning(a).fields[ka[k]] == Meaning(b).fields[ka[k]];
    }
  }

  /** Two objects mean the same exactly when their sorted properties agree one by one. */
  lemma SameLinesSameObject(a: Json, b: Json)
    requires a.Obj? && b.Obj? && WellFormed(a) && WellFormed(b)
    ensures Meaning(a) == Meaning(b) <==> SameLines(a, b)
  {
    if SameLines(a, b) {
      SameLinesSameMeaning(a, b);
    }
    if Meaning(a) == Meaning(b) {
      SameMeaningSameLines(a, b);
    }
  }

  lemma {:induction false} PrintDetermines(a: Json, b: Json)
    requires WellFormed(a) && WellFormed(b) && Canonical(a) == Canonical(b)
    ensures Meaning(a) == Meaning(b)
    decreases a, 1
  {
    SameKind(a, b, [], []);
    match Meaning(a)
    case VStr(_) => QuotedDetermines(a.text, b.text, [], []);
    case VArr(_) => ArrayPrintDetermines(a, b);
    case VObj(_) => ObjectPrintDetermines(a, b);
    case _ =>
  }

  lemma ArrayPrintDetermines(a: Json, b: Json)
    requires a.Arr? && b.Arr? && WellFormed(a) && WellFormed(b) && Canonical(a) == Canonical(b)
    ensures Meaning(a) == Meaning(b)
    decreases a, 0
  {
    ArraysSplit(a, b, [], []);
    assert |Items(a)| == |Items(b)|;
    forall i | 0 <= i < |a.items| ensures Meaning(a.items[i]) == Meaning(b.items[i]) {
      assert Items(a)[i] == Items(b)[i];
      PrintDetermines(a.items[i], b.items[i]);
    }
    assert Meaning(a).items == Meaning(b).items;
  }

  lemma ObjectPrintDetermines(a: Json, b: Json)
    requires a.Obj? && b.Obj? && WellFormed(a) && WellFormed(b) && Canonical(a) == Canonical(b)
    ensures Meaning(a) == Meaning(b)
    decreases a, 0
  {
    ObjectsSplit(a, b, [], []);
    var ka, kb := SortedKeys(a), SortedKeys(b);
    assert |Lines(a)| == |Lines(b)|;
    forall i | 0 <= i < |ka| ensures SameLine(a, b, ka[i], kb[i]) {
      var v, w := Property(a, ka[i]), Property(b, kb[i]);
      assert Lines(a)[i] == Lines(b)[i];
      LineDetermines(ka[i], kb[i], Canonical(v), Canonical(w), [], []);
      assert Canonical(v) + [] == Canonical(v) && Canonical(w) + [] == Canonical(w);
      PrintDetermines(v, w);
    }
    SameLinesSameObject(a, b);
  }

  lemma {:induction false} MeaningDetermines(a: Json, b: Json)
    requires WellFormed(a) && WellFormed(b) && Meaning(a) == Meaning(b)
    ensures Canonical(a) == Canonical(b)
    decreases a, 2
  {
    if a.Arr? {
      ArrayMeaningDetermines(a, b);
    } else if a.Obj? {
      ObjectMeaningDetermines(a, b);
    }
  }

  lemma ArrayMeaningDetermines(a: Json, b: Json)
    requires a.Arr? && b.Arr? && WellFormed(a) && WellFormed(b) && Meaning(a) == Meaning(b)
    ensures Canonical(a) == Canonical(b)
    decreases a, 0
  {
    assert |Meaning(a).items| == |Meaning(b).items|;
    forall i | 0 <= i < |a.items| ensures Items(a)[i] == Items(b)[i] {
      assert Meaning(a).items[i] == Meaning(b).items[i];
      MeaningDetermines(a.items[i], b.items[i]);
    }
    assert Items(a) == Items(b);
  }

  lemma ObjectMeaningDetermines(a: Json, b: Json)
    requires a.Obj? && b.Obj? && WellFormed(a) && WellFormed(b) && Meaning(a) == Meaning(b)
    ensures Canonical(a) == Canonical(b)
    decreases a, 1, 0
  {
    SameLinesSameObject(a, b);
    forall i | 0 <= i < |SortedKeys(a)| ensures Lines(a)[i] == Lines(b)[i] {
      LineTextDetermined(a, b, SortedKeys(a)[i], SortedKeys(b)[i]);
    }
    assert Lines(a) == Lines(b);
    SameLinesSameText(a, b);
  }

  lemma LineTextDetermined(a: Json, b: Json, k: Text, l: Text)
    requires a.Obj? && b.Obj? && WellFormed(a) && WellFormed(b) && SameLine(a, b, k, l)
    ensures Line(a, k) == Line(b, l)
    decreases a, 0
  {
    MeaningDetermines(Property(a, k), Property(b, l));
  }

  /** Two trees print the same exactly when they say the same, whatever the order of their properties. */
  lemma CanonicalIsInjective(a: Json, b: Json)
    requires WellFormed(a) && WellFormed(b)
    ensures Canonical(a) == Canonical(b) <==> Meaning(a) == Meaning(b)
  {
    if Meaning(a) == Meaning(b) {
      MeaningDetermines(a, b);
    }
    if Canonical(a) == Canonical(b) {
      PrintDetermines(a, b);
    }
  }

  // ------------------------------------------------------------------------------------------ event identity

  function Newlines(t: Text): nat {
    if t == [] then 0 else (if t[0] == NEWLINE then 1 else 0) + Newlines(t[1..])
  }

  lemma {:induction false} NewlinesAdd(a: Text, b: Text)
    ensures Newlines(a + b) == Newlines(a) + Newlines(b)
  {
    if a == [] {
      assert a + b == b;
    } else {
      NewlinesAdd(a[1..], b);
      assert (a + b)[1..] == a[1..] + b;
    }
  }

  lemma {:induction false} EscapedHasNoNewline(s: Text)
    ensures Newlines(Escaped(s)) == 0
  {
    if s != [] {
      if StartsWithPair(s) {
        EscapedHasNoNewline(s[2..]);
        NewlinesAdd(s[..2], Escaped(s[2..]));
        assert s[..2] == [s[0]] + [s[1]];
        NewlinesAdd([s[0]], [s[1]]);
      } else {
        EscapedHasNoNewline(s[1..]);
        NewlinesAdd(Escape(s[0]), Escaped(s[1..]));
        EscapeHasNoNewline(s[0]);
      }
    }
  }

  lemma {:induction false} NoneMeansNoNewline(t: Text)
    requires forall i :: 0 <= i < |t| ==> t[i] != NEWLINE
    ensures Newlines(t) == 0
  {
    if t != [] {
      NoneMeansNoNewline(t[1..]);
    }
  }

  lemma EscapeHasNoNewline(c: Unit)
    ensures Newlines(Escape(c)) == 0
  {
    NoneMeansNoNewline(Escape(c));
  }

  lemma {:induction false} ContinuedHasNoNewline(texts: seq<Text>)
    requires forall i :: 0 <= i < |texts| ==> Newlines(texts[i]) == 0
    ensures Newlines(Continued(texts)) == 0
  {
    if texts != [] {
      ContinuedHasNoNewline(texts[1..]);
      NewlinesAdd([COMMA] + texts[0], Continued(texts[1..]));
      NewlinesAdd([COMMA], texts[0]);
    }
  }

  lemma BracketsAddNoNewline(open: Unit, texts: seq<Text>, close: Unit)
    requires forall i :: 0 <= i < |texts| ==> Newlines(texts[i]) == 0
    requires open != NEWLINE && close != NEWLINE
    ensures Newlines([open] + Joined(texts) + [close]) == 0
  {
    if texts != [] {
      ContinuedHasNoNewline(texts[1..]);
      NewlinesAdd(texts[0], Continued(texts[1..]));
    }
    NewlinesAdd([open] + Joined(texts), [close]);
    NewlinesAdd([open], Joined(texts));
  }

  lemma QuotedHasNoNewline(s: Text)
    ensures Newlines(Quoted(s)) == 0
  {
    EscapedHasNoNewline(s);
    NewlinesAdd([QUOTE] + Escaped(s), [QUOTE]);
    NewlinesAdd([QUOTE], Escaped(s));
  }

  /** The printer writes one line. */
  lemma {:induction false} CanonicalIsOneLine(j: Json)
    ensures Newlines(Canonical(j)) == 0
    decreases j, 1
  {
    match j
    case Str(s) => QuotedHasNoNewline(s);
    case Arr(items) =>
      forall i | 0 <= i < |items| ensures Newlines(Items(j)[i]) == 0 {
        CanonicalIsOneLine(items[i]);
      }
      BracketsAddNoNewline(91, Items(j), 93);
    case Obj(_) => ObjectIsOneLine(j);
    case Num(Finite(digits)) =>
      forall i | 0 <= i < |digits| ensures digits[i] != NEWLINE {
        assert NumberUnit(digits[i]);
      }
      NoneMeansNoNewline(digits);
    case _ =>
      NoneMeansNoNewline([48]);
      NoneMeansNoNewline(NULL);
      NoneMeansNoNewline(TRUE);
      NoneMeansNoNewline(FALSE);
  }

  lemma ObjectIsOneLine(j: Json)
    requires j.Obj?
    ensures Newlines(Canonical(j)) == 0
    decreases j, 0
  {
    var keys := SortedKeys(j);
    forall i | 0 <= i < |keys| ensures Newlines(Lines(j)[i]) == 0 {
      var v := Canonical(Property(j, keys[i]));
      CanonicalIsOneLine(Property(j, keys[i]));
      QuotedHasNoNewline(keys[i]);
      NewlinesAdd(Quoted(keys[i]) + [COLON], v);
      NewlinesAdd(Quoted(keys[i]), [COLON]);
    }
    BracketsAddNoNewline(123, Lines(j), 125);
    assert Lines(j) == seq(|keys|, i requires 0 <= i < |keys| =>
      Quoted(keys[i]) + [COLON] + Canonical(Property(j, keys[i])));
  }

  lemma {:induction false} FirstLineDetermines(a: Text, b: Text, r: Text, s: Text)
    requires Newlines(a) == 0 && Newlines(b) == 0 && a + ([NEWLINE] + r) == b + ([NEWLINE] + s)
    ensures a == b && r == s
  {
    var x, y := a + ([NEWLINE] + r), b + ([NEWLINE] + s);
    assert x[0] == if a == [] then NEWLINE else a[0];
    assert y[0] == if b == [] then NEWLINE else b[0];
    assert a == [] ==> x == [NEWLINE] + r;
    assert b == [] ==> y == [NEWLINE] + s;
    if a != [] {
      assert x[1..] == a[1..] + ([NEWLINE] + r) && y[1..] == b[1..] + ([NEWLINE] + s);
      FirstLineDetermines(a[1..], b[1..], r, s);
      assert a == [a[0]] + a[1..] && b == [b[0]] + b[1..];
    } else {
      SameHead(NEWLINE, r, NEWLINE, s);
    }
  }

  /** The same pre-image, bracketed from the right. */
  function Nested(x: Identity): Text {
    x.provider + ([NEWLINE] + (x.entity + ([NEWLINE] +
      (x.observed + ([NEWLINE] + (x.kind + ([NEWLINE] + Canonical(x.payload))))))))
  }

  lemma PreimageIsNested(x: Identity)
    ensures Preimage(x) == Nested(x)
  {
    Reassociate(x.provider, x.entity, x.observed, x.kind, Canonical(x.payload));
  }

  lemma Reassociate(p: Text, e: Text, o: Text, k: Text, v: Text)
    ensures p + [NEWLINE] + e + [NEWLINE] + o + [NEWLINE] + k + [NEWLINE] + v
         == p + ([NEWLINE] + (e + ([NEWLINE] + (o + ([NEWLINE] + (k + ([NEWLINE] + v)))))))
  {
    assert k + [NEWLINE] + v == k + ([NEWLINE] + v);
    assert o + [NEWLINE] + k + [NEWLINE] + v == o + ([NEWLINE] + (k + ([NEWLINE] + v)));
  }

  function FieldNewlines(x: Identity): nat {
    Newlines(x.provider) + Newlines(x.entity) + Newlines(x.observed) + Newlines(x.kind)
  }

  lemma PreimageLines(x: Identity)
    ensures Newlines(Preimage(x)) == 4 + FieldNewlines(x)
  {
    CanonicalIsOneLine(x.payload);
    var v := [NEWLINE] + Canonical(x.payload);
    NewlinesAdd([NEWLINE], Canonical(x.payload));
    var k := [NEWLINE] + (x.kind + v);
    NewlinesAdd(x.kind, v);
    NewlinesAdd([NEWLINE], x.kind + v);
    var o := [NEWLINE] + (x.observed + k);
    NewlinesAdd(x.observed, k);
    NewlinesAdd([NEWLINE], x.observed + k);
    NewlinesAdd(x.entity, o);
    NewlinesAdd([NEWLINE], x.entity + o);
    NewlinesAdd(x.provider, [NEWLINE] + (x.entity + o));
    PreimageIsNested(x);
  }

  predicate SameEvent(x: Identity, y: Identity) {
    && x.provider == y.provider && x.entity == y.entity && x.observed == y.observed && x.kind == y.kind
    && Meaning(x.payload) == Meaning(y.payload)
  }

  lemma OneLineFieldsIdentify(x: Identity, y: Identity)
    requires WellFormed(x.payload) && WellFormed(y.payload) && FieldNewlines(x) == 0
    ensures Preimage(x) == Preimage(y) <==> SameEvent(x, y)
  {
    CanonicalIsInjective(x.payload, y.payload);
    if Preimage(x) == Preimage(y) {
      PreimageLines(x);
      PreimageLines(y);
      PreimageIsNested(x);
      PreimageIsNested(y);
      var xk, yk := x.kind + ([NEWLINE] + Canonical(x.payload)), y.kind + ([NEWLINE] + Canonical(y.payload));
      var xo, yo := x.observed + ([NEWLINE] + xk), y.observed + ([NEWLINE] + yk);
      var xe, ye := x.entity + ([NEWLINE] + xo), y.entity + ([NEWLINE] + yo);
      FirstLineDetermines(x.provider, y.provider, xe, ye);
      FirstLineDetermines(x.entity, y.entity, xo, yo);
      FirstLineDetermines(x.observed, y.observed, xk, yk);
      FirstLineDetermines(x.kind, y.kind, Canonical(x.payload), Canonical(y.payload));
    }
  }

  lemma {:induction false} LastLineDetermines(a: Text, b: Text, r: Text, s: Text)
    requires Newlines(r) == 0 && Newlines(s) == 0 && a + ([NEWLINE] + r) == b + ([NEWLINE] + s)
    ensures a == b && r == s
  {
    var x, y := a + ([NEWLINE] + r), b + ([NEWLINE] + s);
    assert a == [] ==> x == [NEWLINE] + r;
    assert b == [] ==> y == [NEWLINE] + s;
    if a != [] && b != [] {
      assert x[0] == a[0] && y[0] == b[0];
      assert x[1..] == a[1..] + ([NEWLINE] + r) && y[1..] == b[1..] + ([NEWLINE] + s);
      LastLineDetermines(a[1..], b[1..], r, s);
      assert a == [a[0]] + a[1..] && b == [b[0]] + b[1..];
    } else {
      LastLineIsAll(a, r);
      LastLineIsAll(b, s);
      SameHead(NEWLINE, r, NEWLINE, s);
    }
  }

  /** A text of one newline in all has nothing but its last line behind that. */
  lemma LastLineIsAll(a: Text, r: Text)
    requires Newlines(r) == 0
    ensures Newlines(a + ([NEWLINE] + r)) == Newlines(a) + 1
    ensures (a + ([NEWLINE] + r))[0] == NEWLINE && Newlines(a + ([NEWLINE] + r)) == 1 ==> a == []
  {
    NewlinesAdd(a, [NEWLINE] + r);
    NewlinesAdd([NEWLINE], r);
  }

  /** Provider, entity and kind are on one line, as the configuration and the constants of the provider make them. */
  predicate OneLineNames(x: Identity) {
    Newlines(x.provider) == 0 && Newlines(x.entity) == 0 && Newlines(x.kind) == 0
  }

  /** Among such events the pre-image identifies all five components, whatever the time field contains. */
  lemma OneLineNamesIdentify(x: Identity, y: Identity)
    requires WellFormed(x.payload) && WellFormed(y.payload) && OneLineNames(x) && OneLineNames(y)
    ensures Preimage(x) == Preimage(y) <==> SameEvent(x, y)
  {
    CanonicalIsInjective(x.payload, y.payload);
    if Preimage(x) == Preimage(y) {
      var xv, yv := Canonical(x.payload), Canonical(y.payload);
      var xk, yk := x.kind + ([NEWLINE] + xv), y.kind + ([NEWLINE] + yv);
      var xo, yo := x.observed + ([NEWLINE] + xk), y.observed + ([NEWLINE] + yk);
      PreimageIsNested(x);
      PreimageIsNested(y);
      FirstLineDetermines(x.provider, y.provider, x.entity + ([NEWLINE] + xo), y.entity + ([NEWLINE] + yo));
      FirstLineDetermines(x.entity, y.entity, xo, yo);
      CanonicalIsOneLine(x.payload);
      CanonicalIsOneLine(y.payload);
      LastTwoLines(x.observed, x.kind, xv, y.observed, y.kind, yv);
    }
  }

  lemma RegroupLines(o: Text, k: Text, v: Text)
    ensures o + ([NEWLINE] + k) + ([NEWLINE] + v) == o + ([NEWLINE] + (k + ([NEWLINE] + v)))
  {
    var tail := [NEWLINE] + v;
    assert [NEWLINE] + k + tail == [NEWLINE] + (k + tail);
  }

  lemma LastTwoLines(o: Text, k: Text, v: Text, p: Text, l: Text, w: Text)
    requires Newlines(k) == 0 && Newlines(v) == 0 && Newlines(l) == 0 && Newlines(w) == 0
    requires o + ([NEWLINE] + (k + ([NEWLINE] + v))) == p + ([NEWLINE] + (l + ([NEWLINE] + w)))
    ensures o == p && k == l && v == w
  {
    var x, y := o + ([NEWLINE] + k), p + ([NEWLINE] + l);
    RegroupLines(o, k, v);
    RegroupLines(p, l, w);
    LastLineDetermines(x, y, v, w);
    LastLineDetermines(o, p, k, l);
  }

  lemma {:induction false} AtNewline(t: Text) returns (a: Text, b: Text)
    requires Newlines(t) > 0
    ensures t == a + [NEWLINE] + b
  {
    if t[0] == NEWLINE {
      a, b := [], t[1..];
    } else {
      a, b := AtNewline(t[1..]);
      a := [t[0]] + a;
    }
  }

  /** Moving a newline across a field boundary gives another event with the same pre-image. */
  lemma NewlineMakesTwin(x: Identity) returns (y: Identity)
    requires FieldNewlines(x) > 0
    ensures y.payload == x.payload && !SameEvent(x, y) && Preimage(y) == Preimage(x)
  {
    var v := Canonical(x.payload);
    if Newlines(x.provider) > 0 {
      var a, b := AtNewline(x.provider);
      y := x.(provider := a, entity := b + [NEWLINE] + x.entity);
      assert a + [NEWLINE] + (b + [NEWLINE] + x.entity) == x.provider + [NEWLINE] + x.entity;
      assert |y.provider| < |x.provider|;
    } else if Newlines(x.entity) > 0 {
      var a, b := AtNewline(x.entity);
      y := x.(provider := x.provider + [NEWLINE] + a, entity := b);
      assert x.provider + [NEWLINE] + a + [NEWLINE] + b == x.provider + [NEWLINE] + x.entity;
      assert |y.entity| < |x.entity|;
    } else if Newlines(x.observed) > 0 {
      var a, b := AtNewline(x.observed);
      y := x.(entity := x.entity + [NEWLINE] + a, observed := b);
      assert x.provider + [NEWLINE] + (x.entity + [NEWLINE] + a) + [NEWLINE] + b
          == x.provider + [NEWLINE] + x.entity + [NEWLINE] + x.observed;
      assert |y.observed| < |x.observed|;
    } else {
      var a, b := AtNewline(x.kind);
      y := x.(observed := x.observed + [NEWLINE] + a, kind := b);
      var p := x.provider + [NEWLINE] + x.entity + [NEWLINE];
      assert p + (x.observed + [NEWLINE] + a) + [NEWLINE] + b == p + x.observed + [NEWLINE] + x.kind;
      assert |y.kind| < |x.kind|;
    }
  }

  /**
   An event shares its pre-image with no other event exactly when none of its four text fields contains a newline.
   */
  lemma PreimageIdentifiesExactlyOneLineFields(x: Identity)
    requires WellFormed(x.payload)
    ensures FieldNewlines(x) == 0 <==>
            (forall y: Identity :: WellFormed(y.payload) && Preimage(y) == Preimage(x) ==> SameEvent(x, y))
  {
    if FieldNewlines(x) == 0 {
      forall y: Identity | WellFormed(y.payload) && Preimage(y) == Preimage(x) ensures SameEvent(x, y) {
        OneLineFieldsIdentify(x, y);
      }
    } else {
      var y := NewlineMakesTwin(x);
      assert WellFormed(y.payload) && Preimage(y) == Preimage(x) && !SameEvent(x, y);
    }
  }
}
