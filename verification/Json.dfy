/** Compact JSON text as Python's `json.dumps(..., sort_keys=True, separators=(",", ":"))` writes it
    (sections 4 to 7 of RFC 8259): a rendering determines its value. */
module Json {
  import opened Sorting

  /** The characters of numbers, `NaN` and `Infinity`. */
  predicate NumberChar(c: char) {
    || '0' <= c <= '9' || c == '+' || c == '-' || c == '.' || c == 'e' || c == 'E'
    || c == 'N' || c == 'a' || c == 'I' || c == 'n' || c == 'f' || c == 'i' || c == 't' || c == 'y'
  }

  predicate NumberText(s: string) {
    && s != []
    && ('0' <= s[0] <= '9' || s[0] == '-' || s[0] == 'N' || s[0] == 'I')
    && forall i | 0 <= i < |s| :: NumberChar(s[i])
  }

  /** The text a number renders to; `NaN` and the infinities are allowed, as in Python. */
  type Lexeme = s: string | NumberText(s) witness "0"

  /** A parsed JSON value. An object is a map, so `==` ignores key order, as Python's `dict` does. */
  datatype Json =
    | Null
    | Bool(truth: bool)
    | Num(lexeme: Lexeme)
    | Str(text: string)
    | Arr(items: seq<Json>)
    | Obj(fields: map<string, Json>)

  // ---------------------------------------------------------------- rendering

  function HexDigit(d: int): char
    requires 0 <= d < 16
  {
    (if d < 10 then '0' as int + d else 'a' as int + (d - 10)) as char
  }

  function Hex4(n: int): string
    requires 0 <= n < 0x10000
  {
    [HexDigit(n / 4096), HexDigit(n / 256 % 16), HexDigit(n / 16 % 16), HexDigit(n % 16)]
  }

  /** One character under `ensure_ascii`: short escapes, printable ASCII as is, `\uXXXX` for the
      rest, and a surrogate pair beyond the basic plane. */
  function Escape(c: char): string {
    var n := c as int;
    if c == '\"' then "\\\""
    else if c == '\\' then "\\\\"
    else if c == '\n' then "\\n"
    else if c == '\r' then "\\r"
    else if c == '\t' then "\\t"
    else if n == 0x0c then "\\f"
    else if n == 0x08 then "\\b"
    else if 0x20 <= n <= 0x7e then [c]
    else if n < 0x10000 then "\\u" + Hex4(n)
    else "\\u" + Hex4(0xd800 + (n - 0x10000) / 0x400) + "\\u" + Hex4(0xdc00 + (n - 0x10000) % 0x400)
  }

  function EscapeAll(s: string): string {
    if s == [] then [] else Escape(s[0]) + EscapeAll(s[1..])
  }

  function Quote(s: string): string {
    "\"" + EscapeAll(s) + "\""
  }

  function Keys(o: Json): (keys: seq<string>)
    requires o.Obj?
    ensures Ascending(keys, LexLe) && Elements(keys) == o.fields.Keys
    ensures forall k :: k in keys ==> k in o.fields
  {
    LexLeTotalOrder();
    var keys := Sorted(o.fields.Keys, LexLe);
    assert forall k :: k in keys ==> k in Elements(keys);
    keys
  }

  function Render(j: Json): string
    decreases j
  {
    match j
    case Null => "null"
    case Bool(b) => if b then "true" else "false"
    case Num(lexeme) => lexeme
    case Str(text) => Quote(text)
    case Arr(items) => "[" + RenderItems(j, 0) + "]"
    case Obj(fields) => "{" + RenderFields(j, Keys(j)) + "}"
  }

  function RenderItems(a: Json, i: nat): string
    requires a.Arr? && i <= |a.items|
    decreases a, |a.items| - i
  {
    if i == |a.items| then ""
    else Render(a.items[i]) + if i + 1 == |a.items| then "" else "," + RenderItems(a, i + 1)
  }

  function RenderFields(o: Json, keys: seq<string>): string
    requires o.Obj? && forall k :: k in keys ==> k in o.fields
    decreases o, |keys|
  {
    if keys == [] then ""
    else Quote(keys[0]) + ":" + Render(o.fields[keys[0]])
         + if |keys| == 1 then "" else "," + RenderFields(o, keys[1..])
  }

  // ---------------------------------------------------------------- a rendering determines its value

  /** What may follow a complete value inside a larger rendering. */
  predicate Delimited(rest: string) {
    rest == "" || rest[0] == ',' || rest[0] == ']' || rest[0] == '}'
  }

  lemma SplitAt(p: string, x: string, q: string, y: string)
    requires p + x == q + y && |p| == |q|
    ensures p == q && x == y
  {
    assert p == (p + x)[..|p|] && q == (q + y)[..|q|];
    assert x == (p + x)[|p|..] && y == (q + y)[|q|..];
  }

  lemma HexDigitInjective(d: int, e: int)
    requires 0 <= d < 16 && 0 <= e < 16 && HexDigit(d) == HexDigit(e)
    ensures d == e
  {
    assert HexDigit(d) as int == HexDigit(e) as int;
  }

  /** Two numbers with the same quotient and remainder by 16 are equal. */
  lemma NibbleStep(m: int, n: int)
    requires m / 16 == n / 16 && m % 16 == n % 16
    ensures m == n
  {
  }

  lemma Hex4Digits(n: int)
    requires 0 <= n < 0x10000
    ensures Hex4(n)[0] == HexDigit(n / 4096) && Hex4(n)[1] == HexDigit(n / 256 % 16)
    ensures Hex4(n)[2] == HexDigit(n / 16 % 16) && Hex4(n)[3] == HexDigit(n % 16)
  {
  }

  lemma Hex4Injective(m: int, n: int)
    requires 0 <= m < 0x10000 && 0 <= n < 0x10000 && Hex4(m) == Hex4(n)
    ensures m == n
  {
    Hex4Digits(m);
    Hex4Digits(n);
    HexDigitInjective(m / 4096, n / 4096);
    HexDigitInjective(m / 256 % 16, n / 256 % 16);
    HexDigitInjective(m / 16 % 16, n / 16 % 16);
    HexDigitInjective(m % 16, n % 16);
    assert m / 256 / 16 == m / 4096 && n / 256 / 16 == n / 4096;
    NibbleStep(m / 256, n / 256);
    assert m / 16 / 16 == m / 256 && n / 16 / 16 == n / 256;
    NibbleStep(m / 16, n / 16);
    NibbleStep(m, n);
  }

  /** How many characters a character takes; readable off the rendered text. */
  function EscapeLength(c: char): int {
    var n := c as int;
    if c == '\"' || c == '\\' || c == '\n' || c == '\r' || c == '\t' || n == 0x0c || n == 0x08 then 2
    else if 0x20 <= n <= 0x7e then 1
    else if n < 0x10000 then 6
    else 12
  }

  /** The one or two numbers written by the `\u` escapes. */
  function FirstUnit(c: char): (u: int)
    ensures 0 <= u < 0x10000
  {
    var n := c as int;
    if n < 0x10000 then n else 0xd800 + (n - 0x10000) / 0x400
  }

  function SecondUnit(c: char): (u: int)
    ensures 0 <= u < 0x10000
  {
    var n := c as int;
    if n < 0x10000 then 0 else 0xdc00 + (n - 0x10000) % 0x400
  }

  lemma EscapeShape(c: char)
    ensures |Escape(c)| == EscapeLength(c)
    ensures Escape(c)[0] != '\"'
    ensures EscapeLength(c) == 1 <==> Escape(c)[0] != '\\'
    ensures EscapeLength(c) == 1 ==> Escape(c)[0] == c
    ensures EscapeLength(c) == 2 ==> Escape(c)[1] != 'u'
    ensures EscapeLength(c) >= 6 ==> Escape(c)[1] == 'u'
  {
  }

  lemma UnicodeEscape(c: char)
    requires EscapeLength(c) >= 6
    ensures Escape(c)[2..6] == Hex4(FirstUnit(c))
    ensures EscapeLength(c) == 12 ==> Escape(c)[8..12] == Hex4(SecondUnit(c))
    ensures EscapeLength(c) == 12 <==> 0xd800 <= FirstUnit(c) < 0xdc00
  {
  }

  lemma UnitsDecide(c: char, d: char)
    requires FirstUnit(c) == FirstUnit(d) && SecondUnit(c) == SecondUnit(d)
    requires (c as int < 0x10000) == (d as int < 0x10000)
    ensures c == d
  {
    assert c as int < 0x10000 || c as int - 0x10000 == 0x400 * (FirstUnit(c) - 0xd800) + (SecondUnit(c) - 0xdc00);
    assert d as int < 0x10000 || d as int - 0x10000 == 0x400 * (FirstUnit(d) - 0xd800) + (SecondUnit(d) - 0xdc00);
  }

  lemma ShortEscapes(c: char, d: char)
    requires EscapeLength(c) <= 2 && EscapeLength(d) == EscapeLength(c)
    requires Escape(c)[0] == Escape(d)[0]
    requires EscapeLength(c) == 2 ==> Escape(c)[1] == Escape(d)[1]
    ensures c == d
  {
  }

  lemma UnicodeEscapes(c: char, x: string, d: char, y: string)
    requires EscapeLength(c) >= 6 && EscapeLength(d) >= 6
    requires Escape(c) + x == Escape(d) + y
    ensures c == d
  {
    EscapeShape(c);
    EscapeShape(d);
    UnicodeEscape(c);
    UnicodeEscape(d);
    var l, r := Escape(c) + x, Escape(d) + y;
    assert Escape(c)[2..6] == l[2..6] && Escape(d)[2..6] == r[2..6];
    Hex4Injective(FirstUnit(c), FirstUnit(d));
    if EscapeLength(c) == 12 {
      assert Escape(c)[8..12] == l[8..12] && Escape(d)[8..12] == r[8..12];
      Hex4Injective(SecondUnit(c), SecondUnit(d));
    }
    UnitsDecide(c, d);
  }

  lemma EscapePrefixFree(c: char, x: string, d: char, y: string)
    requires Escape(c) + x == Escape(d) + y
    ensures c == d && x == y
  {
    EscapeShape(c);
    EscapeShape(d);
    assert (Escape(c) + x)[0] == Escape(c)[0] && (Escape(d) + y)[0] == Escape(d)[0];
    if EscapeLength(c) > 1 {
      assert (Escape(c) + x)[1] == Escape(c)[1] && (Escape(d) + y)[1] == Escape(d)[1];
    }
    if EscapeLength(c) <= 2 {
      ShortEscapes(c, d);
    } else {
      UnicodeEscapes(c, x, d, y);
    }
    SplitAt(Escape(c), x, Escape(d), y);
  }

  /** The rest of a string literal after its opening quote. */
  function Literal(s: string, x: string): string {
    EscapeAll(s) + "\"" + x
  }

  lemma StepLiteral(s: string, x: string)
    ensures s == [] ==> Literal(s, x) == "\"" + x
    ensures s != [] ==> Literal(s, x) == Escape(s[0]) + Literal(s[1..], x)
    ensures Literal(s, x)[0] == '\"' <==> s == []
  {
    if s == [] {
      assert Literal(s, x) == "\"" + x;
    } else {
      EscapeShape(s[0]);
      var rest := Literal(s[1..], x);
      assert Literal(s, x) == Escape(s[0]) + rest;
      assert (Escape(s[0]) + rest)[0] == Escape(s[0])[0];
    }
  }

  lemma {:induction false} LiteralPrefixFree(s: string, x: string, t: string, y: string)
    requires Literal(s, x) == Literal(t, y)
    ensures s == t && x == y
  {
    StepLiteral(s, x);
    StepLiteral(t, y);
    if s == [] {
      SplitAt("\"", x, "\"", y);
    } else {
      EscapePrefixFree(s[0], Literal(s[1..], x), t[0], Literal(t[1..], y));
      LiteralPrefixFree(s[1..], x, t[1..], y);
      assert s == [s[0]] + s[1..] && t == [t[0]] + t[1..];
    }
  }

  lemma QuotePrefixFree(s: string, x: string, t: string, y: string)
    requires Quote(s) + x == Quote(t) + y
    ensures s == t && x == y
  {
    assert Quote(s) + x == "\"" + Literal(s, x) && Quote(t) + y == "\"" + Literal(t, y);
    SplitAt("\"", Literal(s, x), "\"", Literal(t, y));
    LiteralPrefixFree(s, x, t, y);
  }

  /** The length of the number at the front of a text. */
  function NumberLength(s: string): nat {
    if s == [] || !NumberChar(s[0]) then 0 else 1 + NumberLength(s[1..])
  }

  lemma {:induction false} NumberLengthOf(p: string, x: string)
    requires Delimited(x) && forall i | 0 <= i < |p| :: NumberChar(p[i])
    ensures NumberLength(p + x) == |p|
  {
    if p == [] {
      assert p + x == x;
    } else {
      assert (p + x)[1..] == p[1..] + x;
      NumberLengthOf(p[1..], x);
    }
  }

  lemma NumberPrefixFree(p: Lexeme, x: string, q: Lexeme, y: string)
    requires p + x == q + y && Delimited(x) && Delimited(y)
    ensures p == q && x == y
  {
    NumberLengthOf(p, x);
    NumberLengthOf(q, y);
    SplitAt(p, x, q, y);
  }

  /** The first character of a rendering tells what kind of value it is. */
  function FirstChar(j: Json): char {
    match j
    case Null => 'n'
    case Bool(b) => if b then 't' else 'f'
    case Num(lexeme) => lexeme[0]
    case Str(text) => '\"'
    case Arr(items) => '['
    case Obj(fields) => '{'
  }

  predicate SameKind(a: Json, b: Json) {
    match a
    case Null => b.Null?
    case Bool(truth) => b == Bool(truth)
    case Num(_) => b.Num?
    case Str(_) => b.Str?
    case Arr(_) => b.Arr?
    case Obj(_) => b.Obj?
  }

  lemma RenderStarts(j: Json, x: string)
    ensures Render(j) != [] && (Render(j) + x)[0] == Render(j)[0] == FirstChar(j)
    ensures FirstChar(j) != ']' && FirstChar(j) != '}' && FirstChar(j) != ','
  {
  }

  lemma FirstCharDecides(a: Json, b: Json)
    requires FirstChar(a) == FirstChar(b)
    ensures SameKind(a, b)
  {
  }

  lemma OpenArray(a: Json, x: string)
    requires a.Arr?
    ensures Render(a) + x == "[" + (FromItem(a, 0, x))
  {
  }

  lemma OpenObject(o: Json, x: string)
    requires o.Obj?
    ensures Render(o) + x == "{" + (FromField(o, Keys(o), x))
  {
  }

  /** The text of an array from item `i` on, and the text after item `i`. */
  function FromItem(a: Json, i: nat, x: string): string
    requires a.Arr? && i <= |a.items|
  {
    RenderItems(a, i) + "]" + x
  }

  function AfterItem(a: Json, i: nat, x: string): string
    requires a.Arr? && i < |a.items|
  {
    if i + 1 == |a.items| then "]" + x else "," + FromItem(a, i + 1, x)
  }

  lemma StepItem(a: Json, i: nat, x: string)
    requires a.Arr? && i <= |a.items|
    ensures i == |a.items| ==> FromItem(a, i, x) == "]" + x
    ensures i < |a.items| ==> FromItem(a, i, x) == Render(a.items[i]) + AfterItem(a, i, x)
    ensures i < |a.items| ==> Delimited(AfterItem(a, i, x))
    ensures i < |a.items| ==> (AfterItem(a, i, x)[0] == ']' <==> i + 1 == |a.items|)
    ensures FromItem(a, i, x)[0] == ']' <==> i == |a.items|
  {
    if i < |a.items| {
      RenderStarts(a.items[i], AfterItem(a, i, x));
    }
  }

  function FromField(o: Json, keys: seq<string>, x: string): string
    requires o.Obj? && forall k :: k in keys ==> k in o.fields
  {
    RenderFields(o, keys) + "}" + x
  }

  function AfterField(o: Json, keys: seq<string>, x: string): string
    requires o.Obj? && keys != [] && forall k :: k in keys ==> k in o.fields
  {
    if |keys| == 1 then "}" + x else "," + FromField(o, keys[1..], x)
  }

  lemma Regroup(q: string, r: string, t: string, x: string)
    ensures q + ":" + r + t + "}" + x == q + (":" + (r + (t + "}" + x)))
  {
  }

  lemma StepField(o: Json, keys: seq<string>, x: string)
    requires o.Obj? && forall k :: k in keys ==> k in o.fields
    ensures keys == [] ==> FromField(o, keys, x) == "}" + x
    ensures keys != [] ==> (
      FromField(o, keys, x) == Quote(keys[0]) + (":" + (Render(o.fields[keys[0]]) + AfterField(o, keys, x))))
    ensures keys != [] ==> Delimited(AfterField(o, keys, x))
    ensures keys != [] ==> (AfterField(o, keys, x)[0] == '}' <==> |keys| == 1)
    ensures FromField(o, keys, x)[0] == '}' <==> keys == []
  {
    if keys != [] {
      var tail := if |keys| == 1 then "" else "," + RenderFields(o, keys[1..]);
      assert tail + "}" + x == AfterField(o, keys, x);
      Regroup(Quote(keys[0]), Render(o.fields[keys[0]]), tail, x);
    }
  }

  /** Reading one value off the front of a text can be done in one way only. */
  lemma {:induction false} RenderPrefixFree(a: Json, x: string, b: Json, y: string)
    requires Render(a) + x == Render(b) + y && Delimited(x) && Delimited(y)
    ensures a == b && x == y
    decreases a
  {
    RenderStarts(a, x);
    RenderStarts(b, y);
    FirstCharDecides(a, b);
    match a
    case Null => SplitAt(Render(a), x, Render(b), y);
    case Bool(_) => SplitAt(Render(a), x, Render(b), y);
    case Num(p) => NumberPrefixFree(p, x, b.lexeme, y);
    case Str(s) => QuotePrefixFree(s, x, b.text, y);
    case Arr(_) =>
      OpenArray(a, x);
      OpenArray(b, y);
      SplitAt("[", FromItem(a, 0, x), "[", FromItem(b, 0, y));
      ItemsPrefixFree(a, x, b, y, 0);
    case Obj(_) =>
      OpenObject(a, x);
      OpenObject(b, y);
      SplitAt("{", FromField(a, Keys(a), x), "{", FromField(b, Keys(b), y));
      FieldsPrefixFree(a, Keys(a), x, b, Keys(b), y);
      assert a.fields.Keys == Elements(Keys(a)) == b.fields.Keys;
      assert a.fields == b.fields;
  }

  lemma {:induction false} ItemsPrefixFree(a: Json, x: string, b: Json, y: string, i: nat)
    requires a.Arr? && b.Arr? && i <= |a.items| && i <= |b.items| && a.items[..i] == b.items[..i]
    requires FromItem(a, i, x) == FromItem(b, i, y)
    requires 0 < i ==> i < |a.items| && i < |b.items|
    ensures a == b && x == y
    decreases a, |a.items| - i
  {
    StepItem(a, i, x);
    StepItem(b, i, y);
    if i == |a.items| {
      SplitAt("]", x, "]", y);
    } else {
      RenderPrefixFree(a.items[i], AfterItem(a, i, x), b.items[i], AfterItem(b, i, y));
      assert a.items[..i + 1] == a.items[..i] + [a.items[i]];
      assert b.items[..i + 1] == b.items[..i] + [b.items[i]];
      if i + 1 == |a.items| {
        SplitAt("]", x, "]", y);
        assert a.items == a.items[..i + 1] && b.items == b.items[..i + 1];
      } else {
        SplitAt(",", FromItem(a, i + 1, x), ",", FromItem(b, i + 1, y));
        ItemsPrefixFree(a, x, b, y, i + 1);
      }
    }
  }

  lemma {:induction false} FieldsPrefixFree(a: Json, ka: seq<string>, x: string, b: Json, kb: seq<string>, y: string)
    requires a.Obj? && b.Obj? && (forall k :: k in ka ==> k in a.fields) && (forall k :: k in kb ==> k in b.fields)
    requires FromField(a, ka, x) == FromField(b, kb, y)
    ensures ka == kb && x == y && forall k :: k in ka ==> a.fields[k] == b.fields[k]
    decreases a, |ka|
  {
    StepField(a, ka, x);
    StepField(b, kb, y);
    if ka == [] {
      SplitAt("}", x, "}", y);
    } else {
      FieldPrefixFree(a, ka, x, b, kb, y);
      assert ka == [ka[0]] + ka[1..] && kb == [kb[0]] + kb[1..];
      if |ka| == 1 {
        SplitAt("}", x, "}", y);
      } else {
        SplitAt(",", FromField(a, ka[1..], x), ",", FromField(b, kb[1..], y));
        FieldsPrefixFree(a, ka[1..], x, b, kb[1..], y);
      }
    }
  }

  /** One `"key":value` member read off the front. */
  lemma {:induction false} FieldPrefixFree(a: Json, ka: seq<string>, x: string, b: Json, kb: seq<string>, y: string)
    requires a.Obj? && b.Obj? && (forall k :: k in ka ==> k in a.fields) && (forall k :: k in kb ==> k in b.fields)
    requires ka != [] && kb != []
    requires FromField(a, ka, x) == FromField(b, kb, y)
    ensures ka[0] == kb[0] && a.fields[ka[0]] == b.fields[kb[0]]
    ensures AfterField(a, ka, x) == AfterField(b, kb, y)
    decreases a, 0
  {
    var va, vb := a.fields[ka[0]], b.fields[kb[0]];
    var x', y' := AfterField(a, ka, x), AfterField(b, kb, y);
    StepField(a, ka, x);
    StepField(b, kb, y);
    QuotePrefixFree(ka[0], ":" + (Render(va) + x'), kb[0], ":" + (Render(vb) + y'));
    SplitAt(":", Render(va) + x', ":", Render(vb) + y');
    RenderPrefixFree(va, x', vb, y');
  }

  lemma RenderInjective(a: Json, b: Json)
    requires Render(a) == Render(b)
    ensures a == b
  {
    assert Render(a) + "" == Render(b) + "";
    RenderPrefixFree(a, "", b, "");
  }

  // ---------------------------------------------------------------- the text itself

  /** The parts with commas between them. */
  function Join(parts: seq<string>): string {
    if parts == [] then ""
    else if |parts| == 1 then parts[0]
    else Join(parts[..|parts| - 1]) + "," + parts[|parts| - 1]
  }

  lemma {:induction false} JoinCons(part: string, parts: seq<string>)
    requires parts != []
    ensures Join([part] + parts) == part + "," + Join(parts)
  {
    var all := [part] + parts;
    assert all[..|all| - 1] == [part] + parts[..|parts| - 1];
    if |parts| > 1 {
      JoinCons(part, parts[..|parts| - 1]);
    }
  }

  function ItemTexts(items: seq<Json>): seq<string> {
    seq(|items|, i requires 0 <= i < |items| => Render(items[i]))
  }

  lemma {:induction false} ItemsJoined(a: Json, i: nat)
    requires a.Arr? && i <= |a.items|
    ensures RenderItems(a, i) == Join(ItemTexts(a.items[i..]))
    decreases |a.items| - i
  {
    var rest := a.items[i..];
    if i + 1 < |a.items| {
      ItemsJoined(a, i + 1);
      assert rest[1..] == a.items[i + 1..];
      assert ItemTexts(rest) == [Render(a.items[i])] + ItemTexts(rest[1..]);
      JoinCons(Render(a.items[i]), ItemTexts(rest[1..]));
    }
  }

  function FieldText(key: string, value: Json): string {
    Quote(key) + ":" + Render(value)
  }

  function FieldTexts(fields: map<string, Json>, keys: seq<string>): seq<string>
    requires forall k :: k in keys ==> k in fields
  {
    seq(|keys|, i requires 0 <= i < |keys| => FieldText(keys[i], fields[keys[i]]))
  }

  lemma FieldTextsCons(fields: map<string, Json>, keys: seq<string>)
    requires keys != [] && forall k :: k in keys ==> k in fields
    ensures FieldTexts(fields, keys) == [FieldText(keys[0], fields[keys[0]])] + FieldTexts(fields, keys[1..])
  {
  }

  lemma RenderFieldsCons(o: Json, keys: seq<string>)
    requires o.Obj? && |keys| > 1 && forall k :: k in keys ==> k in o.fields
    ensures RenderFields(o, keys) == FieldText(keys[0], o.fields[keys[0]]) + "," + RenderFields(o, keys[1..])
  {
  }

  lemma {:induction false} FieldsJoined(o: Json, keys: seq<string>)
    requires o.Obj? && forall k :: k in keys ==> k in o.fields
    ensures RenderFields(o, keys) == Join(FieldTexts(o.fields, keys))
    decreases |keys|
  {
    if |keys| == 1 {
      OneField(o, keys[0]);
      assert keys == [keys[0]];
    } else if |keys| > 1 {
      FieldsJoined(o, keys[1..]);
      FieldTextsCons(o.fields, keys);
      RenderFieldsCons(o, keys);
      JoinCons(FieldText(keys[0], o.fields[keys[0]]), FieldTexts(o.fields, keys[1..]));
    }
  }

  lemma OneField(o: Json, key: string)
    requires o.Obj? && key in o.fields
    ensures RenderFields(o, [key]) == FieldText(key, o.fields[key]) == Join(FieldTexts(o.fields, [key]))
  {
  }

  /** Compact JSON: literals, arrays in order, and objects with their keys ascending by code point, all
      without a space. */
  lemma RenderIs(j: Json, keys: seq<string>)
    requires j.Obj? ==> Ascending(keys, LexLe) && Elements(keys) == j.fields.Keys
    ensures j.Null? ==> Render(j) == "null"
    ensures j.Bool? ==> Render(j) == if j.truth then "true" else "false"
    ensures j.Num? ==> Render(j) == j.lexeme
    ensures j.Str? ==> Render(j) == "\"" + EscapeAll(j.text) + "\""
    ensures j.Arr? ==> Render(j) == "[" + Join(ItemTexts(j.items)) + "]"
    ensures j.Obj? ==>
      && (forall k :: k in keys ==> k in Elements(keys))
      && Render(j) == "{" + Join(FieldTexts(j.fields, keys)) + "}"
  {
    if j.Arr? {
      ItemsJoined(j, 0);
      assert j.items[0..] == j.items;
    } else if j.Obj? {
      LexLeTotalOrder();
      AscendingUnique(keys, Keys(j), LexLe);
      FieldsJoined(j, keys);
    }
  }

  /** The value of a hexadecimal digit, lower-case. */
  function DigitValue(c: char): int {
    if '0' <= c <= '9' then c as int - '0' as int else c as int - 'a' as int + 10
  }

  /** The four digits of a `\u` escape read back as the number, most significant first. */
  lemma Hex4Value(n: int)
    requires 0 <= n < 0x10000
    ensures |Hex4(n)| == 4
    ensures forall i :: 0 <= i < 4 ==> '0' <= Hex4(n)[i] <= '9' || 'a' <= Hex4(n)[i] <= 'f'
    ensures var h := Hex4(n);
      n == 4096 * DigitValue(h[0]) + 256 * DigitValue(h[1]) + 16 * DigitValue(h[2]) + DigitValue(h[3])
  {
    Hex4Digits(n);
    DigitValueOf(n / 4096);
    DigitValueOf(n / 256 % 16);
    DigitValueOf(n / 16 % 16);
    DigitValueOf(n % 16);
    assert n / 256 == n / 4096 * 16 + n / 256 % 16;
    assert n / 16 == n / 256 * 16 + n / 16 % 16;
    assert n == n / 16 * 16 + n % 16;
  }

  lemma DigitValueOf(d: int)
    requires 0 <= d < 16
    ensures DigitValue(HexDigit(d)) == d
    ensures '0' <= HexDigit(d) <= '9' || 'a' <= HexDigit(d) <= 'f'
  {
  }

  /** Each character: as itself, by a short escape, by its number, or by the two surrogates that encode
      it in UTF-16. */
  lemma EscapeIs(c: char)
    ensures c == '\"' || c == '\\' ==> Escape(c) == ['\\', c]
    ensures c == '\n' ==> Escape(c) == "\\n"
    ensures c == '\r' ==> Escape(c) == "\\r"
    ensures c == '\t' ==> Escape(c) == "\\t"
    ensures c as int == 12 ==> Escape(c) == "\\f"
    ensures c as int == 8 ==> Escape(c) == "\\b"
    ensures 32 <= c as int <= 126 && c != '\"' && c != '\\' ==> Escape(c) == [c]
    ensures (c as int < 32 || 126 < c as int < 0x10000) && c as int !in {8, 9, 10, 12, 13} ==>
      Escape(c) == "\\u" + Hex4(c as int)
    ensures c as int >= 0x10000 ==> exists hi, lo ::
      && 0xd800 <= hi < 0xdc00 && 0xdc00 <= lo < 0xe000
      && c as int == 0x10000 + 0x400 * (hi - 0xd800) + (lo - 0xdc00)
      && Escape(c) == "\\u" + Hex4(hi) + "\\u" + Hex4(lo)
  {
    if c as int >= 0x10000 {
      var hi, lo := FirstUnit(c), SecondUnit(c);
      assert c as int == 0x10000 + 0x400 * (hi - 0xd800) + (lo - 0xdc00);
      assert Escape(c) == "\\u" + Hex4(hi) + "\\u" + Hex4(lo);
    }
  }
}
