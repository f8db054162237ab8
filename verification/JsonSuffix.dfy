/** Reading a compact rendering from the right: a lexer that tracks string mode and brace depth
    shows that no proper suffix of an object's rendering is itself the rendering of an object. */
module JsonSuffix {
  import opened Json

  datatype Mode = Outside | Inside | Escaped
  datatype Lexer = Lexer(mode: Mode, depth: int)

  function Next(l: Lexer, c: char): Lexer {
    match l.mode
    case Outside =>
      if c == '\"' then l.(mode := Inside)
      else if c == '{' then l.(depth := l.depth + 1)
      else if c == '}' then l.(depth := l.depth - 1)
      else l
    case Inside =>
      if c == '\"' then l.(mode := Outside)
      else if c == '\\' then l.(mode := Escaped)
      else l
    case Escaped => l.(mode := Inside)
  }

  function Scan(s: string, l: Lexer): Lexer {
    if s == [] then l else Scan(s[1..], Next(l, s[0]))
  }

  /** Backslashes occur only inside strings, and what follows one is never a brace. */
  predicate Legal(mode: Mode, c: char) {
    (mode.Outside? ==> c != '\\') && (mode.Escaped? ==> c != '{')
  }

  /** Along `s` every character is legal and the depth never drops below `floor`. */
  predicate Steady(s: string, l: Lexer, floor: int) {
    l.depth >= floor && (s == [] || (Legal(l.mode, s[0]) && Steady(s[1..], Next(l, s[0]), floor)))
  }

  /** A steady text that leaves the lexer where it found it. */
  predicate Closed(s: string, l: Lexer) {
    Scan(s, l) == l && Steady(s, l, l.depth)
  }

  lemma {:induction false} ScanConcat(a: string, b: string, l: Lexer, floor: int)
    ensures Scan(a + b, l) == Scan(b, Scan(a, l))
    ensures Steady(a + b, l, floor) <==> Steady(a, l, floor) && Steady(b, Scan(a, l), floor)
    decreases |a|
  {
    if a == [] {
      assert a + b == b;
      assert Steady(b, l, floor) ==> l.depth >= floor;
    } else {
      assert (a + b)[0] == a[0] && (a + b)[1..] == a[1..] + b;
      ScanConcat(a[1..], b, Next(l, a[0]), floor);
    }
  }

  lemma ClosedConcat(a: string, b: string, l: Lexer)
    requires Closed(a, l) && Closed(b, l)
    ensures Closed(a + b, l)
  {
    ScanConcat(a, b, l, l.depth);
  }

  lemma {:induction false} SteadyLower(s: string, l: Lexer, floor: int, lower: int)
    requires Steady(s, l, floor) && lower <= floor
    ensures Steady(s, l, lower)
  {
    if s != [] {
      SteadyLower(s[1..], Next(l, s[0]), floor, lower);
    }
  }

  lemma {:induction false} SteadyEnd(s: string, l: Lexer, floor: int)
    requires Steady(s, l, floor)
    ensures Scan(s, l).depth >= floor
  {
    if s != [] {
      SteadyEnd(s[1..], Next(l, s[0]), floor);
    }
  }

  /** Depth is relative: starting deeper ends deeper by as much. */
  lemma {:induction false} ScanShift(s: string, l: Lexer, shift: int)
    ensures Scan(s, l.(depth := l.depth + shift)) == Scan(s, l).(depth := Scan(s, l).depth + shift)
  {
    if s != [] {
      assert Next(l.(depth := l.depth + shift), s[0]) == Next(l, s[0]).(depth := Next(l, s[0]).depth + shift);
      ScanShift(s[1..], Next(l, s[0]), shift);
    }
  }

  /** Characters the lexer passes over outside strings. */
  lemma {:induction false} PlainClosed(s: string, l: Lexer)
    requires l.mode.Outside?
    requires forall i | 0 <= i < |s| :: s[i] != '\"' && s[i] != '{' && s[i] != '}' && s[i] != '\\'
    ensures Closed(s, l)
  {
    if s != [] {
      PlainClosed(s[1..], l);
    }
  }

  /** Characters the lexer passes over inside strings. */
  lemma {:induction false} LetterClosed(s: string, l: Lexer)
    requires l.mode.Inside?
    requires forall i | 0 <= i < |s| :: s[i] != '\"' && s[i] != '\\'
    ensures Closed(s, l)
  {
    if s != [] {
      LetterClosed(s[1..], l);
    }
  }

  lemma BackslashClosed(c: char, rest: string, l: Lexer)
    requires l.mode.Inside? && c != '{'
    requires forall i | 0 <= i < |rest| :: rest[i] != '\"' && rest[i] != '\\'
    ensures Closed(['\\', c] + rest, l)
  {
    LetterClosed(rest, l);
    var s := ['\\', c] + rest;
    assert s[1..] == [c] + rest && s[1..][1..] == rest;
    assert Next(Next(l, s[0]), s[1..][0]) == l;
  }

  lemma Hex4Letters(n: int)
    requires 0 <= n < 0x10000
    ensures |Hex4(n)| == 4
    ensures forall i | 0 <= i < 4 :: Hex4(n)[i] != '\"' && Hex4(n)[i] != '\\'
  {
    Hex4Digits(n);
    HexDigitLetter(n / 4096);
    HexDigitLetter(n / 256 % 16);
    HexDigitLetter(n / 16 % 16);
    HexDigitLetter(n % 16);
  }

  lemma HexDigitLetter(d: int)
    requires 0 <= d < 16
    ensures HexDigit(d) != '\"' && HexDigit(d) != '\\'
  {
  }

  lemma EscapeClosed(c: char, l: Lexer)
    requires l.mode.Inside?
    ensures Closed(Escape(c), l)
  {
    EscapeShape(c);
    var e := Escape(c);
    if EscapeLength(c) == 1 {
      LetterClosed(e, l);
    } else if EscapeLength(c) == 2 {
      assert e == ['\\', e[1]] + [];
      BackslashClosed(e[1], [], l);
    } else {
      var n := c as int;
      Hex4Letters(FirstUnit(c));
      BackslashClosed('u', Hex4(FirstUnit(c)), l);
      if EscapeLength(c) == 6 {
        assert e == ['\\', 'u'] + Hex4(FirstUnit(c));
      } else {
        Hex4Letters(SecondUnit(c));
        BackslashClosed('u', Hex4(SecondUnit(c)), l);
        ClosedConcat(['\\', 'u'] + Hex4(FirstUnit(c)), ['\\', 'u'] + Hex4(SecondUnit(c)), l);
        assert e == (['\\', 'u'] + Hex4(FirstUnit(c))) + (['\\', 'u'] + Hex4(SecondUnit(c)));
      }
    }
  }

  lemma {:induction false} EscapeAllClosed(s: string, l: Lexer)
    requires l.mode.Inside?
    ensures Closed(EscapeAll(s), l)
  {
    if s != [] {
      EscapeClosed(s[0], l);
      EscapeAllClosed(s[1..], l);
      ClosedConcat(Escape(s[0]), EscapeAll(s[1..]), l);
    }
  }

  /** A text between a character that opens a level and the one that closes it. */
  lemma Bracketed(open: char, body: string, close: char, l: Lexer)
    requires l.mode.Outside? && Legal(l.mode, open)
    requires Next(l, open).depth >= l.depth && Closed(body, Next(l, open))
    requires Legal(Next(l, open).mode, close) && Next(Next(l, open), close) == l
    ensures Closed([open] + body + [close], l)
  {
    var inner := Next(l, open);
    SteadyLower(body, inner, inner.depth, l.depth);
    ScanConcat(body, [close], inner, l.depth);
    var tail := body + [close];
    assert Scan([close], inner) == l && Steady([close], inner, l.depth);
    var whole := [open] + body + [close];
    assert whole[0] == open && whole[1..] == tail;
  }

  lemma QuoteClosed(s: string, l: Lexer)
    requires l.mode.Outside?
    ensures Closed(Quote(s), l)
  {
    EscapeAllClosed(s, Next(l, '\"'));
    Bracketed('\"', EscapeAll(s), '\"', l);
    assert Quote(s) == ['\"'] + EscapeAll(s) + ['\"'];
  }

  lemma WordClosed(j: Json, l: Lexer)
    requires (j.Null? || j.Bool?) && l.mode.Outside?
    ensures Closed(Render(j), l)
  {
    PlainClosed(Render(j), l);
  }

  lemma ArrayClosed(a: Json, l: Lexer)
    requires a.Arr? && l.mode.Outside? && Closed(RenderItems(a, 0), l)
    ensures Closed(Render(a), l)
  {
    Bracketed('[', RenderItems(a, 0), ']', l);
    ArrayText(a);
  }

  lemma ArrayText(a: Json)
    requires a.Arr?
    ensures Render(a) == ['['] + RenderItems(a, 0) + [']']
  {
  }

  lemma ObjectClosed(o: Json, l: Lexer)
    requires o.Obj? && l.mode.Outside? && Closed(RenderFields(o, Keys(o)), Next(l, '{'))
    ensures Closed(Render(o), l)
  {
    Bracketed('{', RenderFields(o, Keys(o)), '}', l);
    ObjectText(o);
  }

  lemma ObjectText(o: Json)
    requires o.Obj?
    ensures Render(o) == ['{'] + RenderFields(o, Keys(o)) + ['}']
  {
  }

  lemma {:induction false} RenderClosed(j: Json, l: Lexer)
    requires l.mode.Outside?
    ensures Closed(Render(j), l)
    decreases j
  {
    match j
    case Null => WordClosed(j, l);
    case Bool(_) => WordClosed(j, l);
    case Num(lexeme) => PlainClosed(lexeme, l);
    case Str(text) => QuoteClosed(text, l);
    case Arr(_) =>
      ItemsClosed(j, 0, l);
      ArrayClosed(j, l);
    case Obj(_) =>
      FieldsClosed(j, Keys(j), Next(l, '{'));
      ObjectClosed(j, l);
  }

  lemma {:induction false} ItemsClosed(a: Json, i: nat, l: Lexer)
    requires a.Arr? && i <= |a.items| && l.mode.Outside?
    ensures Closed(RenderItems(a, i), l)
    decreases a, |a.items| - i
  {
    if i < |a.items| {
      RenderClosed(a.items[i], l);
      if i + 1 < |a.items| {
        ItemsClosed(a, i + 1, l);
        PlainClosed(",", l);
        ClosedConcat(",", RenderItems(a, i + 1), l);
        ClosedConcat(Render(a.items[i]), "," + RenderItems(a, i + 1), l);
      } else {
        assert RenderItems(a, i) == Render(a.items[i]);
      }
    }
  }

  lemma {:induction false} FieldsClosed(o: Json, keys: seq<string>, l: Lexer)
    requires o.Obj? && (forall k :: k in keys ==> k in o.fields) && l.mode.Outside?
    ensures Closed(RenderFields(o, keys), l)
    decreases o, |keys|
  {
    if keys != [] {
      var value := o.fields[keys[0]];
      QuoteClosed(keys[0], l);
      PlainClosed(":", l);
      ClosedConcat(Quote(keys[0]), ":", l);
      RenderClosed(value, l);
      var member := Quote(keys[0]) + ":" + Render(value);
      ClosedConcat(Quote(keys[0]) + ":", Render(value), l);
      if |keys| > 1 {
        var rest := RenderFields(o, keys[1..]);
        FieldsClosed(o, keys[1..], l);
        PlainClosed(",", l);
        ClosedConcat(",", rest, l);
        ClosedConcat(member, "," + rest, l);
      } else {
        assert RenderFields(o, keys) == member;
      }
    }
  }

  /** Strictly inside a braced text the depth is at least one. */
  lemma InnerDepth(body: string, p: string, q: string)
    requires ['{'] + body + ['}'] == p + q && p != [] && q != []
    requires Closed(body, Lexer(Outside, 1))
    ensures Scan(p, Lexer(Outside, 0)).depth >= 1
  {
    var whole := ['{'] + body + ['}'];
    var front, back := p[1..], body[|p| - 1..];
    assert p == whole[..|p|];
    assert p[0] == '{' && front == body[..|p| - 1];
    assert body == front + back;
    ScanConcat(front, back, Lexer(Outside, 1), 1);
    SteadyEnd(front, Lexer(Outside, 1), 1);
  }

  /** Two lexers on opposite sides of a string boundary stay on opposite sides. */
  lemma {:induction false} OppositeModes(s: string, l: Lexer, m: Lexer, floor: int)
    requires (l.mode.Inside? && m.mode.Outside?) || (l.mode.Outside? && m.mode.Inside?)
    requires Steady(s, l, floor) && Steady(s, m, floor)
    ensures Scan(s, l).mode.Outside? ==> Scan(s, m).mode.Inside?
    ensures Scan(s, m).mode.Outside? ==> Scan(s, l).mode.Inside?
  {
    if s != [] {
      OppositeModes(s[1..], Next(l, s[0]), Next(m, s[0]), floor);
    }
  }

  /** A closed text starting with a brace cannot be read twice: from the middle of a larger
      closed text, once its opening brace has been passed. */
  lemma NoRestart(s: string, mid: Lexer)
    requires s != [] && s[0] == '{' && Closed(s, Lexer(Outside, 0))
    requires Steady(s, mid, 0) && mid.depth >= 1
    ensures Scan(s, mid) != Lexer(Outside, 0)
  {
    var start := Lexer(Outside, 0);
    if mid.mode.Inside? {
      OppositeModes(s, mid, start, 0);
    } else {
      ScanShift(s, start, mid.depth);
      assert start.(depth := start.depth + mid.depth) == mid;
    }
  }

  /** An object's rendering ends with no other object's rendering. */
  lemma NoProperSuffix(o: Json, prefix: string, t: Json)
    requires o.Obj? && t.Obj? && Render(o) == prefix + Render(t)
    ensures prefix == ""
  {
    var start := Lexer(Outside, 0);
    RenderClosed(o, start);
    RenderClosed(t, start);
    RenderStarts(t, "");
    ScanConcat(prefix, Render(t), start, 0);
    if prefix != "" {
      var body := RenderFields(o, Keys(o));
      assert Render(o) == ['{'] + body + ['}'];
      FieldsClosed(o, Keys(o), Lexer(Outside, 1));
      InnerDepth(body, prefix, Render(t));
      NoRestart(Render(t), Scan(prefix, start));
      assert false;
    }
  }
}
