/** JSON texts as RFC 8259 defines them, of integers, strings, arrays and objects: a strict reader, and that it
    reads from what either side prints exactly the members of the header. */
module JsonText {
  import opened Text
  import opened HeaderJson
  import opened HeaderRoundTrip
  import opened PythonPeer

  // ================= strings (section 7) =================

  function HexValue(c: char): Option<nat> {
    if '0' <= c <= '9' then Some(c as int - '0' as int)
    else if 'a' <= c <= 'f' then Some(c as int - 'a' as int + 10)
    else if 'A' <= c <= 'F' then Some(c as int - 'A' as int + 10)
    else None
  }

  /** The number that the first four characters spell. */
  function FourHex(s: string): (n: Option<nat>)
    ensures n.Some? ==> |s| >= 4 && n.value < 0x1_0000
  {
    if |s| < 4 then None
    else
      match (HexValue(s[0]), HexValue(s[1]), HexValue(s[2]), HexValue(s[3]))
      case (Some(a), Some(b), Some(c), Some(d)) =>
        if a < 16 && b < 16 && c < 16 && d < 16 then Some(((a * 16 + b) * 16 + c) * 16 + d) else None
      case _ => None
  }

  /** The low half of a surrogate pair, as the escape that `s` begins with. */
  function LowHalf(s: string): (n: Option<nat>)
    ensures n.Some? ==> |s| >= 6 && n.value < 0x400
  {
    if |s| < 6 || s[0] != '\\' || s[1] != 'u' then None
    else
      match FourHex(s[2..])
      case None => None
      case Some(n) => if 0xDC00 <= n < 0xE000 then Some(n - 0xDC00) else None
  }

  /** The character that an escape stands for, and what follows; `s` is what follows the backslash. */
  function Escaped(s: string): (r: Option<(char, string)>)
    ensures r.Some? ==> |r.value.1| < |s|
  {
    if s == "" then None
    else if s[0] == '"' || s[0] == '\\' || s[0] == '/' then Some((s[0], s[1..]))
    else if s[0] == 'b' then Some((8 as char, s[1..]))
    else if s[0] == 'f' then Some((12 as char, s[1..]))
    else if s[0] == 'n' then Some((10 as char, s[1..]))
    else if s[0] == 'r' then Some((13 as char, s[1..]))
    else if s[0] == 't' then Some((9 as char, s[1..]))
    else if s[0] == 'u' then
      match FourHex(s[1..])
      case None => None
      case Some(n) =>
        if 0xD800 <= n < 0xDC00 then
          match LowHalf(s[5..])
          case None => None
          case Some(low) => Some(((0x1_0000 + (n - 0xD800) * 0x400 + low) as char, s[11..]))
        else if 0xDC00 <= n < 0xE000 then None
        else Some((n as char, s[5..]))
    else None
  }

  /** One character of a string, and what follows. */
  function OneChar(s: string): (r: Option<(char, string)>)
    requires s != ""
    ensures r.Some? ==> |r.value.1| < |s|
  {
    if s[0] == '\\' then Escaped(s[1..])
    else if s[0] < ' ' || s[0] == '"' then None
    else Some((s[0], s[1..]))
  }

  /** A string up to its closing quote, and what follows; `s` is what follows the opening one. */
  function StringBody(s: string): (r: Option<(string, string)>)
    ensures r.Some? ==> |r.value.1| < |s|
  {
    if s == "" then None
    else if s[0] == '"' then Some(("", s[1..]))
    else
      match OneChar(s)
      case None => None
      case Some((c, more)) =>
        match StringBody(more)
        case None => None
        case Some((t, rest)) => Some(([c] + t, rest))
  }

  lemma {:induction false} HexValueOfDigit(d: nat)
    requires d < 16
    ensures HexValue(HexDigit(d)) == HexValue(LowerHex(d)) == Some(d)
  {
  }

  lemma {:induction false} FourHexReads(n: nat, tail: string)
    requires n < 0x1_0000
    ensures FourHex(Hex4(n) + tail) == Some(n)
  {
    hide HexValue, LowerHex;
    var a, b, c, d := n / 0x1000, n / 0x100 % 16, n / 16 % 16, n % 16;
    DigitsMakeNumber(n, a, b, c, d);
    HexValueOfDigit(a);
    HexValueOfDigit(b);
    HexValueOfDigit(c);
    HexValueOfDigit(d);
    FourHexOf(LowerHex(a), LowerHex(b), LowerHex(c), LowerHex(d), tail);
  }

  lemma {:induction false} FourHexOf(w: char, x: char, y: char, z: char, tail: string)
    requires HexValue(w).Some? && HexValue(x).Some? && HexValue(y).Some? && HexValue(z).Some?
    requires HexValue(w).value < 16 && HexValue(x).value < 16 && HexValue(y).value < 16 && HexValue(z).value < 16
    ensures FourHex([w, x, y, z] + tail) ==
            Some(((HexValue(w).value * 16 + HexValue(x).value) * 16 + HexValue(y).value) * 16 + HexValue(z).value)
  {
    hide HexValue;
  }

  lemma {:induction false} DigitsMakeNumber(n: nat, a: nat, b: nat, c: nat, d: nat)
    requires n < 0x1_0000 && a == n / 0x1000 && b == n / 0x100 % 16 && c == n / 16 % 16 && d == n % 16
    ensures a < 16 && ((a * 16 + b) * 16 + c) * 16 + d == n
  {
  }

  lemma {:induction false} NativeHexReads(n: nat, tail: string)
    requires n < 32
    ensures FourHex("00" + [HexDigit(n / 16), HexDigit(n % 16)] + tail) == Some(n)
  {
    hide HexDigit;
    HexValueOfDigit(n / 16);
    HexValueOfDigit(n % 16);
    assert HexValue('0') == Some(0);
  }

  /** Whatever the character, its escape stands for it. */
  lemma {:induction false} EscapeStandsFor(c: char, tail: string)
    ensures OneChar(EscapeChar(c) + tail) == Some((c, tail))
  {
    hide FourHex;
    var t := EscapeChar(c) + tail;
    assert t[0] == EscapeChar(c)[0];
    assert t[|EscapeChar(c)|..] == tail;
    if c < ' ' && c != '\n' && c != '\r' && c != '\t' && c as int != 8 && c as int != 12 {
      NativeHexReads(c as int, tail);
      assert t[2..] == "00" + [HexDigit(c as int / 16), HexDigit(c as int % 16)] + tail;
    }
  }

  lemma {:induction false} HalvesMakeWhole(n: nat)
    requires 0x1_0000 <= n < 0x11_0000
    ensures var high, low := 0xD800 + (n - 0x1_0000) / 0x400 % 0x400, 0xDC00 + n % 0x400;
            && 0xD800 <= high < 0xDC00 <= low < 0xE000
            && 0x1_0000 + (high - 0xD800) * 0x400 + (low - 0xDC00) == n
  {
  }

  lemma {:induction false} PyOtherStandsFor(c: char, tail: string)
    requires c as int >= 0x1_0000
    ensures OneChar(PyEscapeChar(c) + tail) == Some((c, tail))
  {
    hide FourHex, Hex4;
    var n := c as int;
    HalvesMakeWhole(n);
    var high, low := 0xD800 + (n - 0x1_0000) / 0x400 % 0x400, 0xDC00 + n % 0x400;
    var second := "\\u" + (Hex4(low) + tail);
    var t := PyEscapeChar(c) + tail;
    HexLength(high);
    HexLength(low);
    assert t == "\\u" + (Hex4(high) + second);
    FourHexReads(high, second);
    FourHexReads(low, tail);
    assert t[2..] == Hex4(high) + second && t[6..] == second && second[2..] == Hex4(low) + tail && second[6..] == tail;
  }

  lemma {:induction false} HexLength(n: nat)
    requires n < 0x1_0000
    ensures |Hex4(n)| == 4
  {
  }

  lemma {:induction false} PyEscapeStandsFor(c: char, tail: string)
    ensures OneChar(PyEscapeChar(c) + tail) == Some((c, tail))
  {
    hide FourHex, Hex4, LowHalf;
    var n, t := c as int, PyEscapeChar(c) + tail;
    if n >= 0x1_0000 {
      PyOtherStandsFor(c, tail);
    } else {
      assert t[0] == PyEscapeChar(c)[0];
      assert t[|PyEscapeChar(c)|..] == tail;
      if !(' ' <= c <= '~') && c != '\n' && c != '\r' && c != '\t' && n != 8 && n != 12 {
        HexLength(n);
        FourHexReads(n, tail);
        assert t == "\\u" + (Hex4(n) + tail);
        assert t[2..] == Hex4(n) + tail && t[6..] == tail;
      }
    }
  }

  /** A JSON reader gets every string back from its native text, control characters included. */
  lemma {:induction false} StringReads(s: string, rest: string)
    ensures StringBody(Escape(s) + ("\"" + rest)) == Some((s, rest))
  {
    if s == "" {
      assert Escape(s) + ("\"" + rest) == "\"" + rest;
    } else {
      hide OneChar, EscapeChar, StringBody, Escape;
      var tail := Escape(s[1..]) + ("\"" + rest);
      StringReads(s[1..], rest);
      EscapeStandsFor(s[0], tail);
      EscapeStep(s);
      Associates(EscapeChar(s[0]), Escape(s[1..]), "\"" + rest);
      BodyStep(EscapeChar(s[0]) + tail, s[0], tail);
      assert s == [s[0]] + s[1..];
    }
  }

  /** And from the supervisor's text of it, every character of Unicode included. */
  lemma {:induction false} PyStringReads(s: string, rest: string)
    ensures StringBody(PyEscape(s) + ("\"" + rest)) == Some((s, rest))
  {
    if s == "" {
      assert PyEscape(s) + ("\"" + rest) == "\"" + rest;
    } else {
      hide OneChar, PyEscapeChar, StringBody, PyEscape;
      var tail := PyEscape(s[1..]) + ("\"" + rest);
      PyStringReads(s[1..], rest);
      PyEscapeStandsFor(s[0], tail);
      PyEscapeStep(s);
      Associates(PyEscapeChar(s[0]), PyEscape(s[1..]), "\"" + rest);
      BodyStep(PyEscapeChar(s[0]) + tail, s[0], tail);
      assert s == [s[0]] + s[1..];
    }
  }

  lemma {:induction false} BodyStep(s: string, c: char, more: string)
    requires s != "" && OneChar(s) == Some((c, more))
    ensures StringBody(s) == match StringBody(more)
                             case None => None
                             case Some((t, rest)) => Some(([c] + t, rest))
  {
  }

  lemma {:induction false} EscapeStep(s: string)
    requires s != ""
    ensures Escape(s) == EscapeChar(s[0]) + Escape(s[1..])
  {
    hide EscapeChar;
  }

  // ================= numbers (section 6) =================

  /** An integer without a leading zero, fraction or exponent, and what follows. */
  function Number(s: string): (r: Option<(int, string)>)
    ensures r.Some? ==> |r.value.1| < |s|
  {
    var digits := DigitRun(if s != "" && s[0] == '-' then s[1..] else s);
    var sign := if s != "" && s[0] == '-' then 1 else 0;
    if digits == "" || (|digits| > 1 && digits[0] == '0') then None
    else
      var rest := s[sign + |digits|..];
      if rest != "" && (rest[0] == '.' || rest[0] == 'e' || rest[0] == 'E') then None
      else
        var m: int := DigitsValue(digits);
        Some((if sign == 1 then -m else m, rest))
  }

  lemma {:induction false} NoLeadingZero(n: nat)
    ensures NatText(n)[0] == '0' ==> n == 0
    ensures n < 10 ==> |NatText(n)| == 1
  {
    if n >= 10 {
      NoLeadingZero(n / 10);
    }
  }

  lemma {:induction false} NumberReads(n: int, rest: string)
    requires rest == "" || (!IsDigit(rest[0]) && rest[0] != '.' && rest[0] != 'e' && rest[0] != 'E')
    ensures Number(IntText(n) + rest) == Some((n, rest))
  {
    hide NatText, DigitRun, DigitsValue;
    var m: nat := if n < 0 then -n else n;
    var digits, s := NatText(m), IntText(n) + rest;
    NatTextValue(m);
    RunEnds(digits, rest);
    NoLeadingZero(m);
    assert n < 0 ==> s[1..] == digits + rest;
    assert s[|IntText(n)|..] == rest;
  }

  // ================= values (sections 2 to 5) =================

  datatype Json =
    | Integer(n: int)
    | Text(s: string)
    | Array(items: seq<Json>)
    | Object(members: seq<(string, Json)>)

  /** White space between tokens. */
  function Blank(s: string): (r: string)
    ensures |r| <= |s|
  {
    if s != "" && (s[0] == ' ' || s[0] == '\t' || s[0] == '\n' || s[0] == '\r') then Blank(s[1..]) else s
  }

  predicate Begins(s: string, c: char) {
    s != "" && s[0] == c
  }

  /** The value at the beginning of `s`, and what follows. */
  function ValueOf(s: string): (r: Option<(Json, string)>)
    ensures r.Some? ==> |r.value.1| < |s|
    decreases |s|, 0
  {
    if Begins(s, '"') then
      match StringBody(s[1..])
      case None => None
      case Some((t, rest)) => Some((Json.Text(t), rest))
    else if Begins(s, '{') then
      if Begins(Blank(s[1..]), '}') then Some((Object([]), Blank(s[1..])[1..]))
      else
        match MembersOf(Blank(s[1..]))
        case None => None
        case Some((members, rest)) => Some((Object(members), rest))
    else if Begins(s, '[') then
      if Begins(Blank(s[1..]), ']') then Some((Array([]), Blank(s[1..])[1..]))
      else
        match ItemsOf(Blank(s[1..]))
        case None => None
        case Some((items, rest)) => Some((Array(items), rest))
    else
      match Number(s)
      case None => None
      case Some((n, rest)) => Some((Integer(n), rest))
  }

  /** One or more members up to the closing brace, and what follows. */
  function MembersOf(s: string): (r: Option<(seq<(string, Json)>, string)>)
    ensures r.Some? ==> |r.value.1| < |s|
    decreases |s|, 1
  {
    if !Begins(s, '"') then None
    else
      match StringBody(s[1..])
      case None => None
      case Some((name, after)) =>
        if !Begins(Blank(after), ':') then None
        else
          match ValueOf(Blank(Blank(after)[1..]))
          case None => None
          case Some((v, rest)) =>
            if Begins(Blank(rest), '}') then Some(([(name, v)], Blank(rest)[1..]))
            else if !Begins(Blank(rest), ',') then None
            else
              match MembersOf(Blank(Blank(rest)[1..]))
              case None => None
              case Some((members, end)) => Some(([(name, v)] + members, end))
  }

  /** One or more items up to the closing bracket, and what follows. */
  function ItemsOf(s: string): (r: Option<(seq<Json>, string)>)
    ensures r.Some? ==> |r.value.1| < |s|
    decreases |s|, 1
  {
    if s == "" then None
    else
      match ValueOf(s)
      case None => None
      case Some((v, rest)) =>
        if Begins(Blank(rest), ']') then Some(([v], Blank(rest)[1..]))
        else if !Begins(Blank(rest), ',') then None
        else
          match ItemsOf(Blank(Blank(rest)[1..]))
          case None => None
          case Some((items, end)) => Some(([v] + items, end))
  }

  /** A whole text. */
  function Document(s: string): Option<Json> {
    match ValueOf(Blank(s))
    case None => None
    case Some((v, rest)) => if Blank(rest) == "" then Some(v) else None
  }

  // ================= what the printers print =================

  /** A member's value as a JSON value; the nested object lists its members in the printer's order. */
  function JsonOf(v: Value, shapeFirst: bool): Json {
    match v
    case Num(n) => Integer(n)
    case Str(s) => Json.Text(s)
    case Spec(spec) =>
      var shape, dtype := (SHAPE, Array(Integers(spec.shape))), (DTYPE, Json.Text(spec.dtype));
      Object(if shapeFirst then [shape, dtype] else [dtype, shape])
  }

  function Integers(shape: seq<int>): seq<Json> {
    seq(|shape|, i requires 0 <= i < |shape| => Integer(shape[i]))
  }

  predicate Ends(rest: string) {
    Begins(rest, ',') || Begins(rest, '}') || Begins(rest, ']')
  }

  lemma {:induction false} SolidStays(s: string)
    requires s != "" && s[0] != ' ' && s[0] != '\t' && s[0] != '\n' && s[0] != '\r'
    ensures Blank(s) == s && Blank(" " + s) == s
  {
    assert (" " + s)[1..] == s;
  }

  lemma {:induction false} NumberValue(n: int, rest: string)
    requires Ends(rest)
    ensures ValueOf(IntText(n) + rest) == Some((Integer(n), rest))
  {
    hide IntText, Number;
    NumberReads(n, rest);
    assert (IntText(n) + rest)[0] == IntText(n)[0];
  }

  lemma {:induction false} IntTextSolid(n: int, rest: string)
    ensures var s := IntText(n) + rest;
            s != "" && s[0] != ' ' && s[0] != '\t' && s[0] != '\n' && s[0] != '\r' && s[0] != ']' && s[0] != '}'
  {
    hide NatText;
    assert (IntText(n) + rest)[0] == IntText(n)[0];
  }

  lemma {:induction false} TextValue(s: string, rest: string)
    ensures ValueOf(StringThen(s, rest)) == Some((Json.Text(s), rest))
    ensures ValueOf(PyStringThen(s, rest)) == Some((Json.Text(s), rest))
  {
    hide Escape, PyEscape, StringBody;
    StringReads(s, rest);
    PyStringReads(s, rest);
    assert StringThen(s, rest)[1..] == Inside(s, rest);
    assert PyStringThen(s, rest)[1..] == PyEscape(s) + ("\"" + rest);
  }

  /** Quoted text that needs no escapes. */
  lemma {:induction false} PlainReads(name: string, rest: string)
    requires Plain(name)
    ensures StringBody(name + ("\"" + rest)) == Some((name, rest))
  {
    if name == "" {
      assert name + ("\"" + rest) == "\"" + rest;
    } else {
      PlainReads(name[1..], rest);
      var t := name + ("\"" + rest);
      assert t[1..] == name[1..] + ("\"" + rest) && t[0] == name[0];
      assert name == [name[0]] + name[1..];
    }
  }

  // ---- the list of integers ----

  lemma {:induction false} LastItem(n: int, rest: string)
    ensures ItemsOf(IntText(n) + ("]" + rest)) == Some(([Integer(n)], rest))
  {
    hide IntText, ValueOf;
    NumberValue(n, "]" + rest);
    IntTextSolid(n, "]" + rest);
    assert ("]" + rest)[1..] == rest;
  }

  /** An item, a comma, perhaps a blank, and the items after it. */
  lemma {:induction false} OneItem(n: int, blank: string, next: string)
    requires (blank == "" || blank == " ") && Blank(blank + next) == next && ItemsOf(next).Some?
    ensures ItemsOf(IntText(n) + ("," + (blank + next))) ==
            Some(([Integer(n)] + ItemsOf(next).value.0, ItemsOf(next).value.1))
  {
    hide IntText, ValueOf;
    var rest := "," + (blank + next);
    NumberValue(n, rest);
    IntTextSolid(n, rest);
    assert rest[1..] == blank + next;
  }

  lemma {:induction false} TextSteps(shape: seq<int>, end: string)
    requires shape != []
    ensures |shape| == 1 ==> ShapeText(shape) + end == IntText(shape[0]) + end
    ensures |shape| > 1 ==>
              ShapeText(shape) + end == IntText(shape[0]) + ("," + ("" + (ShapeText(shape[1..]) + end)))
    ensures ShapeText(shape) + end == IntText(shape[0]) + (MoreShapeText(shape[1..]) + end)
  {
    hide IntText;
    Associates(IntText(shape[0]), MoreShapeText(shape[1..]), end);
    if |shape| > 1 {
      assert MoreShapeText(shape[1..]) == "," + ShapeText(shape[1..]);
      Associates(",", ShapeText(shape[1..]), end);
      assert "" + (ShapeText(shape[1..]) + end) == ShapeText(shape[1..]) + end;
    } else {
      assert MoreShapeText(shape[1..]) + end == end;
    }
  }

  lemma {:induction false} PyTextSteps(shape: seq<int>, end: string)
    requires shape != []
    ensures |shape| == 1 ==> PyList(shape) + end == IntText(shape[0]) + end
    ensures |shape| > 1 ==> PyList(shape) + end == IntText(shape[0]) + ("," + (" " + (PyList(shape[1..]) + end)))
    ensures PyList(shape) + end == IntText(shape[0]) + (PyMore(shape[1..]) + end)
  {
    hide IntText;
    Associates(IntText(shape[0]), PyMore(shape[1..]), end);
    if |shape| > 1 {
      assert PyMore(shape[1..]) == ", " + PyList(shape[1..]);
      Associates(", ", PyList(shape[1..]), end);
      Joined(PyList(shape[1..]) + end);
    } else {
      assert PyMore(shape[1..]) + end == end;
    }
  }

  lemma {:induction false} ItemsRead(shape: seq<int>, rest: string)
    requires shape != []
    ensures ItemsOf(ShapeText(shape) + ("]" + rest)) == Some((Integers(shape), rest))
    decreases |shape|
  {
    hide IntText, ItemsOf, ShapeText, PyList;
    var end := "]" + rest;
    assert Integers(shape) == [Integer(shape[0])] + Integers(shape[1..]);
    TextSteps(shape, end);
    if |shape| == 1 {
      assert Integers(shape) == [Integer(shape[0])];
      LastItem(shape[0], rest);
    } else {
      ItemsRead(shape[1..], rest);
      TextSteps(shape[1..], end);
      NextItem(shape[1], ShapeText(shape[1..]) + end, MoreShapeText(shape[1..][1..]) + end);
      OneItem(shape[0], "", ShapeText(shape[1..]) + end);
    }
  }

  lemma {:induction false} PyItemsRead(shape: seq<int>, rest: string)
    requires shape != []
    ensures ItemsOf(PyList(shape) + ("]" + rest)) == Some((Integers(shape), rest))
    decreases |shape|
  {
    hide IntText, ItemsOf, ShapeText, PyList;
    var end := "]" + rest;
    assert Integers(shape) == [Integer(shape[0])] + Integers(shape[1..]);
    PyTextSteps(shape, end);
    if |shape| == 1 {
      assert Integers(shape) == [Integer(shape[0])];
      LastItem(shape[0], rest);
    } else {
      PyItemsRead(shape[1..], rest);
      PyTextSteps(shape[1..], end);
      NextItem(shape[1], PyList(shape[1..]) + end, PyMore(shape[1..][1..]) + end);
      OneItem(shape[0], " ", PyList(shape[1..]) + end);
    }
  }

  lemma {:induction false} NextItem(n: int, next: string, after: string)
    requires next == IntText(n) + after
    ensures Blank("" + next) == next && Blank(" " + next) == next && !Begins(next, ']')
  {
    hide IntText;
    IntTextSolid(n, after);
    SolidStays(next);
    assert "" + next == next;
  }

  /** A bracketed list, empty or not. */
  lemma {:induction false} ListReads(shape: seq<int>, rest: string)
    ensures ValueOf("[" + (ShapeText(shape) + ("]" + rest))) == Some((Array(Integers(shape)), rest))
    ensures ValueOf("[" + (PyList(shape) + ("]" + rest))) == Some((Array(Integers(shape)), rest))
  {
    hide IntText, ItemsOf, ShapeText, PyList;
    var s, t := ShapeText(shape) + ("]" + rest), PyList(shape) + ("]" + rest);
    assert ("[" + s)[1..] == s && ("[" + t)[1..] == t;
    assert ("]" + rest)[1..] == rest;
    if shape == [] {
      NoItems(rest);
      SolidStays("]" + rest);
      assert Integers(shape) == [];
    } else {
      TextSteps(shape, "]" + rest);
      PyTextSteps(shape, "]" + rest);
      NextItem(shape[0], s, MoreShapeText(shape[1..]) + ("]" + rest));
      NextItem(shape[0], t, PyMore(shape[1..]) + ("]" + rest));
      assert "" + s == s && "" + t == t;
      ItemsRead(shape, rest);
      PyItemsRead(shape, rest);
    }
  }

  lemma {:induction false} NoItems(rest: string)
    ensures ShapeText([]) + ("]" + rest) == "]" + rest == PyList([]) + ("]" + rest)
  {
  }

  // ---- members ----

  /** A name that needs no escapes. */
  predicate Plain(name: string) {
    forall i | 0 <= i < |name| :: name[i] > '\\' || ' ' <= name[i] < '"'
  }

  /** One member, with or without a blank after its colon: the value, and the members after a comma. */
  lemma {:induction false} MemberReads(name: string, blank: string, text: string, v: Json, rest: string)
    requires Plain(name) && (blank == "" || blank == " ") && Blank(blank + text) == text
    requires ValueOf(text) == Some((v, rest))
    ensures var s := Quote(name) + (":" + (blank + text));
            && (Begins(rest, '}') ==> MembersOf(s) == Some(([(name, v)], rest[1..])))
            && (Begins(rest, ',') && MembersOf(Blank(rest[1..])).Some? ==>
                  MembersOf(s) == Some(([(name, v)] + MembersOf(Blank(rest[1..])).value.0,
                                        MembersOf(Blank(rest[1..])).value.1)))
  {
    hide StringBody, ValueOf, MembersOf;
    var s, after := Quote(name) + (":" + (blank + text)), ":" + (blank + text);
    PlainReads(name, after);
    assert s[1..] == name + ("\"" + after);
    assert after[1..] == blank + text;
    if Begins(rest, '}') || Begins(rest, ',') {
      MembersStep(s, name, after, v, rest);
    }
  }

  lemma {:induction false} MembersStep(s: string, name: string, after: string, v: Json, rest: string)
    requires Begins(s, '"') && StringBody(s[1..]) == Some((name, after)) && Begins(after, ':')
    requires ValueOf(Blank(after[1..])) == Some((v, rest)) && (Begins(rest, '}') || Begins(rest, ','))
    ensures Begins(rest, '}') ==> MembersOf(s) == Some(([(name, v)], rest[1..]))
    ensures Begins(rest, ',') && MembersOf(Blank(rest[1..])).Some? ==>
              MembersOf(s) == Some(([(name, v)] + MembersOf(Blank(rest[1..])).value.0,
                                    MembersOf(Blank(rest[1..])).value.1))
  {
    hide StringBody, ValueOf, Blank;
    SolidStays(after);
    SolidStays(rest);
  }

  /** Names need no escapes. */
  lemma {:induction false} NamesArePlain(k: Key)
    ensures Plain(Name(k)) && Plain(SHAPE) && Plain(DTYPE)
  {
    hide Plain;
    if Rank(k) < 6 { FirstPlain(k); } else { LastPlain(k); }
    assert Plain("shape") && Plain("dtype") by { TwoPlain(); }
  }

  lemma {:induction false} TwoPlain()
    ensures Plain("shape") && Plain("dtype")
  {
  }

  lemma {:induction false} FirstPlain(k: Key)
    requires Rank(k) < 6
    ensures Plain(Name(k))
  {
  }

  lemma {:induction false} LastPlain(k: Key)
    requires Rank(k) >= 6
    ensures Plain(Name(k))
  {
  }

  // ---- values ----

  lemma {:induction false} Joined(x: string)
    ensures ":[" + x == ":" + ("" + ("[" + x)) && "]," + x == "]" + ("," + x) && "]}" + x == "]" + ("}" + x)
    ensures ": " + x == ":" + (" " + x) && ", " + x == "," + (" " + x) && ": [" + x == ":" + (" " + ("[" + x))
    ensures ":" + x == ":" + ("" + x)
  {
  }

  lemma {:induction false} SpecText(spec: TensorSpec, rest: string, dtype: string, second: string, list: string)
    requires dtype == StringThen(spec.dtype, "}" + rest) && second == Quote(DTYPE) + (":" + ("" + dtype))
    requires list == "[" + (ShapeText(spec.shape) + ("]" + ("," + second)))
    ensures ValueThen(Spec(spec), rest) == "{" + (Quote(SHAPE) + (":" + ("" + list)))
  {
    hide StringThen, ShapeText, Quote;
    Joined(dtype);
    Joined(second);
    Joined(ShapeText(spec.shape) + ("]" + ("," + second)));
  }

  lemma {:induction false} PySpecText(spec: TensorSpec, rest: string, list: string, second: string, dtype: string)
    requires list == "[" + (PyList(spec.shape) + ("]" + ("}" + rest))) && second == Quote(SHAPE) + (":" + (" " + list))
    requires dtype == PyStringThen(spec.dtype, "," + (" " + second))
    ensures PyValueThen(Spec(spec), rest) == "{" + (Quote(DTYPE) + (":" + (" " + dtype)))
  {
    hide PyStringThen, PyList, Quote;
    Joined(rest);
    Joined(PyList(spec.shape) + ("]" + ("}" + rest)));
    Joined(second);
    Joined(dtype);
    assert second == ListThen(spec.shape, rest);
  }

  lemma {:induction false} SpecReads(spec: TensorSpec, rest: string)
    ensures ValueOf(ValueThen(Spec(spec), rest)) == Some((JsonOf(Spec(spec), true), rest))
  {
    hide ValueOf, MembersOf, Plain, StringThen, ShapeText, Blank, ValueThen, Quote;
    TwoPlain();
    var dtype := StringThen(spec.dtype, "}" + rest);
    var second := Quote(DTYPE) + (":" + ("" + dtype));
    var list := "[" + (ShapeText(spec.shape) + ("]" + ("," + second)));
    SpecText(spec, rest, dtype, second, list);
    TextBegins(spec.dtype, "}" + rest);
    TextValue(spec.dtype, "}" + rest);
    MemberReads(DTYPE, "", dtype, Json.Text(spec.dtype), "}" + rest);
    assert ("}" + rest)[1..] == rest;
    ListReads(spec.shape, "," + second);
    ListBegins(ShapeText(spec.shape) + ("]" + ("," + second)));
    QuoteBegins(DTYPE, ":" + ("" + dtype));
    assert ("," + second)[1..] == second;
    MemberReads(SHAPE, "", list, Array(Integers(spec.shape)), "," + second);
    QuoteBegins(SHAPE, ":" + ("" + list));
    var shape, text := (SHAPE, Array(Integers(spec.shape))), (DTYPE, Json.Text(spec.dtype));
    assert [shape] + [text] == [shape, text];
    ObjectReads(Quote(SHAPE) + (":" + ("" + list)));
  }

  lemma {:induction false} PySpecReads(spec: TensorSpec, rest: string)
    ensures ValueOf(PyValueThen(Spec(spec), rest)) == Some((JsonOf(Spec(spec), false), rest))
  {
    hide ValueOf, MembersOf, Plain, PyStringThen, PyList, Blank, PyValueThen, Quote;
    TwoPlain();
    var list := "[" + (PyList(spec.shape) + ("]" + ("}" + rest)));
    var second := Quote(SHAPE) + (":" + (" " + list));
    var dtype := PyStringThen(spec.dtype, "," + (" " + second));
    PySpecText(spec, rest, list, second, dtype);
    ListReads(spec.shape, "}" + rest);
    ListBegins(PyList(spec.shape) + ("]" + ("}" + rest)));
    assert ("}" + rest)[1..] == rest;
    MemberReads(SHAPE, " ", list, Array(Integers(spec.shape)), "}" + rest);
    TextBegins(spec.dtype, "," + (" " + second));
    TextValue(spec.dtype, "," + (" " + second));
    QuoteBegins(SHAPE, ":" + (" " + list));
    assert ("," + (" " + second))[1..] == " " + second;
    MemberReads(DTYPE, " ", dtype, Json.Text(spec.dtype), "," + (" " + second));
    QuoteBegins(DTYPE, ":" + (" " + dtype));
    var shape, text := (SHAPE, Array(Integers(spec.shape))), (DTYPE, Json.Text(spec.dtype));
    assert [text] + [shape] == [text, shape];
    ObjectReads(Quote(DTYPE) + (":" + (" " + dtype)));
  }

  lemma {:induction false} ListBegins(x: string)
    ensures Blank("" + ("[" + x)) == "[" + x && Blank(" " + ("[" + x)) == "[" + x
  {
    SolidStays("[" + x);
    assert "" + ("[" + x) == "[" + x;
  }

  lemma {:induction false} TextBegins(s: string, rest: string)
    ensures Blank("" + StringThen(s, rest)) == StringThen(s, rest)
    ensures Blank(" " + PyStringThen(s, rest)) == PyStringThen(s, rest)
  {
    hide Escape, PyEscape;
    SolidStays(StringThen(s, rest));
    SolidStays(PyStringThen(s, rest));
    assert "" + StringThen(s, rest) == StringThen(s, rest);
  }

  lemma {:induction false} QuoteBegins(name: string, rest: string)
    ensures var s := Quote(name) + rest; Begins(s, '"') && Blank(s) == s && Blank(" " + s) == s
  {
    SolidStays(Quote(name) + rest);
  }

  lemma {:induction false} ObjectReads(first: string)
    requires Begins(first, '"') && Blank(first) == first
    ensures ValueOf("{" + first) ==
            match MembersOf(first)
            case None => None
            case Some((members, rest)) => Some((Object(members), rest))
  {
    hide MembersOf;
    assert ("{" + first)[1..] == first;
  }

  /** The value of a member, before a comma or brace. */
  lemma {:induction false} ValueReads(v: Value, rest: string)
    requires Ends(rest)
    ensures ValueOf(ValueThen(v, rest)) == Some((JsonOf(v, true), rest))
    ensures ValueOf(PyValueThen(v, rest)) == Some((JsonOf(v, false), rest))
    ensures Blank("" + ValueThen(v, rest)) == ValueThen(v, rest)
    ensures Blank(" " + PyValueThen(v, rest)) == PyValueThen(v, rest)
  {
    hide ValueOf, StringThen, PyStringThen, IntText, ShapeText, PyList;
    match v
    case Num(n) =>
      NumberValue(n, rest);
      IntTextSolid(n, rest);
      SolidStays(IntText(n) + rest);
      assert "" + (IntText(n) + rest) == IntText(n) + rest;
    case Str(s) =>
      TextValue(s, rest);
      TextBegins(s, rest);
    case Spec(spec) =>
      SpecReads(spec, rest);
      PySpecReads(spec, rest);
      SolidStays(ValueThen(v, rest));
      SolidStays(PyValueThen(v, rest));
      assert "" + ValueThen(v, rest) == ValueThen(v, rest);
  }

  // ---- the whole header ----

  function Entry(k: Key, v: Value, shapeFirst: bool): (string, Json) {
    (Name(k), JsonOf(v, shapeFirst))
  }

  /** The members that a header is printed with, from the `i`-th possible one on. */
  function Fields(h: Header, i: nat): seq<(string, Json)>
    requires i <= |KEYS|
    decreases |KEYS| - i
  {
    if i == |KEYS| then []
    else
      (match FieldOf(h, KEYS[i])
       case None => []
       case Some(v) => [Entry(KEYS[i], v, true)]) + Fields(h, i + 1)
  }

  /** What the reader makes of the members from the `i`-th possible one on. */
  lemma {:induction false} FieldsRead(h: Header, i: nat)
    requires 0 < i <= |KEYS|
    ensures Fields(h, i) == [] ==> Body(h, i) == "}"
    ensures Fields(h, i) != [] ==>
              Begins(Body(h, i), ',') && MembersOf(Blank(Body(h, i)[1..])) == Some((Fields(h, i), ""))
    decreases |KEYS| - i
  {
    hide MemberThen, MembersOf, Entry, FieldOf, Blank;
    if i < |KEYS| {
      FieldsRead(h, i + 1);
      match FieldOf(h, KEYS[i])
      case None => assert [] + Fields(h, i + 1) == Fields(h, i + 1);
      case Some(v) =>
        FieldReads(KEYS[i], v, Body(h, i + 1), Fields(h, i + 1));
        assert ("," + MemberThen(KEYS[i], v, Body(h, i + 1)))[1..] == MemberThen(KEYS[i], v, Body(h, i + 1));
    }
  }

  lemma {:induction false} FieldStep(h: Header, i: nat)
    requires i < |KEYS|
    ensures Fields(h, i) ==
            match FieldOf(h, KEYS[i])
            case None => Fields(h, i + 1)
            case Some(v) => [Entry(KEYS[i], v, true)] + Fields(h, i + 1)
  {
    hide FieldOf, Entry;
    assert [] + Fields(h, i + 1) == Fields(h, i + 1);
  }

  lemma {:induction false} PyFieldStep(h: Header, i: nat)
    requires i < |PY_KEYS|
    ensures PyFields(h, i) ==
            match Member(h, PY_KEYS[i])
            case None => PyFields(h, i + 1)
            case Some(v) => [Entry(PY_KEYS[i], v, false)] + PyFields(h, i + 1)
  {
    hide Member, Entry;
    assert [] + PyFields(h, i + 1) == PyFields(h, i + 1);
  }

  lemma {:induction false} NoFields(h: Header)
    ensures Fields(h, 11) == []
  {
  }

  lemma {:induction false} PyNoFields(h: Header)
    ensures PyFields(h, 9) == []
  {
  }

  lemma {:induction false} PyBodyStep(h: Header, i: nat)
    requires i < |PY_KEYS|
    ensures match Member(h, PY_KEYS[i])
            case None => forall first :: PyBody(h, i, first) == PyBody(h, i + 1, first)
            case Some(v) =>
              var s := PyMemberThen(PY_KEYS[i], v, PyBody(h, i + 1, false));
              PyBody(h, i, true) == s && PyBody(h, i, false) == ", " + s
  {
    hide Member, PyMemberThen;
    if Member(h, PY_KEYS[i]).Some? {
      var s := PyMemberThen(PY_KEYS[i], Member(h, PY_KEYS[i]).value, PyBody(h, i + 1, false));
      assert "" + s == s;
    }
  }

  lemma {:induction false} FieldReads(k: Key, v: Value, rest: string, fields: seq<(string, Json)>)
    requires fields == [] ==> rest == "}"
    requires fields != [] ==> Begins(rest, ',') && MembersOf(Blank(rest[1..])) == Some((fields, ""))
    ensures var s := MemberThen(k, v, rest);
            && Begins(s, '"') && Blank(s) == s
            && MembersOf(s) == Some(([Entry(k, v, true)] + fields, ""))
  {
    hide MembersOf, ValueOf, ValueThen, Name, JsonOf, Blank, Quote, Plain;
    NamesArePlain(k);
    ValueReads(v, rest);
    var text := ValueThen(v, rest);
    assert ":" + ("" + text) == ":" + text;
    MemberReads(Name(k), "", text, JsonOf(v, true), rest);
    QuoteBegins(Name(k), ":" + text);
    assert [Entry(k, v, true)] + [] == [Entry(k, v, true)];
  }

  /** Whatever the header, its native text is the JSON text of an object with exactly its members. */
  lemma {:induction false} HeaderIsJson(h: Header)
    ensures Document(HeaderText(h)) == Some(Object(Fields(h, 0)))
  {
    hide MemberThen, MembersOf, ValueOf, Entry, Body, Fields;
    var v := Num(h.protocolVersion);
    FieldsRead(h, 1);
    FirstMember(h);
    var first := MemberThen(ProtocolVersion, v, Body(h, 1));
    FieldReads(ProtocolVersion, v, Body(h, 1), Fields(h, 1));
    ObjectReads(first);
    SolidStays("{" + first);
  }

  lemma {:induction false} FirstMember(h: Header)
    ensures HeaderText(h) == "{" + MemberThen(ProtocolVersion, Num(h.protocolVersion), Body(h, 1))
    ensures Fields(h, 0) == [Entry(ProtocolVersion, Num(h.protocolVersion), true)] + Fields(h, 1)
  {
    hide MemberThen, Name, JsonOf;
  }

  /** The members of a request, from the `i`-th possible one on. */
  function PyFields(h: Header, i: nat): seq<(string, Json)>
    requires i <= |PY_KEYS|
    decreases |PY_KEYS| - i
  {
    if i == |PY_KEYS| then []
    else
      (match Member(h, PY_KEYS[i])
       case None => []
       case Some(v) => [Entry(PY_KEYS[i], v, false)]) + PyFields(h, i + 1)
  }

  lemma {:induction false} PyFieldsRead(h: Header, i: nat)
    requires i <= |PY_KEYS|
    ensures PyFields(h, i) == [] ==> PyBody(h, i, false) == PyBody(h, i, true) == "}"
    ensures PyFields(h, i) != [] ==>
              && Begins(PyBody(h, i, false), ',') && Begins(PyBody(h, i, true), '"')
              && Blank(PyBody(h, i, true)) == PyBody(h, i, true) == Blank(PyBody(h, i, false)[1..])
              && MembersOf(PyBody(h, i, true)) == Some((PyFields(h, i), ""))
    decreases |PY_KEYS| - i
  {
    hide PyMemberThen, MembersOf, Entry, Member, Blank;
    if i < |PY_KEYS| {
      hide PyFields, PyBody, Begins;
      PyFieldsRead(h, i + 1);
      PyFieldStep(h, i);
      PyBodyStep(h, i);
      match Member(h, PY_KEYS[i])
      case None =>
      case Some(v) =>
        var s := PyMemberThen(PY_KEYS[i], v, PyBody(h, i + 1, false));
        PyFieldReads(PY_KEYS[i], v, PyBody(h, i + 1, false), PyFields(h, i + 1));
        CommaBegins(s);
    }
  }

  lemma {:induction false} CommaBegins(s: string)
    ensures Begins(", " + s, ',') && (", " + s)[1..] == " " + s
  {
  }

  lemma {:induction false} PyFieldReads(k: Key, v: Value, rest: string, fields: seq<(string, Json)>)
    requires fields == [] ==> rest == "}"
    requires fields != [] ==> Begins(rest, ',') && MembersOf(Blank(rest[1..])) == Some((fields, ""))
    ensures var s := PyMemberThen(k, v, rest);
            && Begins(s, '"') && Blank(s) == s == Blank(" " + s)
            && MembersOf(s) == Some(([Entry(k, v, false)] + fields, ""))
  {
    hide MembersOf, ValueOf, PyValueThen, Name, JsonOf, Blank, Quote, Plain;
    NamesArePlain(k);
    ValueReads(v, rest);
    var text := PyValueThen(v, rest);
    Joined(text);
    MemberReads(Name(k), " ", text, JsonOf(v, false), rest);
    QuoteBegins(Name(k), ": " + text);
    assert [Entry(k, v, false)] + [] == [Entry(k, v, false)];
  }

  /** The same of the supervisor's text of a request. */
  lemma {:induction false} RequestIsJson(h: Header)
    ensures Document(PyText(h)) == Some(Object(PyFields(h, 0)))
  {
    hide MembersOf, ValueOf, Entry, PyBody, PyFields;
    PyFieldsRead(h, 0);
    KindIsField(h);
    ObjectReads(PyBody(h, 0, true));
    SolidStays("{" + PyBody(h, 0, true));
  }

  lemma {:induction false} KindIsField(h: Header)
    ensures PyFields(h, 0) != []
  {
    hide JsonOf, Name;
    assert PyFields(h, 2) != [];
    assert PyFields(h, 1) != [];
  }

  // ================= the messages of the protocol =================

  /** The supervisor's LOAD, INFER and SHUTDOWN, member by member. */
  lemma {:induction false} RequestsSay(h: Header)
    requires IsRequest(h)
    ensures h.messageType == LOAD ==>
              Document(PyText(h)) == Some(Object([
                ("artifact_path", Json.Text(h.artifactPath)), ("class_count", Integer(h.classCount)),
                ("message_type", Json.Text("LOAD")), ("payload_length", Integer(h.payloadLength)),
                ("protocol_version", Integer(1)), ("request_id", Integer(h.requestId)),
                ("serving_digest", Json.Text(h.servingDigest)),
                ("worker_generation", Integer(h.workerGeneration))]))
    ensures h.messageType == INFER ==>
              Document(PyText(h)) == Some(Object([
                ("message_type", Json.Text("INFER")), ("payload_length", Integer(h.payloadLength)),
                ("protocol_version", Integer(1)), ("request_id", Integer(h.requestId)),
                ("tensor_spec", Object([("dtype", Json.Text(h.tensorSpec.dtype)),
                                        ("shape", Array(Integers(h.tensorSpec.shape)))])),
                ("worker_generation", Integer(h.workerGeneration))]))
    ensures h.messageType == SHUTDOWN ==>
              Document(PyText(h)) == Some(Object([
                ("message_type", Json.Text("SHUTDOWN")), ("payload_length", Integer(h.payloadLength)),
                ("protocol_version", Integer(1)), ("request_id", Integer(h.requestId)),
                ("worker_generation", Integer(h.workerGeneration))]))
  {
    hide Document, PyText, PyFields, Integers, Entry, TypeText;
    RequestIsJson(h);
    KindTexts();
    SayEntries(h, false);
    TensorEntries(h.tensorSpec);
    if h.messageType == LOAD {
      LoadFields(h);
    } else if h.messageType == INFER {
      InferFields(h);
    } else {
      ShutdownFields(h);
    }
  }

  lemma {:induction false} LoadFields(h: Header)
    requires h.messageType == LOAD
    ensures PyFields(h, 0) == [
              Entry(ArtifactPath, Str(h.artifactPath), false), Entry(ClassCount, Num(h.classCount), false),
              Entry(MessageKind, Str(TypeText(LOAD)), false), Entry(PayloadLength, Num(h.payloadLength), false),
              Entry(ProtocolVersion, Num(h.protocolVersion), false), Entry(RequestId, Num(h.requestId), false),
              Entry(ServingDigest, Str(h.servingDigest), false),
              Entry(WorkerGeneration, Num(h.workerGeneration), false)]
  {
    hide PyFields, Entry, TypeText;
    LastPyFields(h);
    PyFieldStep(h, 5);
    PyFieldStep(h, 4);
    PyFieldStep(h, 3);
    PyFieldStep(h, 2);
    PyFieldStep(h, 1);
    PyFieldStep(h, 0);
  }

  /** The last members of a request. */
  lemma {:induction false} LastPyFields(h: Header)
    ensures h.messageType == LOAD ==>
              PyFields(h, 6) == [Entry(ServingDigest, Str(h.servingDigest), false),
                                 Entry(WorkerGeneration, Num(h.workerGeneration), false)]
    ensures h.messageType == INFER ==>
              PyFields(h, 6) == [Entry(Tensor, Spec(h.tensorSpec), false),
                                 Entry(WorkerGeneration, Num(h.workerGeneration), false)]
    ensures h.messageType == SHUTDOWN ==> PyFields(h, 6) == [Entry(WorkerGeneration, Num(h.workerGeneration), false)]
  {
    hide PyFields, Entry;
    var last := [Entry(WorkerGeneration, Num(h.workerGeneration), false)];
    PyNoFields(h);
    PyFieldStep(h, 8);
    assert PyFields(h, 8) == last;
    PyFieldStep(h, 7);
    PyFieldStep(h, 6);
  }

  lemma {:induction false} InferFields(h: Header)
    requires h.messageType == INFER
    ensures PyFields(h, 0) == [
              Entry(MessageKind, Str(TypeText(INFER)), false), Entry(PayloadLength, Num(h.payloadLength), false),
              Entry(ProtocolVersion, Num(h.protocolVersion), false), Entry(RequestId, Num(h.requestId), false),
              Entry(Tensor, Spec(h.tensorSpec), false), Entry(WorkerGeneration, Num(h.workerGeneration), false)]
  {
    hide PyFields, Entry, TypeText;
    LastPyFields(h);
    PyFieldStep(h, 5);
    PyFieldStep(h, 4);
    PyFieldStep(h, 3);
    PyFieldStep(h, 2);
    PyFieldStep(h, 1);
    PyFieldStep(h, 0);
  }

  lemma {:induction false} ShutdownFields(h: Header)
    requires h.messageType == SHUTDOWN
    ensures PyFields(h, 0) == [
              Entry(MessageKind, Str(TypeText(SHUTDOWN)), false), Entry(PayloadLength, Num(h.payloadLength), false),
              Entry(ProtocolVersion, Num(h.protocolVersion), false), Entry(RequestId, Num(h.requestId), false),
              Entry(WorkerGeneration, Num(h.workerGeneration), false)]
  {
    hide PyFields, Entry, TypeText;
    LastPyFields(h);
    PyFieldStep(h, 5);
    PyFieldStep(h, 4);
    PyFieldStep(h, 3);
    PyFieldStep(h, 2);
    PyFieldStep(h, 1);
    PyFieldStep(h, 0);
  }

  lemma {:induction false} NumberEntries(n: int, b: bool)
    ensures Entry(ProtocolVersion, Num(n), b) == ("protocol_version", Integer(n))
    ensures Entry(RequestId, Num(n), b) == ("request_id", Integer(n))
    ensures Entry(WorkerGeneration, Num(n), b) == ("worker_generation", Integer(n))
    ensures Entry(PayloadLength, Num(n), b) == ("payload_length", Integer(n))
    ensures Entry(ClassCount, Num(n), b) == ("class_count", Integer(n))
  {
  }

  lemma {:induction false} TextEntries(s: string, b: bool)
    ensures Entry(MessageKind, Str(s), b) == ("message_type", Json.Text(s))
    ensures Entry(ArtifactPath, Str(s), b) == ("artifact_path", Json.Text(s))
    ensures Entry(ServingDigest, Str(s), b) == ("serving_digest", Json.Text(s))
    ensures Entry(ErrorCode, Str(s), b) == ("error_code", Json.Text(s))
    ensures Entry(ErrorMessage, Str(s), b) == ("error_message", Json.Text(s))
  {
  }

  lemma {:induction false} TensorEntries(spec: TensorSpec)
    ensures Entry(Tensor, Spec(spec), true) ==
            ("tensor_spec", Object([("shape", Array(Integers(spec.shape))), ("dtype", Json.Text(spec.dtype))]))
    ensures Entry(Tensor, Spec(spec), false) ==
            ("tensor_spec", Object([("dtype", Json.Text(spec.dtype)), ("shape", Array(Integers(spec.shape)))]))
  {
    hide Integers;
  }

  lemma {:induction false} SayEntries(h: Header, b: bool)
    ensures Entry(ProtocolVersion, Num(h.protocolVersion), b) == ("protocol_version", Integer(h.protocolVersion))
    ensures Entry(RequestId, Num(h.requestId), b) == ("request_id", Integer(h.requestId))
    ensures Entry(WorkerGeneration, Num(h.workerGeneration), b) == ("worker_generation", Integer(h.workerGeneration))
    ensures Entry(PayloadLength, Num(h.payloadLength), b) == ("payload_length", Integer(h.payloadLength))
    ensures Entry(ClassCount, Num(h.classCount), b) == ("class_count", Integer(h.classCount))
    ensures Entry(MessageKind, Str(TypeText(h.messageType)), b) == ("message_type", Json.Text(TypeText(h.messageType)))
    ensures Entry(ArtifactPath, Str(h.artifactPath), b) == ("artifact_path", Json.Text(h.artifactPath))
    ensures Entry(ServingDigest, Str(h.servingDigest), b) == ("serving_digest", Json.Text(h.servingDigest))
    ensures Entry(ErrorCode, Str(h.errorCode), b) == ("error_code", Json.Text(h.errorCode))
    ensures Entry(ErrorMessage, Str(h.errorMessage), b) == ("error_message", Json.Text(h.errorMessage))
  {
    hide Entry, TypeText;
    NumberEntries(h.protocolVersion, b);
    NumberEntries(h.requestId, b);
    NumberEntries(h.workerGeneration, b);
    NumberEntries(h.payloadLength, b);
    NumberEntries(h.classCount, b);
    TextEntries(TypeText(h.messageType), b);
    TextEntries(h.artifactPath, b);
    TextEntries(h.servingDigest, b);
    TextEntries(h.errorCode, b);
    TextEntries(h.errorMessage, b);
  }

  lemma {:induction false} KindTexts()
    ensures TypeText(LOAD) == "LOAD" && TypeText(INFER) == "INFER" && TypeText(SHUTDOWN) == "SHUTDOWN"
    ensures TypeText(RESULT) == "RESULT" && TypeText(STATUS) == "STATUS"
  {
  }

  /** The worker's RESULT with a table, and its refusals and STATUS replies, member by member. */
  lemma {:induction false} RepliesSay(h: Header)
    requires h.artifactPath == h.servingDigest == ""
    ensures h.messageType == RESULT && h.tensorSpec != TensorSpec([], "") && h.errorCode == h.errorMessage == "" ==>
              Document(HeaderText(h)) == Some(Object([
                ("protocol_version", Integer(h.protocolVersion)), ("message_type", Json.Text("RESULT")),
                ("request_id", Integer(h.requestId)), ("worker_generation", Integer(h.workerGeneration)),
                ("tensor_spec", Object([("shape", Array(Integers(h.tensorSpec.shape))),
                                        ("dtype", Json.Text(h.tensorSpec.dtype))])),
                ("payload_length", Integer(h.payloadLength)), ("class_count", Integer(h.classCount))]))
    ensures h.messageType in {RESULT, STATUS} && h.tensorSpec == TensorSpec([], "")
            && h.errorCode != "" && h.errorMessage != "" ==>
              Document(HeaderText(h)) == Some(Object([
                ("protocol_version", Integer(h.protocolVersion)),
                ("message_type", Json.Text(if h.messageType == RESULT then "RESULT" else "STATUS")),
                ("request_id", Integer(h.requestId)), ("worker_generation", Integer(h.workerGeneration)),
                ("payload_length", Integer(h.payloadLength)), ("class_count", Integer(h.classCount)),
                ("error_code", Json.Text(h.errorCode)), ("error_message", Json.Text(h.errorMessage))]))
  {
    hide Document, HeaderText, Fields, Integers, Entry, TypeText;
    HeaderIsJson(h);
    KindTexts();
    SayEntries(h, true);
    TensorEntries(h.tensorSpec);
    if h.messageType == RESULT && h.tensorSpec != TensorSpec([], "") && h.errorCode == h.errorMessage == "" {
      ResultFields(h);
    }
    if h.messageType in {RESULT, STATUS} && h.tensorSpec == TensorSpec([], "") && h.errorCode != ""
       && h.errorMessage != "" {
      RefusalFields(h);
    }
  }

  lemma {:induction false} ResultFields(h: Header)
    requires h.artifactPath == h.servingDigest == "" && h.messageType == RESULT && h.tensorSpec != TensorSpec([], "")
    requires h.errorCode == h.errorMessage == ""
    ensures Fields(h, 0) == [
              Entry(ProtocolVersion, Num(h.protocolVersion), true), Entry(MessageKind, Str(TypeText(RESULT)), true),
              Entry(RequestId, Num(h.requestId), true), Entry(WorkerGeneration, Num(h.workerGeneration), true),
              Entry(Tensor, Spec(h.tensorSpec), true), Entry(PayloadLength, Num(h.payloadLength), true),
              Entry(ClassCount, Num(h.classCount), true)]
  {
    hide Fields, Entry, TypeText;
    NoFields(h);
    FieldStep(h, 10);
    FieldStep(h, 9);
    FieldStep(h, 8);
    FieldStep(h, 7);
    FieldStep(h, 6);
    assert Fields(h, 6) == [Entry(Tensor, Spec(h.tensorSpec), true), Entry(PayloadLength, Num(h.payloadLength), true),
                            Entry(ClassCount, Num(h.classCount), true)];
    FirstFields(h);
  }

  lemma {:induction false} NoMiddleFields(h: Header)
    requires h.artifactPath == h.servingDigest == ""
    ensures Fields(h, 4) == Fields(h, 6)
  {
    hide Fields, Entry, TypeText;
    FieldStep(h, 5);
    FieldStep(h, 4);
  }

  /** The first members of a reply. */
  lemma {:induction false} FirstFields(h: Header)
    requires h.artifactPath == h.servingDigest == ""
    ensures Fields(h, 0) ==
            [Entry(ProtocolVersion, Num(h.protocolVersion), true),
             Entry(MessageKind, Str(TypeText(h.messageType)), true), Entry(RequestId, Num(h.requestId), true),
             Entry(WorkerGeneration, Num(h.workerGeneration), true)] + Fields(h, 6)
  {
    hide Fields, Entry, TypeText;
    var generation := Entry(WorkerGeneration, Num(h.workerGeneration), true);
    var id := Entry(RequestId, Num(h.requestId), true);
    var kind := Entry(MessageKind, Str(TypeText(h.messageType)), true);
    var rest := Fields(h, 6);
    NoMiddleFields(h);
    FieldStep(h, 3);
    FieldStep(h, 2);
    assert Fields(h, 2) == [id, generation] + rest;
    FieldStep(h, 1);
    assert Fields(h, 1) == [kind, id, generation] + rest;
    FieldStep(h, 0);
  }

  lemma {:induction false} RefusalFields(h: Header)
    requires h.artifactPath == h.servingDigest == "" && h.tensorSpec == TensorSpec([], "")
    requires h.errorCode != "" && h.errorMessage != ""
    ensures Fields(h, 0) == [
              Entry(ProtocolVersion, Num(h.protocolVersion), true),
              Entry(MessageKind, Str(TypeText(h.messageType)), true), Entry(RequestId, Num(h.requestId), true),
              Entry(WorkerGeneration, Num(h.workerGeneration), true),
              Entry(PayloadLength, Num(h.payloadLength), true), Entry(ClassCount, Num(h.classCount), true),
              Entry(ErrorCode, Str(h.errorCode), true), Entry(ErrorMessage, Str(h.errorMessage), true)]
  {
    hide Fields, Entry, TypeText;
    NoFields(h);
    FieldStep(h, 10);
    FieldStep(h, 9);
    FieldStep(h, 8);
    FieldStep(h, 7);
    FieldStep(h, 6);
    assert Fields(h, 6) == [Entry(PayloadLength, Num(h.payloadLength), true),
                            Entry(ClassCount, Num(h.classCount), true),
                            Entry(ErrorCode, Str(h.errorCode), true), Entry(ErrorMessage, Str(h.errorMessage), true)];
    FirstFields(h);
  }
}
