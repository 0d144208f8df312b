/** Byte strings as the native protocol code sees them: substring search, white space and
    decimal numbers.  A `string` here is a sequence of bytes, one `char` per byte. */
module Text {

  datatype Option<+T> = None | Some(value: T)

  /** The suffix of `t` that starts at the first occurrence of `q`, if there is one. */
  function Seek(t: string, q: string): (r: Option<string>)
    requires q != ""
    ensures r.Some? ==> |q| <= |r.value| <= |t|
  {
    if |t| < |q| then None
    else if q <= t then Some(t)
    else Seek(t[1..], q)
  }

  predicate OccursAt(t: string, q: string, i: int) {
    0 <= i && i + |q| <= |t| && t[i..i + |q|] == q
  }

  /** A string is found exactly if it occurs somewhere. */
  lemma {:induction false} Occurrence(t: string, q: string)
    requires q != ""
    ensures Seek(t, q).Some? <==> exists i :: OccursAt(t, q, i)
  {
    if |t| >= |q| {
      Occurrence(t[1..], q);
      assert q <= t <==> OccursAt(t, q, 0);
      forall i
        ensures OccursAt(t[1..], q, i) <==> i >= 0 && OccursAt(t, q, i + 1)
      {
        assert 0 <= i && i + 1 + |q| <= |t| ==> t[1..][i..i + |q|] == t[i + 1..i + 1 + |q|];
      }
      if i :| OccursAt(t, q, i) {
        assert i > 0 ==> OccursAt(t[1..], q, i - 1);
      }
    }
  }

  lemma {:induction false} CharOccurs(t: string, q: string, i: int, k: nat)
    requires OccursAt(t, q, i) && k < |q|
    ensures q[k] in t
  {
    assert t[i + k] == t[i..i + |q|][k];
  }

  /** Two dots in a row. */
  lemma {:induction false} TwoDots(s: string)
    ensures Seek(s, "..").Some? <==> exists i | 0 <= i < |s| - 1 :: s[i] == '.' && s[i + 1] == '.'
  {
    hide Seek;
    Occurrence(s, "..");
    if i :| OccursAt(s, "..", i) {
      assert s[i] == s[i..i + 2][0] && s[i + 1] == s[i..i + 2][1];
    }
    if i :| 0 <= i < |s| - 1 && s[i] == '.' && s[i + 1] == '.' {
      assert s[i..i + 2] == "..";
      assert OccursAt(s, "..", i);
    }
  }

  /** `std::string::find(q, from)`: an index, or -1 for `npos`. */
  function Find(t: string, q: string, from: nat): (p: int)
    requires q != "" && from <= |t|
    ensures p == -1 <==> Seek(t[from..], q).None?
    ensures p != -1 ==> from <= p && p + |q| <= |t| && Seek(t[from..], q) == Some(t[p..])
    ensures p != -1 ==> t[p..p + |q|] == q
    decreases |t| - from
  {
    if from + |q| > |t| then -1
    else
      assert t[from..][1..] == t[from + 1..];
      assert t[from..][..|q|] == t[from..from + |q|];
      if q <= t[from..] then from else Find(t, q, from + 1)
  }

  // ---- `isspace`, trimming ----

  predicate IsSpace(c: char) {
    c == ' ' || '\t' <= c <= '\r'
  }

  function SkipSpace(s: string): (r: string)
    ensures |r| <= |s|
  {
    if s != "" && IsSpace(s[0]) then SkipSpace(s[1..]) else s
  }

  function DropTrailingSpace(s: string): (r: string)
    ensures |r| <= |s|
  {
    if s != "" && IsSpace(s[|s| - 1]) then DropTrailingSpace(s[..|s| - 1]) else s
  }

  function Trim(s: string): string {
    DropTrailingSpace(SkipSpace(s))
  }

  /** The two trimming loops of the readers. */
  method TrimToken(tok: string) returns (r: string)
    ensures r == Trim(tok)
  {
    var a := 0;
    assert tok[0..] == tok;
    while a < |tok| && IsSpace(tok[a])
      invariant a <= |tok|
      invariant SkipSpace(tok[a..]) == SkipSpace(tok)
    {
      assert tok[a..][1..] == tok[a + 1..];
      a := a + 1;
    }
    assert SkipSpace(tok) == tok[a..];
    r := TrimRight(tok, a);
  }

  method TrimRight(tok: string, a: nat) returns (r: string)
    requires a <= |tok|
    ensures r == DropTrailingSpace(tok[a..])
  {
    var b := |tok|;
    assert tok[a..b] == tok[a..];
    while b > a && IsSpace(tok[b - 1])
      invariant a <= b <= |tok|
      invariant DropTrailingSpace(tok[a..b]) == DropTrailingSpace(tok[a..])
    {
      SliceInit(tok, a, b);
      b := b - 1;
    }
    r := tok[a..b];
  }

  lemma {:induction false} SliceInit(s: string, a: nat, b: nat)
    requires a < b <= |s|
    ensures s[a..b][|s[a..b]| - 1] == s[b - 1]
    ensures s[a..b][..|s[a..b]| - 1] == s[a..b - 1]
  {
  }

  // ---- decimal integers ----

  predicate IsDigit(c: char) {
    '0' <= c <= '9'
  }

  function NatText(n: nat): (s: string)
    ensures s != "" && forall i | 0 <= i < |s| :: IsDigit(s[i])
  {
    if n < 10 then ['0' + n as char] else NatText(n / 10) + ['0' + (n % 10) as char]
  }

  /** `ostream << n`. */
  function IntText(n: int): (s: string)
    ensures s != "" && forall i | 0 <= i < |s| :: IsDigit(s[i]) || s[i] == '-'
  {
    if n < 0 then "-" + NatText(-n) else NatText(n)
  }

  predicate AllDigits(s: string) {
    forall i | 0 <= i < |s| :: IsDigit(s[i])
  }

  function DigitRun(s: string): (r: string)
    ensures r <= s && AllDigits(r)
  {
    if s != "" && IsDigit(s[0]) then [s[0]] + DigitRun(s[1..]) else ""
  }

  function DigitValue(c: char): nat
    requires IsDigit(c)
  {
    c as int - '0' as int
  }

  function DigitsValue(s: string): nat
    requires AllDigits(s)
  {
    if s == "" then 0
    else
      DigitsValue(s[..|s| - 1]) * 10 + DigitValue(s[|s| - 1])
  }

  /** `std::stoi` / `std::stoll`: leading white space, a sign, a non-empty run of digits whose value
      lies in [-limit, limit); whatever follows the run is ignored. */
  function ParseInteger(tok: string, limit: int): Option<int> {
    var s := SkipSpace(tok);
    if s == "" then None
    else
      var run := DigitRun(if s[0] == '-' || s[0] == '+' then s[1..] else s);
      var m: int := DigitsValue(run);
      var v := if s[0] == '-' then -m else m;
      if run != "" && -limit <= v < limit then Some(v) else None
  }

  lemma {:induction false} DigitRunOfDigits(s: string)
    requires AllDigits(s)
    ensures DigitRun(s) == s
  {
    if s != "" {
      DigitRunOfDigits(s[1..]);
    }
  }

  lemma {:induction false} NatTextValue(n: nat)
    ensures DigitsValue(NatText(n)) == n
  {
    if n >= 10 {
      NatTextValue(n / 10);
      var s := NatText(n);
      assert s[..|s| - 1] == NatText(n / 10);
    } else {
      assert NatText(n)[..0] == "";
    }
  }

  /** Printing a number and reading it back gives the number exactly when it is in range. */
  lemma {:induction false} IntegerRoundTrip(n: int, limit: int)
    ensures ParseInteger(IntText(n), limit) == if -limit <= n < limit then Some(n) else None
  {
    hide NatText, DigitRun, DigitsValue;
    var m: nat := if n < 0 then -n else n;
    var digits, s := NatText(m), IntText(n);
    NatTextValue(m);
    DigitRunOfDigits(digits);
    assert n < 0 ==> s[1..] == digits;
    assert SkipSpace(s) == s;
  }

  lemma {:induction false} TrimOfSolid(s: string)
    requires forall i | 0 <= i < |s| :: !IsSpace(s[i])
    ensures Trim(s) == s
  {
  }

  lemma {:induction false} SpacesMean(c: char)
    ensures IsSpace(c) <==> c in [' ', '\t', '\n', 11 as char, 12 as char, '\r']
  {
  }

  lemma {:induction false} SkipsBlanks(blank: string, s: string)
    requires (forall i | 0 <= i < |blank| :: IsSpace(blank[i])) && (s == "" || !IsSpace(s[0]))
    ensures SkipSpace(blank + s) == s
  {
    if blank == "" {
      assert blank + s == s;
    } else {
      SkipsBlanks(blank[1..], s);
      assert (blank + s)[1..] == blank[1..] + s;
    }
  }

  lemma {:induction false} RunEnds(digits: string, rest: string)
    requires AllDigits(digits) && (rest == "" || !IsDigit(rest[0]))
    ensures DigitRun(digits + rest) == digits
  {
    if digits == "" {
      assert digits + rest == rest;
    } else {
      RunEnds(digits[1..], rest);
      assert (digits + rest)[1..] == digits[1..] + rest;
      assert digits == [digits[0]] + digits[1..];
    }
  }

  /** A number is read behind any white space, with or without a sign, up to the first character that is no digit; a
      text without a digit there, or a number out of range, is none. */
  lemma {:induction false} ParseReads(blank: string, sign: string, digits: string, rest: string, limit: int)
    requires (forall i | 0 <= i < |blank| :: IsSpace(blank[i])) && (sign == "" || sign == "+" || sign == "-")
    requires AllDigits(digits) && (rest == "" || !IsDigit(rest[0]))
    requires sign == digits == "" ==> rest == "" || (!IsSpace(rest[0]) && rest[0] != '+' && rest[0] != '-')
    ensures var m: int := DigitsValue(digits);
            var v := if sign == "-" then -m else m;
            ParseInteger(blank + (sign + (digits + rest)), limit) ==
            if digits != "" && -limit <= v < limit then Some(v) else None
  {
    hide DigitRun, DigitsValue, SkipSpace;
    var s := sign + (digits + rest);
    RunEnds(digits, rest);
    assert sign != "" ==> s[0] == sign[0] && s[1..] == digits + rest;
    assert sign == "" ==> s == digits + rest;
    assert sign == "" && digits != "" ==> s[0] == digits[0];
    assert sign == "" && digits == "" ==> s == rest;
    SkipsBlanks(blank, s);
  }

  /** Digits count in tens. */
  lemma {:induction false} DigitsMean(digits: string, c: char)
    requires AllDigits(digits) && IsDigit(c)
    ensures DigitsValue("") == 0 && DigitsValue(digits + [c]) == 10 * DigitsValue(digits) + (c as int - 48)
  {
    assert (digits + [c])[..|digits|] == digits;
  }
}
