/** The substring reader inverts the printer. */
module HeaderRoundTrip {
  import opened Text
  import opened HeaderJson

  predicate NoControl(s: string) {
    forall i | 0 <= i < |s| :: s[i] >= ' '
  }

  predicate Lacks(s: string, c: char) {
    forall i | 0 <= i < |s| :: s[i] != c
  }

  predicate EndsInQuoted(s: string, name: string) {
    |s| > |name| && s[|s| - |name| - 1..] == ['"'] + name
  }

  /** The printed value holds what the search for `name` takes for it: the quoted name, at the end of a
      string that is the name or ends in a quote and the name. */
  predicate Collides(v: Value, name: string) {
    match v
    case Num(_) => false
    case Str(s) => s == name || EndsInQuoted(s, name)
    case Spec(spec) => spec.dtype == name || EndsInQuoted(spec.dtype, name)
  }

  /** The member `KEYS[j]` is printed before the member `k`, or at all if there is no member `k`. */
  predicate Before(h: Header, k: Key, j: nat)
    requires j < |KEYS|
  {
    FieldOf(h, KEYS[j]).Some? && (FieldOf(h, k).None? || j < Rank(k))
  }

  predicate ClearFrom(h: Header, i: nat, k: Key) {
    forall j | i <= j < |KEYS| && Before(h, k, j) :: !Collides(FieldOf(h, KEYS[j]).value, Name(k))
  }

  /** Nothing printed before the member `k` can be taken for its name. */
  predicate Clear(h: Header, k: Key) {
    ClearFrom(h, 0, k)
  }

  predicate Int32(n: int) {
    -INT32_LIMIT <= n < INT32_LIMIT
  }

  predicate Int64(n: int) {
    -INT64_LIMIT <= n < INT64_LIMIT
  }

  /** The integers of a header are in the ranges of its C++ fields. */
  predicate InRange(h: Header) {
    && Int32(h.protocolVersion) && Int64(h.requestId) && Int64(h.workerGeneration) && Int32(h.classCount)
    && forall i | 0 <= i < |h.tensorSpec.shape| :: Int32(h.tensorSpec.shape[i])
  }

  predicate NoControls(h: Header) {
    && NoControl(h.artifactPath) && NoControl(h.servingDigest) && NoControl(h.errorCode) && NoControl(h.errorMessage)
    && NoControl(h.tensorSpec.dtype)
  }

  /** A header as the native side builds them: a known type, integers in range, strings without control
      characters. */
  predicate Proper(h: Header) {
    h.messageType != UNKNOWN && InRange(h) && NoControls(h)
  }

  // ---- one string ----

  lemma {:induction false} InsideStep(s: string, rest: string)
    requires s != ""
    ensures Inside(s, rest) == EscapeChar(s[0]) + Inside(s[1..], rest)
    ensures NoControl(s) <==> s[0] >= ' ' && NoControl(s[1..])
  {
    assert forall i | 0 < i < |s| :: s[i] == s[1..][i - 1];
  }

  /** The reader's unescaping undoes the printer's escaping exactly on strings without control
      characters: those are escaped as in section 7 of RFC 8259, but read back by dropping the
      backslash. */
  lemma {:induction false} UnescapeEscape(s: string, rest: string)
    ensures Unescape(Inside(s, rest)) == s <==> NoControl(s)
  {
    if s != "" {
      UnescapeEscape(s[1..], rest);
      InsideStep(s, rest);
      var c, t, tail := s[0], Inside(s, rest), Inside(s[1..], rest);
      assert s == [c] + s[1..];
      if c < ' ' {
        assert t[0] == '\\' && t[1] >= 'b';
        assert Unescape(t)[0] != c;
      } else {
        assert t[|EscapeChar(c)|..] == tail;
        assert Unescape(t) == [c] + Unescape(tail);
        UnescapeCons(c, s[1..], tail);
      }
    }
  }

  lemma {:induction false} UnescapeCons(c: char, s: string, tail: string)
    ensures [c] + Unescape(tail) == [c] + s <==> Unescape(tail) == s
  {
    assert ([c] + Unescape(tail))[1..] == Unescape(tail) && ([c] + s)[1..] == s;
  }

  // ---- where a key is found ----

  predicate IsNameChar(c: char) {
    'a' <= c <= 'z' || c == '_'
  }

  predicate IsName(s: string) {
    s != "" && forall i | 0 <= i < |s| :: IsNameChar(s[i])
  }

  lemma {:induction false} NamesAreNames(k: Key)
    ensures IsName(Name(k))
  {
    if Rank(k) < 6 {
      FirstNames(k);
    } else {
      LastNames(k);
    }
  }

  lemma {:induction false} FirstNames(k: Key)
    requires Rank(k) < 6
    ensures IsName(Name(k))
  {
  }

  lemma {:induction false} LastNames(k: Key)
    requires Rank(k) >= 6
    ensures IsName(Name(k))
  {
  }

  lemma {:induction false} NamesDiffer(j: Key, k: Key)
    requires j != k
    ensures Name(j) != Name(k)
  {
    assert |Name(j)| != |Name(k)| || Name(j)[0] != Name(k)[0];
  }

  /** Text without the first character of `q` can be skipped. */
  lemma {:induction false} SeekPast(p: string, rest: string, q: string)
    requires q != "" && Lacks(p, q[0])
    ensures Seek(p + rest, q) == Seek(rest, q)
  {
    if p == "" {
      assert p + rest == rest;
    } else {
      SeekPast(p[1..], rest, q);
      assert (p + rest)[1..] == p[1..] + rest;
      assert (p + rest)[0] == p[0] != q[0];
    }
  }

  /** If a name and its closing quote start the escaped text of `s`, then `s` is that name. */
  lemma {:induction false} NameStartsInside(s: string, x: string, rest: string)
    requires NoControl(s)
    requires forall i | 0 <= i < |x| :: IsNameChar(x[i])
    requires x + "\"" <= Inside(s, rest)
    ensures s == x
  {
    var t := Inside(s, rest);
    assert t[|x|] == '"' && forall i | 0 <= i < |x| :: t[i] == x[i];
    if s != "" {
      InsideStep(s, rest);
      assert t[0] == EscapeChar(s[0])[0];
      assert |EscapeChar(s[0])| == 1;
      assert t[1..] == Inside(s[1..], rest);
      assert x[1..] + "\"" <= t[1..];
      NameStartsInside(s[1..], x[1..], rest);
    } else {
      assert t[0] == '"';
    }
  }

  /** The text right after an opening quote or an escaped quote is not the name and its closing
      quote. */
  lemma {:induction false} SeekOverQuote(s: string, rest: string, name: string)
    requires NoControl(s) && IsName(name) && s != name
    ensures Seek("\"" + Inside(s, rest), Quote(name)) == Seek(Inside(s, rest), Quote(name))
  {
    var t := "\"" + Inside(s, rest);
    assert t[1..] == Inside(s, rest);
    if Quote(name) <= t {
      assert Quote(name)[1..] == name + "\"" <= t[1..];
      NameStartsInside(s, name, rest);
    }
  }

  /** Inside a quoted string no quoted name is found, unless the string ends in a quote and that name. */
  lemma {:induction false} SeekInside(s: string, rest: string, name: string)
    requires NoControl(s) && IsName(name) && !EndsInQuoted(s, name)
    requires rest != "" && !IsNameChar(rest[0])
    ensures Seek(Inside(s, rest), Quote(name)) == Seek(rest, Quote(name))
  {
    if s == "" {
      SeekOverClosingQuote(rest, name);
    } else {
      InsideStep(s, rest);
      EndsInQuotedTail(s, name);
      SeekInside(s[1..], rest, name);
      SeekOverEscaped(s[0], s[1..], rest, name);
    }
  }

  /** One escaped character is skipped, an escaped quote because the name does not follow it. */
  lemma {:induction false} SeekOverEscaped(c: char, s: string, rest: string, name: string)
    requires c >= ' ' && NoControl(s) && IsName(name) && (c == '"' ==> s != name)
    ensures Seek(EscapeChar(c) + Inside(s, rest), Quote(name)) == Seek(Inside(s, rest), Quote(name))
  {
    var q, tail := Quote(name), Inside(s, rest);
    if c == '"' {
      assert EscapeChar(c) + tail == "\\" + ("\"" + tail);
      SeekPast("\\", "\"" + tail, q);
      SeekOverQuote(s, rest, name);
    } else {
      assert Lacks(EscapeChar(c), '"');
      SeekPast(EscapeChar(c), tail, q);
    }
  }

  lemma {:induction false} SeekOverClosingQuote(rest: string, name: string)
    requires IsName(name) && rest != "" && !IsNameChar(rest[0])
    ensures Inside("", rest) == "\"" + rest
    ensures Seek("\"" + rest, Quote(name)) == Seek(rest, Quote(name))
  {
    SeekNext("\"" + rest, Quote(name));
    assert ("\"" + rest)[1..] == rest;
  }

  /** Where the second characters differ, there is no occurrence. */
  lemma {:induction false} SeekNext(t: string, q: string)
    requires |t| > 1 && |q| > 1 && t[1] != q[1]
    ensures Seek(t, q) == Seek(t[1..], q)
  {
  }

  lemma {:induction false} EndsInQuotedTail(s: string, name: string)
    requires s != "" && !EndsInQuoted(s, name)
    ensures !EndsInQuoted(s[1..], name)
    ensures s[0] == '"' ==> s[1..] != name
  {
    assert s == [s[0]] + s[1..];
    if |s| > |name| + 1 {
      assert s[|s| - |name| - 1..] == s[1..][|s[1..]| - |name| - 1..];
    }
  }

  /** A whole quoted string is skipped, unless it is the name or ends in a quote and the name. */
  lemma {:induction false} SeekOverString(s: string, rest: string, name: string)
    requires NoControl(s) && IsName(name) && s != name && !EndsInQuoted(s, name)
    requires rest != "" && !IsNameChar(rest[0])
    ensures Seek(StringThen(s, rest), Quote(name)) == Seek(rest, Quote(name))
  {
    SeekInside(s, rest, name);
    SeekOverQuote(s, rest, name);
  }

  lemma {:induction false} WholeTail(s: string, rest: string, name: string)
    requires IsName(name) && s == ['"'] + name
    ensures Seek(Inside(s, rest), Quote(name)) == Some(Quote(name) + rest)
  {
    hide Seek, Escape;
    var q := Quote(name) + rest;
    assert s[1..] == name;
    EscapePlain(name);
    QuoteFirst(name);
    assert Inside(s, rest) == "\\" + q;
    SeekPast("\\", q, Quote(name));
    SeekHere(Quote(name), rest);
  }

  lemma {:induction false} QuoteFirst(name: string)
    ensures Escape(['"'] + name) == "\\\"" + Escape(name)
  {
    assert (['"'] + name)[1..] == name;
  }

  lemma {:induction false} ShorterTail(s: string, name: string)
    requires EndsInQuoted(s, name) && |s| > |name| + 1
    ensures EndsInQuoted(s[1..], name) && s[1..] != name
  {
    assert s[1..][|s[1..]| - |name| - 1..] == s[|s| - |name| - 1..];
  }

  /** A string that ends in a quote and the name is where the name is found. */
  lemma {:induction false} SeekTail(s: string, rest: string, name: string)
    requires NoControl(s) && IsName(name) && EndsInQuoted(s, name)
    ensures Seek(Inside(s, rest), Quote(name)) == Some(Quote(name) + rest)
  {
    if |s| == |name| + 1 {
      assert s[0..] == s;
      WholeTail(s, rest, name);
    } else {
      hide Seek, Inside, Quote, EscapeChar, EndsInQuoted, IsName;
      ShorterTail(s, name);
      InsideStep(s, rest);
      SeekTail(s[1..], rest, name);
      SeekOverEscaped(s[0], s[1..], rest, name);
    }
  }

  lemma {:induction false} QuotedName(name: string, rest: string)
    requires IsName(name)
    ensures StringThen(name, rest) == Quote(name) + rest
  {
    hide Escape;
    EscapePlain(name);
    assert "\"" + (name + ("\"" + rest)) == Quote(name) + rest;
  }

  /** A string is skipped by the search for a name exactly if it does not collide with it; otherwise the
      search ends in it. */
  lemma {:induction false} SeekThroughString(s: string, rest: string, name: string)
    requires NoControl(s) && IsName(name)
    requires rest != "" && !IsNameChar(rest[0])
    ensures Seek(StringThen(s, rest), Quote(name))
         == if Collides(Str(s), name) then Some(Quote(name) + rest) else Seek(rest, Quote(name))
  {
    hide Seek;
    if s == name {
      QuotedName(name, rest);
      SeekHere(Quote(name), rest);
    } else if EndsInQuoted(s, name) {
      SeekOverQuote(s, rest, name);
      SeekTail(s, rest, name);
    } else {
      SeekOverString(s, rest, name);
    }
  }

  lemma {:induction false} EscapePlain(s: string)
    requires NoControl(s) && Lacks(s, '"') && Lacks(s, '\\')
    ensures Escape(s) == s
  {
    if s != "" {
      EscapePlain(s[1..]);
    }
  }

  predicate ListChars(s: string) {
    forall i | 0 <= i < |s| :: IsDigit(s[i]) || s[i] == '-' || s[i] == ','
  }

  lemma {:induction false} MoreShapePlain(shape: seq<int>)
    ensures ListChars(MoreShapeText(shape))
  {
    if shape != [] {
      MoreShapePlain(shape[1..]);
    }
  }

  lemma {:induction false} ShapeTextPlain(shape: seq<int>)
    ensures ListChars(ShapeText(shape))
  {
    if shape != [] {
      MoreShapePlain(shape[1..]);
    }
  }

  lemma {:induction false} BodyStart(h: Header, i: nat)
    requires 0 < i <= |KEYS|
    ensures Body(h, i) != "" && (Body(h, i)[0] == ',' || Body(h, i)[0] == '}')
    decreases |KEYS| - i
  {
    if i < |KEYS| && FieldOf(h, KEYS[i]).None? {
      BodyStart(h, i + 1);
    }
  }

  predicate Plain(v: Value) {
    match v
    case Num(_) => true
    case Str(s) => NoControl(s)
    case Spec(spec) => NoControl(spec.dtype)
  }

  lemma {:induction false} FieldsPlain(h: Header, k: Key)
    requires NoControls(h) && FieldOf(h, k).Some?
    ensures Plain(FieldOf(h, k).value)
  {
  }

  /** A string without quotes does not end in a quote and a name. */
  lemma {:induction false} NotEnding(s: string, name: string)
    requires Lacks(s, '"')
    ensures !EndsInQuoted(s, name)
  {
    assert |s| > |name| ==> s[|s| - |name| - 1..][0] != '"';
  }

  predicate Follows(rest: string) {
    rest != "" && !IsNameChar(rest[0]) && rest[0] != ':'
  }

  /** What a search for the quoted name does with a printed value and what follows it: it ends in the value,
      in front of `tail`, or goes on. */
  predicate Through(found: Option<string>, collides: bool, tail: string, rest: string, name: string) {
    found == if collides then Some(Quote(name) + tail) else Seek(rest, Quote(name))
  }

  /** What follows the last string in a printed value. */
  function Tail(v: Value, rest: string): string {
    if v.Spec? then "}" + rest else rest
  }

  /** A printed value is skipped by the search for a member name exactly if it does not collide. */
  lemma {:induction false} SeekThroughValue(v: Value, rest: string, k: Key)
    requires Plain(v) && Follows(rest)
    ensures Through(Seek(ValueThen(v, rest), Quote(Name(k))), Collides(v, Name(k)), Tail(v, rest), rest, Name(k))
  {
    hide Seek, Name;
    var q := Quote(Name(k));
    NamesAreNames(k);
    match v
    case Num(n) =>
      SeekPast(IntText(n), rest, q);
    case Str(s) =>
      SeekThroughString(s, rest, Name(k));
    case Spec(spec) => SeekThroughSpec(spec, rest, k);
  }

  lemma {:induction false} SeekThroughSpec(spec: TensorSpec, rest: string, k: Key)
    requires NoControl(spec.dtype) && Follows(rest)
    ensures Through(Seek(ValueThen(Spec(spec), rest), Quote(Name(k))), Collides(Spec(spec), Name(k)), "}" + rest, rest,
                    Name(k))
  {
    hide Seek, Name;
    var dtype := Quote(DTYPE) + (":" + StringThen(spec.dtype, "}" + rest));
    var shape := ":[" + (ShapeText(spec.shape) + ("]," + dtype));
    SeekThroughDtype(spec.dtype, rest, k);
    SeekOverShape(spec.shape, dtype, k);
    SeekOverObject(shape, k);
    assert ValueThen(Spec(spec), rest) == "{" + (Quote(SHAPE) + shape);
  }

  lemma {:induction false} NestedIsNoKey(k: Key)
    ensures DTYPE != Name(k) && SHAPE != Name(k)
  {
    assert |Name(k)| > 5;
  }

  lemma {:induction false} SeekOverObject(shape: string, k: Key)
    requires shape != "" && !IsNameChar(shape[0])
    ensures Seek("{" + (Quote(SHAPE) + shape), Quote(Name(k))) == Seek(shape, Quote(Name(k)))
  {
    hide Seek, Name;
    NestedNames();
    NestedIsNoKey(k);
    SkipName(SHAPE, shape, k);
    SeekPast("{", Quote(SHAPE) + shape, Quote(Name(k)));
  }

  lemma {:induction false} SeekOverShape(shape: seq<int>, rest: string, k: Key)
    ensures Seek(":[" + (ShapeText(shape) + ("]," + rest)), Quote(Name(k))) == Seek(rest, Quote(Name(k)))
  {
    var q := Quote(Name(k));
    ShapeTextPlain(shape);
    SeekPast(":[", ShapeText(shape) + ("]," + rest), q);
    SeekPast(ShapeText(shape), "]," + rest, q);
    SeekPast("],", rest, q);
  }

  lemma {:induction false} SeekThroughDtype(dtype: string, rest: string, k: Key)
    requires NoControl(dtype)
    ensures Through(Seek(Quote(DTYPE) + (":" + StringThen(dtype, "}" + rest)), Quote(Name(k))),
                    Collides(Str(dtype), Name(k)), "}" + rest, rest, Name(k))
  {
    hide Seek, Name;
    var q := Quote(Name(k));
    NamesAreNames(k);
    NestedNames();
    NestedIsNoKey(k);
    SkipName(DTYPE, ":" + StringThen(dtype, "}" + rest), k);
    SeekPast(":", StringThen(dtype, "}" + rest), q);
    SeekThroughString(dtype, "}" + rest, Name(k));
    SeekPast("}", rest, q);
  }

  /** Another quoted name is skipped. */
  lemma {:induction false} SkipName(other: string, rest: string, k: Key)
    requires IsName(other) && other != Name(k)
    requires rest != "" && !IsNameChar(rest[0])
    ensures Seek(Quote(other) + rest, Quote(Name(k))) == Seek(rest, Quote(Name(k)))
  {
    NamesAreNames(k);
    SkipQuotedName(other, rest, Name(k));
  }

  lemma {:induction false} SeekThroughMember(sep: string, j: Key, v: Value, rest: string, k: Key)
    requires Plain(v) && Follows(rest) && Lacks(sep, '"')
    ensures j == k ==> Seek(sep + MemberThen(j, v, rest), Quote(Name(k))) == Some(MemberThen(j, v, rest))
    ensures j != k ==> Through(Seek(sep + MemberThen(j, v, rest), Quote(Name(k))), Collides(v, Name(k)), Tail(v, rest),
                               rest, Name(k))
  {
    hide Seek, Name, ValueThen;
    var q, value := Quote(Name(k)), ValueThen(v, rest);
    SeekPast(sep, MemberThen(j, v, rest), q);
    if j == k {
      SeekHere(q, ":" + value);
    } else {
      NamesDiffer(j, k);
      NamesAreNames(j);
      SeekThroughValue(v, rest, k);
      SeekPast(":", value, q);
      SkipName(Name(j), ":" + value, k);
    }
  }

  /** Where the member `k` is to be found in the text of the header. */
  function Place(h: Header, k: Key): Option<string> {
    if FieldOf(h, k).None? then None else Some(MemberThen(k, FieldOf(h, k).value, Body(h, Rank(k) + 1)))
  }

  /** What follows the last string of the member `KEYS[i]`. */
  function Onward(h: Header, i: nat): string
    requires i < |KEYS|
  {
    if FieldOf(h, KEYS[i]).None? then Body(h, i + 1) else Tail(FieldOf(h, KEYS[i]).value, Body(h, i + 1))
  }

  /** The first member from `KEYS[i]` on that is taken for the name of the member `k`, if there is one. */
  function FirstHit(h: Header, k: Key, i: nat): (j: Option<nat>)
    requires i <= |KEYS|
    ensures j.None? <==> ClearFrom(h, i, k)
    ensures j.Some? ==> i <= j.value < |KEYS| && Before(h, k, j.value)
    decreases |KEYS| - i
  {
    if i == |KEYS| then None
    else if Before(h, k, i) && Collides(FieldOf(h, KEYS[i]).value, Name(k)) then Some(i)
    else FirstHit(h, k, i + 1)
  }

  /** One member of the body. */
  lemma {:induction false} SeekAtMember(h: Header, i: nat, k: Key)
    requires NoControls(h) && i < |KEYS|
    ensures FieldOf(h, KEYS[i]).None? ==> Body(h, i) == Body(h, i + 1)
    ensures FieldOf(h, KEYS[i]).Some? && i == Rank(k) ==> Seek(Body(h, i), Quote(Name(k))) == Place(h, k)
    ensures FieldOf(h, KEYS[i]).Some? && i != Rank(k) ==>
              Through(Seek(Body(h, i), Quote(Name(k))), Collides(FieldOf(h, KEYS[i]).value, Name(k)), Onward(h, i),
                      Body(h, i + 1), Name(k))
  {
    hide Seek, MemberThen, Name, Through, Collides, NoControls, FieldOf, Tail;
    var j := KEYS[i];
    KeysDistinct(i, k);
    BodyStart(h, i + 1);
    if FieldOf(h, j).Some? {
      FieldsPlain(h, j);
      SeekThroughMember(if i == 0 then "{" else ",", j, FieldOf(h, j).value, Body(h, i + 1), k);
    }
  }

  predicate IsHere(h: Header, i: nat, k: Key) {
    FieldOf(h, k).Some? && i == Rank(k)
  }

  /** At one member the search ends, is misled, or goes on. */
  lemma {:induction false} FindStep(h: Header, i: nat, k: Key)
    requires NoControls(h) && i < |KEYS| && (FieldOf(h, k).Some? ==> i <= Rank(k))
    ensures var found := Seek(Body(h, i), Quote(Name(k)));
            && (IsHere(h, i, k) ==> FirstHit(h, k, i).None? && found == Place(h, k))
            && (!IsHere(h, i, k) ==>
                  || (FirstHit(h, k, i) == Some(i) && found == Some(Quote(Name(k)) + Onward(h, i)))
                  || (FirstHit(h, k, i) == FirstHit(h, k, i + 1) && found == Seek(Body(h, i + 1), Quote(Name(k)))))
  {
    hide Seek, Body, Name, Collides, NoControls, FieldOf, ClearFrom, Place, Onward;
    KeysDistinct(i, k);
    SeekAtMember(h, i, k);
    ClearStep(h, i, k);
  }

  /** From any member on: the search finds the member `k`, or nothing if there is none, unless something
      before it collides; then it ends in the first that does. */
  lemma {:induction false} FindFrom(h: Header, i: nat, k: Key)
    requires NoControls(h) && i <= |KEYS| && (FieldOf(h, k).Some? ==> i <= Rank(k))
    ensures Seek(Body(h, i), Quote(Name(k))) ==
            match FirstHit(h, k, i)
            case None => Place(h, k)
            case Some(j) => Some(Quote(Name(k)) + Onward(h, j))
    decreases |KEYS| - i
  {
    hide *;
    if i == |KEYS| {
      FindEnd(h, k);
    } else {
      FindStep(h, i, k);
      if !IsHere(h, i, k) {
        NotHere(h, i, k);
        FindFrom(h, i + 1, k);
      }
    }
  }

  lemma {:induction false} FindEnd(h: Header, k: Key)
    requires FieldOf(h, k).Some? ==> |KEYS| <= Rank(k)
    ensures FirstHit(h, k, |KEYS|).None? && Seek(Body(h, |KEYS|), Quote(Name(k))) == Place(h, k)
  {
    hide Seek, Name, FieldOf;
    NothingInBrace(Name(k));
  }

  lemma {:induction false} NotHere(h: Header, i: nat, k: Key)
    requires !IsHere(h, i, k) && (FieldOf(h, k).Some? ==> i <= Rank(k))
    ensures FieldOf(h, k).Some? ==> i + 1 <= Rank(k)
  {
  }

  lemma {:induction false} NothingInBrace(name: string)
    ensures Seek("}", Quote(name)) == None
  {
    SeekPast("}", "", Quote(name));
    assert "}" + "" == "}";
  }

  /** Whether the rest is clear depends on one member and what follows it. */
  lemma {:induction false} ClearStep(h: Header, i: nat, k: Key)
    requires i < |KEYS|
    ensures ClearFrom(h, i, k) <==>
            (Before(h, k, i) ==> !Collides(FieldOf(h, KEYS[i]).value, Name(k))) && ClearFrom(h, i + 1, k)
    ensures FieldOf(h, k).Some? && Rank(k) <= i ==> ClearFrom(h, i, k)
  {
    hide Collides, FieldOf, Name;
  }

  lemma {:induction false} KeysDistinct(i: nat, k: Key)
    requires i < |KEYS|
    ensures KEYS[i] == k <==> i == Rank(k)
  {
    assert Rank(KEYS[i]) == i;
  }

  /** Without control characters, the first occurrence of a quoted member name is that member, or there is
      none if the member is left out, if and only if no string printed before it - or none at all, if it is
      left out - is that name or ends in a quote and that name. */
  lemma {:induction false} FindMember(h: Header, k: Key)
    requires NoControls(h)
    ensures Seek(HeaderText(h), Quote(Name(k))) == Place(h, k) <==> Clear(h, k)
  {
    hide Seek, Body, ValueThen, FieldOf, ClearFrom, Name, Onward;
    FindFrom(h, 0, k);
    if !Clear(h, k) {
      var j := FirstHit(h, k, 0).value;
      OnwardStart(h, j);
      ElsewhereThanMember(h, k, Onward(h, j));
    }
  }

  lemma {:induction false} OnwardStart(h: Header, i: nat)
    requires i < |KEYS|
    ensures Onward(h, i) != "" && (Onward(h, i)[0] == ',' || Onward(h, i)[0] == '}')
  {
    hide Body, FieldOf;
    BodyStart(h, i + 1);
  }

  lemma {:induction false} ElsewhereThanMember(h: Header, k: Key, tail: string)
    requires tail != "" && tail[0] != ':'
    ensures Place(h, k) != Some(Quote(Name(k)) + tail)
  {
    hide Body, ValueThen, Name;
    if Place(h, k).Some? {
      var n := |Name(k)| + 2;
      assert Place(h, k).value[n] == ':' && (Quote(Name(k)) + tail)[n] == tail[0];
    }
  }

  // ---- what is read there ----

  lemma {:induction false} ColonAfterName(name: string, value: string)
    requires IsName(name)
    ensures Seek(Quote(name) + (":" + value), ":") == Some(":" + value)
    ensures (":" + value)[1..] == value
  {
    SeekPast(Quote(name), ":" + value, ":");
    assert ":" <= ":" + value;
  }

  /** After a member's name the reader stands on the member's value. */
  lemma {:induction false} StandsOnValue(h: Header, k: Key)
    requires NoControls(h) && Clear(h, k)
    ensures ValueAfter(HeaderText(h), Name(k)) ==
            if FieldOf(h, k).None? then None
            else Some(SkipSpace(ValueThen(FieldOf(h, k).value, Body(h, Rank(k) + 1))))
  {
    hide Seek, Body, ValueThen, FieldOf, Name, SkipSpace, Clear;
    FindMember(h, k);
    if FieldOf(h, k).Some? {
      var value := ValueThen(FieldOf(h, k).value, Body(h, Rank(k) + 1));
      NamesAreNames(k);
      ColonAfterName(Name(k), value);
    }
  }

  /** The first member from `KEYS[i]` on that is printed. */
  function NextAt(h: Header, i: nat): (n: Option<nat>)
    requires i <= |KEYS|
    ensures n.Some? ==> i <= n.value < |KEYS| && FieldOf(h, KEYS[n.value]).Some?
    decreases |KEYS| - i
  {
    if i == |KEYS| then None else if FieldOf(h, KEYS[i]).Some? then Some(i) else NextAt(h, i + 1)
  }

  lemma {:induction false} BodyFromNext(h: Header, i: nat)
    requires 0 < i <= |KEYS|
    ensures Body(h, i) ==
            match NextAt(h, i)
            case None => "}"
            case Some(n) => "," + MemberThen(KEYS[n], FieldOf(h, KEYS[n]).value, Body(h, n + 1))
    decreases |KEYS| - i
  {
    hide *;
    BodyStep(h, i);
    if i < |KEYS| && FieldOf(h, KEYS[i]).None? {
      BodyFromNext(h, i + 1);
    }
  }

  lemma {:induction false} BodyStep(h: Header, i: nat)
    requires 0 < i <= |KEYS|
    ensures i == |KEYS| ==> NextAt(h, i).None? && Body(h, i) == "}"
    ensures i < |KEYS| && FieldOf(h, KEYS[i]).None? ==> NextAt(h, i) == NextAt(h, i + 1) && Body(h, i) == Body(h, i + 1)
    ensures i < |KEYS| && FieldOf(h, KEYS[i]).Some? ==>
              && NextAt(h, i) == Some(i)
              && Body(h, i) == "," + MemberThen(KEYS[i], FieldOf(h, KEYS[i]).value, Body(h, i + 1))
  {
    hide FieldOf, MemberThen;
  }

  /** The printed value behind the string that is taken for the name of the member `k`. */
  function Behind(h: Header, k: Key): Option<Value> {
    match FirstHit(h, k, 0)
    case None => None
    case Some(j) =>
      match NextAt(h, j + 1)
      case None => None
      case Some(n) => FieldOf(h, KEYS[n])
  }

  /** After a string taken for a member's name the reader stands on the value of the next member, whatever
      that is. */
  lemma {:induction false} StandsBehind(h: Header, k: Key)
    requires NoControls(h) && !Clear(h, k)
    ensures var next := NextAt(h, FirstHit(h, k, 0).value + 1);
            ValueAfter(HeaderText(h), Name(k)) ==
            if next.None? then None
            else Some(SkipSpace(ValueThen(Behind(h, k).value, Body(h, next.value + 1))))
  {
    hide Seek, Body, ValueThen, FieldOf, Name, SkipSpace, Collides, NextAt, FirstHit, NoControls, Onward;
    var j := FirstHit(h, k, 0).value;
    FindFrom(h, 0, k);
    NamesAreNames(k);
    SeekPast(Quote(Name(k)), Onward(h, j), ":");
    ColonOnward(h, j);
  }

  lemma {:induction false} ColonOnward(h: Header, j: nat)
    requires j < |KEYS|
    ensures Seek(Onward(h, j), ":") ==
            match NextAt(h, j + 1)
            case None => None
            case Some(n) => Some(":" + ValueThen(FieldOf(h, KEYS[n]).value, Body(h, n + 1)))
  {
    hide Seek, ValueThen, FieldOf, Name, Body;
    BodyFromNext(h, j + 1);
    SeekPast("}", Body(h, j + 1), ":");
    match NextAt(h, j + 1)
    case None =>
      SeekPast("}", "", ":");
      NoColonInBrace();
    case Some(n) =>
      var value := ValueThen(FieldOf(h, KEYS[n]).value, Body(h, n + 1));
      NamesAreNames(KEYS[n]);
      SeekPast(",", Quote(Name(KEYS[n])) + (":" + value), ":");
      ColonAfterName(Name(KEYS[n]), value);
  }

  lemma {:induction false} NoColonInBrace()
    ensures Seek("}", ":").None? && "}" + "" == "}"
  {
    SeekPast("}", "", ":");
    assert "}" + "" == "}";
  }

  lemma {:induction false} TokenOfDigits(s: string, rest: string)
    requires Lacks(s, ',') && Lacks(s, '}')
    requires rest != "" && (rest[0] == ',' || rest[0] == '}')
    ensures TokenOf(s + rest) == Some(s)
  {
    if s == "" {
      assert s + rest == rest;
    } else {
      TokenOfDigits(s[1..], rest);
      assert (s + rest)[1..] == s[1..] + rest;
      assert s == [s[0]] + s[1..];
    }
  }

  /** The number, if it is in the range of a signed 64-bit integer. */
  function Stored(n: int): Option<int> {
    if Int64(n) then Some(n) else None
  }

  lemma {:induction false} NumberToken(n: int, rest: string)
    requires rest != "" && (rest[0] == ',' || rest[0] == '}')
    ensures TokenOf(SkipSpace(IntText(n) + rest)) == Some(IntText(n))
    ensures ParseInteger(Trim(IntText(n)), INT64_LIMIT) == Stored(n)
  {
    var s := IntText(n);
    assert (s + rest)[0] == s[0];
    TokenOfDigits(s, rest);
    TrimOfSolid(s);
    IntegerRoundTrip(n, INT64_LIMIT);
  }

  lemma {:induction false} Unquote(s: string, rest: string)
    requires NoControl(s)
    ensures var v := StringThen(s, rest);
            SkipSpace(v) == v && v != "" && v[0] == '"' && Unescape(v[1..]) == s
  {
    UnescapeEscape(s, rest);
    assert StringThen(s, rest)[1..] == Inside(s, rest);
  }

  /** What is read as a string, and as a number, where some value stands. */
  function TextAt(v: Option<Value>): string {
    if v.Some? && v.value.Str? then v.value.s else ""
  }

  function NumberAt(v: Option<Value>): Option<int> {
    if v.Some? && v.value.Num? then Stored(v.value.n) else None
  }

  lemma {:induction false} ReadsNumber(js: string, name: string, n: int, rest: string)
    requires rest != "" && (rest[0] == ',' || rest[0] == '}')
    requires ValueAfter(js, name) == Some(SkipSpace(IntText(n) + rest))
    ensures IntField(js, name) == Stored(n) && StringField(js, name) == ""
  {
    hide TokenOf, Seek, IntText;
    NumberToken(n, rest);
    assert (IntText(n) + rest)[0] == IntText(n)[0];
  }

  lemma {:induction false} ReadsString(js: string, name: string, s: string, rest: string)
    requires NoControl(s) && ValueAfter(js, name) == Some(SkipSpace(StringThen(s, rest)))
    ensures StringField(js, name) == s && IntField(js, name) == None
  {
    hide TokenOf, Seek, Unescape, StringThen;
    Unquote(s, rest);
    NoNumber(StringThen(s, rest));
  }

  /** No number starts with a quote, a brace or a bracket. */
  lemma {:induction false} NoNumber(s: string)
    requires s != "" && s[0] in {'"', '{', '['}
    ensures SkipSpace(s) == s
    ensures TokenOf(s).Some? ==> ParseInteger(Trim(TokenOf(s).value), INT64_LIMIT) == None
  {
    if TokenOf(s).Some? {
      var tok := TokenOf(s).value;
      assert tok != "" && tok[0] == s[0];
      TrimKeepsFirst(tok);
      NoDigits(Trim(tok));
    }
  }

  lemma {:induction false} NoDigits(s: string)
    requires s != "" && s[0] in {'"', '{', '['}
    ensures ParseInteger(s, INT64_LIMIT) == None
  {
  }

  lemma {:induction false} TrimKeepsFirst(s: string)
    requires s != "" && !IsSpace(s[0])
    ensures Trim(s) != "" && Trim(s)[0] == s[0]
  {
    assert SkipSpace(s) == s;
    if IsSpace(s[|s| - 1]) {
      TrimKeepsFirst(s[..|s| - 1]);
    }
  }

  lemma {:induction false} ReadsObject(js: string, name: string, spec: TensorSpec, rest: string)
    requires ValueAfter(js, name) == Some(SkipSpace(ValueThen(Spec(spec), rest)))
    ensures StringField(js, name) == "" && IntField(js, name) == None
  {
    hide TokenOf, Seek, Unescape;
    NoNumber(ValueThen(Spec(spec), rest));
  }

  /** Whatever value the reader stands on, it is read as the string or the number it is, or as none. */
  lemma {:induction false} ReadsWhereItStands(js: string, name: string, v: Value, rest: string)
    requires Plain(v) && rest != "" && (rest[0] == ',' || rest[0] == '}')
    requires ValueAfter(js, name) == Some(SkipSpace(ValueThen(v, rest)))
    ensures StringField(js, name) == TextAt(Some(v)) && IntField(js, name) == NumberAt(Some(v))
  {
    hide SkipSpace, StringField, IntField, ValueAfter;
    match v
    case Num(n) => ReadsNumber(js, name, n, rest);
    case Str(s) => ReadsString(js, name, s, rest);
    case Spec(spec) => ReadsObject(js, name, spec, rest);
  }

  lemma {:induction false} HitUnlessClear(h: Header, k: Key)
    ensures FirstHit(h, k, 0).Some? <==> !Clear(h, k)
    ensures Behind(h, k).Some? <==> !Clear(h, k) && NextAt(h, FirstHit(h, k, 0).value + 1).Some?
    ensures Behind(h, k).Some? ==>
              Behind(h, k) == FieldOf(h, KEYS[NextAt(h, FirstHit(h, k, 0).value + 1).value])
  {
    hide FieldOf, FirstHit, NextAt;
  }

  /** The value that is read for the member `k`: its own, or another. */
  function Seen(h: Header, k: Key): Option<Value> {
    if Clear(h, k) then FieldOf(h, k) else Behind(h, k)
  }

  lemma {:induction false} ReadsSeen(h: Header, k: Key)
    requires NoControls(h)
    ensures StringField(HeaderText(h), Name(k)) == TextAt(Seen(h, k))
    ensures IntField(HeaderText(h), Name(k)) == NumberAt(Seen(h, k))
  {
    hide ValueThen, HeaderText, Name, ValueAfter, Body, Clear, FirstHit, NextAt, SkipSpace, FieldOf, NoControls, Plain;
    var js := HeaderText(h);
    if Clear(h, k) {
      StandsOnValue(h, k);
      if FieldOf(h, k).Some? {
        FieldsPlain(h, k);
        BodyStart(h, Rank(k) + 1);
        ReadsWhereItStands(js, Name(k), FieldOf(h, k).value, Body(h, Rank(k) + 1));
      }
    } else {
      HitUnlessClear(h, k);
      StandsBehind(h, k);
      var next := NextAt(h, FirstHit(h, k, 0).value + 1);
      if next.Some? {
        FieldsPlain(h, KEYS[next.value]);
        BodyStart(h, next.value + 1);
        ReadsWhereItStands(js, Name(k), Behind(h, k).value, Body(h, next.value + 1));
      }
    }
  }

  lemma {:induction false} ReadItem(n: int)
    requires Int32(n)
    ensures ShapeItem(IntText(n)) == [n] && Lacks(IntText(n), ',')
  {
    TrimOfSolid(IntText(n));
    IntegerRoundTrip(n, INT32_LIMIT);
  }

  lemma {:induction false} ReadShape(shape: seq<int>)
    ensures (forall i | 0 <= i < |shape| :: Int32(shape[i])) ==> ShapeItems(ShapeText(shape)) == shape
  {
    if shape != [] && Int32(shape[0]) {
      ReadItem(shape[0]);
      ReadShape(shape[1..]);
      CommaAfter(IntText(shape[0]), ShapeText(shape[1..]));
      assert shape == [shape[0]] + shape[1..];
      if |shape| == 1 {
        assert IntText(shape[0]) + "" == IntText(shape[0]);
      }
    }
  }

  lemma {:induction false} CommaAfter(s: string, more: string)
    requires Lacks(s, ',')
    ensures Seek(s, ",") == None
    ensures Seek(s + ("," + more), ",") == Some("," + more)
    ensures (s + ("," + more))[..|s|] == s && ("," + more)[1..] == more
  {
    SeekPast(s, "", ",");
    assert s + "" == s;
    SeekPast(s, "," + more, ",");
    assert "," <= "," + more;
  }

  lemma {:induction false} SkipQuotedName(other: string, rest: string, name: string)
    requires IsName(other) && IsName(name) && other != name
    requires rest != "" && !IsNameChar(rest[0])
    ensures Seek(Quote(other) + rest, Quote(name)) == Seek(rest, Quote(name))
  {
    EscapePlain(other);
    NotEnding(other, name);
    SeekOverString(other, rest, name);
    assert Quote(other) + rest == "\"" + (other + ("\"" + rest));
  }

  /** The nested members are found behind the outer name. */
  lemma {:induction false} FindNested(outer: string, first: string, second: string, list: string, dtype: string)
    requires IsName(outer) && IsName(first) && IsName(second)
    requires outer != first && outer != second && first != second
    requires Lacks(list, '"')
    ensures var at := Quote(outer)
            + (":" + ("{" + (Quote(first) + (":[" + (list + ("]," + (Quote(second) + dtype)))))));
            && Seek(at, Quote(first)) == Some(Quote(first) + (":[" + (list + ("]," + (Quote(second) + dtype)))))
            && Seek(at, Quote(second)) == Some(Quote(second) + dtype)
  {
    var tail := ":[" + (list + ("]," + (Quote(second) + dtype)));
    OpenObject(outer, Quote(first) + tail, first);
    OpenObject(outer, Quote(first) + tail, second);
    assert Quote(first) <= Quote(first) + tail;
    SkipQuotedName(first, tail, second);
    SeekOverList(list, Quote(second) + dtype, Quote(second));
    assert Quote(second) <= Quote(second) + dtype;
  }

  lemma {:induction false} OpenObject(outer: string, tail: string, name: string)
    requires IsName(outer) && IsName(name) && outer != name
    ensures Seek(Quote(outer) + (":" + ("{" + tail)), Quote(name)) == Seek(tail, Quote(name))
  {
    SkipQuotedName(outer, ":" + ("{" + tail), name);
    SeekPast(":", "{" + tail, Quote(name));
    SeekPast("{", tail, Quote(name));
  }

  lemma {:induction false} SeekOverList(list: string, rest: string, q: string)
    requires Lacks(list, '"') && q != "" && q[0] == '"'
    ensures Seek(":[" + (list + ("]," + rest)), q) == Seek(rest, q)
  {
    ListPrefix(list, rest);
    SeekPast(":[" + list + "],", rest, q);
  }

  lemma {:induction false} ListPrefix(list: string, rest: string)
    ensures ":[" + (list + ("]," + rest)) == (":[" + list + "],") + rest
    ensures Lacks(list, '"') ==> Lacks(":[" + list + "],", '"')
    ensures ":[" + (list + ("]," + rest)) == ":" + ("[" + (list + ("]," + rest)))
    ensures "]," + rest == "]" + ("," + rest)
  {
  }

  /** The bracketed list behind a member's name. */
  lemma {:induction false} ReadBrackets(name: string, list: string, rest: string)
    requires IsName(name) && Lacks(list, ']')
    ensures Seek(Quote(name) + (":[" + (list + ("]," + rest))), "[") == Some("[" + (list + ("]," + rest)))
    ensures Seek(("[" + (list + ("]," + rest)))[1..], "]") == Some("]," + rest)
    ensures ("[" + (list + ("]," + rest)))[1..|list| + 1] == list
  {
    var tail := list + ("]," + rest);
    ListPrefix(list, rest);
    BracketAfterName(name, tail);
    BracketEnds(list, rest);
  }

  lemma {:induction false} BracketAfterName(name: string, tail: string)
    requires IsName(name)
    ensures Seek(Quote(name) + (":" + ("[" + tail)), "[") == Some("[" + tail)
  {
    SeekPast(Quote(name), ":" + ("[" + tail), "[");
    SeekPast(":", "[" + tail, "[");
    SeekHere("[", tail);
  }

  lemma {:induction false} BracketEnds(list: string, rest: string)
    requires Lacks(list, ']')
    ensures Seek(("[" + (list + ("]," + rest)))[1..], "]") == Some("]," + rest)
    ensures ("[" + (list + ("]," + rest)))[1..|list| + 1] == list
  {
    var tail := list + ("]," + rest);
    assert ("[" + tail)[1..] == tail;
    SeekPast(list, "]," + rest, "]");
    ListPrefix(list, rest);
    SeekHere("]", "," + rest);
  }

  lemma {:induction false} SeekHere(q: string, rest: string)
    requires q != ""
    ensures Seek(q + rest, q) == Some(q + rest)
  {
    assert q <= q + rest;
  }

  lemma {:induction false} NestedNames()
    ensures IsName(SHAPE) && IsName(DTYPE) && SHAPE != DTYPE
    ensures Name(Tensor) != SHAPE && Name(Tensor) != DTYPE
  {
    assert SHAPE[0] != DTYPE[0];
  }

  lemma {:induction false} ShapeFrom(at: string, shape: seq<int>, rest: string)
    requires forall i | 0 <= i < |shape| :: Int32(shape[i])
    requires Seek(at, Quote(SHAPE)) == Some(Quote(SHAPE) + (":[" + (ShapeText(shape) + ("]," + rest))))
    ensures ShapeField(at) == shape
  {
    NestedNames();
    ShapeTextPlain(shape);
    ReadBrackets(SHAPE, ShapeText(shape), rest);
    ReadShape(shape);
  }

  /** The reader finds the shape and the dtype behind the `tensor_spec` member's name. */
  lemma {:induction false} ReadSpec(spec: TensorSpec, rest: string)
    requires forall i | 0 <= i < |spec.shape| :: Int32(spec.shape[i])
    ensures ShapeField(MemberThen(Tensor, Spec(spec), rest)) == spec.shape
  {
    var at := MemberThen(Tensor, Spec(spec), rest);
    var list, q1 := ShapeText(spec.shape), StringThen(spec.dtype, "}" + rest);
    NestedNames();
    NamesAreNames(Tensor);
    ShapeTextPlain(spec.shape);
    FindNested(Name(Tensor), SHAPE, DTYPE, list, ":" + q1);
    ShapeFrom(at, spec.shape, Quote(DTYPE) + (":" + q1));
  }

  // ---- the dtype is read raw ----

  lemma {:induction false} NoQuoteBefore(t: string)
    requires Seek(t, "\"").Some?
    ensures Lacks(t[..|t| - |Seek(t, "\"").value|], '"')
  {
    if t[0] != '"' {
      NoQuoteBefore(t[1..]);
      assert t[..|t| - |Seek(t, "\"").value|] == [t[0]] + t[1..][..|t| - 1 - |Seek(t, "\"").value|];
    }
  }

  lemma {:induction false} EscapeGrows(s: string)
    requires NoControl(s) && Lacks(s, '"')
    ensures Lacks(Escape(s), '"') && |Escape(s)| >= |s| && (!Lacks(s, '\\') ==> |Escape(s)| > |s|)
  {
    if s != "" {
      EscapeGrows(s[1..]);
      assert Lacks(s, '\\') <==> s[0] != '\\' && Lacks(s[1..], '\\') by {
        assert forall i | 0 < i < |s| :: s[i] == s[1..][i - 1];
      }
    }
  }

  /** What the reader takes for the dtype: the printed text up to the next quote. */
  lemma {:induction false} RawDtype(spec: TensorSpec, rest: string)
    ensures var raw := DtypeField(MemberThen(Tensor, Spec(spec), rest));
            Lacks(raw, '"') && (Lacks(Escape(spec.dtype), '"') ==> raw == Escape(spec.dtype))
  {
    hide Seek, Escape;
    var at := MemberThen(Tensor, Spec(spec), rest);
    var e, tail := Escape(spec.dtype), "\"" + ("}" + rest);
    var q1 := StringThen(spec.dtype, "}" + rest);
    NestedNames();
    NamesAreNames(Tensor);
    ShapeTextPlain(spec.shape);
    FindNested(Name(Tensor), SHAPE, DTYPE, ShapeText(spec.shape), ":" + q1);
    ColonAfterName(DTYPE, q1);
    SeekPast(":", q1, "\"");
    SeekHere("\"", e + tail);
    assert q1[1..] == e + tail;
    QuoteIsThere(e, tail);
    NoQuoteBefore(e + tail);
    var q2 := Seek(e + tail, "\"").value;
    assert q1[1..|q1| - |q2|] == (e + tail)[..|e + tail| - |q2|];
    if Lacks(e, '"') {
      SeekPast(e, tail, "\"");
      SeekHere("\"", "}" + rest);
      assert (e + tail)[..|e|] == e;
    }
  }

  lemma {:induction false} QuoteIsThere(e: string, tail: string)
    requires tail != "" && tail[0] == '"'
    ensures Seek(e + tail, "\"").Some?
  {
    if e == "" {
      assert e + tail == tail && "\"" <= tail;
    } else {
      QuoteIsThere(e[1..], tail);
      assert (e + tail)[1..] == e[1..] + tail;
    }
  }

  /** A dtype without control characters is read back if and only if it has no quote and no backslash. */
  lemma {:induction false} DtypeReadsBack(spec: TensorSpec, rest: string)
    requires NoControl(spec.dtype)
    ensures DtypeField(MemberThen(Tensor, Spec(spec), rest)) == spec.dtype
       <==> Lacks(spec.dtype, '"') && Lacks(spec.dtype, '\\')
  {
    hide DtypeField, MemberThen, Escape;
    RawDtype(spec, rest);
    if Lacks(spec.dtype, '"') {
      EscapeGrows(spec.dtype);
      if Lacks(spec.dtype, '\\') {
        EscapePlain(spec.dtype);
      }
    }
  }

  /** The nested object is found if nothing before it collides; its shape always comes back, its dtype exactly
      if it has no quote and no backslash. */
  lemma {:induction false} ReadTensor(h: Header)
    requires NoControls(h) && InRange(h) && Clear(h, Tensor)
    ensures TensorField(HeaderText(h)) == h.tensorSpec <==>
            Lacks(h.tensorSpec.dtype, '"') && Lacks(h.tensorSpec.dtype, '\\')
  {
    hide Seek, MemberThen, TensorField, Body, Clear;
    FindMember(h, Tensor);
    ReadTensorIn(h, HeaderText(h), Body(h, Rank(Tensor) + 1));
  }

  lemma {:induction false} ReadTensorIn(h: Header, js: string, rest: string)
    requires NoControls(h) && InRange(h)
    requires Seek(js, Quote(Name(Tensor))) ==
             if FieldOf(h, Tensor).Some? then Some(MemberThen(Tensor, FieldOf(h, Tensor).value, rest)) else None
    ensures TensorField(js) == h.tensorSpec <==>
            Lacks(h.tensorSpec.dtype, '"') && Lacks(h.tensorSpec.dtype, '\\')
  {
    hide MemberThen, ShapeField, DtypeField;
    if FieldOf(h, Tensor).Some? {
      ReadSpec(h.tensorSpec, rest);
      DtypeReadsBack(h.tensorSpec, rest);
    }
  }

  /** The text behind a string that is taken for `tensor_spec`: the reader searches it for the nested names. */
  function TensorBehind(h: Header): string {
    match FirstHit(h, Tensor, 0)
    case None => ""
    case Some(j) => Quote(Name(Tensor)) + Onward(h, j)
  }

  lemma {:induction false} ReadTensorBehind(h: Header)
    requires NoControls(h) && !Clear(h, Tensor)
    ensures TensorField(HeaderText(h)) == TensorSpec(ShapeField(TensorBehind(h)), DtypeField(TensorBehind(h)))
  {
    hide Seek, Body, ShapeField, DtypeField, Onward, NoControls, Name;
    FindFrom(h, 0, Tensor);
  }

  // ================= the whole header =================

  /** The text of a member that holds one. */
  function TextOf(h: Header, k: Key): string {
    TextAt(FieldOf(h, k))
  }

  function Length(n: Option<int>): nat {
    if OrZero(n) < 0 then 0 else OrZero(n)
  }

  /** What arrives: the header, but a payload length from 2^63 on is read as none. */
  function Arriving(h: Header): Header {
    h.(payloadLength := if h.payloadLength < INT64_LIMIT then h.payloadLength else 0)
  }

  /** Whether the member `k` comes back: it is found, and a dtype has no quote and no backslash; or what the
      reader takes for it instead happens to be read as the same. */
  predicate Survives(h: Header, k: Key) {
    if Clear(h, k) then k.Tensor? ==> Lacks(h.tensorSpec.dtype, '"') && Lacks(h.tensorSpec.dtype, '\\')
    else
      match k
      case Tensor => TensorSpec(ShapeField(TensorBehind(h)), DtypeField(TensorBehind(h))) == h.tensorSpec
      case PayloadLength => Length(NumberAt(Behind(h, k))) == Arriving(h).payloadLength
      case ClassCount => ToInt32(OrZero(NumberAt(Behind(h, k)))) == h.classCount
      case _ => TextAt(Behind(h, k)) == TextOf(h, k)
  }

  /** A header of which every member survives the text format. */
  ghost predicate ComesBack(h: Header) {
    Proper(h) && forall k: Key :: Survives(h, k)
  }

  /** Before the artifact path there is no string that could collide. */
  lemma {:induction false} EarlyIsClear(h: Header, k: Key)
    requires Rank(k) < Rank(ArtifactPath)
    ensures Clear(h, k)
  {
    NamesAreNames(k);
    TypeIsNoName(h.messageType, Name(k));
    forall j | 0 <= j < |KEYS| && Before(h, k, j)
      ensures !Collides(FieldOf(h, KEYS[j]).value, Name(k))
    {
      assert j < Rank(k) < 4;
    }
  }

  lemma {:induction false} TypeIsNoName(t: MessageType, name: string)
    requires IsName(name)
    ensures !Collides(Str(TypeText(t)), name)
  {
    assert !IsNameChar(TypeText(t)[0]) && IsNameChar(name[0]);
    NotEnding(TypeText(t), name);
  }

  lemma {:induction false} Int32Stays(n: int)
    requires Int32(n)
    ensures ToInt32(n) == n && Stored(n) == Some(n)
  {
  }

  lemma {:induction false} TypeStays(t: MessageType)
    requires t != UNKNOWN
    ensures TypeText(t) != "" && ParseMessageType(TypeText(t)) == t
  {
  }

  lemma {:induction false} KindReadsBack(h: Header)
    requires NoControls(h) && h.messageType != UNKNOWN
    ensures KindText(HeaderText(h)) == TypeText(h.messageType)
  {
    hide HeaderText, StringField, Clear, Behind, NoControls;
    EarlyIsClear(h, MessageKind);
    ReadsSeen(h, MessageKind);
    TypeStays(h.messageType);
  }

  lemma {:induction false} TensorComesBack(h: Header)
    requires NoControls(h) && InRange(h)
    ensures TensorField(HeaderText(h)) == h.tensorSpec <==> Survives(h, Tensor)
  {
    hide HeaderText, TensorField, Clear, TensorBehind, ShapeField, DtypeField, Lacks;
    if Clear(h, Tensor) {
      ReadTensor(h);
    } else {
      ReadTensorBehind(h);
    }
  }

  /** What a header of which everything but the tensor was read as `Seen` becomes. */
  lemma {:induction false} Assembles(h: Header, number: Key -> Option<int>, text: Key -> string, spec: TensorSpec,
                                     h0: Header)
    requires Proper(h)
    requires forall k: Key :: number(k) == NumberAt(Seen(h, k)) && text(k) == TextAt(Seen(h, k))
    requires spec == h.tensorSpec <==> Survives(h, Tensor)
    ensures Assemble(number, text, TypeText(h.messageType), spec, h0) == Parsed(true, Arriving(h), "") <==>
            forall k: Key :: Survives(h, k)
  {
    hide Clear, Behind, TensorBehind, ShapeField, DtypeField, Lacks, NoControls;
    EarlyAreSeen(h);
    TypeStays(h.messageType);
    LateComeBack(h);
    KeysAreAll(h);
  }

  /** The first members are read as what they are. */
  lemma {:induction false} EarlyAreSeen(h: Header)
    requires Proper(h)
    ensures ToInt32(OrZero(NumberAt(Seen(h, ProtocolVersion)))) == h.protocolVersion
    ensures NumberAt(Seen(h, ProtocolVersion)).Some?
    ensures OrZero(NumberAt(Seen(h, RequestId))) == h.requestId
    ensures OrZero(NumberAt(Seen(h, WorkerGeneration))) == h.workerGeneration
    ensures Survives(h, ProtocolVersion) && Survives(h, MessageKind) && Survives(h, RequestId)
            && Survives(h, WorkerGeneration)
  {
    hide Clear, NoControls;
    EarlyIsClear(h, ProtocolVersion);
    EarlyIsClear(h, MessageKind);
    EarlyIsClear(h, RequestId);
    EarlyIsClear(h, WorkerGeneration);
    Int32Stays(h.protocolVersion);
  }

  /** The others are read as what they are exactly if they survive. */
  lemma {:induction false} LateComeBack(h: Header)
    requires Proper(h)
    ensures TextAt(Seen(h, ArtifactPath)) == h.artifactPath <==> Survives(h, ArtifactPath)
    ensures TextAt(Seen(h, ServingDigest)) == h.servingDigest <==> Survives(h, ServingDigest)
    ensures TextAt(Seen(h, ErrorCode)) == h.errorCode <==> Survives(h, ErrorCode)
    ensures TextAt(Seen(h, ErrorMessage)) == h.errorMessage <==> Survives(h, ErrorMessage)
    ensures Length(NumberAt(Seen(h, PayloadLength))) == Arriving(h).payloadLength <==> Survives(h, PayloadLength)
    ensures ToInt32(OrZero(NumberAt(Seen(h, ClassCount)))) == h.classCount <==> Survives(h, ClassCount)
  {
    hide Clear, Behind, NoControls;
    Int32Stays(h.classCount);
  }

  lemma {:induction false} KeysAreAll(h: Header)
    ensures (forall k: Key :: Survives(h, k)) <==>
            && Survives(h, ProtocolVersion) && Survives(h, MessageKind) && Survives(h, RequestId)
            && Survives(h, WorkerGeneration) && Survives(h, ArtifactPath) && Survives(h, ServingDigest)
            && Survives(h, Tensor) && Survives(h, PayloadLength) && Survives(h, ClassCount)
            && Survives(h, ErrorCode) && Survives(h, ErrorMessage)
  {
    hide Survives;
    if exists k: Key :: !Survives(h, k) {
      var k: Key :| !Survives(h, k);
      match k
      case ProtocolVersion =>
      case MessageKind =>
      case RequestId =>
      case WorkerGeneration =>
      case ArtifactPath =>
      case ServingDigest =>
      case Tensor =>
      case PayloadLength =>
      case ClassCount =>
      case ErrorCode =>
      case ErrorMessage =>
    }
  }

  /** Reading back a printed header: for every known message type, all integers in the range of their C++
      fields and all strings without control characters, the header comes back if and only if its text is
      short enough and every member survives.  Only the payload length, an unsigned 64-bit field read as a
      signed one, comes back exactly below 2^63. */
  lemma {:induction false} ReaderInvertsPrinter(h: Header, h0: Header)
    requires Proper(h)
    ensures ParseHeader(HeaderText(h), h0) == Parsed(true, Arriving(h), "") <==>
            |HeaderText(h)| <= MAX_HEADER_BYTES && forall k: Key :: Survives(h, k)
    ensures |HeaderText(h)| > MAX_HEADER_BYTES ==>
              ParseHeader(HeaderText(h), h0) == Parsed(false, h0, "header exceeds 16 KiB")
    ensures Arriving(h) == h <==> h.payloadLength < INT64_LIMIT
  {
    hide HeaderText, Assemble, KindText, TensorField, Survives, IntField, StringField, Seen, NoControls, InRange;
    var js := HeaderText(h);
    KindReadsBack(h);
    TensorComesBack(h);
    var number, text := (k: Key) => IntField(js, Name(k)), (k: Key) => StringField(js, Name(k));
    forall k: Key
      ensures number(k) == NumberAt(Seen(h, k)) && text(k) == TextAt(Seen(h, k))
    {
      ReadsSeen(h, k);
    }
    Assembles(h, number, text, TensorField(js), h0);
  }
}
