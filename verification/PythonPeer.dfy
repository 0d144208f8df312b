/** The supervisor's side of the private socket: headers printed by the JSON library with sorted keys, in a
    layout the native printer never produces, and read by the same native reader. */
module PythonPeer {
  import opened Text
  import opened HeaderJson
  import opened HeaderRoundTrip
  import opened Protocol
  import opened Framing

  // ================= the printer =================

  predicate Printable(s: string) {
    forall i | 0 <= i < |s| :: ' ' <= s[i] <= '~'
  }

  function LowerHex(d: nat): char
    requires d < 16
  {
    if d < 10 then '0' + d as char else 'a' + (d - 10) as char
  }

  function Hex4(n: nat): string
    requires n < 0x1_0000
  {
    [LowerHex(n / 0x1000), LowerHex(n / 0x100 % 16), LowerHex(n / 16 % 16), LowerHex(n % 16)]
  }

  /** A character outside printable ASCII: a short escape, or its UTF-16 code units. */
  function PyOtherChar(c: char): (s: string)
    requires !(' ' <= c <= '~')
    ensures |s| >= 2 && s[0] == '\\' && 'b' <= s[1] <= 'u'
  {
    var n := c as int;
    if c == '\n' then "\\n"
    else if c == '\r' then "\\r"
    else if n == 8 then "\\b"
    else if n == 12 then "\\f"
    else if c == '\t' then "\\t"
    else if n < 0x1_0000 then "\\u" + Hex4(n)
    else "\\u" + (Hex4(0xD800 + (n - 0x1_0000) / 0x400 % 0x400) + ("\\u" + Hex4(0xDC00 + n % 0x400)))
  }

  function PyEscapeChar(c: char): string {
    if c == '"' || c == '\\' then ['\\', c] else if ' ' <= c <= '~' then [c] else PyOtherChar(c)
  }

  function PyEscape(s: string): string {
    if s == "" then "" else PyEscapeChar(s[0]) + PyEscape(s[1..])
  }

  function PyStringThen(s: string, rest: string): string {
    "\"" + (PyEscape(s) + ("\"" + rest))
  }

  /** The keys a request can have, sorted. */
  const PY_KEYS: seq<Key> :=
    [ArtifactPath, ClassCount, MessageKind, PayloadLength, ProtocolVersion, RequestId, ServingDigest, Tensor,
     WorkerGeneration]

  function PyRank(k: Key): (r: Option<nat>)
    ensures r.Some? ==> r.value < |PY_KEYS| && PY_KEYS[r.value] == k
  {
    match k
    case ArtifactPath => Some(0)
    case ClassCount => Some(1)
    case MessageKind => Some(2)
    case PayloadLength => Some(3)
    case ProtocolVersion => Some(4)
    case RequestId => Some(5)
    case ServingDigest => Some(6)
    case Tensor => Some(7)
    case WorkerGeneration => Some(8)
    case ErrorCode => None
    case ErrorMessage => None
  }

  /** The member `k` of the dictionary a request is made of. */
  function Member(h: Header, k: Key): Option<Value> {
    match k
    case ArtifactPath => if h.messageType.LOAD? then Some(Str(h.artifactPath)) else None
    case ClassCount => if h.messageType.LOAD? then Some(Num(h.classCount)) else None
    case MessageKind => Some(Str(TypeText(h.messageType)))
    case PayloadLength => Some(Num(h.payloadLength))
    case ProtocolVersion => Some(Num(h.protocolVersion))
    case RequestId => Some(Num(h.requestId))
    case ServingDigest => if h.messageType.LOAD? then Some(Str(h.servingDigest)) else None
    case Tensor => if h.messageType.INFER? then Some(Spec(h.tensorSpec)) else None
    case WorkerGeneration => Some(Num(h.workerGeneration))
    case ErrorCode => None
    case ErrorMessage => None
  }

  function PyList(shape: seq<int>): string {
    if shape == [] then "" else IntText(shape[0]) + PyMore(shape[1..])
  }

  function PyMore(shape: seq<int>): string {
    if shape == [] then "" else ", " + (IntText(shape[0]) + PyMore(shape[1..]))
  }

  function ListThen(shape: seq<int>, rest: string): string {
    Quote(SHAPE) + (": [" + (PyList(shape) + ("]}" + rest)))
  }

  function PyValueThen(v: Value, rest: string): string {
    match v
    case Num(n) => IntText(n) + rest
    case Str(s) => PyStringThen(s, rest)
    case Spec(spec) => "{" + (Quote(DTYPE) + (": " + PyStringThen(spec.dtype, ", " + ListThen(spec.shape, rest))))
  }

  function PyMemberThen(k: Key, v: Value, rest: string): string {
    Quote(Name(k)) + (": " + PyValueThen(v, rest))
  }

  /** The text from the `i`-th possible member on. */
  function PyBody(h: Header, i: nat, first: bool): string
    requires i <= |PY_KEYS|
    decreases |PY_KEYS| - i
  {
    if i == |PY_KEYS| then "}"
    else
      match Member(h, PY_KEYS[i])
      case None => PyBody(h, i + 1, first)
      case Some(v) => (if first then "" else ", ") + PyMemberThen(PY_KEYS[i], v, PyBody(h, i + 1, false))
  }

  function PyText(h: Header): string {
    "{" + PyBody(h, 0, true)
  }

  // ================= what can be sent =================

  /** The three requests the supervisor sends: what one does not carry is what the reader defaults to. */
  predicate IsRequest(h: Header) {
    && h.messageType in {LOAD, INFER, SHUTDOWN} && h.protocolVersion == 1
    && h.errorCode == "" && h.errorMessage == ""
    && (!h.messageType.LOAD? ==> h.artifactPath == "" && h.servingDigest == "" && h.classCount == 0)
    && (!h.messageType.INFER? ==> h.tensorSpec == TensorSpec([], ""))
  }

  /** The member `PY_KEYS[j]` is printed before the member `k`, or at all if there is no member `k`. */
  predicate PyBefore(h: Header, k: Key, j: nat)
    requires j < |PY_KEYS|
  {
    Member(h, PY_KEYS[j]).Some? && (Member(h, k).None? || PyRank(k).None? || j < PyRank(k).value)
  }

  predicate PyClearFrom(h: Header, i: nat, k: Key) {
    forall j | i <= j < |PY_KEYS| && PyBefore(h, k, j) :: !Collides(Member(h, PY_KEYS[j]).value, Name(k))
  }

  predicate PyClear(h: Header, k: Key) {
    PyClearFrom(h, 0, k)
  }

  predicate PrintableStrings(h: Header) {
    Printable(h.artifactPath) && Printable(h.servingDigest) && Printable(h.tensorSpec.dtype)
  }

  /** A request as the supervisor builds it, of printable strings. */
  predicate PyProper(h: Header) {
    IsRequest(h) && InRange(h) && PrintableStrings(h)
  }

  // ================= one string =================

  lemma {:induction false} PrintableEscape(s: string)
    requires Printable(s)
    ensures PyEscape(s) == Escape(s) && NoControl(s)
  {
    if s != "" {
      PrintableEscape(s[1..]);
      assert s[0] >= ' ';
    }
  }

  lemma {:induction false} PrintableString(s: string, rest: string)
    requires Printable(s)
    ensures PyStringThen(s, rest) == StringThen(s, rest)
  {
    PrintableEscape(s);
  }

  lemma {:induction false} PyInsideStep(s: string, rest: string)
    requires s != ""
    ensures PyEscape(s) + ("\"" + rest) == PyEscapeChar(s[0]) + (PyEscape(s[1..]) + ("\"" + rest))
    ensures Printable(s) <==> ' ' <= s[0] <= '~' && Printable(s[1..])
  {
    hide PyEscapeChar, PyEscape;
    PyEscapeStep(s);
    Associates(PyEscapeChar(s[0]), PyEscape(s[1..]), "\"" + rest);
    PrintableStep(s);
  }

  lemma {:induction false} PyEscapeStep(s: string)
    requires s != ""
    ensures PyEscape(s) == PyEscapeChar(s[0]) + PyEscape(s[1..])
  {
  }

  lemma {:induction false} Associates(a: string, b: string, c: string)
    ensures (a + b) + c == a + (b + c)
  {
  }

  lemma {:induction false} PrintableStep(s: string)
    requires s != ""
    ensures Printable(s) <==> ' ' <= s[0] <= '~' && Printable(s[1..])
  {
    assert forall i | 0 < i < |s| :: s[i] == s[1..][i - 1];
  }

  lemma {:induction false} UnescapeOne(c: char, tail: string)
    ensures ' ' <= c <= '~' ==> Unescape(PyEscapeChar(c) + tail) == [c] + Unescape(tail)
    ensures !(' ' <= c <= '~') ==> Unescape(PyEscapeChar(c) + tail) != "" && Unescape(PyEscapeChar(c) + tail)[0] != c
  {
    hide PyOtherChar;
    var t := PyEscapeChar(c) + tail;
    assert ' ' <= c <= '~' ==> t[|PyEscapeChar(c)|..] == tail;
    assert !(' ' <= c <= '~') ==> t[0] == '\\' && 'b' <= t[1] <= 'u';
  }

  /** The reader undoes the library's escaping exactly on strings of printable ASCII. */
  lemma {:induction false} UnescapePyEscape(s: string, rest: string)
    ensures Unescape(PyEscape(s) + ("\"" + rest)) == s <==> Printable(s)
  {
    if s != "" {
      hide Unescape, PyEscape, PyEscapeChar, Printable;
      var c, tail := s[0], PyEscape(s[1..]) + ("\"" + rest);
      UnescapePyEscape(s[1..], rest);
      PyInsideStep(s, rest);
      UnescapeOne(c, tail);
      assert s == [c] + s[1..];
      UnescapeCons(c, s[1..], tail);
    } else {
      assert PyEscape(s) + ("\"" + rest) == "\"" + rest;
    }
  }

  // ================= where a key is found =================

  lemma {:induction false} RankIsPlace(k: Key, i: nat)
    requires i < |PY_KEYS|
    ensures PY_KEYS[i] == k <==> PyRank(k) == Some(i)
  {
  }

  lemma {:induction false} PyBodyStart(h: Header, i: nat, first: bool)
    requires i <= |PY_KEYS|
    ensures PyBody(h, i, first) != "" && PyBody(h, i, first)[0] in {',', '}', '"'}
    ensures !first ==> PyBody(h, i, first)[0] in {',', '}'}
    decreases |PY_KEYS| - i
  {
    if i < |PY_KEYS| && Member(h, PY_KEYS[i]).None? {
      PyBodyStart(h, i + 1, first);
    }
  }

  lemma {:induction false} MembersPlain(h: Header, k: Key)
    requires PrintableStrings(h) && Member(h, k).Some?
    ensures PyPlain(Member(h, k).value)
  {
    if k == MessageKind {
      TypePrintable(h.messageType);
    }
  }

  lemma {:induction false} TypePrintable(t: MessageType)
    ensures Printable(TypeText(t))
  {
  }

  predicate PyPlain(v: Value) {
    match v
    case Num(_) => true
    case Str(s) => Printable(s)
    case Spec(spec) => Printable(spec.dtype)
  }

  /** What follows the string in a printed value: a dtype is printed before the shape. */
  function PyTail(v: Value, rest: string): string {
    if v.Spec? then ", " + ListThen(v.spec.shape, rest) else rest
  }

  lemma {:induction false} PySeekThroughValue(v: Value, rest: string, k: Key)
    requires PyPlain(v) && Follows(rest)
    ensures Through(Seek(PyValueThen(v, rest), Quote(Name(k))), Collides(v, Name(k)), PyTail(v, rest), rest, Name(k))
  {
    hide Seek, Name, Collides, ListThen;
    match v
    case Num(_) => SeekThroughValue(v, rest, k);
    case Str(s) =>
      PrintableEscape(s);
      PrintableString(s, rest);
      SeekThroughValue(v, rest, k);
    case Spec(spec) => PySeekThroughSpec(spec, rest, k);
  }

  lemma {:induction false} PySeekThroughSpec(spec: TensorSpec, rest: string, k: Key)
    requires Printable(spec.dtype) && Follows(rest)
    ensures Through(Seek(PyValueThen(Spec(spec), rest), Quote(Name(k))), Collides(Spec(spec), Name(k)),
                    ", " + ListThen(spec.shape, rest), rest, Name(k))
  {
    hide Seek, Name;
    var q, tail := Quote(Name(k)), ", " + ListThen(spec.shape, rest);
    var dtype := PyStringThen(spec.dtype, tail);
    NamesAreNames(k);
    NestedNames();
    NestedIsNoKey(k);
    SeekPast("{", Quote(DTYPE) + (": " + dtype), q);
    SkipName(DTYPE, ": " + dtype, k);
    SeekPast(": ", dtype, q);
    PrintableEscape(spec.dtype);
    PrintableString(spec.dtype, tail);
    SeekThroughString(spec.dtype, tail, Name(k));
    SeekPast(", ", ListThen(spec.shape, rest), q);
    PySeekOverList(spec.shape, rest, k);
  }

  lemma {:induction false} PySeekOverList(shape: seq<int>, rest: string, k: Key)
    ensures Seek(ListThen(shape, rest), Quote(Name(k))) == Seek(rest, Quote(Name(k)))
  {
    hide Seek;
    var q, list := Quote(Name(k)), PyList(shape);
    NestedNames();
    NestedIsNoKey(k);
    PyListPlain(shape);
    SkipName(SHAPE, ": [" + (list + ("]}" + rest)), k);
    SeekPast(": [", list + ("]}" + rest), q);
    SeekPast(list, "]}" + rest, q);
    SeekPast("]}", rest, q);
  }

  predicate PyListChars(s: string) {
    forall i | 0 <= i < |s| :: IsDigit(s[i]) || s[i] in {'-', ',', ' '}
  }

  lemma {:induction false} PyMorePlain(shape: seq<int>)
    ensures PyListChars(PyMore(shape))
  {
    if shape != [] {
      PyMorePlain(shape[1..]);
    }
  }

  lemma {:induction false} PyListPlain(shape: seq<int>)
    ensures PyListChars(PyList(shape)) && Lacks(PyList(shape), '"') && Lacks(PyList(shape), ']')
  {
    if shape != [] {
      PyMorePlain(shape[1..]);
    }
  }

  lemma {:induction false} PySeekThroughMember(sep: string, j: Key, v: Value, rest: string, k: Key)
    requires PyPlain(v) && Follows(rest) && Lacks(sep, '"')
    ensures j == k ==> Seek(sep + PyMemberThen(j, v, rest), Quote(Name(k))) == Some(PyMemberThen(j, v, rest))
    ensures j != k ==> Through(Seek(sep + PyMemberThen(j, v, rest), Quote(Name(k))), Collides(v, Name(k)),
                               PyTail(v, rest), rest, Name(k))
  {
    hide Seek, PyValueThen, Name, PyTail;
    var q, value := Quote(Name(k)), PyValueThen(v, rest);
    SeekPast(sep, PyMemberThen(j, v, rest), q);
    if j == k {
      SeekHere(q, ": " + value);
    } else {
      NamesDiffer(j, k);
      NamesAreNames(j);
      SkipName(Name(j), ": " + value, k);
      SeekPast(": ", value, q);
      PySeekThroughValue(v, rest, k);
    }
  }

  /** Where the member `k` is to be found in the text of the request. */
  function PyPlace(h: Header, k: Key): Option<string> {
    if Member(h, k).None? || PyRank(k).None? then None
    else Some(PyMemberThen(k, Member(h, k).value, PyBody(h, PyRank(k).value + 1, false)))
  }

  /** What follows the string of the member `PY_KEYS[i]`. */
  function PyOnward(h: Header, i: nat): string
    requires i < |PY_KEYS|
  {
    var rest := PyBody(h, i + 1, false);
    if Member(h, PY_KEYS[i]).None? then rest else PyTail(Member(h, PY_KEYS[i]).value, rest)
  }

  /** The first member from `PY_KEYS[i]` on that is taken for the name of the member `k`, if there is one. */
  function PyFirstHit(h: Header, k: Key, i: nat): (j: Option<nat>)
    requires i <= |PY_KEYS|
    ensures j.None? <==> PyClearFrom(h, i, k)
    ensures j.Some? ==> i <= j.value < |PY_KEYS| && PyBefore(h, k, j.value)
    decreases |PY_KEYS| - i
  {
    if i == |PY_KEYS| then None
    else if PyBefore(h, k, i) && Collides(Member(h, PY_KEYS[i]).value, Name(k)) then Some(i)
    else PyFirstHit(h, k, i + 1)
  }

  lemma {:induction false} PySeekAtMember(h: Header, i: nat, first: bool, k: Key)
    requires PrintableStrings(h) && i < |PY_KEYS|
    ensures var found := Seek(PyBody(h, i, first), Quote(Name(k)));
            && (Member(h, PY_KEYS[i]).None? ==> PyBody(h, i, first) == PyBody(h, i + 1, first))
            && (Member(h, PY_KEYS[i]).Some? && PyRank(k) == Some(i) ==> found == PyPlace(h, k))
            && (Member(h, PY_KEYS[i]).Some? && PyRank(k) != Some(i) ==>
                  Through(found, Collides(Member(h, PY_KEYS[i]).value, Name(k)), PyOnward(h, i),
                          PyBody(h, i + 1, false), Name(k)))
  {
    hide Seek, PyMemberThen, Name, Through, Collides, PrintableStrings, Member, PyTail;
    var j := PY_KEYS[i];
    RankIsPlace(k, i);
    PyBodyStart(h, i + 1, false);
    if Member(h, j).Some? {
      MembersPlain(h, j);
      PySeekThroughMember(if first then "" else ", ", j, Member(h, j).value, PyBody(h, i + 1, false), k);
    }
  }

  lemma {:induction false} PyClearStep(h: Header, i: nat, k: Key)
    requires i < |PY_KEYS|
    ensures PyClearFrom(h, i, k) <==>
            (PyBefore(h, k, i) ==> !Collides(Member(h, PY_KEYS[i]).value, Name(k))) && PyClearFrom(h, i + 1, k)
    ensures Member(h, k).Some? && PyRank(k).Some? && PyRank(k).value <= i ==> PyClearFrom(h, i, k)
  {
    hide Collides, Member, Name;
  }

  predicate IsHere(h: Header, i: nat, k: Key) {
    Member(h, k).Some? && PyRank(k) == Some(i)
  }

  /** At one member the search ends, is misled, or goes on. */
  lemma {:induction false} PyFindStep(h: Header, i: nat, first: bool, k: Key)
    requires PrintableStrings(h) && i < |PY_KEYS| && (Member(h, k).Some? && PyRank(k).Some? ==> i <= PyRank(k).value)
    ensures var found := Seek(PyBody(h, i, first), Quote(Name(k)));
            var next := Seek(PyBody(h, i + 1, first && Member(h, PY_KEYS[i]).None?), Quote(Name(k)));
            && (IsHere(h, i, k) ==> PyFirstHit(h, k, i).None? && found == PyPlace(h, k))
            && (!IsHere(h, i, k) ==>
                  || (PyFirstHit(h, k, i) == Some(i) && found == Some(Quote(Name(k)) + PyOnward(h, i)))
                  || (PyFirstHit(h, k, i) == PyFirstHit(h, k, i + 1) && found == next))
  {
    hide Seek, PyBody, Name, Collides, PrintableStrings, Member, PyClearFrom, PyPlace, PyOnward;
    RankIsPlace(k, i);
    PySeekAtMember(h, i, first, k);
    PyClearStep(h, i, k);
  }

  /** From any member on: the search finds the member `k`, or nothing if there is none, unless something
      before it collides; then it ends in the first that does. */
  lemma {:induction false} PyFindFrom(h: Header, i: nat, first: bool, k: Key)
    requires PrintableStrings(h) && i <= |PY_KEYS|
    requires Member(h, k).Some? && PyRank(k).Some? ==> i <= PyRank(k).value
    ensures Seek(PyBody(h, i, first), Quote(Name(k))) ==
            match PyFirstHit(h, k, i)
            case None => PyPlace(h, k)
            case Some(j) => Some(Quote(Name(k)) + PyOnward(h, j))
    decreases |PY_KEYS| - i
  {
    hide *;
    if i == |PY_KEYS| {
      PyFindEnd(h, first, k);
    } else {
      PyFindStep(h, i, first, k);
      if !IsHere(h, i, k) {
        NotHere(h, i, k);
        PyFindFrom(h, i + 1, first && Member(h, PY_KEYS[i]).None?, k);
      }
    }
  }

  lemma {:induction false} PyFindEnd(h: Header, first: bool, k: Key)
    requires Member(h, k).Some? && PyRank(k).Some? ==> |PY_KEYS| <= PyRank(k).value
    ensures PyFirstHit(h, k, |PY_KEYS|).None? && Seek(PyBody(h, |PY_KEYS|, first), Quote(Name(k))) == PyPlace(h, k)
  {
    hide Seek, Name, Member;
    NothingInBrace(Name(k));
    RanksInRange(k);
  }

  lemma {:induction false} NotHere(h: Header, i: nat, k: Key)
    requires !IsHere(h, i, k) && (Member(h, k).Some? && PyRank(k).Some? ==> i <= PyRank(k).value)
    ensures Member(h, k).Some? && PyRank(k).Some? ==> i + 1 <= PyRank(k).value
  {
  }

  lemma {:induction false} RanksInRange(k: Key)
    ensures PyRank(k).Some? ==> PyRank(k).value < |PY_KEYS|
  {
  }

  /** In a request of printable strings the first occurrence of a quoted member name is that member, or there
      is none if it is left out, if and only if no string printed before it - or none at all - collides. */
  lemma {:induction false} PyFindMember(h: Header, k: Key)
    requires PrintableStrings(h)
    ensures Seek(PyText(h), Quote(Name(k))) == PyPlace(h, k) <==> PyClear(h, k)
  {
    hide Seek, PyBody, PyValueThen, Member, PyClearFrom, Name, PyOnward;
    PyFindInText(h, k);
    if !PyClear(h, k) {
      var j := PyFirstHit(h, k, 0).value;
      PyOnwardStart(h, j);
      PyElsewhere(h, k, PyOnward(h, j));
    }
  }

  lemma {:induction false} PyFindInText(h: Header, k: Key)
    requires PrintableStrings(h)
    ensures Seek(PyText(h), Quote(Name(k))) ==
            match PyFirstHit(h, k, 0)
            case None => PyPlace(h, k)
            case Some(j) => Some(Quote(Name(k)) + PyOnward(h, j))
  {
    hide Seek, PyBody, PyPlace, PyFirstHit, PyOnward, Name;
    PyFindFrom(h, 0, true, k);
    SeekPast("{", PyBody(h, 0, true), Quote(Name(k)));
  }

  lemma {:induction false} PyOnwardStart(h: Header, i: nat)
    requires i < |PY_KEYS|
    ensures PyOnward(h, i) != "" && (PyOnward(h, i)[0] == ',' || PyOnward(h, i)[0] == '}')
  {
    hide PyBody, Member, ListThen;
    PyBodyStart(h, i + 1, false);
  }

  lemma {:induction false} PyElsewhere(h: Header, k: Key, tail: string)
    requires tail != "" && tail[0] != ':'
    ensures PyPlace(h, k) != Some(Quote(Name(k)) + tail)
  {
    hide PyBody, PyValueThen, Name;
    if PyPlace(h, k).Some? {
      var n := |Name(k)| + 2;
      assert PyPlace(h, k).value[n] == ':' && (Quote(Name(k)) + tail)[n] == tail[0];
    }
  }

  // ================= what is read there =================

  lemma {:induction false} PyStandsOnValue(h: Header, k: Key)
    requires PrintableStrings(h) && PyClear(h, k)
    ensures Member(h, k).Some? ==> PyRank(k).Some?
    ensures ValueAfter(PyText(h), Name(k)) ==
            if Member(h, k).None? then None
            else Some(SkipSpace(PyValueThen(Member(h, k).value, PyBody(h, PyRank(k).value + 1, false))))
  {
    hide Seek, PyText, PyBody, PyValueThen, Name, PyClear, PrintableStrings;
    PyFindMember(h, k);
    if Member(h, k).Some? {
      var value := PyValueThen(Member(h, k).value, PyBody(h, PyRank(k).value + 1, false));
      NamesAreNames(k);
      ColonThenSpace(Name(k), value);
    }
  }

  lemma {:induction false} ColonThenSpace(name: string, value: string)
    requires IsName(name)
    ensures Seek(Quote(name) + (": " + value), ":") == Some(": " + value)
    ensures SkipSpace((": " + value)[1..]) == SkipSpace(value)
  {
    SeekPast(Quote(name), ": " + value, ":");
    assert ":" <= ": " + value;
    assert (": " + value)[1..] == " " + value;
    assert (" " + value)[1..] == value;
  }

  /** The first member from `PY_KEYS[i]` on that is printed. */
  function PyNextAt(h: Header, i: nat): (n: Option<nat>)
    requires i <= |PY_KEYS|
    ensures n.Some? ==> i <= n.value < |PY_KEYS| && Member(h, PY_KEYS[n.value]).Some?
    decreases |PY_KEYS| - i
  {
    if i == |PY_KEYS| then None else if Member(h, PY_KEYS[i]).Some? then Some(i) else PyNextAt(h, i + 1)
  }

  lemma {:induction false} PyBodyFromNext(h: Header, i: nat)
    requires i <= |PY_KEYS|
    ensures PyBody(h, i, false) ==
            match PyNextAt(h, i)
            case None => "}"
            case Some(n) => ", " + PyMemberThen(PY_KEYS[n], Member(h, PY_KEYS[n]).value, PyBody(h, n + 1, false))
    decreases |PY_KEYS| - i
  {
    hide *;
    PyBodyStep(h, i);
    if i < |PY_KEYS| && Member(h, PY_KEYS[i]).None? {
      PyBodyFromNext(h, i + 1);
    }
  }

  lemma {:induction false} PyBodyStep(h: Header, i: nat)
    requires i <= |PY_KEYS|
    ensures i == |PY_KEYS| ==> PyNextAt(h, i).None? && PyBody(h, i, false) == "}"
    ensures i < |PY_KEYS| && Member(h, PY_KEYS[i]).None? ==>
              PyNextAt(h, i) == PyNextAt(h, i + 1) && PyBody(h, i, false) == PyBody(h, i + 1, false)
    ensures i < |PY_KEYS| && Member(h, PY_KEYS[i]).Some? ==>
              && PyNextAt(h, i) == Some(i)
              && PyBody(h, i, false) ==
                 ", " + PyMemberThen(PY_KEYS[i], Member(h, PY_KEYS[i]).value, PyBody(h, i + 1, false))
  {
    hide Member, PyMemberThen;
  }

  /** What stands behind the string that is taken for the name of the member `k`: the value of the next
      member, or behind a dtype the rest of its own object, which is read as neither text nor number. */
  function PyBehind(h: Header, k: Key): Option<Value> {
    match PyFirstHit(h, k, 0)
    case None => None
    case Some(j) =>
      if Member(h, PY_KEYS[j]).value.Spec? then Member(h, PY_KEYS[j])
      else
        match PyNextAt(h, j + 1)
        case None => None
        case Some(n) => Member(h, PY_KEYS[n])
  }

  lemma {:induction false} PyHitUnlessClear(h: Header, k: Key)
    ensures PyFirstHit(h, k, 0).Some? <==> !PyClear(h, k)
  {
    hide Member, PyFirstHit;
  }

  /** The value that is read for the member `k`: its own, or another. */
  function PySeen(h: Header, k: Key): Option<Value> {
    if PyClear(h, k) then Member(h, k) else PyBehind(h, k)
  }

  lemma {:induction false} PyColonOnward(h: Header, j: nat)
    requires j < |PY_KEYS| && Member(h, PY_KEYS[j]).Some?
    ensures var rest, v := PyBody(h, j + 1, false), Member(h, PY_KEYS[j]).value;
            && (v.Spec? ==> Seek(PyOnward(h, j), ":") == Some(": [" + (PyList(v.spec.shape) + ("]}" + rest))))
            && (!v.Spec? ==>
                  Seek(PyOnward(h, j), ":") ==
                  match PyNextAt(h, j + 1)
                  case None => None
                  case Some(n) =>
                    Some(": " + PyValueThen(Member(h, PY_KEYS[n]).value, PyBody(h, n + 1, false))))
  {
    hide Seek, PyValueThen, Member, Name, PyBody, PyList;
    var rest, v := PyBody(h, j + 1, false), Member(h, PY_KEYS[j]).value;
    if v.Spec? {
      NestedNames();
      var list := ": [" + (PyList(v.spec.shape) + ("]}" + rest));
      SeekPast(", ", Quote(SHAPE) + list, ":");
      SeekPast(Quote(SHAPE), list, ":");
      assert list == ":" + (" [" + (PyList(v.spec.shape) + ("]}" + rest)));
      SeekHere(":", " [" + (PyList(v.spec.shape) + ("]}" + rest)));
    } else {
      PyBodyFromNext(h, j + 1);
      match PyNextAt(h, j + 1)
      case None => NoColonInBrace();
      case Some(n) =>
        var value := PyValueThen(Member(h, PY_KEYS[n]).value, PyBody(h, n + 1, false));
        NamesAreNames(PY_KEYS[n]);
        SeekPast(", ", Quote(Name(PY_KEYS[n])) + (": " + value), ":");
        ColonThenSpace(Name(PY_KEYS[n]), value);
    }
  }

  lemma {:induction false} PyStandsBehind(h: Header, k: Key)
    requires PrintableStrings(h) && PyFirstHit(h, k, 0).Some?
    ensures var j := PyFirstHit(h, k, 0).value;
            ValueAfter(PyText(h), Name(k)) ==
            match Seek(PyOnward(h, j), ":")
            case None => None
            case Some(colon) => Some(SkipSpace(colon[1..]))
  {
    hide Seek, PyBody, Name, SkipSpace, PyFirstHit, PrintableStrings, PyOnward;
    var j := PyFirstHit(h, k, 0).value;
    PyFindInText(h, k);
    NamesAreNames(k);
    SeekPast(Quote(Name(k)), PyOnward(h, j), ":");
  }

  lemma {:induction false} ReadsList(js: string, name: string, list: string)
    requires ValueAfter(js, name) == Some(SkipSpace((": [" + list)[1..]))
    ensures StringField(js, name) == "" && IntField(js, name) == None
  {
    hide TokenOf, Seek, Unescape;
    assert (": [" + list)[1..] == " " + ("[" + list) && (" " + ("[" + list))[1..] == "[" + list;
    NoNumber("[" + list);
  }

  lemma {:induction false} PyReadsWhereItStands(js: string, name: string, v: Value, rest: string)
    requires PyPlain(v) && rest != "" && (rest[0] == ',' || rest[0] == '}')
    requires ValueAfter(js, name) == Some(SkipSpace(PyValueThen(v, rest)))
    ensures StringField(js, name) == TextAt(Some(v)) && IntField(js, name) == NumberAt(Some(v))
  {
    hide SkipSpace, StringField, IntField, ValueAfter;
    match v
    case Num(n) => ReadsNumber(js, name, n, rest);
    case Str(s) =>
      PrintableEscape(s);
      PrintableString(s, rest);
      ReadsString(js, name, s, rest);
    case Spec(spec) => PyReadsObject(js, name, spec, rest);
  }

  lemma {:induction false} PyReadsObject(js: string, name: string, spec: TensorSpec, rest: string)
    requires ValueAfter(js, name) == Some(SkipSpace(PyValueThen(Spec(spec), rest)))
    ensures StringField(js, name) == "" && IntField(js, name) == None
  {
    hide TokenOf, Seek, Unescape;
    NoNumber(PyValueThen(Spec(spec), rest));
  }

  /** Whatever is taken for the member `k` is read as the string or the number it is, or as none. */
  lemma {:induction false} PyReadsSeen(h: Header, k: Key)
    requires PrintableStrings(h)
    ensures StringField(PyText(h), Name(k)) == TextAt(PySeen(h, k))
    ensures IntField(PyText(h), Name(k)) == NumberAt(PySeen(h, k))
  {
    hide PyValueThen, PyText, Name, ValueAfter, PyBody, PyClear, PyFirstHit, SkipSpace, Member, PrintableStrings;
    hide PyPlain, StringField, IntField;
    if PyClear(h, k) {
      PyStandsOnValue(h, k);
      if Member(h, k).Some? {
        MembersPlain(h, k);
        PyBodyStart(h, PyRank(k).value + 1, false);
        PyReadsWhereItStands(PyText(h), Name(k), Member(h, k).value, PyBody(h, PyRank(k).value + 1, false));
      } else {
        ReadsNothing(PyText(h), Name(k));
      }
    } else {
      PyReadsBehind(h, k);
    }
  }

  lemma {:induction false} ReadsNothing(js: string, name: string)
    requires ValueAfter(js, name).None?
    ensures StringField(js, name) == "" && IntField(js, name) == None
  {
  }

  lemma {:induction false} PyReadsBehind(h: Header, k: Key)
    requires PrintableStrings(h) && !PyClear(h, k)
    ensures StringField(PyText(h), Name(k)) == TextAt(PyBehind(h, k))
    ensures IntField(PyText(h), Name(k)) == NumberAt(PyBehind(h, k))
  {
    hide PyValueThen, PyText, Name, ValueAfter, PyBody, PyClear, PyFirstHit, PyNextAt, SkipSpace, Member;
    hide PrintableStrings, StringField, IntField, PyPlain, PyList, PyOnward, Seek;
    PyHitUnlessClear(h, k);
    PyStandsBehind(h, k);
    var js, j := PyText(h), PyFirstHit(h, k, 0).value;
    PyColonOnward(h, j);
    var v := Member(h, PY_KEYS[j]).value;
    if v.Spec? {
      ReadsList(js, Name(k), PyList(v.spec.shape) + ("]}" + PyBody(h, j + 1, false)));
    } else {
      match PyNextAt(h, j + 1)
      case None => ReadsNothing(js, Name(k));
      case Some(n) =>
        MembersPlain(h, PY_KEYS[n]);
        PyBodyStart(h, n + 1, false);
        BehindColon(PyValueThen(Member(h, PY_KEYS[n]).value, PyBody(h, n + 1, false)));
        PyReadsWhereItStands(js, Name(k), Member(h, PY_KEYS[n]).value, PyBody(h, n + 1, false));
    }
  }

  lemma {:induction false} BehindColon(value: string)
    ensures SkipSpace((": " + value)[1..]) == SkipSpace(value)
  {
    assert (": " + value)[1..] == " " + value;
    assert (" " + value)[1..] == value;
  }

  // ================= the tensor =================

  lemma {:induction false} SpacedItem(n: int)
    requires Int32(n)
    ensures ShapeItem(" " + IntText(n)) == [n] && ShapeItem(IntText(n)) == [n]
    ensures Lacks(IntText(n), ',') && Lacks(" " + IntText(n), ',')
  {
    hide IntText, ParseInteger, DropTrailingSpace;
    var s := IntText(n);
    HeaderRoundTrip.ReadItem(n);
    assert (" " + s)[1..] == s;
    assert SkipSpace(" " + s) == SkipSpace(s);
  }

  lemma {:induction false} ItemsAtComma(s: string, more: string)
    requires Lacks(s, ',')
    ensures ShapeItems(s) == ShapeItem(s)
    ensures ShapeItems(s + ("," + more)) == ShapeItem(s) + ShapeItems(more)
  {
    hide Seek, ShapeItem;
    CommaAfter(s, more);
  }

  lemma {:induction false} MoreText(n: int, more: string)
    ensures ", " + (IntText(n) + more) == "," + ((" " + IntText(n)) + more)
  {
    hide IntText;
  }

  /** The items after the first, each with a space before it. */
  lemma {:induction false} PyReadMore(shape: seq<int>, s: string)
    requires forall i | 0 <= i < |shape| :: Int32(shape[i])
    requires Lacks(s, ',')
    ensures ShapeItems(s + PyMore(shape)) == ShapeItem(s) + shape
  {
    hide ShapeItem, ShapeItems, IntText, Lacks;
    if shape == [] {
      ItemsAtComma(s, "");
      assert s + "" == s;
    } else {
      var t := " " + IntText(shape[0]);
      SpacedItem(shape[0]);
      PyReadMore(shape[1..], t);
      MoreText(shape[0], PyMore(shape[1..]));
      ItemsAtComma(s, t + PyMore(shape[1..]));
      assert shape == [shape[0]] + shape[1..];
    }
  }

  lemma {:induction false} PyReadList(shape: seq<int>)
    requires forall i | 0 <= i < |shape| :: Int32(shape[i])
    ensures ShapeItems(PyList(shape)) == shape
  {
    hide IntText, ShapeItem;
    if shape == [] {
      EmptyList();
    } else {
      SpacedItem(shape[0]);
      PyReadMore(shape[1..], IntText(shape[0]));
      assert shape == [shape[0]] + shape[1..];
    }
  }

  lemma {:induction false} EmptyList()
    ensures ShapeItems("") == []
  {
  }

  /** The list is found behind any text without a bracket. */
  lemma {:induction false} PyShapeFrom(at: string, before: string, shape: seq<int>, rest: string)
    requires forall i | 0 <= i < |shape| :: Int32(shape[i])
    requires Lacks(before, '[') && Seek(at, Quote(SHAPE)) == Some(before + ("[" + (PyList(shape) + ("]}" + rest))))
    ensures ShapeField(at) == shape
  {
    hide Seek, ShapeItems, PyList;
    var list := PyList(shape);
    var tail := list + ("]}" + rest);
    PyListPlain(shape);
    PyReadList(shape);
    SeekPast(before, "[" + tail, "[");
    SeekHere("[", tail);
    assert ("[" + tail)[1..] == tail;
    SeekPast(list, "]}" + rest, "]");
    assert "]}" + rest == "]" + ("}" + rest);
    SeekHere("]", "}" + rest);
    assert ("[" + tail)[1..|list| + 1] == list;
  }

  lemma {:induction false} PyOpenObject(tail: string, name: string)
    requires IsName(name) && Name(Tensor) != name
    ensures Seek(Quote(Name(Tensor)) + (": " + ("{" + tail)), Quote(name)) == Seek(tail, Quote(name))
  {
    hide Seek;
    NamesAreNames(Tensor);
    SkipQuotedName(Name(Tensor), ": " + ("{" + tail), name);
    SeekPast(": ", "{" + tail, Quote(name));
    SeekPast("{", tail, Quote(name));
  }

  /** Where the reader finds the word `shape`: behind the dtype, or already in it. */
  lemma {:induction false} FindShape(spec: TensorSpec, rest: string)
    requires Printable(spec.dtype)
    ensures var tail := ", " + ListThen(spec.shape, rest);
            Seek(PyMemberThen(Tensor, Spec(spec), rest), Quote(SHAPE)) ==
            Some(if Collides(Str(spec.dtype), SHAPE) then Quote(SHAPE) + tail else ListThen(spec.shape, rest))
  {
    hide Seek, PyList, Escape, PyEscape, Collides;
    var tail := ", " + ListThen(spec.shape, rest);
    var q1, list := PyStringThen(spec.dtype, tail), ": [" + (PyList(spec.shape) + ("]}" + rest));
    NestedNames();
    PrintableEscape(spec.dtype);
    PrintableString(spec.dtype, tail);
    PyOpenObject(Quote(DTYPE) + (": " + q1), SHAPE);
    SkipQuotedName(DTYPE, ": " + q1, SHAPE);
    SeekPast(": ", q1, Quote(SHAPE));
    SeekThroughString(spec.dtype, tail, SHAPE);
    SeekPast(", ", ListThen(spec.shape, rest), Quote(SHAPE));
    SeekHere(Quote(SHAPE), list);
  }

  /** The shape is read back whatever the dtype before it is: even the word `shape` leads to the same list. */
  lemma {:induction false} PyReadShape(spec: TensorSpec, rest: string)
    requires Printable(spec.dtype) && forall i | 0 <= i < |spec.shape| :: Int32(spec.shape[i])
    ensures ShapeField(PyMemberThen(Tensor, Spec(spec), rest)) == spec.shape
  {
    hide Seek, PyList, ShapeField, Collides, PyMemberThen, Quote;
    var at := PyMemberThen(Tensor, Spec(spec), rest);
    var text := PyList(spec.shape) + ("]}" + rest);
    FindShape(spec, rest);
    ListStarts(text);
    BeforeTheList("[" + text);
    if Collides(Str(spec.dtype), SHAPE) {
      PyShapeFrom(at, Quote(SHAPE) + (", " + (Quote(SHAPE) + ": ")), spec.shape, rest);
    } else {
      PyShapeFrom(at, Quote(SHAPE) + ": ", spec.shape, rest);
    }
  }

  lemma {:induction false} ListStarts(text: string)
    ensures ": [" + text == ": " + ("[" + text)
  {
  }

  lemma {:induction false} BeforeTheList(list: string)
    ensures Quote(SHAPE) + (": " + list) == (Quote(SHAPE) + ": ") + list
    ensures Quote(SHAPE) + (", " + (Quote(SHAPE) + (": " + list))) ==
            (Quote(SHAPE) + (", " + (Quote(SHAPE) + ": "))) + list
    ensures Lacks(Quote(SHAPE) + ": ", '[') && Lacks(Quote(SHAPE) + (", " + (Quote(SHAPE) + ": ")), '[')
  {
  }

  /** What the reader takes for the dtype: the printed text up to the next quote. */
  lemma {:induction false} PyRawDtype(spec: TensorSpec, rest: string)
    requires Printable(spec.dtype)
    ensures var raw := DtypeField(PyMemberThen(Tensor, Spec(spec), rest));
            Lacks(raw, '"') && (Lacks(Escape(spec.dtype), '"') ==> raw == Escape(spec.dtype))
  {
    hide Seek, Escape, PyEscape, ListThen;
    var e, tail := Escape(spec.dtype), "\"" + (", " + ListThen(spec.shape, rest));
    var q1 := PyStringThen(spec.dtype, ", " + ListThen(spec.shape, rest));
    NestedNames();
    PrintableEscape(spec.dtype);
    PyOpenObject(Quote(DTYPE) + (": " + q1), DTYPE);
    SeekHere(Quote(DTYPE), ": " + q1);
    ColonThenSpace(DTYPE, q1);
    SeekPast(": ", q1, "\"");
    SeekHere("\"", e + tail);
    assert q1[1..] == e + tail;
    QuoteIsThere(e, tail);
    NoQuoteBefore(e + tail);
    var q2 := Seek(e + tail, "\"").value;
    assert q1[1..|q1| - |q2|] == (e + tail)[..|e + tail| - |q2|];
    if Lacks(e, '"') {
      SeekPast(e, tail, "\"");
      SeekHere("\"", ", " + ListThen(spec.shape, rest));
      assert (e + tail)[..|e|] == e;
    }
  }

  lemma {:induction false} PyDtypeReadsBack(spec: TensorSpec, rest: string)
    requires Printable(spec.dtype)
    ensures DtypeField(PyMemberThen(Tensor, Spec(spec), rest)) == spec.dtype
       <==> Lacks(spec.dtype, '"') && Lacks(spec.dtype, '\\')
  {
    hide DtypeField, PyMemberThen, Escape;
    PyRawDtype(spec, rest);
    PrintableEscape(spec.dtype);
    if Lacks(spec.dtype, '"') {
      EscapeGrows(spec.dtype);
      if Lacks(spec.dtype, '\\') {
        EscapePlain(spec.dtype);
      }
    }
  }

  /** The nested object is found if nothing before it collides; its shape comes back, its dtype exactly if it
      has no quote and no backslash. */
  lemma {:induction false} PyReadTensor(h: Header)
    requires PyProper(h) && PyClear(h, Tensor)
    ensures TensorField(PyText(h)) == h.tensorSpec <==>
            Lacks(h.tensorSpec.dtype, '"') && Lacks(h.tensorSpec.dtype, '\\')
  {
    hide Seek, PyBody, PyMemberThen, ShapeField, DtypeField, PyText;
    PyFindMember(h, Tensor);
    if h.messageType.INFER? {
      PyReadShape(h.tensorSpec, PyBody(h, 8, false));
      PyDtypeReadsBack(h.tensorSpec, PyBody(h, 8, false));
    }
  }

  // ================= names that are no member's =================

  /** A name that no member has. */
  ghost predicate Foreign(name: string) {
    IsName(name) && forall k: Key :: Name(k) != name
  }

  const TYPE := "type"

  lemma {:induction false} ForeignNames()
    ensures Foreign(SHAPE) && Foreign(DTYPE) && Foreign(TYPE)
  {
    hide Name;
    NestedNames();
    assert IsName(TYPE);
    forall k: Key
      ensures Name(k) != SHAPE && Name(k) != DTYPE && Name(k) != TYPE
    {
      NamesAreLong(k);
    }
  }

  lemma {:induction false} NamesAreLong(k: Key)
    ensures |Name(k)| > 5
  {
  }

  /** One printed number or string. */
  lemma {:induction false} SeekForeign(j: Key, v: Value, rest: string, sep: string, name: string)
    requires Foreign(name) && PyPlain(v) && !v.Spec? && Follows(rest) && Lacks(sep, '"')
    ensures Seek(sep + PyMemberThen(j, v, rest), Quote(name)) ==
            if Collides(v, name) then Some(Quote(name) + rest) else Seek(rest, Quote(name))
  {
    hide Seek, Name, PyEscape, Escape;
    var value := PyValueThen(v, rest);
    NamesAreNames(j);
    SeekPast(sep, PyMemberThen(j, v, rest), Quote(name));
    SkipQuotedName(Name(j), ": " + value, name);
    SeekPast(": ", value, Quote(name));
    match v
    case Num(n) => SeekPast(IntText(n), rest, Quote(name));
    case Str(s) =>
      PrintableEscape(s);
      PrintableString(s, rest);
      SeekThroughString(s, rest, name);
  }

  /** Behind the path of a LOAD, a foreign name can only be the digest or its end. */
  function ForeignIn(h: Header, i: nat, name: string): Option<string> {
    if i <= 6 && Collides(Str(h.servingDigest), name) then Some(Quote(name) + PyBody(h, 7, false)) else None
  }

  lemma {:induction false} FindForeign(h: Header, i: nat, name: string)
    requires PrintableStrings(h) && h.messageType.LOAD? && 1 <= i <= |PY_KEYS| && Foreign(name)
    ensures Seek(PyBody(h, i, false), Quote(name)) == ForeignIn(h, i, name)
    decreases |PY_KEYS| - i
  {
    hide Seek, PyBody, Collides, PrintableStrings;
    if i == |PY_KEYS| {
      hide *;
      ForeignEnd(h, name);
    } else {
      FindForeign(h, i + 1, name);
      ForeignStep(h, i, name);
    }
  }

  lemma {:induction false} ForeignEnd(h: Header, name: string)
    requires Foreign(name)
    ensures Seek(PyBody(h, |PY_KEYS|, false), Quote(name)) == ForeignIn(h, |PY_KEYS|, name)
  {
    hide Seek, Name;
    NothingInBrace(name);
  }

  lemma {:induction false} ForeignStep(h: Header, i: nat, name: string)
    requires PrintableStrings(h) && h.messageType.LOAD? && 1 <= i < |PY_KEYS| && Foreign(name)
    ensures i == 6 && Collides(Str(h.servingDigest), name) ==>
              Seek(PyBody(h, i, false), Quote(name)) == Some(Quote(name) + PyBody(h, 7, false))
    ensures i != 6 || !Collides(Str(h.servingDigest), name) ==>
              Seek(PyBody(h, i, false), Quote(name)) == Seek(PyBody(h, i + 1, false), Quote(name))
  {
    hide Seek, PyBody, Collides, Name, PyMemberThen, PrintableStrings;
    PyBodyStep(h, i);
    PyBodyStart(h, i + 1, false);
    if Member(h, PY_KEYS[i]).Some? {
      var v := Member(h, PY_KEYS[i]).value;
      MembersPlain(h, PY_KEYS[i]);
      SeekForeign(PY_KEYS[i], v, PyBody(h, i + 1, false), ", ", name);
      NumbersDoNotCollide(v, name);
      TypeIsNoName(h.messageType, name);
    }
  }

  lemma {:induction false} NumbersDoNotCollide(v: Value, name: string)
    ensures v.Num? ==> !Collides(v, name)
  {
  }

  /** Behind the digest of a LOAD there is but one number. */
  lemma {:induction false} OnlyGenerationFollows(h: Header)
    requires h.messageType.LOAD?
    ensures PyBody(h, 7, false) == ", " + (Quote(Name(WorkerGeneration)) + (": " + (IntText(h.workerGeneration) + "}")))
  {
    hide IntText, Name;
    assert PyBody(h, 9, false) == "}";
    assert PyBody(h, 8, false) == ", " + PyMemberThen(WorkerGeneration, Num(h.workerGeneration), "}");
    assert PyBody(h, 7, false) == PyBody(h, 8, false);
  }

  /** There the reader finds no bracket, and behind the colon no quote. */
  lemma {:induction false} NothingNested(h: Header, name: string)
    requires h.messageType.LOAD? && IsName(name)
    ensures Seek(Quote(name) + PyBody(h, 7, false), "[").None?
    ensures Seek(Quote(name) + PyBody(h, 7, false), ":") == Some(": " + (IntText(h.workerGeneration) + "}"))
    ensures Seek(": " + (IntText(h.workerGeneration) + "}"), "\"").None?
  {
    hide Seek, IntText, Name;
    var number := IntText(h.workerGeneration) + "}";
    var member := Quote(Name(WorkerGeneration)) + (": " + number);
    OnlyGenerationFollows(h);
    NamesAreNames(WorkerGeneration);
    SeekPast(Quote(name), ", " + member, "[");
    SeekPast(", ", member, "[");
    SeekPast(Quote(Name(WorkerGeneration)), ": " + number, "[");
    SeekPast(": ", number, "[");
    LacksInNumber(h.workerGeneration);
    SeekPast(number, "", "[");
    SeekPast(Quote(name), ", " + member, ":");
    SeekPast(", ", member, ":");
    ColonThenSpace(Name(WorkerGeneration), number);
    SeekPast(": ", number, "\"");
    SeekPast(number, "", "\"");
    assert number + "" == number;
    NothingInNothing();
  }

  lemma {:induction false} LacksInNumber(n: int)
    ensures Lacks(IntText(n) + "}", '[') && Lacks(IntText(n) + "}", '"')
  {
    var s := IntText(n) + "}";
    assert forall i | 0 <= i < |s| :: s[i] == if i < |IntText(n)| then IntText(n)[i] else '}';
  }

  lemma {:induction false} NothingInNothing()
    ensures Seek("", "[").None? && Seek("", "\"").None?
  {
  }

  /** A string of a LOAD that is taken for `tensor_spec` does no harm: no shape and no dtype is read. */
  lemma {:induction false} NoTensorInLoad(h: Header)
    requires PyProper(h) && !PyClear(h, Tensor)
    ensures h.messageType.LOAD? && TensorField(PyText(h)) == h.tensorSpec
  {
    hide Seek, PyBody, Name, PyText, PyOnward, PyFirstHit, ShapeField, DtypeField, Lacks;
    PyHitUnlessClear(h, Tensor);
    PyFindInText(h, Tensor);
    var j := PyFirstHit(h, Tensor, 0).value;
    HitIsInLoad(h, Tensor, j);
    NothingBehind(h, j);
  }

  /** Only the path and the digest of a LOAD, and the dtype of an INFER, can be taken for a name. */
  lemma {:induction false} HitIsInLoad(h: Header, k: Key, j: nat)
    requires PyFirstHit(h, k, 0) == Some(j)
    ensures h.messageType.LOAD? ==> j == 0 || j == 6
    ensures !h.messageType.LOAD? ==> h.messageType.INFER? && j == 7 && k != Tensor
    ensures PyBefore(h, k, j) && Collides(Member(h, PY_KEYS[j]).value, Name(k))
  {
    hide Name, Collides;
    HitCollides(h, k, 0);
    NamesAreNames(k);
    TypeIsNoName(h.messageType, Name(k));
    NumbersDoNotCollide(Member(h, PY_KEYS[j]).value, Name(k));
  }

  lemma {:induction false} HitCollides(h: Header, k: Key, i: nat)
    requires i <= |PY_KEYS|
    ensures var j := PyFirstHit(h, k, i);
            j.Some? ==> PyBefore(h, k, j.value) && Collides(Member(h, PY_KEYS[j.value]).value, Name(k))
    decreases |PY_KEYS| - i
  {
    hide Name, Collides, Member;
    if i < |PY_KEYS| {
      HitCollides(h, k, i + 1);
    }
  }

  lemma {:induction false} NothingBehind(h: Header, j: nat)
    requires PrintableStrings(h) && h.messageType.LOAD? && (j == 0 || j == 6)
    ensures var at := Quote(Name(Tensor)) + PyOnward(h, j);
            ShapeField(at) == [] && DtypeField(at) == ""
  {
    hide Seek, PyBody, Name, PyOnward, ForeignIn, ShapeField, DtypeField;
    ForeignNames();
    ForeignBehind(h, j, SHAPE);
    ForeignBehind(h, j, DTYPE);
    NoShapeBehind(h, j);
    NoDtypeBehind(h, j);
  }

  lemma {:induction false} ForeignBehind(h: Header, j: nat, name: string)
    requires PrintableStrings(h) && h.messageType.LOAD? && (j == 0 || j == 6) && Foreign(name)
    ensures Seek(Quote(Name(Tensor)) + PyOnward(h, j), Quote(name)) == ForeignIn(h, j + 1, name)
  {
    hide Seek, PyBody, Name, ForeignIn;
    NamesAreNames(Tensor);
    PyOnwardStart(h, j);
    SkipQuotedName(Name(Tensor), PyOnward(h, j), name);
    FindForeign(h, j + 1, name);
  }

  lemma {:induction false} NoShapeBehind(h: Header, j: nat)
    requires h.messageType.LOAD? && (j == 0 || j == 6)
    requires Seek(Quote(Name(Tensor)) + PyOnward(h, j), Quote(SHAPE)) == ForeignIn(h, j + 1, SHAPE)
    ensures ShapeField(Quote(Name(Tensor)) + PyOnward(h, j)) == []
  {
    hide Seek, PyBody, Name, PyOnward, Collides;
    NestedNames();
    NothingNested(h, SHAPE);
  }

  lemma {:induction false} NoDtypeBehind(h: Header, j: nat)
    requires h.messageType.LOAD? && (j == 0 || j == 6)
    requires Seek(Quote(Name(Tensor)) + PyOnward(h, j), Quote(DTYPE)) == ForeignIn(h, j + 1, DTYPE)
    ensures DtypeField(Quote(Name(Tensor)) + PyOnward(h, j)) == ""
  {
    hide Seek, PyBody, Name, PyOnward, Collides;
    NestedNames();
    NothingNested(h, DTYPE);
  }

  // ================= the kind =================

  /** If the path is taken for `message_type`, no kind is read at all: the fallback `type` is no help. */
  lemma {:induction false} NoKindInLoad(h: Header)
    requires PyProper(h) && !PyClear(h, MessageKind)
    ensures KindText(PyText(h)) == ""
  {
    hide PyText, PyBody, StringField, Name, PyFirstHit;
    PyHitUnlessClear(h, MessageKind);
    HitIsInLoad(h, MessageKind, PyFirstHit(h, MessageKind, 0).value);
    PyReadsSeen(h, MessageKind);
    CountIsNext(h);
    NoTypeInLoad(h);
  }

  lemma {:induction false} CountIsNext(h: Header)
    requires h.messageType.LOAD?
    ensures PyNextAt(h, 1) == Some(1) && Member(h, PY_KEYS[1]) == Some(Num(h.classCount))
  {
  }

  lemma {:induction false} NoTypeInLoad(h: Header)
    requires PyProper(h) && h.messageType.LOAD? && Collides(Str(h.artifactPath), Name(MessageKind))
    ensures StringField(PyText(h), TYPE) == ""
  {
    hide Seek, PyBody, Collides, SkipSpace, IntText;
    ForeignNames();
    PyBodyStart(h, 1, false);
    FirstIsPath(h);
    SeekForeign(ArtifactPath, Str(h.artifactPath), PyBody(h, 1, false), "{", TYPE);
    NotBothNames(h.artifactPath);
    FindForeign(h, 1, TYPE);
    NothingNested(h, TYPE);
    NumberIsNoText(h.workerGeneration);
  }

  lemma {:induction false} FirstIsPath(h: Header)
    requires h.messageType.LOAD?
    ensures PyText(h) == "{" + PyMemberThen(ArtifactPath, Str(h.artifactPath), PyBody(h, 1, false))
  {
    hide PyMemberThen;
    assert PyBody(h, 0, true) == "" + PyMemberThen(ArtifactPath, Str(h.artifactPath), PyBody(h, 1, false));
  }

  lemma {:induction false} NotBothNames(s: string)
    requires Collides(Str(s), Name(MessageKind))
    ensures !Collides(Str(s), TYPE)
  {
    var n := |s|;
    assert s[n - 5] == '_';
  }

  lemma {:induction false} NumberIsNoText(n: int)
    ensures var v := SkipSpace((": " + (IntText(n) + "}"))[1..]); v != "" && v[0] != '"'
  {
    hide IntText;
    BehindColon(IntText(n) + "}");
    assert (IntText(n) + "}")[0] == IntText(n)[0];
  }

  // ================= the whole header =================

  /** Whether the member `k` comes back: it is found, and a dtype has no quote and no backslash; or what the
      reader takes for it instead happens to be read as the same. */
  predicate PySurvives(h: Header, k: Key) {
    if PyClear(h, k) then k.Tensor? ==> Lacks(h.tensorSpec.dtype, '"') && Lacks(h.tensorSpec.dtype, '\\')
    else
      var number := NumberAt(PyBehind(h, k));
      match k
      case MessageKind => false
      case Tensor => true
      case ProtocolVersion => number.Some? && ToInt32(number.value) == h.protocolVersion
      case RequestId => OrZero(number) == h.requestId
      case WorkerGeneration => OrZero(number) == h.workerGeneration
      case PayloadLength => Length(number) == Arriving(h).payloadLength
      case ClassCount => ToInt32(OrZero(number)) == h.classCount
      case _ => TextAt(PyBehind(h, k)) == TextOf(h, k)
  }

  /** A request of which every member survives. */
  ghost predicate PyComesBack(h: Header) {
    PyProper(h) && forall k: Key :: PySurvives(h, k)
  }

  lemma {:induction false} PyKindReadsBack(h: Header)
    requires PyProper(h)
    ensures KindText(PyText(h)) == if PyClear(h, MessageKind) then TypeText(h.messageType) else ""
  {
    hide PyText, StringField, PyClear, PyBehind;
    if PyClear(h, MessageKind) {
      PyReadsSeen(h, MessageKind);
      TypeStays(h.messageType);
    } else {
      NoKindInLoad(h);
    }
  }

  lemma {:induction false} PyTensorComesBack(h: Header)
    requires PyProper(h)
    ensures TensorField(PyText(h)) == h.tensorSpec <==> PySurvives(h, Tensor)
  {
    hide PyText, TensorField, PyClear, Lacks;
    if PyClear(h, Tensor) {
      PyReadTensor(h);
    } else {
      NoTensorInLoad(h);
    }
  }

  /** Members are read as what they are exactly if they survive. */
  lemma {:induction false} NumbersComeBack(h: Header)
    requires PyProper(h)
    ensures var pv := NumberAt(PySeen(h, ProtocolVersion));
            pv.Some? && ToInt32(pv.value) == h.protocolVersion <==> PySurvives(h, ProtocolVersion)
    ensures OrZero(NumberAt(PySeen(h, RequestId))) == h.requestId <==> PySurvives(h, RequestId)
    ensures OrZero(NumberAt(PySeen(h, WorkerGeneration))) == h.workerGeneration <==> PySurvives(h, WorkerGeneration)
    ensures Length(NumberAt(PySeen(h, PayloadLength))) == Arriving(h).payloadLength <==> PySurvives(h, PayloadLength)
    ensures ToInt32(OrZero(NumberAt(PySeen(h, ClassCount)))) == h.classCount <==> PySurvives(h, ClassCount)
  {
    hide PyClear, PyBehind, PrintableStrings;
    Int32Stays(h.classCount);
    Int32Stays(h.protocolVersion);
  }

  lemma {:induction false} TextsComeBack(h: Header)
    requires PyProper(h)
    ensures TextAt(PySeen(h, ArtifactPath)) == h.artifactPath <==> PySurvives(h, ArtifactPath)
    ensures TextAt(PySeen(h, ServingDigest)) == h.servingDigest <==> PySurvives(h, ServingDigest)
    ensures TextAt(PySeen(h, ErrorCode)) == h.errorCode <==> PySurvives(h, ErrorCode)
    ensures TextAt(PySeen(h, ErrorMessage)) == h.errorMessage <==> PySurvives(h, ErrorMessage)
  {
    hide PyClear, PyBehind, PrintableStrings;
  }

  lemma {:induction false} PyKeysAreAll(h: Header)
    ensures (forall k: Key :: PySurvives(h, k)) <==>
            && PySurvives(h, ProtocolVersion) && PySurvives(h, MessageKind) && PySurvives(h, RequestId)
            && PySurvives(h, WorkerGeneration) && PySurvives(h, ArtifactPath) && PySurvives(h, ServingDigest)
            && PySurvives(h, Tensor) && PySurvives(h, PayloadLength) && PySurvives(h, ClassCount)
            && PySurvives(h, ErrorCode) && PySurvives(h, ErrorMessage)
  {
    hide PySurvives;
    if exists k: Key :: !PySurvives(h, k) {
      var k: Key :| !PySurvives(h, k);
      match k
      case ProtocolVersion =>
      case MessageKind =>
      case RequestId =>
      case WorkerGeneration =>
      case ArtifactPath =>
      case ServingDigest =>
      case Tensor =>
      case PayloadLength =>
      case ClassCount =>
      case ErrorCode =>
      case ErrorMessage =>
    }
  }

  /** When what was read makes up the header. */
  lemma {:induction false} AssembleGives(h: Header, number: Key -> Option<int>, text: Key -> string, kind: string,
                                         spec: TensorSpec, h0: Header)
    requires h.messageType != UNKNOWN
    ensures Assemble(number, text, kind, spec, h0) == Parsed(true, Arriving(h), "") <==>
            && number(ProtocolVersion).Some? && ToInt32(number(ProtocolVersion).value) == h.protocolVersion
            && ParseMessageType(kind) == h.messageType && spec == h.tensorSpec
            && OrZero(number(RequestId)) == h.requestId && OrZero(number(WorkerGeneration)) == h.workerGeneration
            && Length(number(PayloadLength)) == Arriving(h).payloadLength
            && ToInt32(OrZero(number(ClassCount))) == h.classCount
            && text(ArtifactPath) == h.artifactPath && text(ServingDigest) == h.servingDigest
            && text(ErrorCode) == h.errorCode && text(ErrorMessage) == h.errorMessage
  {
    hide ToInt32, ParseMessageType;
  }

  lemma {:induction false} PyAssembles(h: Header, number: Key -> Option<int>, text: Key -> string, kind: string,
                                       spec: TensorSpec, h0: Header)
    requires PyProper(h)
    requires forall k: Key :: number(k) == NumberAt(PySeen(h, k)) && text(k) == TextAt(PySeen(h, k))
    requires kind == if PyClear(h, MessageKind) then TypeText(h.messageType) else ""
    requires spec == h.tensorSpec <==> PySurvives(h, Tensor)
    ensures Assemble(number, text, kind, spec, h0) == Parsed(true, Arriving(h), "") <==>
            forall k: Key :: PySurvives(h, k)
  {
    hide PyClear, PySeen, PrintableStrings, InRange, Assemble, PySurvives, NumberAt, TextAt, ToInt32;
    TypeStays(h.messageType);
    KindSurvives(h);
    NumbersComeBack(h);
    TextsComeBack(h);
    PyKeysAreAll(h);
    AssembleGives(h, number, text, kind, spec, h0);
  }

  lemma {:induction false} KindSurvives(h: Header)
    ensures PySurvives(h, MessageKind) <==> PyClear(h, MessageKind)
  {
    hide PyClear;
  }

  /** What the supervisor prints, in its own key order and spacing, the worker's reader reads as the same
      header if and only if the text is short enough and every member survives. */
  lemma {:induction false} ReaderReadsPython(h: Header, h0: Header)
    requires PyProper(h)
    ensures ParseHeader(PyText(h), h0) == Parsed(true, Arriving(h), "") <==>
            |PyText(h)| <= MAX_HEADER_BYTES && forall k: Key :: PySurvives(h, k)
  {
    hide PyText, Assemble, KindText, TensorField, PySurvives, IntField, StringField, PySeen, PrintableStrings, InRange;
    hide PyClear, IsRequest;
    var js := PyText(h);
    PyKindReadsBack(h);
    PyTensorComesBack(h);
    var number, text := (k: Key) => IntField(js, Name(k)), (k: Key) => StringField(js, Name(k));
    forall k: Key
      ensures number(k) == NumberAt(PySeen(h, k)) && text(k) == TextAt(PySeen(h, k))
    {
      PyReadsSeen(h, k);
    }
    PyAssembles(h, number, text, KindText(js), TensorField(js), h0);
  }

  // ================= frames =================

  /** A message the supervisor may send: the header announces the payload and the native bounds hold. */
  ghost predicate PySendable(m: Message) {
    && PyComesBack(m.header) && |PyText(m.header)| <= MAX_HEADER_BYTES
    && ValidateHeader(m.header).None? && m.header.payloadLength == |m.payload|
  }

  function PyFrame(m: Message): string {
    LengthPrefix(|PyText(m.header)| % 0x1_0000_0000) + (PyText(m.header) + m.payload)
  }

  function PyFrames(ms: seq<Message>): string {
    if ms == [] then "" else PyFrame(ms[0]) + PyFrames(ms[1..])
  }

  lemma {:induction false} DecodePyFrame(m: Message, rest: string)
    requires PySendable(m)
    ensures Decode(PyFrame(m) + rest, BLANK) == Received(true, m.header, m.payload, "", rest)
  {
    hide PyText, ParseHeader, PySurvives, PyProper, ValidateHeader, LengthPrefix, PrefixValue;
    var js := PyText(m.header);
    var data, after := PyFrame(m) + rest, js + (m.payload + rest);
    PrefixRoundTrip(|js|);
    PyTextNonEmpty(m.header);
    assert data == LengthPrefix(|js|) + after;
    assert data[..4] == LengthPrefix(|js|) && data[4..] == after;
    assert after[..|js|] == js && after[|js|..] == m.payload + rest;
    ReaderReadsPython(m.header, BLANK);
    PayloadIsSmall(m.header);
    Arrives(m.header);
    assert (m.payload + rest)[..|m.payload|] == m.payload && (m.payload + rest)[|m.payload|..] == rest;
  }

  lemma {:induction false} Arrives(h: Header)
    requires h.payloadLength < INT64_LIMIT
    ensures Arriving(h) == h
  {
  }

  lemma {:induction false} PyTextNonEmpty(h: Header)
    ensures PyText(h) != ""
  {
  }

  /** Any sequence of requests the supervisor sends is received by the worker as sent. */
  lemma {:induction false} PyFramesRoundTrip(ms: seq<Message>)
    requires forall i | 0 <= i < |ms| :: PySendable(ms[i])
    ensures DecodeAll(PyFrames(ms)) == Some(ms)
  {
    hide Decode, PyFrame, PySendable;
    if ms != [] {
      DecodePyFrame(ms[0], PyFrames(ms[1..]));
      PyFramesRoundTrip(ms[1..]);
      PyFrameNonEmpty(ms[0]);
      assert [ms[0]] + ms[1..] == ms;
      assert PySendable(ms[0]);
    }
  }

  lemma {:induction false} PyFrameNonEmpty(m: Message)
    ensures PyFrame(m) != ""
  {
    hide PyText;
    PyTextNonEmpty(m.header);
  }

  /** The bounds a request is held to before anything is written. */
  predicate PyFits(m: Message) {
    && |PyText(m.header)| <= MAX_HEADER_BYTES
    && (m.header.messageType.INFER? ==> |m.payload| <= MAX_TENSOR_BYTES)
    && (m.header.messageType.LOAD? ==> |m.payload| <= MAX_MODEL_BYTES)
  }

  /** Checks the bounds and sends one request; the payload length is filled in here. */
  method SendRequest(pipe: Pipe, h: Header, payload: string) returns (ok: bool)
    requires IsRequest(h.(payloadLength := |payload|))
    modifies pipe
    ensures var m := Message(h.(payloadLength := |payload|), payload);
            && (ok <==> PyFits(m) && Takes(old(pipe.room), |PyFrame(m)|))
            && (ok ==> pipe.data == old(pipe.data) + PyFrame(m))
            && (!PyFits(m) ==> pipe.data == old(pipe.data))
            && (old(pipe.room).None? ==>
                  (ok <==> |PyText(m.header)| <= 16 * 1024
                           && (h.messageType == INFER ==> |payload| <= 16 * 1024 * 1024)
                           && (h.messageType == LOAD ==> |payload| <= 256 * 1024 * 1024)))
  {
    hide PyText, LengthPrefix;
    ghost var m := Message(h.(payloadLength := |payload|), payload);
    if |payload| > MAX_TENSOR_BYTES && h.messageType.INFER? { return false; }
    if |payload| > MAX_MODEL_BYTES && h.messageType.LOAD? { return false; }
    var js := PyText(h.(payloadLength := |payload|));
    if |js| > MAX_HEADER_BYTES { return false; }
    assert |PyFrame(m)| == 4 + |js| + |payload|;
    ok := WriteN(pipe, LengthPrefix(|js|));
    if !ok { return; }
    ok := WriteN(pipe, js);
    if !ok { return; }
    if payload != "" {
      ok := WriteN(pipe, payload);
    }
    assert ok ==> pipe.data == old(pipe.data) + PyFrame(m);
  }

  /** A request is sent exactly if it is within the bounds and the worker stays for it, and then the worker
      receives it as it was sent. */
  method RequestArrives(pipe: Pipe, h: Header, payload: string)
      returns (sent: bool, ok: bool, hdr: Header, received: string)
    requires pipe.data == "" && PySendable(Message(h.(payloadLength := |payload|), payload))
    modifies pipe
    ensures var m := Message(h.(payloadLength := |payload|), payload);
            && (sent <==> PyFits(m) && Takes(old(pipe.room), |PyFrame(m)|))
            && (sent ==> ok && hdr == m.header && received == payload && pipe.data == "")
  {
    hide Decode, PyFrame, PyText, ValidateHeader, PyFits;
    ok, hdr, received := false, h, "";
    sent := SendRequest(pipe, h, payload);
    if sent {
      var err;
      ghost var m := Message(h.(payloadLength := |payload|), payload);
      DecodePyFrame(m, "");
      assert pipe.data == PyFrame(m) + "";
      ok, hdr, received, err := RecvMessage(pipe, BLANK);
    }
  }
}
