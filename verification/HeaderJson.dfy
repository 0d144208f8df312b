/** The worker protocol's header as JSON text: what the hand-written printer writes and what the
    hand-written "find the key, then scan" reader reads. */
module HeaderJson {
  import opened Text

  const MAX_HEADER_BYTES := 16 * 1024
  const INT32_LIMIT := 0x8000_0000
  const INT64_LIMIT := 0x8000_0000_0000_0000

  datatype MessageType = LOAD | INFER | RESULT | STATUS | SHUTDOWN | UNKNOWN

  datatype TensorSpec = TensorSpec(shape: seq<int>, dtype: string)

  datatype Header = Header(
    protocolVersion: int,
    messageType: MessageType,
    requestId: int,
    workerGeneration: int,
    artifactPath: string,
    servingDigest: string,
    classCount: int,
    tensorSpec: TensorSpec,
    payloadLength: nat,
    errorCode: string,
    errorMessage: string)

  /** A default-constructed header. */
  const BLANK := Header(1, UNKNOWN, 0, 0, "", "", 0, TensorSpec([], ""), 0, "", "")

  function TypeText(t: MessageType): string {
    match t
    case LOAD => "LOAD"
    case INFER => "INFER"
    case RESULT => "RESULT"
    case STATUS => "STATUS"
    case SHUTDOWN => "SHUTDOWN"
    case UNKNOWN => "UNKNOWN"
  }

  function ParseMessageType(s: string): MessageType {
    if s == "LOAD" || s == "load" then LOAD
    else if s == "INFER" || s == "infer" then INFER
    else if s == "RESULT" || s == "result" then RESULT
    else if s == "STATUS" || s == "status" then STATUS
    else if s == "SHUTDOWN" || s == "shutdown" then SHUTDOWN
    else UNKNOWN
  }

  /** The name of a kind in small letters. */
  function Lowered(s: string): string {
    seq(|s|, i requires 0 <= i < |s| => if 'A' <= s[i] <= 'Z' then s[i] + ' ' else s[i])
  }

  /** A kind is read from its name in capitals or in small letters and from nothing else. */
  lemma {:induction false} KindsHaveTwoNames(s: string, t: MessageType)
    requires t != UNKNOWN
    ensures ParseMessageType(s) == t <==> s == TypeText(t) || s == Lowered(TypeText(t))
  {
    match t
    case LOAD => assert Lowered("LOAD") == "load";
    case INFER => assert Lowered("INFER") == "infer";
    case RESULT => assert Lowered("RESULT") == "result";
    case STATUS => assert Lowered("STATUS") == "status";
    case SHUTDOWN => assert Lowered("SHUTDOWN") == "shutdown";
  }

  /** `(int)v` for a 64-bit `v`. */
  function ToInt32(v: int): int {
    (v + INT32_LIMIT) % (2 * INT32_LIMIT) - INT32_LIMIT
  }

  // ================= the printer =================

  function HexDigit(d: nat): char
    requires d < 16
  {
    if d < 10 then '0' + d as char else 'A' + (d - 10) as char
  }

  function ControlEscape(c: char): (s: string)
    requires c < ' '
    ensures |s| >= 2 && s[0] == '\\' && s[1] >= 'b'
  {
    if c == '\n' then "\\n"
    else if c == '\r' then "\\r"
    else if c as int == 8 then "\\b"
    else if c as int == 12 then "\\f"
    else if c == '\t' then "\\t"
    else "\\u00" + [HexDigit(c as int / 16), HexDigit(c as int % 16)]
  }

  function EscapeChar(c: char): (s: string)
    ensures s != ""
  {
    if c == '"' || c == '\\' then ['\\', c]
    else if c < ' ' then ControlEscape(c)
    else [c]
  }

  function Escape(s: string): string {
    if s == "" then "" else EscapeChar(s[0]) + Escape(s[1..])
  }

  /** The members of a header object, in the order in which they are printed. */
  datatype Key =
    | ProtocolVersion | MessageKind | RequestId | WorkerGeneration | ArtifactPath | ServingDigest
    | Tensor | PayloadLength | ClassCount | ErrorCode | ErrorMessage

  const KEYS: seq<Key> :=
    [ProtocolVersion, MessageKind, RequestId, WorkerGeneration, ArtifactPath, ServingDigest,
     Tensor, PayloadLength, ClassCount, ErrorCode, ErrorMessage]

  function Rank(k: Key): (r: nat)
    ensures r < |KEYS| && KEYS[r] == k
  {
    match k
    case ProtocolVersion => 0
    case MessageKind => 1
    case RequestId => 2
    case WorkerGeneration => 3
    case ArtifactPath => 4
    case ServingDigest => 5
    case Tensor => 6
    case PayloadLength => 7
    case ClassCount => 8
    case ErrorCode => 9
    case ErrorMessage => 10
  }

  function Name(k: Key): string {
    match k
    case ProtocolVersion => "protocol_version"
    case MessageKind => "message_type"
    case RequestId => "request_id"
    case WorkerGeneration => "worker_generation"
    case ArtifactPath => "artifact_path"
    case ServingDigest => "serving_digest"
    case Tensor => "tensor_spec"
    case PayloadLength => "payload_length"
    case ClassCount => "class_count"
    case ErrorCode => "error_code"
    case ErrorMessage => "error_message"
  }

  // the members of the nested object
  const SHAPE := "shape"
  const DTYPE := "dtype"

  datatype Value = Num(n: int) | Str(s: string) | Spec(spec: TensorSpec)

  function NonEmpty(s: string): Option<Value> {
    if s == "" then None else Some(Str(s))
  }

  /** The member `k` of the object that describes `h`; empty optional fields are left out. */
  function FieldOf(h: Header, k: Key): Option<Value> {
    match k
    case ProtocolVersion => Some(Num(h.protocolVersion))
    case MessageKind => Some(Str(TypeText(h.messageType)))
    case RequestId => Some(Num(h.requestId))
    case WorkerGeneration => Some(Num(h.workerGeneration))
    case ArtifactPath => NonEmpty(h.artifactPath)
    case ServingDigest => NonEmpty(h.servingDigest)
    case Tensor => if h.tensorSpec == TensorSpec([], "") then None else Some(Spec(h.tensorSpec))
    case PayloadLength => Some(Num(h.payloadLength))
    case ClassCount => Some(Num(h.classCount))
    case ErrorCode => NonEmpty(h.errorCode)
    case ErrorMessage => NonEmpty(h.errorMessage)
  }

  function Quote(s: string): (q: string)
    ensures |q| == |s| + 2
  {
    "\"" + (s + "\"")
  }

  function ShapeText(shape: seq<int>): string {
    if shape == [] then "" else IntText(shape[0]) + MoreShapeText(shape[1..])
  }

  function MoreShapeText(shape: seq<int>): string {
    if shape == [] then "" else "," + (IntText(shape[0]) + MoreShapeText(shape[1..]))
  }

  /** The escaped text of `s`, its closing quote, and what follows. */
  function Inside(s: string, rest: string): string {
    Escape(s) + ("\"" + rest)
  }

  function StringThen(s: string, rest: string): string {
    "\"" + Inside(s, rest)
  }

  function ValueThen(v: Value, rest: string): string {
    match v
    case Num(n) => IntText(n) + rest
    case Str(s) => StringThen(s, rest)
    case Spec(spec) =>
      "{" + (Quote(SHAPE) + (":[" + (ShapeText(spec.shape) +
                                       ("]," + (Quote(DTYPE) + (":" + StringThen(spec.dtype, "}" + rest)))))))
  }

  function MemberThen(k: Key, v: Value, rest: string): string {
    Quote(Name(k)) + (":" + ValueThen(v, rest))
  }

  /** The text of the object from its `i`-th possible member to the closing brace. */
  function Body(h: Header, i: nat): string
    requires i <= |KEYS|
    decreases |KEYS| - i
  {
    if i == |KEYS| then "}"
    else
      match FieldOf(h, KEYS[i])
      case None => Body(h, i + 1)
      case Some(v) => (if i == 0 then "{" else ",") + MemberThen(KEYS[i], v, Body(h, i + 1))
  }

  function HeaderText(h: Header): string {
    Body(h, 0)
  }

  // ================= the reader =================

  /** The characters up to the first unescaped quote, each escape replaced by the escaped character. */
  function Unescape(s: string): string {
    if s == "" || s[0] == '"' then ""
    else if s[0] == '\\' && |s| > 1 then [s[1]] + Unescape(s[2..])
    else [s[0]] + Unescape(s[1..])
  }

  /** What follows the colon after the first `"key"`, white space skipped. */
  function ValueAfter(js: string, key: string): Option<string> {
    match Seek(js, Quote(key))
    case None => None
    case Some(at) =>
      match Seek(at, ":")
      case None => None
      case Some(colon) => Some(SkipSpace(colon[1..]))
  }

  /** Behind the first quoted name the reader goes to the first colon and skips white space; without the name or the
      colon there is nothing. */
  lemma {:induction false} ValueFound(before: string, key: string, between: string, blank: string, v: string)
    requires forall i | 0 <= i < |before| ::
               !OccursAt(before + (Quote(key) + (between + (":" + (blank + v)))), Quote(key), i)
    requires (forall i | 0 <= i < |key| :: key[i] != ':') && (forall i | 0 <= i < |between| :: between[i] != ':')
    requires (forall i | 0 <= i < |blank| :: IsSpace(blank[i])) && (v == "" || !IsSpace(v[0]))
    ensures ValueAfter(before + (Quote(key) + (between + (":" + (blank + v)))), key) == Some(v)
  {
    hide Seek, SkipSpace, OccursAt;
    var rest := ":" + (blank + v);
    var at := Quote(key) + (between + rest);
    FirstAt(before, Quote(key), between + rest);
    NoColonBefore(Quote(key), between + rest);
    NoColonBefore(between, rest);
    FirstColon(rest);
    assert rest[1..] == blank + v;
    SkipsBlanks(blank, v);
  }

  lemma {:induction false} FirstAt(before: string, q: string, rest: string)
    requires q != "" && forall i | 0 <= i < |before| :: !OccursAt(before + (q + rest), q, i)
    ensures Seek(before + (q + rest), q) == Some(q + rest)
  {
    var t := before + (q + rest);
    if before == "" {
      assert t == q + rest;
    } else {
      assert t[1..] == before[1..] + (q + rest);
      assert !OccursAt(t, q, 0);
      forall i | 0 <= i < |before[1..]|
        ensures !OccursAt(t[1..], q, i)
      {
        assert !OccursAt(t, q, i + 1);
        assert i + 1 + |q| <= |t| ==> t[1..][i..i + |q|] == t[i + 1..i + 1 + |q|];
      }
      FirstAt(before[1..], q, rest);
    }
  }

  lemma {:induction false} NoColonBefore(a: string, rest: string)
    requires forall i | 0 <= i < |a| :: a[i] != ':'
    ensures Seek(a + rest, ":") == Seek(rest, ":")
  {
    if a == "" {
      assert a + rest == rest;
    } else {
      assert (a + rest)[1..] == a[1..] + rest;
      assert (a + rest)[0] == a[0] && ":"[0] == ':';
      NoColonBefore(a[1..], rest);
    }
  }

  lemma {:induction false} FirstColon(rest: string)
    requires ":" <= rest
    ensures Seek(rest, ":") == Some(rest)
  {
  }

  function StringField(js: string, key: string): string {
    match ValueAfter(js, key)
    case None => ""
    case Some(v) => if v == "" || v[0] != '"' then "" else Unescape(v[1..])
  }

  /** The part of `s` before its first ',' or '}'. */
  function TokenOf(s: string): Option<string> {
    if s == "" then None
    else if s[0] == ',' || s[0] == '}' then Some("")
    else
      match TokenOf(s[1..])
      case None => None
      case Some(t) => Some([s[0]] + t)
  }

  function IntField(js: string, key: string): Option<int> {
    match ValueAfter(js, key)
    case None => None
    case Some(v) =>
      match TokenOf(v)
      case None => None
      case Some(tok) => ParseInteger(Trim(tok), INT64_LIMIT)
  }

  function ShapeItem(tok: string): seq<int> {
    if Trim(tok) == "" then []
    else
      match ParseInteger(Trim(tok), INT32_LIMIT)
      case None => []
      case Some(n) => [n]
  }

  /** The integers of a comma-separated list; tokens that are not integers are dropped. */
  function ShapeItems(s: string): seq<int>
    decreases |s|
  {
    match Seek(s, ",")
    case None => ShapeItem(s)
    case Some(comma) => ShapeItem(s[..|s| - |comma|]) + ShapeItems(comma[1..])
  }

  function ShapeField(at: string): seq<int> {
    match Seek(at, Quote(SHAPE))
    case None => []
    case Some(key) =>
      match Seek(key, "[")
      case None => []
      case Some(open) =>
        match Seek(open[1..], "]")
        case None => []
        case Some(close) => ShapeItems(open[1..|open| - |close|])
  }

  function DtypeField(at: string): string {
    match Seek(at, Quote(DTYPE))
    case None => ""
    case Some(key) =>
      match Seek(key, ":")
      case None => ""
      case Some(colon) =>
        match Seek(colon, "\"")
        case None => ""
        case Some(q1) =>
          match Seek(q1[1..], "\"")
          case None => ""
          case Some(q2) => q1[1..|q1| - |q2|]
  }

  function TensorField(js: string): TensorSpec {
    match Seek(js, Quote(Name(Tensor)))
    case None => TensorSpec([], "")
    case Some(at) => TensorSpec(ShapeField(at), DtypeField(at))
  }

  /** `json_to_header` writes into a header it is given, also when it fails half way. */
  datatype Parsed = Parsed(ok: bool, header: Header, err: string)

  function OrZero(n: Option<int>): int {
    match n
    case None => 0
    case Some(v) => v
  }

  /** The header made of what was read for each member. */
  function Assemble(number: Key -> Option<int>, text: Key -> string, kind: string, spec: TensorSpec,
                    h0: Header): Parsed {
    match number(ProtocolVersion)
    case None => Parsed(false, h0, "missing protocol_version")
    case Some(pv) =>
      var h := h0.(protocolVersion := ToInt32(pv), messageType := ParseMessageType(kind));
      if h.messageType == UNKNOWN then Parsed(false, h, "unknown message_type")
      else
        var length := OrZero(number(PayloadLength));
        Parsed(true,
               h.(requestId := OrZero(number(RequestId)),
                  workerGeneration := OrZero(number(WorkerGeneration)),
                  artifactPath := text(ArtifactPath),
                  servingDigest := text(ServingDigest),
                  errorCode := text(ErrorCode),
                  errorMessage := text(ErrorMessage),
                  payloadLength := if length < 0 then 0 else length,
                  classCount := ToInt32(OrZero(number(ClassCount))),
                  tensorSpec := spec),
               "")
  }

  function KindText(js: string): string {
    var kind := StringField(js, Name(MessageKind));
    if kind == "" then StringField(js, "type") else kind
  }

  function ParseHeader(js: string, h0: Header): Parsed {
    if |js| > MAX_HEADER_BYTES then Parsed(false, h0, "header exceeds 16 KiB")
    else Assemble(k => IntField(js, Name(k)), k => StringField(js, Name(k)), KindText(js), TensorField(js), h0)
  }

  /** A header of at most 16 KiB with a version and a known kind, which an older name may give, can be read; a failure
      leaves what was read before it. */
  lemma {:induction false} ParseSays(js: string, h0: Header)
    ensures var p, version := ParseHeader(js, h0), IntField(js, "protocol_version");
            var kind := ParseMessageType(if StringField(js, "message_type") == "" then StringField(js, "type")
                                         else StringField(js, "message_type"));
            && (p.ok <==> |js| <= 16 * 1024 && version.Some? && kind != UNKNOWN)
            && (|js| > 16 * 1024 ==> p == Parsed(false, h0, "header exceeds 16 KiB"))
            && (|js| <= 16 * 1024 && version.None? ==> p == Parsed(false, h0, "missing protocol_version"))
            && (|js| <= 16 * 1024 && version.Some? ==>
                  && p.header.messageType == kind && p.err == (if kind == UNKNOWN then "unknown message_type" else "")
                  && -0x8000_0000 <= p.header.protocolVersion < 0x8000_0000
                  && (version.value - p.header.protocolVersion) % 0x1_0000_0000 == 0)
  {
    hide IntField, StringField, TensorField, ParseMessageType, ToInt32;
    Cut32(OrZero(IntField(js, "protocol_version")));
  }

  /** Absent members are empty or zero, a negative payload length is zero, and 64 bits are cut to 32 where the field has
      no more. */
  lemma {:induction false} ParseReadsMembers(js: string, h0: Header)
    requires ParseHeader(js, h0).ok
    ensures var h := ParseHeader(js, h0).header;
            && h.requestId == OrZero(IntField(js, "request_id"))
            && h.workerGeneration == OrZero(IntField(js, "worker_generation"))
            && h.artifactPath == StringField(js, "artifact_path")
            && h.servingDigest == StringField(js, "serving_digest")
            && h.errorCode == StringField(js, "error_code")
            && h.errorMessage == StringField(js, "error_message")
            && h.tensorSpec == TensorField(js)
            && var length, classes := IntField(js, "payload_length"), OrZero(IntField(js, "class_count"));
               && h.payloadLength == (if length.Some? && length.value > 0 then length.value else 0)
               && -0x8000_0000 <= h.classCount < 0x8000_0000 && (classes - h.classCount) % 0x1_0000_0000 == 0
  {
    hide IntField, StringField, TensorField, ParseMessageType, ToInt32, KindText;
    Cut32(OrZero(IntField(js, "class_count")));
  }

  lemma {:induction false} Cut32(v: int)
    ensures -0x8000_0000 <= ToInt32(v) < 0x8000_0000 && (v - ToInt32(v)) % 0x1_0000_0000 == 0
  {
  }
}
