/** The native side of the worker protocol: printing and reading headers with index-advancing loops,
    validation, and length-prefixed framing over a byte stream that moves any number of bytes at a
    time. */
module Protocol {
  import opened Text
  import opened HeaderJson

  const PROTOCOL_VERSION := 1
  const MAX_TENSOR_BYTES := 16 * 1024 * 1024
  const MAX_MODEL_BYTES := 256 * 1024 * 1024
  const RESULT_BYTES := 20 * 6 * 4

  // ================= printing =================

  method JsonEscape(s: string) returns (o: string)
    ensures o == Escape(s)
  {
    o := "";
    for i := 0 to |s|
      invariant o + Escape(s[i..]) == Escape(s)
    {
      EscapeStep(s, i, o);
      o := o + EscapeChar(s[i]);
    }
  }

  lemma {:induction false} EscapeStep(s: string, i: nat, o: string)
    requires i < |s|
    ensures o + Escape(s[i..]) == (o + EscapeChar(s[i])) + Escape(s[i + 1..])
  {
    hide EscapeChar;
    assert s[i..][1..] == s[i + 1..];
  }

  method JsonShape(shape: seq<int>) returns (o: string)
    ensures o == ShapeText(shape)
  {
    o := "";
    for i := 0 to |shape|
      invariant o + RestOfShape(shape, i) == ShapeText(shape)
    {
      ShapeStep(shape, i, o);
      if i > 0 { o := o + ","; }
      o := o + IntText(shape[i]);
    }
  }

  function RestOfShape(shape: seq<int>, i: nat): string
    requires i <= |shape|
  {
    if i == 0 then ShapeText(shape) else MoreShapeText(shape[i..])
  }

  lemma {:induction false} ShapeStep(shape: seq<int>, i: nat, o: string)
    requires i < |shape|
    ensures o + RestOfShape(shape, i) ==
            ((o + (if i > 0 then "," else "")) + IntText(shape[i])) + RestOfShape(shape, i + 1)
  {
    hide IntText;
    assert shape[i..][1..] == shape[i + 1..];
  }

  /** What the `i`-th member contributes to the text. */
  function Piece(h: Header, i: nat): string
    requires i < |KEYS|
  {
    match FieldOf(h, KEYS[i])
    case None => ""
    case Some(v) => (if i == 0 then "{" else ",") + MemberThen(KEYS[i], v, "")
  }

  lemma {:induction false} Cat(a: string, b: string, c: string)
    ensures (a + b) + c == a + (b + c)
  {
  }

  lemma {:induction false} StringSplits(s: string, rest: string)
    ensures StringThen(s, rest) == StringThen(s, "") + rest
  {
    Cat("\"", "", rest);
    Cat(Escape(s), "\"" + "", rest);
    Cat("\"", Inside(s, ""), rest);
  }

  lemma {:induction false} SpecSplits(spec: TensorSpec, rest: string)
    ensures ValueThen(Spec(spec), rest) == ValueThen(Spec(spec), "") + rest
  {
    var s0, s1 := StringThen(spec.dtype, "}" + ""), StringThen(spec.dtype, "}" + rest);
    StringSplits(spec.dtype, "}" + "");
    StringSplits(spec.dtype, "}" + rest);
    Cat("}", "", rest);
    Cat(StringThen(spec.dtype, ""), "}" + "", rest);
    assert s1 == s0 + rest;
    NestCat("{", Quote(SHAPE), ":[", ShapeText(spec.shape), "],", Quote(DTYPE), ":", s0, rest);
  }

  lemma {:induction false} NestCat(a: string, b: string, c: string, d: string, e: string, f: string, g: string,
                                   h: string, rest: string)
    ensures a + (b + (c + (d + (e + (f + (g + (h + rest))))))) == (a + (b + (c + (d + (e + (f + (g + h))))))) + rest
  {
    Cat(g, h, rest);
    Cat(f, g + h, rest);
    Cat(e, f + (g + h), rest);
    Cat(d, e + (f + (g + h)), rest);
    Cat(c, d + (e + (f + (g + h))), rest);
    Cat(b, c + (d + (e + (f + (g + h)))), rest);
    Cat(a, b + (c + (d + (e + (f + (g + h))))), rest);
  }

  lemma {:induction false} MemberSplits(k: Key, v: Value, rest: string)
    ensures MemberThen(k, v, rest) == MemberThen(k, v, "") + rest
  {
    match v {
      case Num(n) => Cat(IntText(n), "", rest);
      case Str(s) => StringSplits(s, rest);
      case Spec(spec) => SpecSplits(spec, rest);
    }
    Cat(":", ValueThen(v, ""), rest);
    Cat(Quote(Name(k)), ":" + ValueThen(v, ""), rest);
  }

  lemma {:induction false} Printed(h: Header, oss: string, i: nat)
    requires i < |KEYS| && oss + Body(h, i) == HeaderText(h)
    ensures (oss + Piece(h, i)) + Body(h, i + 1) == HeaderText(h)
  {
    PieceFits(h, i, Body(h, i), Body(h, i + 1));
    Cat(oss, Piece(h, i), Body(h, i + 1));
  }

  lemma {:induction false} PieceFits(h: Header, i: nat, body: string, rest: string)
    requires i < |KEYS|
    requires body == match FieldOf(h, KEYS[i])
                     case None => rest
                     case Some(v) => (if i == 0 then "{" else ",") + MemberThen(KEYS[i], v, rest)
    ensures body == Piece(h, i) + rest
  {
    match FieldOf(h, KEYS[i])
    case None => assert "" + rest == rest;
    case Some(v) =>
      MemberSplits(KEYS[i], v, rest);
      Cat(if i == 0 then "{" else ",", MemberThen(KEYS[i], v, ""), rest);
  }

  method NumberMember(k: Key, n: int) returns (o: string)
    ensures o == MemberThen(k, Num(n), "")
  {
    o := Quote(Name(k)) + ":" + IntText(n);
    assert IntText(n) + "" == IntText(n);
  }

  method StringMember(k: Key, s: string) returns (o: string)
    ensures o == MemberThen(k, Str(s), "")
  {
    hide Name, Escape;
    var text := JsonEscape(s);
    o := Quote(Name(k)) + ":\"" + text + "\"";
    assert ":\"" + text + "\"" == ":" + ("\"" + (text + ("\"" + "")));
    assert o == Quote(Name(k)) + (":\"" + text + "\"");
  }

  method TensorMember(spec: TensorSpec) returns (o: string)
    ensures o == MemberThen(Tensor, Spec(spec), "")
  {
    var shape := JsonShape(spec.shape);
    var dtype := JsonEscape(spec.dtype);
    var rest := "]," + (Quote(DTYPE) + (":" + ("\"" + (dtype + ("\"" + "}")))));
    o := Quote(Name(Tensor)) + (":" + ("{" + (Quote(SHAPE) + (":[" + (shape + rest)))));
    assert "}" + "" == "}";
  }

  /** Prints member `i`, or nothing when it is left out. */
  method PrintMember(h: Header, oss: string, i: nat) returns (r: string)
    requires i < |KEYS| && oss + Body(h, i) == HeaderText(h)
    ensures r + Body(h, i + 1) == HeaderText(h)
  {
    Printed(h, oss, i);
    var piece := MemberPiece(h, i);
    r := oss + piece;
  }

  method MemberPiece(h: Header, i: nat) returns (piece: string)
    requires i < |KEYS|
    ensures piece == Piece(h, i)
  {
    hide MemberThen;
    match FieldOf(h, KEYS[i]) {
      case None =>
        piece := "";
        return;
      case Some(Num(n)) => piece := NumberMember(KEYS[i], n);
      case Some(Str(s)) => piece := StringMember(KEYS[i], s);
      case Some(Spec(spec)) => piece := TensorMember(spec);
    }
    piece := (if i == 0 then "{" else ",") + piece;
  }

  lemma {:induction false} BodyEnds(h: Header)
    ensures Body(h, 0) == HeaderText(h) && Body(h, |KEYS|) == "}"
  {
  }

  method HeaderToJson(h: Header) returns (oss: string)
    ensures oss == HeaderText(h)
  {
    hide Body, HeaderText;
    oss := "";
    BodyEnds(h);
    assert oss + Body(h, 0) == Body(h, 0);
    // the source writes the eleven statements out
    for i := 0 to |KEYS|
      invariant oss + Body(h, i) == HeaderText(h)
    {
      oss := PrintMember(h, oss, i);
    }
    oss := oss + "}";
  }

  // ================= reading =================

  method SkipSpaces(js: string, start: nat) returns (i: nat)
    requires start <= |js|
    ensures start <= i <= |js| && js[i..] == SkipSpace(js[start..])
  {
    i := start;
    while i < |js| && IsSpace(js[i])
      invariant start <= i <= |js|
      invariant SkipSpace(js[i..]) == SkipSpace(js[start..])
    {
      assert js[i..][1..] == js[i + 1..];
      i := i + 1;
    }
  }

  /** The position of the value of `key`, or -1. */
  method FindValue(js: string, key: string) returns (i: int)
    ensures i == -1 <==> ValueAfter(js, key).None?
    ensures i != -1 ==> 0 <= i <= |js| && ValueAfter(js, key) == Some(js[i..])
  {
    hide Seek, Find, SkipSpace;
    assert js[0..] == js;
    i := Find(js, Quote(key), 0);
    if i == -1 { return; }
    i := Find(js, ":", i);
    if i == -1 { return; }
    assert js[i..][1..] == js[i + 1..];
    i := SkipSpaces(js, i + 1);
  }

  /** Reads up to the next unescaped quote. */
  method ReadQuoted(js: string, start: nat) returns (out: string)
    requires start <= |js|
    ensures out == Unescape(js[start..])
  {
    out := "";
    var i := start;
    while i < |js| && js[i] != '"'
      invariant start <= i <= |js|
      invariant out + Unescape(js[i..]) == Unescape(js[start..])
    {
      UnescapeStep(js, i, out);
      if js[i] == '\\' && i + 1 < |js| {
        out := out + [js[i + 1]];
        i := i + 2;
      } else {
        out := out + [js[i]];
        i := i + 1;
      }
    }
  }

  lemma {:induction false} UnescapeStep(js: string, i: nat, out: string)
    requires i < |js| && js[i] != '"'
    ensures out + Unescape(js[i..]) ==
            if js[i] == '\\' && i + 1 < |js| then (out + [js[i + 1]]) + Unescape(js[i + 2..])
            else (out + [js[i]]) + Unescape(js[i + 1..])
  {
    assert js[i..][1..] == js[i + 1..];
    if js[i] == '\\' && i + 1 < |js| {
      assert js[i..][2..] == js[i + 2..];
    }
  }

  method ExtractString(js: string, key: string) returns (out: string)
    ensures out == StringField(js, key)
  {
    var i := FindValue(js, key);
    if i == -1 || i >= |js| || js[i] != '"' { return ""; }
    assert js[i..][1..] == js[i + 1..];
    out := ReadQuoted(js, i + 1);
  }

  lemma {:induction false} TokenExtends(s: string, j: nat)
    requires j <= |s| && forall i | 0 <= i < j :: s[i] != ',' && s[i] != '}'
    ensures j == |s| ==> TokenOf(s).None?
    ensures j < |s| && (s[j] == ',' || s[j] == '}') ==> TokenOf(s) == Some(s[..j])
  {
    if j > 0 {
      TokenExtends(s[1..], j - 1);
      assert s[..j] == [s[0]] + s[1..][..j - 1];
    }
  }

  method ExtractInt64(js: string, key: string) returns (out: Option<int>)
    ensures out == IntField(js, key)
  {
    hide ValueAfter, TokenOf, Trim, ParseInteger;
    var i := FindValue(js, key);
    if i == -1 { return None; }
    var j := i;
    while j < |js| && js[j] != ',' && js[j] != '}'
      invariant i <= j <= |js|
      invariant forall x | i <= x < j :: js[x] != ',' && js[x] != '}'
    {
      j := j + 1;
    }
    TokenExtends(js[i..], j - i);
    if j == |js| { return None; }
    assert js[i..][..j - i] == js[i..j];
    var tok := TrimToken(js[i..j]);
    out := ParseInteger(tok, INT64_LIMIT);
  }

  method ReadItem(tok: string) returns (items: seq<int>)
    ensures items == ShapeItem(tok)
  {
    var t := TrimToken(tok);
    if t == "" { return []; }
    var n := ParseInteger(t, INT32_LIMIT);
    items := if n.Some? then [n.value] else [];
  }

  /** The `getline` loop over a comma-separated list. */
  method ExtractItems(inside: string) returns (shape: seq<int>)
    ensures shape == ShapeItems(inside)
  {
    hide *;
    shape := [];
    var i, more := 0, true;
    assert inside[0..] == inside;
    while more
      invariant 0 <= i <= |inside|
      invariant shape + (if more then ShapeItems(inside[i..]) else []) == ShapeItems(inside)
      decreases |inside| - i, more
    {
      var j := Find(inside, ",", i);
      var end := if j == -1 then |inside| else j;
      ItemsStep(inside, i, j, shape);
      var items := ReadItem(inside[i..end]);
      shape := shape + items;
      if j == -1 { more := false; } else { i := j + 1; }
    }
  }

  lemma {:induction false} LastItem(t: string)
    requires Seek(t, ",").None?
    ensures ShapeItems(t) == ShapeItem(t)
  {
  }

  lemma {:induction false} NextItem(t: string, comma: string)
    requires Seek(t, ",") == Some(comma)
    ensures ShapeItems(t) == ShapeItem(t[..|t| - |comma|]) + ShapeItems(comma[1..])
  {
  }

  lemma {:induction false} ItemsStep(inside: string, i: nat, j: int, shape: seq<int>)
    requires i <= |inside| && j == Find(inside, ",", i)
    ensures j == -1 ==> shape + ShapeItems(inside[i..]) == shape + ShapeItem(inside[i..|inside|])
    ensures j != -1 ==>
              shape + ShapeItems(inside[i..]) == (shape + ShapeItem(inside[i..j])) + ShapeItems(inside[j + 1..])
  {
    hide *;
    if j == -1 {
      LastItem(inside[i..]);
      assert inside[i..|inside|] == inside[i..];
    } else {
      NextItem(inside[i..], inside[j..]);
      assert inside[i..][..j - i] == inside[i..j];
      assert inside[j..][1..] == inside[j + 1..];
    }
  }

  method ExtractShape(js: string, ti: nat) returns (shape: seq<int>)
    requires ti <= |js|
    ensures shape == ShapeField(js[ti..])
  {
    hide ShapeItems, Quote, Find;
    var si := Find(js, Quote(SHAPE), ti);
    if si == -1 { return []; }
    var lb := Find(js, "[", si);
    if lb == -1 { return []; }
    SeekBehind(js, lb, "[", "]");
    var rb := Find(js, "]", lb);
    if rb == -1 { return []; }
    assert js[lb..][1..|js[lb..]| - |js[rb..]|] == js[lb + 1..rb];
    shape := ExtractItems(js[lb + 1..rb]);
  }

  /** Searching for another character may start behind the one just found. */
  lemma {:induction false} SeekBehind(js: string, i: nat, found: string, q: string)
    requires i < |js| && |found| == 1 && |q| == 1 && found != q
    requires js[i..i + 1] == found
    ensures Seek(js[i..], q) == Seek(js[i..][1..], q)
  {
    assert js[i..][0] == found[0] != q[0];
  }

  method ExtractDtype(js: string, ti: nat) returns (dtype: string)
    requires ti <= |js|
    ensures dtype == DtypeField(js[ti..])
  {
    hide Quote, Find, Seek;
    var di := Find(js, Quote(DTYPE), ti);
    if di == -1 { return ""; }
    var c := Find(js, ":", di);
    if c == -1 { return ""; }
    var q1 := Find(js, "\"", c);
    if q1 == -1 { return ""; }
    assert js[q1..][1..] == js[q1 + 1..];
    var q2 := Find(js, "\"", q1 + 1);
    if q2 == -1 { return ""; }
    assert js[q1..][1..|js[q1..]| - |js[q2..]|] == js[q1 + 1..q2];
    dtype := js[q1 + 1..q2];
  }

  method ExtractTensorSpec(js: string) returns (spec: TensorSpec)
    ensures spec == TensorField(js)
  {
    hide Quote, Find, Seek, ShapeField, DtypeField;
    assert js[0..] == js;
    var ti := Find(js, Quote(Name(Tensor)), 0);
    if ti == -1 { return TensorSpec([], ""); }
    var shape := ExtractShape(js, ti);
    var dtype := ExtractDtype(js, ti);
    spec := TensorSpec(shape, dtype);
  }

  /** Overwrites the given header field by field; a failure leaves the fields read so far. */
  method JsonToHeader(js: string, h0: Header) returns (ok: bool, h: Header, err: string)
    ensures Parsed(ok, h, err) == ParseHeader(js, h0)
  {
    hide IntField, StringField, TensorField, ToInt32, Name;
    h := h0;
    if |js| > MAX_HEADER_BYTES { return false, h, "header exceeds 16 KiB"; }
    var pv := ExtractInt64(js, Name(ProtocolVersion));
    if pv.None? { return false, h, "missing protocol_version"; }
    h := h.(protocolVersion := ToInt32(pv.value));
    var mt := ExtractString(js, Name(MessageKind));
    if mt == "" { mt := ExtractString(js, "type"); }
    h := h.(messageType := ParseMessageType(mt));
    if h.messageType == UNKNOWN { return false, h, "unknown message_type"; }
    var requestId := ExtractInt64(js, Name(RequestId));
    var generation := ExtractInt64(js, Name(WorkerGeneration));
    h := h.(requestId := OrZero(requestId), workerGeneration := OrZero(generation));
    var path := ExtractString(js, Name(ArtifactPath));
    var digest := ExtractString(js, Name(ServingDigest));
    h := h.(artifactPath := path, servingDigest := digest);
    var code := ExtractString(js, Name(ErrorCode));
    var message := ExtractString(js, Name(ErrorMessage));
    h := h.(errorCode := code, errorMessage := message);
    var length := ExtractInt64(js, Name(PayloadLength));
    h := h.(payloadLength := if length.Some? && length.value >= 0 then length.value else 0);
    var classes := ExtractInt64(js, Name(ClassCount));
    h := h.(classCount := ToInt32(OrZero(classes)));
    var spec := ExtractTensorSpec(js);
    h := h.(tensorSpec := spec);
    return true, h, "";
  }

  // ================= validation =================

  function PayloadLimit(t: MessageType): nat {
    match t
    case LOAD => MAX_MODEL_BYTES
    case RESULT => RESULT_BYTES
    case _ => MAX_TENSOR_BYTES
  }

  /** The reason why a header is refused, if it is. */
  function ValidateHeader(h: Header): Option<string> {
    if h.protocolVersion != PROTOCOL_VERSION then Some("bad protocol_version")
    else if h.messageType == UNKNOWN then Some("unknown message_type")
    else if h.requestId < 0 then Some("negative request_id")
    else if h.workerGeneration < 0 then Some("negative worker_generation")
    else if h.payloadLength > PayloadLimit(h.messageType) then Some("payload_length exceeds bound")
    else if |h.errorMessage| > 1024 then Some("error_message too long")
    else if h.messageType == LOAD && h.artifactPath == "" then Some("LOAD requires artifact_path")
    else if |h.artifactPath| > 4096 then Some("artifact_path too long")
    else if Seek(h.artifactPath, "..").Some? then Some("artifact_path traversal")
    else None
  }

  /** The headers that are not refused. */
  lemma {:induction false} ValidHeaders(h: Header)
    ensures ValidateHeader(h).None? <==>
            && h.protocolVersion == 1 && h.messageType in {LOAD, INFER, RESULT, STATUS, SHUTDOWN}
            && h.requestId >= 0 && h.workerGeneration >= 0
            && h.payloadLength <= (if h.messageType == LOAD then 256 * 1024 * 1024
                                   else if h.messageType == RESULT then 480 else 16 * 1024 * 1024)
            && |h.errorMessage| <= 1024 && |h.artifactPath| <= 4096 && (h.messageType == LOAD ==> h.artifactPath != "")
            && forall i | 0 <= i < |h.artifactPath| - 1 :: !(h.artifactPath[i] == '.' && h.artifactPath[i + 1] == '.')
    ensures ValidateHeader(h) == Some("payload_length exceeds bound") <==>
            && h.protocolVersion == 1 && h.messageType != UNKNOWN && h.requestId >= 0 && h.workerGeneration >= 0
            && h.payloadLength > (if h.messageType == LOAD then 256 * 1024 * 1024
                                  else if h.messageType == RESULT then 480 else 16 * 1024 * 1024)
    ensures ValidateHeader(h).Some? ==>
              ValidateHeader(h).value in
                ["bad protocol_version", "unknown message_type", "negative request_id", "negative worker_generation",
                 "payload_length exceeds bound", "error_message too long", "LOAD requires artifact_path",
                 "artifact_path too long", "artifact_path traversal"]
  {
    TwoDots(h.artifactPath);
  }

  function Product(shape: seq<int>): int {
    if shape == [] then 1 else Product(shape[..|shape| - 1]) * shape[|shape| - 1]
  }

  /** An input tensor: float32, [1, 3, H, W] with dimensions up to 4096, at most 16 MiB, and exactly
      as many bytes as the shape says. */
  predicate TensorFits(dtype: string, shape: seq<int>, bytes: nat) {
    && dtype == "float32"
    && |shape| == 4 && shape[0] == 1 && shape[1] == 3
    && (forall i | 0 <= i < |shape| :: 0 < shape[i] <= 4096)
    && 4 * Product(shape) <= MAX_TENSOR_BYTES
    && bytes == 4 * Product(shape)
  }

  lemma {:induction false} ProductGrows(shape: seq<int>, i: nat)
    requires forall k | 0 <= k < |shape| :: 0 < shape[k]
    requires i <= |shape|
    ensures 0 < Product(shape[..i]) <= Product(shape)
    decreases |shape|
  {
    if i < |shape| {
      var init := shape[..|shape| - 1];
      ProductGrows(init, i);
      assert init[..i] == shape[..i];
      assert Product(init) <= Product(init) * shape[|shape| - 1];
    } else {
      assert shape[..i] == shape;
      if shape != [] {
        ProductGrows(shape[..|shape| - 1], |shape| - 1);
        assert shape[..|shape| - 1][..|shape| - 1] == shape[..|shape| - 1];
      }
    }
  }

  /** The native check: the bound is tested before each multiplication, so `size_t` never wraps. */
  method ValidateTensorSpec(spec: TensorSpec, payloadLength: nat) returns (ok: bool)
    ensures ok <==> TensorFits(spec.dtype, spec.shape, payloadLength)
  {
    var shape := spec.shape;
    if spec.dtype != "float32" { return false; }
    if |shape| != 4 { return false; }
    if shape[0] != 1 || shape[1] != 3 { return false; }
    for i := 0 to |shape|
      invariant forall k | 0 <= k < i :: 0 < shape[k] <= 4096
    {
      if shape[i] <= 0 || shape[i] > 4096 { return false; }
    }
    var elems := 1;
    for i := 0 to |shape|
      invariant elems == Product(shape[..i])
    {
      if elems > MAX_TENSOR_BYTES / 4 {
        ProductGrows(shape, i);
        return false;
      }
      assert shape[..i + 1][..i] == shape[..i];
      elems := elems * shape[i];
    }
    assert shape[..|shape|] == shape;
    var want := elems * 4;
    if want > MAX_TENSOR_BYTES { return false; }
    return payloadLength == want;
  }

  /** The supervisor's check accepts the same tensors: it tests the bound after each multiplication. */
  method ValidateTensor(payloadLength: nat, shape: seq<int>, dtype: string) returns (ok: bool)
    ensures ok <==> TensorFits(dtype, shape, payloadLength)
  {
    if dtype != "float32" { return false; }
    if |shape| != 4 || shape[0] != 1 || shape[1] != 3 { return false; }
    var n := 1;
    for i := 0 to |shape|
      invariant n == Product(shape[..i])
      invariant forall k | 0 <= k < i :: 0 < shape[k] <= 4096
      invariant 4 * n <= MAX_TENSOR_BYTES
    {
      if shape[i] <= 0 || shape[i] > 4096 { return false; }
      assert shape[..i + 1][..i] == shape[..i];
      n := n * shape[i];
      if n * 4 > MAX_TENSOR_BYTES {
        if forall k | 0 <= k < |shape| :: 0 < shape[k] { ProductGrows(shape, i + 1); }
        return false;
      }
    }
    assert shape[..|shape|] == shape;
    return payloadLength == n * 4;
  }
}
