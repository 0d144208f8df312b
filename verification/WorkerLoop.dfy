/** The native worker process: a model that is loaded and unloaded, and the loop that answers LOAD,
    INFER, STATUS and SHUTDOWN.  What the device runtime does is a parameter of each step. */
module WorkerLoop {
  import opened Text
  import opened HeaderJson
  import opened Protocol
  import opened Detections
  import opened PostprocessYolo
  import Framing
  import PythonPeer

  const SIZE_LIMIT := 0x1_0000_0000_0000_0000

  /** What the runtime makes of an artifact. */
  datatype LoadOutcome =
    | MapFailed
    | NotGood
    | NoTensors
    | Opened(inputShape: seq<nat>, outputShape: seq<nat>, outputBytes: nat)

  /** The device's part in one step; `output(i)` is what a forward pass leaves in output element `i`. */
  datatype Device = Device(load: LoadOutcome, inputFinite: bool, forwardOk: bool, outputFinite: bool,
                           output: nat -> real)

  /** A product in `size_t`. */
  function Elements(shape: seq<nat>): nat {
    if shape == [] then 1 else Elements(shape[..|shape| - 1]) * shape[|shape| - 1] % SIZE_LIMIT
  }

  /** C of a [C, N] or [1, C, N] shape, otherwise zero. */
  function ChannelsOf(shape: seq<nat>): nat {
    if |shape| == 2 then shape[0] else if |shape| == 3 && shape[0] == 1 then shape[1] else 0
  }

  /** N of such a shape if the byte count is that of the shape, otherwise zero. */
  function ColsOf(shape: seq<nat>, bytes: nat): nat {
    var cols := if |shape| == 2 then shape[1] else if |shape| == 3 && shape[0] == 1 then shape[2] else 0;
    if cols == 0 || ChannelsOf(shape) == 0 || bytes / 4 != ChannelsOf(shape) * cols then 0 else cols
  }

  /** An output whose rows the postprocessor will index for this many classes. */
  predicate FitsClasses(shape: seq<nat>, bytes: nat, classCount: int) {
    && ColsOf(shape, bytes) > 0 && ChannelsOf(shape) == classCount + 4
    && Elements(shape) == ChannelsOf(shape) * ColsOf(shape, bytes)
  }

  /** Owns the mapped artifact and the runtime model built on it. */
  class Model {
    var live: bool
    var mapped: bool
    var inputs: Option<seq<nat>>
    var outputs: Option<(seq<nat>, nat)>

    /** The mapping outlives the model. */
    predicate Lifetime()
      reads this
    {
      live ==> mapped && inputs.Some? && outputs.Some?
    }

    constructor ()
      ensures !live && !mapped && inputs.None? && outputs.None?
    {
      live, mapped, inputs, outputs := false, false, None, None;
    }

    method Unload()
      requires Lifetime()
      modifies this
      ensures !live && !mapped && inputs.None? && outputs.None?
    {
      live := false;
      mapped := false;
      inputs, outputs := None, None;
    }

    /** A failed load leaves no model, but the tensor descriptions of the previous one. */
    method Load(outcome: LoadOutcome) returns (ok: bool)
      requires Lifetime()
      modifies this
      ensures Lifetime()
      ensures ok <==> outcome.Opened?
      ensures live == mapped == ok
      ensures ok ==> inputs == Some(outcome.inputShape) && outputs == Some((outcome.outputShape, outcome.outputBytes))
      ensures !ok ==> inputs == old(inputs) && outputs == old(outputs)
    {
      live := false;
      assert Lifetime();
      mapped := false;
      match outcome
      case MapFailed => return false;
      case NotGood => return false;
      case NoTensors => return false;
      case Opened(inputShape, outputShape, outputBytes) =>
        mapped := true;
        inputs, outputs := Some(inputShape), Some((outputShape, outputBytes));
        live := true;
        return true;
    }

    function OutputElements(): nat
      reads this
    {
      if outputs.None? then 0 else Elements(outputs.value.0)
    }

    function OutputChannels(): nat
      reads this
    {
      if outputs.None? then 0 else ChannelsOf(outputs.value.0)
    }

    function OutputCols(): nat
      reads this
    {
      if outputs.None? then 0 else ColsOf(outputs.value.0, outputs.value.1)
    }

    function InputElements(): nat
      reads this
    {
      if inputs.None? then 0 else Elements(inputs.value)
    }
  }

  // ================= replies =================

  /** A reply's payload: nothing, 480 zero bytes, or the 20x6 table as 480 bytes. */
  datatype Body = NoBody | ZeroBody | TableBody(rows: seq<seq<real>>)

  datatype Reply = Reply(header: Header, body: Body)

  function BodyBytes(b: Body): nat {
    if b.NoBody? then 0 else RESULT_BYTES
  }

  function ReplyHeader(t: MessageType, requestId: int, generation: int, code: string, message: string,
                       length: nat): Header {
    BLANK.(messageType := t, requestId := requestId, workerGeneration := generation,
           errorCode := code, errorMessage := message, payloadLength := length)
  }

  function StatusReply(requestId: int, generation: int, code: string, message: string): Reply {
    Reply(ReplyHeader(STATUS, requestId, generation, code, message, 0), NoBody)
  }

  function RefusedInfer(requestId: int, generation: int, code: string, message: string): Reply {
    Reply(ReplyHeader(RESULT, requestId, generation, code, message, RESULT_BYTES), ZeroBody)
  }

  /** A reply to an inference request: one RESULT for that request with a 480-byte payload. */
  predicate IsResult(rep: Reply, hdr: Header) {
    && rep.header.messageType == RESULT && rep.header.requestId == hdr.requestId
    && rep.header.payloadLength == RESULT_BYTES == BodyBytes(rep.body)
  }

  predicate LoadArgs(hdr: Header) {
    && hdr.artifactPath != "" && Seek(hdr.artifactPath, "..").None?
    && 0 < hdr.classCount <= 4096
  }

  // ================= what a message calls for =================

  /** What decides the kind of each reply: the generation, and the input shape of a loaded model. */
  datatype Serving = Serving(generation: int, inputs: Option<seq<nat>>)

  /** A LOAD is accepted if its arguments are good, the artifact opens and its output fits the classes. */
  predicate Accepts(hdr: Header, load: LoadOutcome) {
    LoadArgs(hdr) && load.Opened? && FitsClasses(load.outputShape, load.outputBytes, hdr.classCount)
  }

  /** The image geometry that the number of columns implies, if it is one of the two known ones. */
  function Sized(cfg: Config, cols: nat): Config {
    if cols == 2100 then cfg.(imageW := 320, imageH := 320)
    else if cols == 8400 then cfg.(imageW := 640, imageH := 640)
    else cfg
  }

  function LoadCode(hdr: Header, load: LoadOutcome): string {
    if !LoadArgs(hdr) then "INVALID_ARGS" else if !Accepts(hdr, load) then "INVALID_MODEL" else ""
  }

  predicate ShapeMatches(inputs: seq<nat>, shape: seq<int>) {
    inputs == [] || (|inputs| == |shape| && forall i | 0 <= i < |shape| :: ToInt32(inputs[i]) == shape[i])
  }

  /** The tensor of an INFER is one for the loaded model. */
  predicate GoodInput(inputs: seq<nat>, hdr: Header, payload: string, device: Device) {
    && TensorFits(hdr.tensorSpec.dtype, hdr.tensorSpec.shape, |payload|) && device.inputFinite
    && ShapeMatches(inputs, hdr.tensorSpec.shape)
    && (Elements(inputs) == 0 || Elements(inputs) == |payload| / 4)
  }

  function InferCode(s: Serving, hdr: Header, payload: string, device: Device): string {
    if hdr.workerGeneration != s.generation then "INVALID_ARGS"
    else if s.inputs.None? then "MODEL_NOT_PREPARED"
    else if !GoodInput(s.inputs.value, hdr, payload, device) then "INVALID_ARGS"
    else if !device.forwardOk || !device.outputFinite then "DEVICE_FAULT"
    else ""
  }

  /** A refused LOAD leaves the model as it was if its arguments are at fault, otherwise none. */
  function AfterMessage(s: Serving, hdr: Header, device: Device): Serving {
    if hdr.messageType != LOAD || !LoadArgs(hdr) then s
    else if Accepts(hdr, device.load) then Serving(hdr.workerGeneration, Some(device.load.inputShape))
    else s.(inputs := None)
  }

  /** The kind of the reply, the generation it carries and its error code. */
  function Due(s: Serving, hdr: Header, payload: string, device: Device): (MessageType, int, string) {
    match hdr.messageType
    case LOAD => (STATUS, hdr.workerGeneration, LoadCode(hdr, device.load))
    case INFER => (RESULT, s.generation, InferCode(s, hdr, payload, device))
    case STATUS => (STATUS, s.generation, if s.inputs.Some? then "" else "MODEL_NOT_PREPARED")
    case SHUTDOWN => (STATUS, s.generation, "")
    case _ => (STATUS, s.generation, "INVALID_ARGS")
  }

  /** The reply to a message: for its request, of the kind, generation and code that are due; a RESULT has
      480 bytes, the table exactly if the inference succeeded. */
  predicate RepliesTo(rep: Reply, s: Serving, hdr: Header, payload: string, device: Device) {
    && (rep.header.messageType, rep.header.workerGeneration, rep.header.errorCode) == Due(s, hdr, payload, device)
    && rep.header.requestId == hdr.requestId && rep.header.payloadLength == BodyBytes(rep.body)
    && (rep.header.messageType == RESULT ==>
          if rep.header.errorCode == "" then rep.body.TableBody? else rep.body.ZeroBody?)
    && (rep.header.messageType != RESULT ==> rep.body.NoBody?)
  }

  // ================= turns of the loop =================

  /** One turn of the loop: a message and its reply, or the STATUS sent for bytes that are no message. */
  datatype Turn = Understood(header: Header, reply: Reply) | Misread(reply: Reply)

  /** An error that is answered; any other ends the loop. */
  predicate Answerable(err: string) {
    Seek(err, "header").Some? || Seek(err, "payload").Some?
  }

  predicate IsAnswered(r: Framing.Received) {
    r.ok || Answerable(r.err)
  }

  predicate EndsLoop(r: Framing.Received) {
    r.ok && r.header.messageType == SHUTDOWN
  }

  /** What up to `n` receives make of a stream: each outcome up to SHUTDOWN or an ending error. */
  function Heard(data: string, n: nat): (rs: seq<Framing.Received>)
    ensures |rs| <= n
    decreases n
  {
    if n == 0 then []
    else
      var r := Framing.Decode(data, BLANK);
      if !IsAnswered(r) then [] else [r] + if EndsLoop(r) then [] else Heard(r.rest, n - 1)
  }

  /** The errors of a receive that are answered are those of the frame. */
  lemma {:induction false} LengthErrorsAnswered()
    ensures Answerable("read header_len failed")
    ensures Answerable("header length out of bounds")
  {
    hide Answerable;
    AnsweredWord("read ", "header", "_len failed");
    assert "read " + ("header" + "_len failed") == "read header_len failed";
    AnsweredWord("", "header", " length out of bounds");
    assert "" + ("header" + " length out of bounds") == "header length out of bounds";
  }

  lemma {:induction false} HeaderErrorsAnswered()
    ensures Answerable("read header failed")
    ensures Answerable("header exceeds 16 KiB")
  {
    hide Answerable;
    AnsweredWord("read ", "header", " failed");
    assert "read " + ("header" + " failed") == "read header failed";
    AnsweredWord("", "header", " exceeds 16 KiB");
    assert "" + ("header" + " exceeds 16 KiB") == "header exceeds 16 KiB";
  }

  lemma {:induction false} PayloadErrorsAnswered()
    ensures Answerable("read payload failed")
    ensures Answerable("payload_length exceeds bound")
  {
    hide Answerable;
    AnsweredWord("read ", "payload", " failed");
    assert "read " + ("payload" + " failed") == "read payload failed";
    AnsweredWord("", "payload", "_length exceeds bound");
    assert "" + ("payload" + "_length exceeds bound") == "payload_length exceeds bound";
  }

  /** What is wrong with a header that could be read ends the loop. */
  lemma {:induction false} VersionErrorsEnd()
    ensures !Answerable("missing protocol_version")
    ensures !Answerable("bad protocol_version")
  {
    hide Answerable;
    NeitherWord("missing protocol_version");
    NeitherWord("bad protocol_version");
  }

  lemma {:induction false} KindErrorsEnd()
    ensures !Answerable("unknown message_type")
  {
    hide Answerable;
    NeitherWord("unknown message_type");
  }

  lemma {:induction false} NumberErrorsEnd()
    ensures !Answerable("negative request_id")
    ensures !Answerable("negative worker_generation")
  {
    hide Answerable;
    NeitherWord("negative request_id");
    NeitherWord("negative worker_generation");
  }

  lemma {:induction false} TextErrorsEnd()
    ensures !Answerable("error_message too long")
    ensures !Answerable("LOAD requires artifact_path")
  {
    hide Answerable;
    NeitherWord("error_message too long");
    NeitherWord("LOAD requires artifact_path");
  }

  lemma {:induction false} PathErrorsEnd()
    ensures !Answerable("artifact_path too long")
    ensures !Answerable("artifact_path traversal")
  {
    hide Answerable;
    NeitherWord("artifact_path too long");
    NeitherWord("artifact_path traversal");
  }

  lemma {:induction false} UnreadableEnds(js: string, h0: Header)
    requires |js| <= 16 * 1024 && !ParseHeader(js, h0).ok
    ensures !Answerable(ParseHeader(js, h0).err)
  {
    hide Answerable, ParseHeader;
    ParseSays(js, h0);
    VersionErrorsEnd();
    KindErrorsEnd();
  }

  lemma {:induction false} RefusedEnds(h: Header)
    requires ValidateHeader(h).Some?
    ensures Answerable(ValidateHeader(h).value) <==> ValidateHeader(h).value == "payload_length exceeds bound"
  {
    hide Answerable, ValidateHeader;
    ValidHeaders(h);
    PayloadErrorsAnswered();
    VersionErrorsEnd();
    KindErrorsEnd();
    NumberErrorsEnd();
    TextErrorsEnd();
    PathErrorsEnd();
  }

  /** Of what is no message, the loop answers the bytes that announce none or break off, and the payloads that are too
      long; a header that cannot be read or is refused for another reason ends it. */
  lemma {:induction false} MisreadEnds(data: string, h0: Header)
    requires !Framing.Decode(data, h0).ok
    ensures !Answerable(Framing.Decode(data, h0).err) <==>
            && |data| >= 4 && 0 < Framing.Announced(data) <= 16 * 1024 && |data| >= 4 + Framing.Announced(data)
            && var p := ParseHeader(data[4..4 + Framing.Announced(data)], h0);
               !p.ok || (ValidateHeader(p.header).Some?
                         && ValidateHeader(p.header) != Some("payload_length exceeds bound"))
  {
    hide Framing.Decode, Framing.Announced, Answerable, ParseHeader, ValidateHeader;
    Framing.DecodeSays(data, h0);
    LengthErrorsAnswered();
    HeaderErrorsAnswered();
    PayloadErrorsAnswered();
    if |data| >= 4 && 0 < Framing.Announced(data) <= 16 * 1024 && |data| >= 4 + Framing.Announced(data) {
      var p := ParseHeader(data[4..4 + Framing.Announced(data)], h0);
      if !p.ok {
        UnreadableEnds(data[4..4 + Framing.Announced(data)], h0);
      } else if ValidateHeader(p.header).Some? {
        RefusedEnds(p.header);
      }
    }
  }

  lemma {:induction false} AnsweredWord(before: string, word: string, behind: string)
    requires word == "header" || word == "payload"
    ensures Answerable(before + (word + behind))
  {
    hide Seek;
    Occurs(before, word, behind);
  }

  lemma {:induction false} NeitherWord(s: string)
    requires 'd' !in s || ('h' !in s && 'y' !in s)
    ensures !Answerable(s)
  {
    hide Seek, OccursAt;
    Occurrence(s, "header");
    Occurrence(s, "payload");
    if i :| OccursAt(s, "header", i) {
      CharOccurs(s, "header", i, 0);
      CharOccurs(s, "header", i, 3);
    }
    if i :| OccursAt(s, "payload", i) {
      CharOccurs(s, "payload", i, 2);
      CharOccurs(s, "payload", i, 6);
    }
  }

  lemma {:induction false} Occurs(before: string, word: string, behind: string)
    requires word != ""
    ensures Seek(before + (word + behind), word).Some?
  {
    hide Seek;
    var s := before + (word + behind);
    assert s[|before|..|before| + |word|] == word;
    assert OccursAt(s, word, |before|);
    Occurrence(s, word);
  }

  lemma {:induction false} HeardNone(data: string)
    ensures Heard(data, 0) == []
  {
  }

  lemma {:induction false} HeardOne(data: string, n: nat)
    requires n > 0
    ensures var r := Framing.Decode(data, BLANK);
            && (!IsAnswered(r) ==> Heard(data, n) == [])
            && (IsAnswered(r) && EndsLoop(r) ==> Heard(data, n) == [r])
            && (IsAnswered(r) && !EndsLoop(r) ==> Heard(data, n) == [r] + Heard(r.rest, n - 1))
  {
    hide Framing.Decode, IsAnswered, EndsLoop;
  }

  /** What one receive leaves of what decides the replies. */
  function AfterOne(s: Serving, r: Framing.Received, device: Device): Serving {
    if r.ok then AfterMessage(s, r.header, device) else s
  }

  /** The same after the first `n` receives. */
  function AfterSome(s: Serving, rs: seq<Framing.Received>, devices: seq<Device>, n: nat): Serving
    requires n <= |rs| && n <= |devices|
  {
    if n == 0 then s else AfterOne(AfterSome(s, rs, devices, n - 1), rs[n - 1], devices[n - 1])
  }

  /** A message is answered by the reply that is due; bytes that are no message are answered by a STATUS of
      the worker's generation that says why. */
  predicate Answers(s: Serving, r: Framing.Received, device: Device, t: Turn) {
    if r.ok then
      t.Understood? && t.header == r.header && RepliesTo(t.reply, s, r.header, r.payload, device)
    else
      t.Misread? && t.reply == StatusReply(r.header.requestId, s.generation, "INVALID_ARGS", r.err)
  }

  // ================= what the messages so far have loaded =================

  /** A LOAD with good arguments loads its artifact or leaves no model. */
  predicate Reloads(r: Framing.Received) {
    r.ok && r.header.messageType == LOAD && LoadArgs(r.header)
  }

  /** Of the first `n` messages, the `j`-th is a LOAD that was accepted, and no LOAD with good arguments came
      after it. */
  predicate LoadedBy(rs: seq<Framing.Received>, devices: seq<Device>, j: nat, n: nat) {
    && j < n <= |rs| && n <= |devices|
    && Reloads(rs[j]) && Accepts(rs[j].header, devices[j].load)
    && forall k | j < k < n :: !Reloads(rs[k])
  }

  lemma {:induction false} LoadedAfter(s: Serving, rs: seq<Framing.Received>, devices: seq<Device>, n: nat)
    requires s.inputs.None? && n <= |rs| && n <= |devices|
    ensures AfterSome(s, rs, devices, n).inputs.Some? ==> exists j: nat | j < n :: LoadedBy(rs, devices, j, n)
    ensures forall j: nat | LoadedBy(rs, devices, j, n) ::
              AfterSome(s, rs, devices, n) == Serving(rs[j].header.workerGeneration, Some(devices[j].load.inputShape))
  {
    hide LoadArgs, FitsClasses;
    if n > 0 {
      LoadedAfter(s, rs, devices, n - 1);
      AfterNext(s, rs, devices, n - 1);
      if Reloads(rs[n - 1]) {
        assert Accepts(rs[n - 1].header, devices[n - 1].load) ==> LoadedBy(rs, devices, n - 1, n);
      } else {
        assert forall j: nat :: LoadedBy(rs, devices, j, n - 1) <==> LoadedBy(rs, devices, j, n);
        if AfterSome(s, rs, devices, n).inputs.Some? {
          var j: nat :| j < n - 1 && LoadedBy(rs, devices, j, n - 1);
          assert LoadedBy(rs, devices, j, n);
        }
      }
    }
  }

  /** The tensor of an INFER that a loaded model of this input shape takes, and a forward pass that succeeds. */
  predicate Runs(inputs: seq<nat>, r: Framing.Received, device: Device) {
    GoodInput(inputs, r.header, r.payload, device) && device.forwardOk && device.outputFinite
  }

  /** Message `i` is an INFER for the generation of the LOAD that loaded the model, and it runs. */
  predicate ServedBy(rs: seq<Framing.Received>, devices: seq<Device>, j: nat, i: nat) {
    && i < |rs| && i < |devices| && LoadedBy(rs, devices, j, i)
    && rs[i].ok && rs[i].header.messageType == INFER
    && rs[i].header.workerGeneration == rs[j].header.workerGeneration
    && Runs(devices[j].load.inputShape, rs[i], devices[i])
  }

  predicate HasTable(t: Turn) {
    t.Understood? && t.reply.body.TableBody?
  }

  /** From a worker without a model on, a message is answered with a table exactly if it is an INFER that the
      model of an earlier LOAD serves: one of the same generation, accepted, and the last with good arguments. */
  lemma {:induction false} TablesAreServed(s: Serving, rs: seq<Framing.Received>, devices: seq<Device>, i: nat, t: Turn)
    requires s.inputs.None? && i < |rs| && i < |devices|
    requires Answers(AfterSome(s, rs, devices, i), rs[i], devices[i], t)
    ensures HasTable(t) <==> exists j: nat | j < i :: ServedBy(rs, devices, j, i)
    ensures HasTable(t) ==> exists j: nat | j < i ::
              && LoadedBy(rs, devices, j, i) && rs[i].header.workerGeneration == rs[j].header.workerGeneration
              && rs[i].ok && rs[i].header.messageType == INFER
  {
    hide LoadArgs, FitsClasses, GoodInput, AfterSome, LoadedBy;
    LoadedAfter(s, rs, devices, i);
    if HasTable(t) {
      var j: nat :| j < i && LoadedBy(rs, devices, j, i);
      assert ServedBy(rs, devices, j, i);
    }
  }

  lemma {:induction false} TablesOfRun(s: Serving, rs: seq<Framing.Received>, devices: seq<Device>, turns: seq<Turn>)
    requires |turns| <= |rs| && |turns| <= |devices|
    requires forall i | 0 <= i < |turns| :: Answers(AfterSome(s, rs, devices, i), rs[i], devices[i], turns[i])
    ensures s.inputs.None? ==>
              forall i | 0 <= i < |turns| ::
                HasTable(turns[i]) <==> exists j: nat | j < i :: ServedBy(rs, devices, j, i)
  {
    hide *;
    if s.inputs.None? {
      forall i | 0 <= i < |turns|
        ensures HasTable(turns[i]) <==> exists j: nat | j < i :: ServedBy(rs, devices, j, i)
      {
        TablesAreServed(s, rs, devices, i, turns[i]);
      }
    }
  }

  /** What a reply says of the messages before it: an INFER is refused for its generation or its tensor, for want
      of a model, or for what the device did, and a STATUS reports whether a model is loaded. */
  lemma {:induction false} RepliesSay(s: Serving, rs: seq<Framing.Received>, devices: seq<Device>, i: nat, t: Turn)
    requires s.inputs.None? && i < |rs| && i < |devices| && rs[i].ok
    requires Answers(AfterSome(s, rs, devices, i), rs[i], devices[i], t)
    ensures t.Understood? && t.reply.header.requestId == rs[i].header.requestId
    ensures var code, loaded := t.reply.header.errorCode, exists j: nat | j < i :: LoadedBy(rs, devices, j, i);
            && (rs[i].header.messageType == STATUS ==>
                  && t.reply.header.messageType == STATUS && t.reply.body.NoBody?
                  && t.reply.header.payloadLength == 0
                  && code == if loaded then "" else "MODEL_NOT_PREPARED")
            && (rs[i].header.messageType == SHUTDOWN ==>
                  t.reply.header.messageType == STATUS && code == "" && t.reply.header.payloadLength == 0)
            && (rs[i].header.messageType == LOAD ==>
                  && t.reply.header.messageType == STATUS && t.reply.body.NoBody?
                  && t.reply.header.payloadLength == 0
                  && t.reply.header.workerGeneration == rs[i].header.workerGeneration
                  && (code == "" <==> Accepts(rs[i].header, devices[i].load))
                  && (code == "INVALID_ARGS" <==> !LoadArgs(rs[i].header))
                  && code in {"", "INVALID_ARGS", "INVALID_MODEL"})
            && (rs[i].header.messageType == INFER ==>
                  && t.reply.header.messageType == RESULT && t.reply.header.payloadLength == 480
                  && code in {"", "INVALID_ARGS", "MODEL_NOT_PREPARED", "DEVICE_FAULT"}
                  && (code == "" <==> HasTable(t)) && (code != "" <==> t.reply.body.ZeroBody?)
                  && (code == "MODEL_NOT_PREPARED" ==> !loaded)
                  && forall j: nat | j < i && LoadedBy(rs, devices, j, i) ::
                       && t.reply.header.workerGeneration == rs[j].header.workerGeneration
                       && (code == "INVALID_ARGS" <==>
                             || rs[i].header.workerGeneration != rs[j].header.workerGeneration
                             || !GoodInput(devices[j].load.inputShape, rs[i].header, rs[i].payload, devices[i]))
                       && (code == "DEVICE_FAULT" ==> !devices[i].forwardOk || !devices[i].outputFinite))
  {
    hide LoadArgs, FitsClasses, GoodInput, AfterSome, LoadedBy;
    LoadedAfter(s, rs, devices, i);
  }

  /** Bytes that are no message are answered by a STATUS that says what is wrong with them. */
  lemma {:induction false} MisreadSays(s: Serving, r: Framing.Received, device: Device, t: Turn)
    requires !r.ok && Answers(s, r, device, t)
    ensures t.Misread? && t.reply.header.messageType == STATUS && t.reply.header.requestId == r.header.requestId
    ensures t.reply.header.errorCode == "INVALID_ARGS" && t.reply.header.errorMessage == r.err
    ensures t.reply.header.workerGeneration == s.generation && t.reply.body.NoBody?
            && t.reply.header.payloadLength == 0
  {
  }

  /** For input dimensions of 31 bits the tensor is the model's: four-byte floats of exactly its shape, one image
      of three channels with sides of at most 4096, all finite, and as many bytes as that takes. */
  lemma {:induction false} GoodInputMeans(inputs: seq<nat>, hdr: Header, payload: string, device: Device)
    requires forall k | 0 <= k < |inputs| :: inputs[k] < 0x8000_0000
    ensures GoodInput(inputs, hdr, payload, device) <==>
            && device.inputFinite && hdr.tensorSpec.dtype == "float32"
            && |hdr.tensorSpec.shape| == 4 && |inputs| == 4
            && (forall k | 0 <= k < 4 :: hdr.tensorSpec.shape[k] == inputs[k])
            && inputs[0] == 1 && inputs[1] == 3 && 0 < inputs[2] <= 4096 && 0 < inputs[3] <= 4096
            && |payload| == 12 * (inputs[2] * inputs[3]) && |payload| <= 16 * 1024 * 1024
  {
    hide Elements, TensorFits, ShapeMatches;
    var shape := hdr.tensorSpec.shape;
    TensorFitsMeans(hdr.tensorSpec.dtype, shape, |payload|);
    MatchesMeans(inputs, shape);
    NoElements();
    if |inputs| == 4 && inputs[0] == 1 && inputs[1] == 3 && inputs[2] <= 4096 && inputs[3] <= 4096 {
      ImageElements(inputs);
    }
  }

  lemma {:induction false} TensorFitsMeans(dtype: string, shape: seq<int>, bytes: nat)
    ensures TensorFits(dtype, shape, bytes) <==>
            && dtype == "float32" && |shape| == 4 && shape[0] == 1 && shape[1] == 3
            && 0 < shape[2] <= 4096 && 0 < shape[3] <= 4096
            && bytes == 12 * (shape[2] * shape[3]) && bytes <= 16 * 1024 * 1024
  {
    hide Product;
    if |shape| == 4 && shape[0] == 1 && shape[1] == 3 {
      FourProduct(shape);
    }
  }

  lemma {:induction false} MatchesMeans(inputs: seq<nat>, shape: seq<int>)
    requires forall k | 0 <= k < |inputs| :: inputs[k] < 0x8000_0000
    ensures ShapeMatches(inputs, shape) <==>
            inputs == [] || (|inputs| == |shape| && forall k | 0 <= k < |shape| :: inputs[k] == shape[k])
  {
    assert forall k | 0 <= k < |inputs| :: ToInt32(inputs[k]) == inputs[k];
  }

  lemma {:induction false} NoElements()
    ensures Elements([]) == 1
  {
  }

  lemma {:induction false} FourProduct(shape: seq<int>)
    requires |shape| == 4 && shape[0] == 1 && shape[1] == 3
    ensures Product(shape) == 3 * (shape[2] * shape[3])
  {
    assert shape[..3][..2] == shape[..2] && shape[..2][..1] == shape[..1] && shape[..1][..0] == [];
    assert Product(shape[..1]) == 1;
    assert Product(shape[..2]) == 3;
  }

  lemma {:induction false} ImageElements(shape: seq<nat>)
    requires |shape| == 4 && shape[0] == 1 && shape[1] == 3 && shape[2] <= 4096 && shape[3] <= 4096
    ensures Elements(shape) == 3 * (shape[2] * shape[3])
  {
    assert shape[..3][..2] == shape[..2] && shape[..2][..1] == shape[..1] && shape[..1][..0] == [];
    NoElements();
    assert Elements(shape[..1]) == 1;
    assert Elements(shape[..2]) == 3;
    assert Elements(shape[..3]) == 3 * shape[2];
    ProductGrows(shape[2], shape[3], 4096, 4096);
    assert 3 * shape[2] * shape[3] == 3 * (shape[2] * shape[3]);
  }

  /** For dimensions of 32 bits an output fits a number of classes exactly if it is [4 + C, N], perhaps with a
      leading one, and has as many four-byte floats. */
  lemma {:induction false} FitsMeans(shape: seq<nat>, bytes: nat, classCount: nat)
    requires forall k | 0 <= k < |shape| :: shape[k] < 0x1_0000_0000
    ensures FitsClasses(shape, bytes, classCount) <==>
            && (|shape| == 2 || (|shape| == 3 && shape[0] == 1))
            && var c, n := shape[|shape| - 2], shape[|shape| - 1];
               c == 4 + classCount && n > 0 && bytes / 4 == (4 + classCount) * n
  {
    hide Elements;
    if |shape| == 2 || (|shape| == 3 && shape[0] == 1) {
      AcceptedShapesDoNotWrap(shape);
    }
  }

  /** A path without two dots in a row, a class count within bounds, and an artifact that opens to an output for
      that many classes. */
  lemma {:induction false} AcceptsMeans(hdr: Header, load: LoadOutcome)
    ensures LoadArgs(hdr) <==>
            && hdr.artifactPath != "" && 1 <= hdr.classCount <= 4096
            && forall i | 0 <= i < |hdr.artifactPath| - 1 ::
                 !(hdr.artifactPath[i] == '.' && hdr.artifactPath[i + 1] == '.')
    ensures Accepts(hdr, load) <==>
            LoadArgs(hdr) && load.Opened? && FitsClasses(load.outputShape, load.outputBytes, hdr.classCount)
  {
    TwoDots(hdr.artifactPath);
  }

  /** The geometry taken from the number of columns is that of a square image with that many cells of 8, 16 and
      32 pixels. */
  lemma {:induction false} SizedMeans(cfg: Config, cols: nat)
    ensures var side := Sized(cfg, cols).imageW;
            && Sized(cfg, cols) == cfg.(imageW := Sized(cfg, cols).imageW, imageH := Sized(cfg, cols).imageH)
            && (cols == 2100 || cols == 8400 ==>
                  && Sized(cfg, cols).imageH == side && side % 32 == 0
                  && (side / 8) * (side / 8) + (side / 16) * (side / 16) + (side / 32) * (side / 32) == cols)
            && (cols != 2100 && cols != 8400 ==> Sized(cfg, cols) == cfg)
  {
  }

  // ================= the worker =================

  class Worker {
    const model: Model
    var generation: int
    var servingDigest: string
    var cfg: Config
    var outbuf: seq<real>
    const table: array2<real>

    /** At every loop head, a loaded model's output buffer has exactly the elements the postprocessor
        indexes. */
    predicate Valid()
      reads this, model
    {
      && model.Lifetime()
      && table.Length0 == 20 && table.Length1 == 6
      && cfg.imageW > 0 && cfg.imageH > 0 && cfg.maxDet == 20
      && cfg.scoreThreshold == 0.25 && cfg.nmsIou == 0.45 && cfg.classAware
      && (model.live ==>
            && cfg.classCount > 0
            && FitsClasses(model.outputs.value.0, model.outputs.value.1, cfg.classCount)
            && |outbuf| == (4 + cfg.classCount) * model.OutputCols())
    }

    function State(): Serving
      reads this, model
    {
      Serving(generation, if model.live then model.inputs else None)
    }

    lemma {:induction false} LiveHasInputs()
      requires Valid()
      ensures model.live <==> State().inputs.Some?
    {
    }

    constructor ()
      ensures Valid() && !model.live && generation == 0 && fresh(model) && fresh(table)
      ensures cfg == Config(320, 320, 0, 0.25, 0.45, 20, true)
    {
      model := new Model();
      generation, servingDigest, outbuf := 0, "", [];
      cfg := Config(320, 320, 0, 0.25, 0.45, 20, true);
      table := new real[20, 6]((_, _) => 0.0);
    }

    /** LOAD.  An accepted one claims its generation; a refused one changes neither generation, digest
        nor class count, and leaves the old model as it was or none. */
    method HandleLoad(hdr: Header, load: LoadOutcome) returns (rep: Reply)
      requires Valid()
      modifies this, model
      ensures Valid()
      ensures rep.header.messageType == STATUS && rep.header.requestId == hdr.requestId && rep.body.NoBody?
      ensures rep.header.errorCode == LoadCode(hdr, load) && rep.header.payloadLength == 0
      ensures rep.header.workerGeneration == hdr.workerGeneration
      ensures Accepts(hdr, load) ==>
                && model.live && model.inputs == Some(load.inputShape)
                && model.outputs == Some((load.outputShape, load.outputBytes))
                && generation == hdr.workerGeneration && servingDigest == hdr.servingDigest
                && cfg == Sized(old(cfg), ColsOf(load.outputShape, load.outputBytes)).(classCount := hdr.classCount)
      ensures !Accepts(hdr, load) ==>
                && generation == old(generation) && servingDigest == old(servingDigest)
                && cfg.classCount == old(cfg.classCount) && outbuf == old(outbuf)
                && model.live == (!LoadArgs(hdr) && old(model.live))
      ensures !LoadArgs(hdr) ==>
                model.inputs == old(model.inputs) && model.outputs == old(model.outputs) && cfg == old(cfg)
    {
      hide Elements, Seek, ColsOf, ChannelsOf;
      if hdr.artifactPath == "" || Seek(hdr.artifactPath, "..").Some? {
        return StatusReply(hdr.requestId, hdr.workerGeneration, "INVALID_ARGS", "invalid artifact_path");
      }
      if hdr.classCount <= 0 || hdr.classCount > 4096 {
        return StatusReply(hdr.requestId, hdr.workerGeneration, "INVALID_ARGS", "LOAD requires inspected class_count");
      }
      var loaded := model.Load(load);
      if !loaded {
        return StatusReply(hdr.requestId, hdr.workerGeneration, "INVALID_MODEL", "load failed");
      }
      var cols := model.OutputCols();
      if cols == 2100 { cfg := cfg.(imageW := 320, imageH := 320); }
      else if cols == 8400 { cfg := cfg.(imageW := 640, imageH := 640); }
      var elements, channels := model.OutputElements(), model.OutputChannels();
      assert Accepts(hdr, load) <==> cols != 0 && channels == hdr.classCount + 4 && elements == channels * cols;
      if cols == 0 || channels != hdr.classCount + 4 || elements != channels * cols {
        model.Unload();
        return StatusReply(hdr.requestId, hdr.workerGeneration, "INVALID_MODEL", "class_count exceeds tensor channels");
      }
      assert elements == (4 + hdr.classCount) * cols;
      outbuf := seq(elements, _ => 0.0);
      generation := hdr.workerGeneration;
      servingDigest := hdr.servingDigest;
      cfg := cfg.(classCount := hdr.classCount);
      return StatusReply(hdr.requestId, generation, "", "");
    }

    function TableRows(): (rows: seq<seq<real>>)
      requires table.Length0 == 20 && table.Length1 == 6
      reads table
      ensures |rows| == 20
      ensures forall i | 0 <= i < 20 ::
                |rows[i]| == 6 && forall k | 0 <= k < 6 :: rows[i][k] == table[i, k]
    {
      seq(20, i requires 0 <= i < 20 && table.Length0 == 20 && table.Length1 == 6 reads table =>
        [table[i, 0], table[i, 1], table[i, 2], table[i, 3], table[i, 4], table[i, 5]])
    }

    /** INFER.  Every branch answers with one RESULT of 480 bytes; only the output buffer's contents and
        the image geometry change, so the next request finds the same model. */
    method HandleInfer(hdr: Header, payload: string, device: Device)
        returns (rep: Reply, ghost ranked: seq<Det>, ghost rows: seq<Det>)
      requires Valid()
      modifies this, table
      ensures Valid()
      ensures IsResult(rep, hdr) && rep.header.workerGeneration == generation && State() == old(State())
      ensures servingDigest == old(servingDigest)
      ensures cfg.classCount == old(cfg.classCount) && |outbuf| == |old(outbuf)|
      ensures rep.header.errorCode == InferCode(old(State()), hdr, payload, device)
      ensures if rep.header.errorCode == "" then rep.body.TableBody? else rep.body.ZeroBody?
      ensures rep.body.TableBody? ==>
                && cfg == old(cfg).(imageH := hdr.tensorSpec.shape[2], imageW := hdr.tensorSpec.shape[3])
                && outbuf == seq(|outbuf|, device.output)
                && Detected(outbuf, model.OutputCols(), cfg, ranked, rows)
                && |rep.body.rows| == 20
                && forall i | 0 <= i < 20 ::
                     rep.body.rows[i] == if i < |rows| then CppRow(rows[i], cfg.imageW, cfg.imageH) else ZERO_ROW
    {
      hide Elements, Detected, CppRow, ShapeMatches;
      ranked, rows := [], [];
      if hdr.workerGeneration != generation {
        rep := RefusedInfer(hdr.requestId, generation, "INVALID_ARGS", "generation mismatch");
        return;
      }
      if !model.live {
        rep := RefusedInfer(hdr.requestId, generation, "MODEL_NOT_PREPARED", "no model loaded");
        return;
      }
      var fits := ValidateTensorSpec(hdr.tensorSpec, |payload|);
      if !fits {
        rep := RefusedInfer(hdr.requestId, generation, "INVALID_ARGS", "tensor spec");
        return;
      }
      if !device.inputFinite {
        rep := RefusedInfer(hdr.requestId, generation, "INVALID_ARGS", "non-finite input");
        return;
      }
      if !ShapeMatches(model.inputs.value, hdr.tensorSpec.shape) {
        rep := RefusedInfer(hdr.requestId, generation, "INVALID_ARGS", "tensor shape mismatch model");
        return;
      }
      if model.InputElements() != 0 && model.InputElements() != |payload| / 4 {
        rep := RefusedInfer(hdr.requestId, generation, "INVALID_ARGS", "tensor byte count mismatch model");
        return;
      }
      if !device.forwardOk {
        rep := RefusedInfer(hdr.requestId, generation, "DEVICE_FAULT", "forward failed");
        return;
      }
      outbuf := seq(|outbuf|, device.output);
      if !device.outputFinite {
        rep := RefusedInfer(hdr.requestId, generation, "DEVICE_FAULT", "non-finite output");
        return;
      }
      var h, w := hdr.tensorSpec.shape[2], hdr.tensorSpec.shape[3];
      cfg := cfg.(imageH := h, imageW := w);
      var count;
      count, ranked, rows := PostprocessYoloRaw(outbuf, model.OutputCols(), cfg, table);
      rep := Reply(ReplyHeader(RESULT, hdr.requestId, generation, "", "", RESULT_BYTES)
                     .(tensorSpec := TensorSpec([20, 6], "float32")),
                   TableBody(TableRows()));
    }

    /** One iteration after a message was received; `stop` ends the loop. */
    method Handle(hdr: Header, payload: string, device: Device) returns (rep: Reply, stop: bool)
      requires Valid() && ValidateHeader(hdr).None?
      modifies this, model, table
      ensures Valid()
      ensures RepliesTo(rep, old(State()), hdr, payload, device)
      ensures State() == AfterMessage(old(State()), hdr, device)
      ensures stop <==> hdr.messageType == SHUTDOWN
      ensures hdr.messageType != LOAD || !Accepts(hdr, device.load) ==>
                servingDigest == old(servingDigest) && cfg.classCount == old(cfg.classCount)
      ensures hdr.messageType == LOAD && Accepts(hdr, device.load) ==>
                servingDigest == hdr.servingDigest && cfg.classCount == hdr.classCount
    {
      hide Valid, InferCode, LoadArgs;
      LiveHasInputs();
      match hdr.messageType
      case SHUTDOWN => return StatusReply(hdr.requestId, generation, "", ""), true;
      case LOAD =>
        rep := HandleLoad(hdr, device.load);
        stop := false;
      case STATUS =>
        return StatusReply(hdr.requestId, generation, if model.live then "" else "MODEL_NOT_PREPARED", ""), false;
      case INFER =>
        ghost var ranked, rows;
        rep, ranked, rows := HandleInfer(hdr, payload, device);
        stop := false;
      case RESULT =>
        return StatusReply(hdr.requestId, generation, "INVALID_ARGS", "unknown message_type"), false;
      // refused by the header validation
      case UNKNOWN =>
        return StatusReply(hdr.requestId, generation, "INVALID_ARGS", "unknown message_type"), false;
    }

    /** One iteration; the loop goes on unless it stops. */
    method Step(pipe: Framing.Pipe, device: Device) returns (turn: Option<Turn>, stop: bool)
      requires Valid()
      modifies this, model, table, pipe
      ensures Valid()
      ensures var r := Framing.Decode(old(pipe.data), BLANK);
              && pipe.data == r.rest && (turn.Some? <==> IsAnswered(r))
              && (turn.Some? ==> Answers(old(State()), r, device, turn.value))
              && State() == AfterOne(old(State()), r, device) && (turn.None? ==> State() == old(State()))
              && (stop <==> !IsAnswered(r) || EndsLoop(r))
    {
      hide Framing.Decode, Answerable, ValidateHeader, RepliesTo, AfterMessage, Valid;
      var ok, hdr, payload, err := Framing.RecvMessage(pipe, BLANK);
      if !ok {
        if !Answerable(err) { return None, true; }
        return Some(Misread(StatusReply(hdr.requestId, generation, "INVALID_ARGS", err))), false;
      }
      var rep;
      rep, stop := Handle(hdr, payload, device);
      turn := Some(Understood(hdr, rep));
    }

    /** The message loop, for as many receives as there are device steps: one turn for each receive of the
        waiting bytes, until SHUTDOWN or an error that ends the loop. */
    method Serve(pipe: Framing.Pipe, devices: seq<Device>) returns (turns: seq<Turn>)
      requires Valid()
      modifies this, model, table, pipe
      ensures Valid()
      ensures var heard := Heard(old(pipe.data), |devices|);
              && |turns| == |heard| && State() == AfterSome(old(State()), heard, devices, |heard|)
              && forall i | 0 <= i < |turns| ::
                   Answers(AfterSome(old(State()), heard, devices, i), heard[i], devices[i], turns[i])
      ensures old(State().inputs).None? ==>
                var heard := Heard(old(pipe.data), |devices|);
                forall i | 0 <= i < |turns| ::
                  HasTable(turns[i]) <==> exists j: nat | j < i :: ServedBy(heard, devices, j, i)
    {
      hide *;
      turns := [];
      ghost var heard, s := Heard(pipe.data, |devices|), State();
      BeforeAll(s, heard, devices);
      for i := 0 to |devices|
        invariant Valid() && i <= |heard| && heard[i..] == Heard(pipe.data, |devices| - i)
        invariant |turns| == i && State() == AfterSome(s, heard, devices, i)
        invariant forall k | 0 <= k < i :: Answers(AfterSome(s, heard, devices, k), heard[k], devices[k], turns[k])
      {
        HeardOne(pipe.data, |devices| - i);
        HeardAt(heard, i);
        var turn, stop := Step(pipe, devices[i]);
        if turn.Some? {
          AfterNext(s, heard, devices, i);
          turns := turns + [turn.value];
        }
        if stop {
          TablesOfRun(s, heard, devices, turns);
          return;
        }
      }
      HeardNone(pipe.data);
      TablesOfRun(s, heard, devices, turns);
    }
  }

  lemma {:induction false} BeforeAll(s: Serving, rs: seq<Framing.Received>, devices: seq<Device>)
    ensures AfterSome(s, rs, devices, 0) == s
  {
  }

  lemma {:induction false} AfterNext(s: Serving, rs: seq<Framing.Received>, devices: seq<Device>, n: nat)
    requires n < |rs| && n < |devices|
    ensures AfterSome(s, rs, devices, n + 1) == AfterOne(AfterSome(s, rs, devices, n), rs[n], devices[n])
  {
  }

  lemma {:induction false} HeardAt(rs: seq<Framing.Received>, i: nat)
    requires i <= |rs|
    ensures forall r, more | rs[i..] == [r] + more :: i < |rs| && rs[i] == r && rs[i + 1..] == more
    ensures forall r | rs[i..] == [r] :: |rs| == i + 1 && rs[i] == r
  {
    assert forall r | rs[i..] == [r] :: rs[i..][0] == r;
    forall r, more | rs[i..] == [r] + more
      ensures i < |rs| && rs[i] == r && rs[i + 1..] == more
    {
      assert rs[i..][0] == r && rs[i..][1..] == more;
    }
  }

  /** What is heard of the supervisor's requests are those requests, each once and in order. */
  lemma {:induction false} RequestsAreHeard(ms: seq<Framing.Message>)
    requires forall i | 0 <= i < |ms| :: PythonPeer.PySendable(ms[i])
    requires forall i | 0 <= i < |ms| - 1 :: ms[i].header.messageType != SHUTDOWN
    ensures var rs := Heard(PythonPeer.PyFrames(ms), |ms|);
            |rs| == |ms| && forall i | 0 <= i < |ms| ::
              rs[i].ok && rs[i].header == ms[i].header && rs[i].payload == ms[i].payload
  {
    hide Framing.Decode, PythonPeer.PyFrame, PythonPeer.PySendable, Answerable;
    if ms != [] {
      PythonPeer.DecodePyFrame(ms[0], PythonPeer.PyFrames(ms[1..]));
      RequestsAreHeard(ms[1..]);
      assert |ms| == 1 ==> ms[1..] == [];
    }
  }

  /** For the shapes that pass the guard nothing wraps: the element count is the true product. */
  lemma {:induction false} AcceptedShapesDoNotWrap(shape: seq<nat>)
    requires forall i | 0 <= i < |shape| :: shape[i] < 0x1_0000_0000
    requires |shape| == 2 || (|shape| == 3 && shape[0] == 1)
    ensures Elements(shape) == shape[|shape| - 2] * shape[|shape| - 1]
  {
    var k, c, n := |shape|, shape[|shape| - 2], shape[|shape| - 1];
    BelowSizeLimit(c, n);
    SmallRemainder(c * n, SIZE_LIMIT);
    assert shape[..k - 1][..k - 2] == shape[..k - 2];
    if k == 2 {
      assert Elements(shape[..0]) == 1;
    } else {
      assert shape[..1][..0] == shape[..0];
      assert Elements(shape[..0]) == 1;
      assert Elements(shape[..1]) == 1;
    }
    assert Elements(shape[..k - 1]) == c;
  }

  lemma {:induction false} BelowSizeLimit(c: nat, n: nat)
    requires c < 0x1_0000_0000 && n < 0x1_0000_0000
    ensures c * n < SIZE_LIMIT
  {
    ProductGrows(c, n, 0xFFFF_FFFF, 0xFFFF_FFFF);
  }

  lemma {:induction false} ProductGrows(a: nat, b: nat, x: nat, y: nat)
    requires a <= x && b <= y
    ensures a * b <= x * y
  {
    assert a * b <= x * b;
    assert x * b <= x * y;
  }

  lemma {:induction false} SmallRemainder(x: nat, limit: nat)
    requires x < limit
    ensures x % limit == x
  {
  }
}
