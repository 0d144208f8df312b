/** The detector frontend: sessions bound to a worker generation, a bounded queue, and one reply to each
    request.  Times are milliseconds; what arrives, what preparation decides and how the worker behaves
    are parameters of each step. */
module Frontend {
  import opened Text
  import opened WorkerSwitch

  /** A routing identity. */
  type Identity = nat

  const QUIESCENCE_MS := 5000
  const MODEL_OP_DEADLINE_MS := 25000
  const MAX_HEADER_BYTES := 16 * 1024
  const QUEUE_MAX := 8

  // ================= sessions =================

  datatype Binding = Binding(key: Key, digest: string, generation: nat, lastUsed: nat)

  /** Used within the quiescence window. */
  predicate Recent(b: Binding, now: nat) {
    now < b.lastUsed + QUIESCENCE_MS
  }

  /** The bindings when this client, if it is bound, is heard of. */
  function Touched(bindings: map<Identity, Binding>, id: Identity, now: nat): map<Identity, Binding> {
    if id in bindings then bindings[id := bindings[id].(lastUsed := now)] else bindings
  }

  class SessionTable {
    var bindings: map<Identity, Binding>
    var superseded: set<Key>

    constructor ()
      ensures bindings == map[] && superseded == {}
    {
      bindings, superseded := map[], {};
    }

    method Bind(id: Identity, key: Key, digest: string, generation: nat, now: nat)
      modifies `bindings
      ensures bindings == old(bindings)[id := Binding(key, digest, generation, now)]
    {
      bindings := bindings[id := Binding(key, digest, generation, now)];
    }

    method Touch(id: Identity, now: nat)
      modifies `bindings
      ensures bindings ==
              if id in old(bindings) then old(bindings)[id := old(bindings)[id].(lastUsed := now)] else old(bindings)
    {
      if id in bindings { bindings := bindings[id := bindings[id].(lastUsed := now)]; }
    }

    method InvalidateGeneration(generation: nat)
      modifies `bindings
      ensures bindings ==
              map id | id in old(bindings) && old(bindings)[id].generation != generation :: old(bindings)[id]
    {
      var doomed := set id | id in bindings && bindings[id].generation == generation;
      ghost var before, gone: set<Identity> := bindings, {};
      while doomed != {}
        invariant gone !! doomed && gone + doomed == set id | id in before && before[id].generation == generation
        invariant bindings == before - gone
        decreases doomed
      {
        var id :| id in doomed;
        bindings, doomed, gone := bindings - {id}, doomed - {id}, gone + {id};
      }
    }

    method IsQuiescent(generation: nat, now: nat) returns (quiet: bool)
      ensures quiet <==>
              forall id | id in bindings && bindings[id].generation == generation :: !Recent(bindings[id], now)
    {
      var ids := bindings.Keys;
      while ids != {}
        invariant ids <= bindings.Keys
        invariant forall id | id in bindings.Keys - ids :: bindings[id].generation == generation ==>
                  !Recent(bindings[id], now)
        decreases ids
      {
        var id :| id in ids;
        if bindings[id].generation == generation && Recent(bindings[id], now) { return false; }
        ids := ids - {id};
      }
      return true;
    }
  }

  // ================= messages =================

  type Frame = string

  /** The dimensions of a shape, each an integer or something that is none. */
  datatype Shape = NoShape | NotAList | Dims(dims: seq<Option<int>>)

  datatype Header = Header(modelRequest: bool, modelData: bool, shape: Shape, float32: bool)

  const NO_HEADER := Header(false, false, NoShape, false)

  datatype Request = Request(id: Identity, header: Header, data: Frame, deadline: nat)

  datatype Reply =
    | Available(available: bool)
    | Saved(saved: bool, loaded: bool, code: string)
    | Error(code: string)
    | ZeroFrame
    | ResultFrame

  /** The product of the dimensions; none if one of them is no integer. */
  function Elements(dims: seq<Option<int>>): Option<int> {
    if dims == [] then Some(1)
    else
      var init := Elements(dims[..|dims| - 1]);
      if init.None? || dims[|dims| - 1].None? then None else Some(init.value * dims[|dims| - 1].value)
  }

  predicate GoodTensor(h: Header, data: Frame) {
    h.shape.Dims? && h.float32 && Elements(h.shape.dims).Some? && Elements(h.shape.dims).value * 4 == |data|
  }

  /** The number of elements multiplies: that of no dimension is one, that of one its own, and one dimension that
      is no integer spoils it. */
  lemma {:induction false} ElementsMultiply(xs: seq<Option<int>>, ys: seq<Option<int>>)
    ensures Elements([]) == Some(1) && forall n :: Elements([n]) == n
    ensures Elements(xs + ys) ==
            if Elements(xs).Some? && Elements(ys).Some? then Some(Elements(xs).value * Elements(ys).value) else None
  {
    assert forall n: Option<int> :: [n][..0] == [];
    if ys == [] {
      assert xs + ys == xs;
    } else {
      var n := |ys| - 1;
      ElementsMultiply(xs, ys[..n]);
      assert (xs + ys)[..|xs| + n] == xs + ys[..n];
      if Elements(xs).Some? && Elements(ys).Some? {
        Regroup(Elements(xs).value, Elements(ys[..n]).value, ys[n].value);
      }
    }
  }

  lemma {:induction false} Regroup(a: int, b: int, c: int)
    ensures (a * b) * c == a * (b * c)
  {
  }

  /** What preparation makes of transferred model bytes. */
  datatype Preparation = TransferRefused(code: string) | InspectionRefused(code: string) | IngestRefused(code: string)
    | Ingested(key: Key, digest: string, cached: bool)

  /** The surroundings of one step: the times it starts, looks at the clock again and ends, and the parts
      the device, the disk and the child play. */
  datatype Luck = Luck(now: nat, checked: nat, later: nat, preparation: Preparation, leased: bool, usable: bool,
                       attempt: Attempt, died: bool, exchange: Exchange, exits: bool, seen: bool)

  predicate Ordered(luck: Luck) {
    luck.now <= luck.checked <= luck.later
  }

  function Senders(queue: seq<Request>): multiset<Identity> {
    if queue == [] then multiset{} else multiset{queue[0].id} + Senders(queue[1..])
  }

  function Receivers(replies: seq<(Identity, Reply)>): multiset<Identity> {
    if replies == [] then multiset{} else Receivers(replies[..|replies| - 1]) + multiset{replies[|replies| - 1].0}
  }

  /** Whatever was received has been answered once or is still queued. */
  predicate Balanced(received: multiset<Identity>, replies: seq<(Identity, Reply)>, queue: seq<Request>) {
    received == Receivers(replies) + Senders(queue)
  }

  lemma {:induction false} SendersSnoc(queue: seq<Request>, r: Request)
    ensures Senders(queue + [r]) == Senders(queue) + multiset{r.id}
  {
    if queue == [] {
      assert [r][1..] == [];
    } else {
      assert (queue + [r])[1..] == queue[1..] + [r];
      SendersSnoc(queue[1..], r);
    }
  }

  lemma {:induction false} BalancedByAnswer(received: multiset<Identity>, replies: seq<(Identity, Reply)>,
                                            queue: seq<Request>, id: Identity, reply: Reply)
    requires Balanced(received, replies, queue)
    ensures Balanced(received + multiset{id}, replies + [(id, reply)], queue)
  {
    assert (replies + [(id, reply)])[..|replies|] == replies;
  }

  lemma {:induction false} BalancedByQueueing(received: multiset<Identity>, replies: seq<(Identity, Reply)>,
                                              queue: seq<Request>, r: Request)
    requires Balanced(received, replies, queue)
    ensures Balanced(received + multiset{r.id}, replies, queue + [r])
  {
    SendersSnoc(queue, r);
  }

  lemma {:induction false} BalancedByTurn(received: multiset<Identity>, replies: seq<(Identity, Reply)>,
                                          queue: seq<Request>, reply: (Identity, Reply))
    requires Balanced(received, replies, queue) && queue != [] && reply.0 == queue[0].id
    ensures Balanced(received, replies + [reply], queue[1..])
  {
    assert (replies + [reply])[..|replies|] == replies;
  }

  /** What becomes of an envelope. */
  datatype Admission = Skipped | TurnedAway(code: string) | Queued(request: Request)

  /** The envelope's frames behind an optional empty delimiter. */
  function Contents(frames: seq<Frame>): seq<Frame> {
    if |frames| > 1 && frames[0] == "" then frames[1..] else frames
  }

  /** An envelope without frames is skipped; it is queued exactly if its header frame is within the size
      limit and empty or readable and the queue has room. */
  function Admit(queue: seq<Request>, id: Identity, frames: seq<Frame>, parse: Frame -> Option<Header>,
                 now: nat): Admission {
    var body := Contents(frames);
    if body == [] then Skipped
    else if |body[0]| > MAX_HEADER_BYTES || (body[0] != "" && parse(body[0]).None?) then TurnedAway("INVALID_MODEL")
    else if |queue| >= QUEUE_MAX then TurnedAway("RESOURCE_EXCEEDED")
    else
      var header := if body[0] != "" then parse(body[0]).value else NO_HEADER;
      Queued(Request(id, header, if |body| > 1 then body[1] else "", now + MODEL_OP_DEADLINE_MS))
  }

  /** An envelope with a header frame, behind a delimiter or, if that frame is not empty, without one: it is refused
      for a header of more than 16 KiB or one that cannot be read, or when eight requests wait; otherwise it
      is queued with its second frame as data, for 25 s. */
  lemma {:induction false} AdmitSays(queue: seq<Request>, id: Identity, header: Frame, rest: seq<Frame>,
                                     parse: Frame -> Option<Header>, now: nat)
    ensures Admit(queue, id, [], parse, now) == Skipped
    ensures header != "" ==>
              Admit(queue, id, [header] + rest, parse, now) == Admit(queue, id, ["", header] + rest, parse, now)
    ensures var a, bad := Admit(queue, id, ["", header] + rest, parse, now),
                          |header| > 16384 || (header != "" && parse(header).None?);
            if bad then a == TurnedAway("INVALID_MODEL")
            else if |queue| >= 8 then a == TurnedAway("RESOURCE_EXCEEDED")
            else
              && a.Queued? && a.request.id == id && a.request.deadline == now + 25000
              && a.request.data == (if rest == [] then "" else rest[0])
              && (header != "" ==> parse(header) == Some(a.request.header))
              && (header == "" ==> a.request.header == Header(false, false, NoShape, false))
  {
    assert (["", header] + rest)[1..] == [header] + rest;
  }

  // ================= replies =================

  /** What one reply is for: an envelope that is not queued, an expired request, or a request by its kind. */
  datatype Matter = Refusal(code: string) | Expiry(header: Header) | AboutModel | AboutData | Inference | Unknown

  predicate IsExpired(req: Request, now: nat) {
    now >= req.deadline
  }

  function MatterOf(req: Request, now: nat): Matter {
    if IsExpired(req, now) then Expiry(req.header)
    else if req.header.modelRequest then AboutModel
    else if req.header.modelData then AboutData
    else if req.header.shape != NoShape then Inference
    else Unknown
  }

  function ExpiryReply(h: Header): Reply {
    if h.shape != NoShape then ZeroFrame
    else if h.modelRequest then Error("TIMEOUT")
    else if h.modelData then Saved(false, false, "TIMEOUT")
    else Error("TIMEOUT")
  }

  /** The replies that can be given in each matter. */
  predicate Suits(m: Matter, r: Reply) {
    match m
    case Refusal(code) => r == Error(code)
    case Expiry(h) => r == ExpiryReply(h)
    case AboutModel => r.Available?
    case AboutData => r.Saved?
    case Inference => r.ZeroFrame? || r.ResultFrame?
    case Unknown => r == Error("INVALID_MODEL")
  }

  /** When an artifact can be activated: the device is free, the artifact real, and the switch succeeds. */
  predicate Activates(luck: Luck) {
    luck.leased && luck.usable && Succeeds(luck.attempt)
  }

  /** The reply to model bytes, while this artifact is active and quiescent or not. */
  function DataReply(luck: Luck, active: Option<Key>, quiet: bool): Reply {
    match luck.preparation
    case TransferRefused(code) => Saved(false, false, code)
    case InspectionRefused(code) => Saved(false, false, code)
    case IngestRefused(code) => Saved(false, false, code)
    case Ingested(key, _, cached) =>
      if cached && active == Some(key) then Saved(true, true, "")
      else if cached && active.Some? && !quiet then Saved(true, false, "MODEL_IN_USE")
      else if cached && Activates(luck) then Saved(true, true, "")
      else Saved(true, false, "MODEL_NOT_PREPARED")
  }

  /** Model bytes are served when they are prepared and their artifact is the active one, or can be activated while
      none is active or no session of the active one was heard of lately; otherwise the reply says that it is
      in use, or being prepared, or why they were refused. */
  lemma {:induction false} DataReplySays(luck: Luck, active: Option<Key>, quiet: bool)
    ensures var r, p := DataReply(luck, active, quiet), luck.preparation;
            && (p.Ingested? <==> r.saved) && (!p.Ingested? ==> r == Saved(false, false, p.code))
            && (r.loaded <==>
                  && p.Ingested? && p.cached
                  && (active == Some(p.key)
                      || ((active.None? || quiet) && luck.leased && luck.usable && Succeeds(luck.attempt))))
            && (r.loaded ==> r.code == "")
            && (r.saved && !r.loaded ==>
                  r.code == if p.cached && active.Some? && active != Some(p.key) && !quiet then "MODEL_IN_USE"
                            else "MODEL_NOT_PREPARED")
  {
  }

  /** Every binding is of this generation and this artifact. */
  predicate Current(bindings: map<Identity, Binding>, generation: nat, active: Option<Key>) {
    forall id | id in bindings :: bindings[id].generation == generation && active == Some(bindings[id].key)
  }

  /** What was forwarded reached a worker on its binding's key or none. */
  predicate OnOwnKeys(forwarded: seq<(Key, Option<Key>)>) {
    forall i | 0 <= i < |forwarded| :: forwarded[i].1.None? || forwarded[i].1 == Some(forwarded[i].0)
  }

  lemma {:induction false} TouchedStaysCurrent(bindings: map<Identity, Binding>, generation: nat, active: Option<Key>,
                                               id: Identity, now: nat)
    requires Current(bindings, generation, active) && id in bindings
    ensures Current(bindings[id := bindings[id].(lastUsed := now)], generation, active)
    ensures active == Some(bindings[id].key)
  {
  }

  lemma {:induction false} OneMoreOnItsKey(forwarded: seq<(Key, Option<Key>)>, f: (Key, Option<Key>))
    requires OnOwnKeys(forwarded) && (f.1.None? || f.1 == Some(f.0))
    ensures OnOwnKeys(forwarded + [f])
  {
  }

  function One(b: bool): nat {
    if b then 1 else 0
  }

  // ================= the frontend =================

  class Frontend {
    const sup: Supervisor
    const sessions: SessionTable
    var generation: nat
    var active: Option<Key>
    var queue: seq<Request>
    var accepted: nat
    var success: nat
    var zero: nat
    var timeout: nat
    var rejected: nat
    var lateDiscard: nat
    var replies: seq<(Identity, Reply)>
    /** The senders of all well-formed envelopes so far. */
    ghost var received: multiset<Identity>
    /** How many of the rejections were of an accepted INFER. */
    ghost var refusedInfers: nat
    /** For each forwarded INFER the key of its binding and of the worker it reached. */
    ghost var forwarded: seq<(Key, Option<Key>)>

    /** Every binding is of the current generation and the active artifact, and so is the worker. */
    ghost predicate Bound()
      reads `generation, `active, `forwarded, sup, sup.spawned, sessions
    {
      && sup.Valid()
      && Current(sessions.bindings, generation, active) && OnOwnKeys(forwarded)
      && (sup.worker != null ==> sup.key == active)
    }

    /** Requests are queued or answered once, and accepted INFERs are accounted for. */
    ghost predicate Counted()
      reads `queue, `received, `replies, `accepted, `success, `zero, `timeout, `refusedInfers, `rejected
    {
      && |queue| <= QUEUE_MAX
      && Balanced(received, replies, queue)
      && accepted == success + zero + timeout + refusedInfers
      && refusedInfers <= rejected
    }

    ghost predicate Valid()
      reads this, sup, sup.spawned, sessions
    {
      Bound() && Counted()
    }

    lemma {:induction false} WhatValidSays()
      requires Valid()
      ensures received == Receivers(replies) + Senders(queue) && |queue| <= 8
      ensures success + zero + timeout <= accepted <= success + zero + timeout + rejected
      ensures forall id | id in sessions.bindings ::
                sessions.bindings[id].generation == generation && active == Some(sessions.bindings[id].key)
    {
    }

    constructor (sup: Supervisor)
      requires sup.Valid() && sup.worker == null
      ensures Valid() && this.sup == sup && active.None? && queue == [] && replies == [] && fresh(sessions)
    {
      this.sup := sup;
      sessions := new SessionTable();
      generation, active, queue, replies := 0, None, [], [];
      accepted, success, zero, timeout, rejected, lateDiscard := 0, 0, 0, 0, 0, 0;
      received, refusedInfers, forwarded := multiset{}, 0, [];
    }

    /** No binding was used within the quiescence window. */
    predicate Quiet(now: nat)
      reads sessions
    {
      forall id | id in sessions.bindings :: !Recent(sessions.bindings[id], now)
    }

    /** An INFER is passed on to the worker if its sender is bound, it is in time and its tensor is good. */
    predicate Reaches(req: Request, luck: Luck)
      reads sessions
    {
      req.id in sessions.bindings && !IsExpired(req, luck.checked) && GoodTensor(req.header, req.data)
    }

    /** An INFER is answered with a result exactly if its sender is bound, it is in time, its tensor is good,
        and the worker lives and answers well. */
    predicate Serves(req: Request, luck: Luck)
      reads sessions, sup, sup.worker
    {
      Reaches(req, luck) && sup.Lives(luck.died) && FailureOf(luck.exchange).None?
    }

    function ReplyTo(req: Request, luck: Luck): Reply
      reads `active, sessions, sup, sup.worker
    {
      match MatterOf(req, luck.now)
      case Expiry(h) => ExpiryReply(h)
      case AboutModel => Available(req.id in sessions.bindings)
      case AboutData => DataReply(luck, active, Quiet(luck.checked))
      case Inference => if Serves(req, luck) then ResultFrame else ZeroFrame
      case _ => Error("INVALID_MODEL")
    }

    /** An expired request gets the zero frame if it has a tensor and a timeout otherwise; in time, whether the
        sender is bound, what becomes of its model bytes, a result exactly if the live worker sends one whole
        and without an error for a good tensor, and an error for anything else. */
    lemma {:induction false} ReplySays(req: Request, luck: Luck)
      ensures luck.now >= req.deadline ==>
                ReplyTo(req, luck) == if req.header.shape != NoShape then ZeroFrame
                                      else if req.header.modelData && !req.header.modelRequest
                                        then Saved(false, false, "TIMEOUT")
                                      else Error("TIMEOUT")
      ensures luck.now < req.deadline && req.header.modelRequest ==>
                ReplyTo(req, luck) == Available(req.id in sessions.bindings)
      ensures luck.now < req.deadline && !req.header.modelRequest && req.header.modelData ==>
                ReplyTo(req, luck) == DataReply(luck, active, Quiet(luck.checked))
      ensures luck.now < req.deadline && !req.header.modelRequest && !req.header.modelData ==>
                && (req.header.shape == NoShape ==> ReplyTo(req, luck) == Error("INVALID_MODEL"))
                && (req.header.shape != NoShape ==> ReplyTo(req, luck) in {ResultFrame, ZeroFrame})
                && (req.header.shape != NoShape ==>
                      (ReplyTo(req, luck) == ResultFrame <==>
                         && req.id in sessions.bindings && luck.checked < req.deadline
                         && req.header.shape.Dims? && req.header.float32
                         && Elements(req.header.shape.dims).Some?
                         && Elements(req.header.shape.dims).value * 4 == |req.data|
                         && sup.worker != null && sup.worker.alive && !luck.died
                         && luck.exchange.Replied? && luck.exchange.kind == "RESULT" && luck.exchange.code == ""
                         && luck.exchange.size == 480))
    {
    }

    /** The artifact may be replaced exactly when every session was last heard of at least five seconds before. */
    lemma {:induction false} QuietMeans(now: nat)
      ensures Quiet(now) <==> forall id | id in sessions.bindings :: now >= sessions.bindings[id].lastUsed + 5000
    {
    }

    lemma {:induction false} ReplySuits(req: Request, luck: Luck)
      ensures Suits(MatterOf(req, luck.now), ReplyTo(req, luck))
    {
    }

    method Answer(id: Identity, reply: Reply)
      modifies `replies
      ensures replies == old(replies) + [(id, reply)]
    {
      replies := replies + [(id, reply)];
    }

    /** One envelope: skipped if it has no frames, else refused at once or queued. */
    method Receive(id: Identity, frames: seq<Frame>, parse: Frame -> Option<Header>, now: nat)
      requires Valid()
      modifies `queue, `replies, `rejected, `received
      ensures Valid()
      ensures var a := Admit(old(queue), id, frames, parse, now);
              && queue == (if a.Queued? then old(queue) + [a.request] else old(queue))
              && replies == (if a.TurnedAway? then old(replies) + [(id, Error(a.code))] else old(replies))
              && received == (if a.Skipped? then old(received) else old(received) + multiset{id})
    {
      hide Bound, Balanced;
      if frames == [] { return; }
      var idx := if frames[0] == "" && |frames| > 1 then 1 else 0;
      var headerRaw := frames[idx];
      var data := if idx + 1 < |frames| then frames[idx + 1] else "";
      if |headerRaw| > MAX_HEADER_BYTES {
        TurnAway(id, "INVALID_MODEL");
        return;
      }
      var header := if headerRaw != "" then parse(headerRaw) else Some(NO_HEADER);
      if header.None? {
        TurnAway(id, "INVALID_MODEL");
        return;
      }
      if |queue| >= QUEUE_MAX {
        TurnAway(id, "RESOURCE_EXCEEDED");
        return;
      }
      var request := Request(id, header.value, data, now + MODEL_OP_DEADLINE_MS);
      BalancedByQueueing(received, replies, queue, request);
      queue, received := queue + [request], received + multiset{id};
    }

    /** Answers a request that is not queued. */
    method TurnAway(id: Identity, code: string)
      requires Counted()
      modifies `replies, `rejected, `received
      ensures Counted() && replies == old(replies) + [(id, Error(code))] && received == old(received) + multiset{id}
    {
      hide Balanced;
      BalancedByAnswer(received, replies, queue, id, Error(code));
      Answer(id, Error(code));
      rejected, received := rejected + 1, received + multiset{id};
    }

    /** Takes the oldest request and answers it. */
    method Work(luck: Luck)
      requires Valid() && queue != [] && Ordered(luck)
      modifies this, sessions, sup, sup.spawned
      ensures Valid() && fresh(sup.spawned - old(sup.spawned))
      ensures queue == old(queue)[1..] && received == old(received)
      ensures replies == old(replies) + [(old(queue)[0].id, old(ReplyTo(queue[0], luck)))]
      ensures var m := MatterOf(old(queue)[0], luck.now);
              && accepted == old(accepted) + One(m.Inference?) && lateDiscard == old(lateDiscard) + One(m.Expiry?)
              && success == old(success) + One(m.Inference? && old(Serves(queue[0], luck)))
              && (!m.AboutData? ==> generation == old(generation) && active == old(active))
              && (m.Expiry? || m.Unknown? ==> sessions.bindings == old(sessions.bindings))
              && (m.AboutModel? ==>
                    sessions.bindings == Touched(old(sessions.bindings), old(queue)[0].id, luck.checked))
              && (m.Inference? && old(Reaches(queue[0], luck)) ==>
                    sessions.bindings == Touched(old(sessions.bindings), old(queue)[0].id, luck.later))
      ensures Keeps(old(sessions.bindings), old(queue)[0].id, old(generation), old(active), luck.checked)
    {
      hide Bound, Balanced, Keeps, ReplyTo, Serves, Reaches, MatterOf;
      var req := queue[0];
      ghost var waiting, before, reply := queue, replies, ReplyTo(queue[0], luck);
      queue := queue[1..];
      Dispatch(req, luck);
      BalancedByTurn(received, before, waiting, (req.id, reply));
    }

    /** Answers an expired request at once, any other by its kind. */
    method Dispatch(req: Request, luck: Luck)
      requires Bound() && Ordered(luck) && refusedInfers <= rejected
      requires accepted == success + zero + timeout + refusedInfers
      modifies sessions, sup, sup.spawned, `replies, `accepted, `success, `zero, `timeout, `rejected, `lateDiscard,
               `refusedInfers, `forwarded, `generation, `active
      ensures Bound() && fresh(sup.spawned - old(sup.spawned)) && refusedInfers <= rejected
      ensures accepted == success + zero + timeout + refusedInfers
      ensures replies == old(replies) + [(req.id, old(ReplyTo(req, luck)))]
      ensures var m := MatterOf(req, luck.now);
              && accepted == old(accepted) + One(m.Inference?) && lateDiscard == old(lateDiscard) + One(m.Expiry?)
              && success == old(success) + One(m.Inference? && old(Serves(req, luck)))
              && (!m.AboutData? ==> generation == old(generation) && active == old(active))
              && (m.Expiry? || m.Unknown? ==> sessions.bindings == old(sessions.bindings))
              && (m.AboutModel? ==> sessions.bindings == Touched(old(sessions.bindings), req.id, luck.checked))
              && (m.Inference? && old(Reaches(req, luck)) ==>
                    sessions.bindings == Touched(old(sessions.bindings), req.id, luck.later))
      ensures Keeps(old(sessions.bindings), req.id, old(generation), old(active), luck.checked)
    {
      hide Bound, Keeps, Serves, Reaches, DataReply, Quiet;
      KeepsAll(req.id, luck.checked);
      if IsExpired(req, luck.now) {
        lateDiscard := lateDiscard + 1;
        Answer(req.id, if req.header.shape != NoShape then ZeroFrame
                       else if req.header.modelRequest then Error("TIMEOUT")
                       else if req.header.modelData then Saved(false, false, "TIMEOUT")
                       else Error("TIMEOUT"));
      } else if req.header.modelRequest {
        HandleModelRequest(req.id, luck.checked);
      } else if req.header.modelData {
        HandleModelData(req.id, luck);
      } else if req.header.shape != NoShape {
        HandleInfer(req, luck);
      } else {
        Answer(req.id, Error("INVALID_MODEL"));
        rejected := rejected + 1;
      }
    }

    /** Nothing that was used within the quiescence window is dropped or switched away from: then the
        generation and the active artifact stay, and every binding but the sender's own. */
    ghost predicate Keeps(before: map<Identity, Binding>, sender: Identity, oldGeneration: nat,
                          oldActive: Option<Key>, now: nat)
      reads `generation, `active, sessions
    {
      (exists id :: id in before && Recent(before[id], now)) ==>
        && generation == oldGeneration && active == oldActive
        && forall id | id in before :: id in sessions.bindings && (id != sender ==> sessions.bindings[id] == before[id])
    }

    lemma {:induction false} KeepsAll(sender: Identity, now: nat)
      ensures Keeps(sessions.bindings, sender, generation, active, now)
    {
    }

    lemma {:induction false} KeepsTouched(before: map<Identity, Binding>, sender: Identity, now: nat)
      requires forall id | id in before ::
                 id in sessions.bindings && (id != sender ==> sessions.bindings[id] == before[id])
      ensures Keeps(before, sender, generation, active, now)
    {
    }

    method HandleModelRequest(id: Identity, now: nat)
      requires Bound()
      modifies sessions, `replies
      ensures Bound()
      ensures replies == old(replies) + [(id, Available(id in old(sessions.bindings)))]
      ensures sessions.bindings == Touched(old(sessions.bindings), id, now)
      ensures Keeps(old(sessions.bindings), id, old(generation), old(active), now)
      ensures generation == old(generation) && active == old(active)
    {
      if id in sessions.bindings && sessions.bindings[id].generation == generation && active.Some? {
        Answer(id, Available(true));
        sessions.Touch(id, now);
        return;
      }
      Answer(id, Available(false));
    }

    /** Transferred model bytes: refused, being prepared, or served. */
    method HandleModelData(id: Identity, luck: Luck)
      requires Bound() && Ordered(luck) && refusedInfers <= rejected
      modifies sessions, sup, sup.spawned, `replies, `rejected, `generation, `active
      ensures Bound() && fresh(sup.spawned - old(sup.spawned)) && refusedInfers <= rejected
      ensures replies == old(replies) + [(id, DataReply(luck, old(active), old(Quiet(luck.checked))))]
      ensures replies[|old(replies)|].1 == Saved(true, true, "") ==>
                && luck.preparation.Ingested? && active == Some(luck.preparation.key) && id in sessions.bindings
                && sessions.bindings[id] ==
                   Binding(luck.preparation.key, luck.preparation.digest, generation, luck.later)
      ensures replies[|old(replies)|].1 != Saved(true, true, "") ==>
                sessions.bindings == old(sessions.bindings) && generation == old(generation) && active == old(active)
      ensures rejected == old(rejected) + One(!luck.preparation.Ingested?)
      ensures Keeps(old(sessions.bindings), id, old(generation), old(active), luck.checked)
    {
      hide Bound, Keeps, Quiet, Activates;
      KeepsAll(id, luck.checked);
      match luck.preparation {
        case TransferRefused(code) =>
          Answer(id, Saved(false, false, code));
          rejected := rejected + 1;
        case InspectionRefused(code) =>
          Answer(id, Saved(false, false, code));
          rejected := rejected + 1;
        case IngestRefused(code) =>
          Answer(id, Saved(false, false, code));
          rejected := rejected + 1;
        case Ingested(key, digest, cached) =>
          if cached {
            var replied := HandlePrepared(id, key, digest, luck);
            if replied { return; }
          }
          Answer(id, Saved(true, false, "MODEL_NOT_PREPARED"));
      }
    }

    lemma {:induction false} QuietIsQuiescent(now: nat)
      requires Bound()
      ensures Quiet(now) <==>
              forall id | id in sessions.bindings && sessions.bindings[id].generation == generation ::
                !Recent(sessions.bindings[id], now)
    {
    }

    /** Whether to serve a prepared artifact now; true if that has been answered. */
    method HandlePrepared(id: Identity, key: Key, digest: string, luck: Luck) returns (replied: bool)
      requires Bound() && Ordered(luck)
      modifies sessions, sup, sup.spawned, `replies, `generation, `active
      ensures Bound() && fresh(sup.spawned - old(sup.spawned))
      ensures replied <==>
                old(active) == Some(key) || (old(active).Some? && !old(Quiet(luck.checked))) || Activates(luck)
      ensures var inUse := old(active).Some? && old(active) != Some(key) && !old(Quiet(luck.checked));
              var reply := if inUse then Saved(true, false, "MODEL_IN_USE") else Saved(true, true, "");
              replied ==> replies == old(replies) + [(id, reply)]
      ensures !replied ==> replies == old(replies) && sessions.bindings == old(sessions.bindings)
                           && generation == old(generation) && active == old(active)
      ensures Keeps(old(sessions.bindings), id, old(generation), old(active), luck.checked)
      ensures replied && !replies[|old(replies)|].1.loaded ==>
                sessions.bindings == old(sessions.bindings) && generation == old(generation) && active == old(active)
      ensures replied && replies[|old(replies)|].1.loaded ==>
                active == Some(key) && id in sessions.bindings
                  && sessions.bindings[id] == Binding(key, digest, generation, luck.later)
      ensures generation != old(generation) ==>
                && generation == old(generation) + 1 && active != old(active) && sessions.bindings.Keys == {id}
                && old(active).Some? && sessions.superseded == old(sessions.superseded) + {old(active).value}
    {
      hide Supervisor.Valid, Supervisor.Known;
      if active.None? {
        var ok := TryActivate(key, luck);
        if ok {
          sessions.Bind(id, key, digest, generation, luck.later);
          Answer(id, Saved(true, true, ""));
        }
        return ok;
      }
      if active == Some(key) {
        sessions.Bind(id, key, digest, generation, luck.later);
        Answer(id, Saved(true, true, ""));
        return true;
      }
      var quiet := sessions.IsQuiescent(generation, luck.checked);
      QuietIsQuiescent(luck.checked);
      if !quiet {
        Answer(id, Saved(true, false, "MODEL_IN_USE"));
        return true;
      }
      replied := Switch(id, key, digest, luck);
    }

    /** Replaces the active artifact by another one: the generation moves on and no other binding stays. */
    method Switch(id: Identity, key: Key, digest: string, luck: Luck) returns (ok: bool)
      requires Bound() && active.Some? && active != Some(key)
      modifies sessions, sup, sup.spawned, `replies, `generation, `active
      ensures Bound() && fresh(sup.spawned - old(sup.spawned)) && (ok <==> Activates(luck))
      ensures ok ==> && replies == old(replies) + [(id, Saved(true, true, ""))]
                     && active == Some(key) && generation == old(generation) + 1
                     && sessions.bindings == map[id := Binding(key, digest, generation, luck.later)]
                     && sessions.superseded == old(sessions.superseded) + {old(active).value}
      ensures !ok ==> replies == old(replies) && sessions.bindings == old(sessions.bindings)
                      && generation == old(generation) && active == old(active)
    {
      hide Supervisor.Valid, Supervisor.Known;
      var replaced := active.value;
      ok := TryActivate(key, luck);
      if ok {
        sessions.InvalidateGeneration(generation);
        assert sessions.bindings == map[];
        generation := generation + 1;
        sessions.superseded := sessions.superseded + {replaced};
        sessions.Bind(id, key, digest, generation, luck.later);
        Answer(id, Saved(true, true, ""));
      }
    }

    /** Activates an artifact if the device is free and the artifact real; otherwise nothing changes. */
    method TryActivate(key: Key, luck: Luck) returns (ok: bool)
      requires sup.Valid()
      modifies sup, sup.spawned, `active
      ensures sup.Valid() && fresh(sup.spawned - old(sup.spawned))
      ensures ok <==> Activates(luck)
      ensures active == if ok then Some(key) else old(active)
      ensures ok ==> sup.worker != null && sup.key == Some(key) && sup.generation == old(sup.generation) + 1
      ensures !ok ==> sup.worker == old(sup.worker) && sup.key == old(sup.key) && sup.generation == old(sup.generation)
    {
      hide Supervisor.Known;
      if !luck.leased || !luck.usable { return false; }
      ok := sup.ActivateWorker(key, luck.attempt);
      if ok { active := Some(key); }
    }

    /** One inference: refused, timed out, answered with the zero frame, or answered by the worker. */
    method HandleInfer(req: Request, luck: Luck)
      requires Bound() && Ordered(luck) && refusedInfers <= rejected
      requires accepted == success + zero + timeout + refusedInfers
      modifies sessions, sup, sup.spawned, `replies, `accepted, `success, `zero, `timeout, `rejected, `refusedInfers,
               `forwarded
      ensures Bound() && sup.spawned == old(sup.spawned) && refusedInfers <= rejected
      ensures accepted == success + zero + timeout + refusedInfers && accepted == old(accepted) + 1
      ensures replies == old(replies) + [(req.id, if old(Serves(req, luck)) then ResultFrame else ZeroFrame)]
      ensures success == old(success) + One(old(Serves(req, luck)))
      ensures Keeps(old(sessions.bindings), req.id, old(generation), old(active), luck.checked)
      ensures timeout == old(timeout) + One(req.id in old(sessions.bindings) && IsExpired(req, luck.checked))
      ensures zero == old(zero) + One(req.id in old(sessions.bindings) && !IsExpired(req, luck.checked)
                                      && GoodTensor(req.header, req.data) && old(sup.worker) == null)
      ensures success != old(success) ==> old(sup.key) == Some(old(sessions.bindings)[req.id].key)
      ensures sessions.bindings == if old(Reaches(req, luck)) then Touched(old(sessions.bindings), req.id, luck.later)
                                   else old(sessions.bindings)
    {
      hide GoodTensor, Keeps, Bound, Serves, Reaches, IsExpired, Supervisor.Lives, FailureOf;
      WhatServes(req, luck);
      BoundIsCurrent(req.id);
      KeepsAll(req.id, luck.checked);
      ghost var before := sessions.bindings;
      accepted := accepted + 1;
      if req.id !in sessions.bindings || sessions.bindings[req.id].generation != generation {
        Refuse(req.id);
        return;
      }
      if IsExpired(req, luck.checked) {
        Answer(req.id, ZeroFrame);
        timeout := timeout + 1;
        return;
      }
      var good := CheckTensor(req.header, req.data);
      if !good {
        Refuse(req.id);
        return;
      }
      Forward(req.id, luck);
      KeepsTouched(before, req.id, luck.checked);
    }

    lemma {:induction false} WhatServes(req: Request, luck: Luck)
      ensures Reaches(req, luck) <==>
                req.id in sessions.bindings && !IsExpired(req, luck.checked) && GoodTensor(req.header, req.data)
      ensures Serves(req, luck) <==>
                Reaches(req, luck) && sup.Lives(luck.died) && FailureOf(luck.exchange).None?
    {
    }

    lemma {:induction false} BoundIsCurrent(id: Identity)
      requires Bound()
      ensures id in sessions.bindings ==> sessions.bindings[id].generation == generation
    {
    }

    /** Passes a good request of a bound session to the worker. */
    method Forward(id: Identity, luck: Luck)
      requires Bound() && id in sessions.bindings && accepted == success + zero + timeout + refusedInfers + 1
               && refusedInfers <= rejected
      modifies sessions, sup, sup.spawned, `replies, `success, `zero, `rejected, `refusedInfers, `forwarded
      ensures Bound() && sup.spawned == old(sup.spawned) && refusedInfers <= rejected
      ensures accepted == success + zero + timeout + refusedInfers
      ensures var served := old(sup.Lives(luck.died)) && FailureOf(luck.exchange).None?;
              && success == old(success) + One(served) && zero == old(zero) + One(old(sup.worker) == null)
              && replies == old(replies) + [(id, if served then ResultFrame else ZeroFrame)]
              && (served ==> old(sup.key) == Some(old(sessions.bindings)[id].key))
      ensures sessions.bindings == old(sessions.bindings)[id := old(sessions.bindings)[id].(lastUsed := luck.later)]
      ensures |forwarded| == |old(forwarded)| + 1 && forwarded[..|old(forwarded)|] == old(forwarded)
      ensures forwarded[|old(forwarded)|].0 == old(sessions.bindings)[id].key
    {
      hide Supervisor.Valid, Supervisor.Known, Current, OnOwnKeys, FailureOf;
      sup.WhatValidSays();
      ghost var bound := sessions.bindings[id].key;
      TouchedStaysCurrent(sessions.bindings, generation, active, id, luck.later);
      var status, reached := sup.WorkerInfer(luck.died, luck.exchange, luck.exits, luck.seen);
      OneMoreOnItsKey(forwarded, (bound, reached));
      forwarded := forwarded + [(bound, reached)];
      match status {
        case Answered =>
          Answer(id, ResultFrame);
          success := success + 1;
        case NoWorker =>
          Answer(id, ZeroFrame);
          zero := zero + 1;
        case Refused => Refuse(id);
        case Late => Refuse(id);
      }
      sessions.Touch(id, luck.later);
    }

    method Refuse(id: Identity)
      modifies `replies, `rejected, `refusedInfers
      ensures replies == old(replies) + [(id, ZeroFrame)]
      ensures rejected == old(rejected) + 1 && refusedInfers == old(refusedInfers) + 1
    {
      Answer(id, ZeroFrame);
      rejected, refusedInfers := rejected + 1, refusedInfers + 1;
    }
  }

  /** A list of integer dimensions, of 32-bit floats, whose product is the number of elements sent. */
  method CheckTensor(h: Header, data: Frame) returns (good: bool)
    ensures good <==> GoodTensor(h, data)
  {
    if !h.shape.Dims? || !h.float32 { return false; }
    var elems := CountElements(h.shape.dims);
    return elems.Some? && elems.value * 4 == |data|;
  }

  method CountElements(dims: seq<Option<int>>) returns (elems: Option<int>)
    ensures elems == Elements(dims)
  {
    var n := 1;
    for i := 0 to |dims|
      invariant Elements(dims[..i]) == Some(n)
    {
      assert dims[..i + 1][..i] == dims[..i];
      if dims[i].None? {
        OneBadDimension(dims, i + 1);
        return None;
      }
      n := n * dims[i].value;
    }
    assert dims[..|dims|] == dims;
    return Some(n);
  }

  lemma {:induction false} OneBadDimension(dims: seq<Option<int>>, n: nat)
    requires n <= |dims| && Elements(dims[..n]).None?
    ensures Elements(dims).None?
    decreases |dims| - n
  {
    if n < |dims| {
      assert dims[..n + 1][..n] == dims[..n];
      OneBadDimension(dims, n + 1);
    } else {
      assert dims[..n] == dims;
    }
  }

  // ================= all runs =================

  datatype Event = Arrival(id: Identity, frames: seq<Frame>, now: nat) | Turn(luck: Luck)

  /** The queue after one event, and whom the event answers in which matter, if anyone. */
  function Next(queue: seq<Request>, e: Event, parse: Frame -> Option<Header>)
    : (seq<Request>, seq<(Identity, Matter)>)
  {
    match e
    case Arrival(id, frames, now) =>
      (match Admit(queue, id, frames, parse, now)
       case Skipped => (queue, [])
       case TurnedAway(code) => (queue, [(id, Refusal(code))])
       case Queued(request) => (queue + [request], []))
    case Turn(luck) =>
      if queue == [] then (queue, []) else (queue[1..], [(queue[0].id, MatterOf(queue[0], luck.now))])
  }

  /** The queue after all events, and whom they answer in which matter, in order. */
  function Trace(queue: seq<Request>, events: seq<Event>, parse: Frame -> Option<Header>)
    : (seq<Request>, seq<(Identity, Matter)>)
  {
    if events == [] then (queue, [])
    else
      var before := Trace(queue, events[..|events| - 1], parse);
      var last := Next(before.0, events[|events| - 1], parse);
      (last.0, before.1 + last.1)
  }

  /** The senders of the envelopes that have frames. */
  function Heard(events: seq<Event>): multiset<Identity> {
    if events == [] then multiset{}
    else Heard(events[..|events| - 1]) + HeardOne(events[|events| - 1])
  }

  function HeardOne(e: Event): multiset<Identity> {
    if e.Arrival? && e.frames != [] then multiset{e.id} else multiset{}
  }

  /** The replies since `before` go to these identities and suit their matters. */
  predicate AnswersTo(before: seq<(Identity, Reply)>, after: seq<(Identity, Reply)>, due: seq<(Identity, Matter)>) {
    && before <= after && |after| == |before| + |due|
    && forall k | 0 <= k < |due| :: after[|before| + k].0 == due[k].0 && Suits(due[k].1, after[|before| + k].1)
  }

  lemma {:induction false} AnswersCompose(a: seq<(Identity, Reply)>, b: seq<(Identity, Reply)>,
                                          c: seq<(Identity, Reply)>, xs: seq<(Identity, Matter)>,
                                          ys: seq<(Identity, Matter)>)
    requires AnswersTo(a, b, xs) && AnswersTo(b, c, ys)
    ensures AnswersTo(a, c, xs + ys)
  {
    hide Suits;
  }

  function Inferences(due: seq<(Identity, Matter)>): nat {
    if due == [] then 0 else Inferences(due[..|due| - 1]) + One(due[|due| - 1].1.Inference?)
  }

  function Expiries(due: seq<(Identity, Matter)>): nat {
    if due == [] then 0 else Expiries(due[..|due| - 1]) + One(due[|due| - 1].1.Expiry?)
  }

  lemma {:induction false} CountsAdd(xs: seq<(Identity, Matter)>, ys: seq<(Identity, Matter)>)
    requires |ys| <= 1
    ensures Inferences(xs + ys) == Inferences(xs) + Inferences(ys)
    ensures Expiries(xs + ys) == Expiries(xs) + Expiries(ys)
  {
    if ys == [] {
      assert xs + ys == xs;
    } else {
      assert (xs + ys)[..|xs|] == xs && ys[..0] == [];
    }
  }

  /** Handles one event. */
  method Handle(f: Frontend, e: Event, parse: Frame -> Option<Header>)
    requires f.Valid() && (e.Turn? ==> Ordered(e.luck))
    modifies f, f.sessions, f.sup, f.sup.spawned
    ensures f.Valid() && fresh(f.sup.spawned - old(f.sup.spawned))
    ensures f.received == old(f.received) + HeardOne(e)
    ensures f.queue == Next(old(f.queue), e, parse).0
    ensures var due := Next(old(f.queue), e, parse).1;
            && AnswersTo(old(f.replies), f.replies, due) && |due| <= 1
            && f.accepted == old(f.accepted) + Inferences(due) && f.lateDiscard == old(f.lateDiscard) + Expiries(due)
  {
    hide Frontend.Valid, Frontend.Keeps, Frontend.ReplyTo, Frontend.Serves, MatterOf;
    match e {
      case Arrival(id, frames, now) => f.Receive(id, frames, parse, now);
      case Turn(luck) =>
        if f.queue != [] {
          f.ReplySuits(f.queue[0], luck);
          f.Work(luck);
        }
    }
  }

  /** Whatever arrives and however the worker behaves, in any order: the queue is bounded, everything
      received is answered exactly once or still queued, in the order it was queued and as its matter and
      expiry call for; the INFERs counted as accepted are those taken up in time, and they add up; and every
      forwarded INFER reached a worker on its own binding's key or none. */
  method Run(f: Frontend, events: seq<Event>, parse: Frame -> Option<Header>)
    requires f.Valid() && forall i | 0 <= i < |events| && events[i].Turn? :: Ordered(events[i].luck)
    modifies f, f.sessions, f.sup, f.sup.spawned
    ensures f.Valid()
    ensures f.received == old(f.received) + Heard(events)
    ensures f.queue == Trace(old(f.queue), events, parse).0
    ensures var due := Trace(old(f.queue), events, parse).1;
            && AnswersTo(old(f.replies), f.replies, due)
            && f.accepted == old(f.accepted) + Inferences(due) && f.lateDiscard == old(f.lateDiscard) + Expiries(due)
    ensures f.received == Receivers(f.replies) + Senders(f.queue) && |f.queue| <= 8
    ensures f.success + f.zero + f.timeout <= f.accepted <= f.success + f.zero + f.timeout + f.rejected
    ensures forall id | id in f.sessions.bindings ::
              f.sessions.bindings[id].generation == f.generation && f.active == Some(f.sessions.bindings[id].key)
  {
    hide Frontend.Valid, AnswersTo, Next, HeardOne, Inferences, Expiries;
    ghost var queue, replies := f.queue, f.replies;
    AnswersNobody(replies);
    for i := 0 to |events|
      invariant f.Valid() && fresh(f.sup.spawned - old(f.sup.spawned))
      invariant f.received == old(f.received) + Heard(events[..i])
      invariant f.queue == Trace(queue, events[..i], parse).0
      invariant AnswersTo(replies, f.replies, Trace(queue, events[..i], parse).1)
      invariant f.accepted == old(f.accepted) + Inferences(Trace(queue, events[..i], parse).1)
      invariant f.lateDiscard == old(f.lateDiscard) + Expiries(Trace(queue, events[..i], parse).1)
    {
      assert events[..i + 1][..i] == events[..i];
      ghost var before := f.replies;
      ghost var next := Next(f.queue, events[i], parse);
      Handle(f, events[i], parse);
      AnswersCompose(replies, before, f.replies, Trace(queue, events[..i], parse).1, next.1);
      CountsAdd(Trace(queue, events[..i], parse).1, next.1);
    }
    assert events[..|events|] == events;
    f.WhatValidSays();
  }

  lemma {:induction false} AnswersNobody(replies: seq<(Identity, Reply)>)
    ensures AnswersTo(replies, replies, []) && Inferences([]) == 0 && Expiries([]) == 0
  {
  }
}
