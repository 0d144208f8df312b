/** One stability run: every durable write it makes, in order, on every path through its phases, and
    what a crash after any of them leaves to be detected. */
module StabilityRun {
  import opened Text
  import opened Stability

  /** One durable write into the run's directory. */
  datatype Write = Metadata | Line(crumb: Crumb) | Current | Result(pass: bool)

  const RUN := Op("RUN", "RUN", None)

  function Phase(name: string): Op {
    Op(name, "PHASE", None)
  }

  // ================= the order of writes =================

  /** How far a run's writes have come: `count` breadcrumbs, and the phase that is open. */
  datatype Progress =
    | Fresh
    | Described
    | Running(open: Option<Op>, count: nat)
    | Finished(pass: bool)
    | Disordered

  function Advance(p: Progress, w: Write): Progress {
    match (p, w)
    case (Fresh, Metadata) => Described
    case (Described, Line(c)) => if c == Crumb(1, RUN, Started) then Running(None, 1) else Disordered
    case (Running(_, _), Current) => p
    case (Running(None, n), Line(c)) =>
      if c.op != RUN && c == Crumb(n + 1, c.op, Started) then Running(Some(c.op), n + 1) else Disordered
    case (Running(Some(op), n), Line(c)) =>
      if c == Crumb(n + 1, op, Completed) then Running(None, n + 1) else Disordered
    case (Running(None, _), Result(pass)) => Finished(pass)
    case (Finished(_), Line(c)) => if c.op == RUN && c.state.Completed? then p else Disordered
    case (Finished(_), Current) => p
    case _ => Disordered
  }

  function Scan(log: seq<Write>): Progress {
    if log == [] then Fresh else Advance(Scan(log[..|log| - 1]), log[|log| - 1])
  }

  lemma {:induction false} ScanSnoc(log: seq<Write>, w: Write)
    ensures Scan(log + [w]) == Advance(Scan(log), w)
  {
    assert (log + [w])[..|log|] == log;
  }

  lemma {:induction false} PrefixInOrder(log: seq<Write>, n: nat)
    requires n <= |log| && Scan(log) != Disordered
    ensures Scan(log[..n]) != Disordered
    decreases |log| - n
  {
    if n < |log| {
      PrefixInOrder(log, n + 1);
      assert log[..n + 1][..n] == log[..n];
    } else {
      assert log[..n] == log;
    }
  }

  /** The lines of the timeline after some writes. */
  function Lines(log: seq<Write>): seq<Option<Crumb>> {
    if log == [] then []
    else Lines(log[..|log| - 1]) + if log[|log| - 1].Line? then [Some(log[|log| - 1].crumb)] else []
  }

  predicate HasResult(log: seq<Write>) {
    exists w | w in log :: w.Result?
  }

  /** What a crash after `n` writes leaves: those writes, and perhaps a torn piece of the next line. */
  function Left(log: seq<Write>, n: nat, torn: bool): RunDir
    requires n <= |log|
  {
    RunDir(Metadata in log[..n], Lines(log[..n]) + (if torn then [None] else []),
           HasResult(log[..n]), false)
  }

  // ================= detection =================

  /** The open operations of a running run: the run, and its open phase. */
  function Expected(open: Option<Op>, count: nat): map<Op, Crumb> {
    var run := map[RUN := Crumb(1, RUN, Started)];
    if open.Some? then run[open.value := Crumb(count, open.value, Started)] else run
  }

  lemma {:induction false} ParsedSnoc(lines: seq<Option<Crumb>>, line: Option<Crumb>)
    ensures Parsed(lines + [line]) == Parsed(lines) + if line.Some? then [line.value] else []
  {
    assert (lines + [line])[..|lines|] == lines;
  }

  lemma {:induction false} OpensSnoc(t: seq<Crumb>, c: Crumb)
    ensures Opens(t + [c]) == match c.state
                              case Started => Opens(t)[c.op := c]
                              case Completed => Opens(t) - {c.op}
                              case OtherState => Opens(t)
  {
    assert (t + [c])[..|t|] == t;
  }

  /** The timeline says what the run was doing. */
  predicate Says(t: seq<Crumb>, p: Progress) {
    && (p.Fresh? || p.Described? ==> t == [])
    && (p.Running? ==>
          && Opens(t) == Expected(p.open, p.count) && 1 <= p.count
          && (p.open.Some? ==> p.open.value != RUN && p.count > 1))
  }

  lemma {:induction false} LineKeepsSaying(t: seq<Crumb>, p: Progress, c: Crumb)
    requires Says(t, p) && Advance(p, Line(c)) != Disordered
    ensures Says(t + [c], Advance(p, Line(c)))
  {
    hide Opens;
    NothingOpen(t);
    OpensSnoc(t, c);
  }

  lemma {:induction false} OthersKeepSaying(t: seq<Crumb>, p: Progress, w: Write)
    requires Says(t, p) && !w.Line? && Advance(p, w) != Disordered
    ensures Says(t, Advance(p, w))
  {
    hide Opens, Expected;
  }

  lemma {:induction false} OrderedSays(log: seq<Write>)
    requires Scan(log) != Disordered
    ensures Says(Parsed(Lines(log)), Scan(log))
  {
    if log != [] {
      hide Scan, Says, Parsed, Advance, Expected;
      var init, w := log[..|log| - 1], log[|log| - 1];
      assert log == init + [w];
      ScanSnoc(init, w);
      OrderedSays(init);
      assert Lines(init) + [] == Lines(init);
      if w.Line? {
        ParsedSnoc(Lines(init), Some(w.crumb));
        LineKeepsSaying(Parsed(Lines(init)), Scan(init), w.crumb);
      } else {
        OthersKeepSaying(Parsed(Lines(init)), Scan(init), w);
      }
    }
    NothingParsed();
  }

  function Crumbs(p: Progress): nat {
    if p.Running? then p.count else 0
  }

  predicate Begun(p: Progress) {
    p.Fresh? || p.Described? || p.Running?
  }

  lemma {:induction false} AdvanceCounts(p: Progress, w: Write)
    requires Begun(Advance(p, w))
    ensures Begun(p)
    ensures if w.Line? then Crumbs(Advance(p, w)) == Crumbs(p) + 1 == w.crumb.sequence
            else Crumbs(Advance(p, w)) == Crumbs(p)
  {
  }

  /** The breadcrumbs of a run that is not finished are numbered from one on. */
  lemma {:induction false} OrderedIsNumbered(log: seq<Write>)
    requires Begun(Scan(log))
    ensures var t := Parsed(Lines(log));
            && |t| == Crumbs(Scan(log))
            && forall i | 0 <= i < |t| :: t[i].sequence == i + 1
  {
    NothingParsed();
    if log != [] {
      hide Scan, Parsed, Advance, Begun, Crumbs;
      var init, w := log[..|log| - 1], log[|log| - 1];
      assert log == init + [w];
      ScanSnoc(init, w);
      AdvanceCounts(Scan(init), w);
      OrderedIsNumbered(init);
      if w.Line? {
        ParsedSnoc(Lines(init), Some(w.crumb));
      } else {
        assert Lines(init) + [] == Lines(init);
      }
    }
  }

  /** The metadata and the result are there exactly from their own writes on. */
  lemma {:induction false} OrderedMarks(log: seq<Write>)
    requires Scan(log) != Disordered
    ensures (Metadata in log <==> !Scan(log).Fresh?) && (HasResult(log) <==> Scan(log).Finished?)
  {
    if log != [] {
      hide Scan;
      var init, w := log[..|log| - 1], log[|log| - 1];
      assert log == init + [w];
      ScanSnoc(init, w);
      OrderedMarks(init);
    }
  }

  lemma {:induction false} NothingParsed()
    ensures Parsed([]) == []
  {
  }

  /** The crumb a crash leaves as evidence: the start of the open phase, or else of the run. */
  function Evidence(p: Progress): Crumb
    requires p.Running?
  {
    if p.open.Some? then Crumb(p.count, p.open.value, Started) else Crumb(1, RUN, Started)
  }

  lemma {:induction false} RunningIsInterrupted(d: RunDir, p: Progress)
    requires p.Running? && !d.result && Says(Parsed(d.lines), p)
    ensures Interrupted(d) && LastOf(Opens(Parsed(d.lines)), Evidence(p))
    ensures forall c | LastOf(Opens(Parsed(d.lines)), c) :: c == Evidence(p)
  {
    hide Opens, Parsed;
    assert RUN in Opens(Parsed(d.lines));
    assert p.open.Some? ==> p.open.value in Opens(Parsed(d.lines));
  }

  lemma {:induction false} NotYetInterrupted(d: RunDir, p: Progress)
    requires (p.Fresh? || p.Described?) && Says(Parsed(d.lines), p)
    ensures !Interrupted(d)
  {
    hide Opens, Parsed;
    NothingOpen(Parsed(d.lines));
  }

  /** For every order a run writes in and every point a crash can come at, torn last line included: once
      the first breadcrumb is durable and until the result is, the run is found interrupted, what is
      reported is the open operation with the largest sequence number, and the latch refuses the next run
      until this one is acknowledged; once the result exists nothing is reported or refused. */
  lemma {:induction false} CrashIsDetected(log: seq<Write>, n: nat, torn: bool, before: seq<RunDir>)
    requires n <= |log| && Scan(log) != Disordered
    ensures var p, left := Scan(log[..n]), Left(log, n, torn);
            && (p.Running? ==> Interrupted(left) && LastOf(Opens(Parsed(left.lines)), Evidence(p)))
            && (p.Running? ==> forall c | LastOf(Opens(Parsed(left.lines)), c) :: c == Evidence(p))
            && (p.Running? ==> Latched(before + [left]) && !Latched(before + [left.(acknowledged := true)]))
            && (p.Finished? ==> !Interrupted(left) && !Latched(before + [left]))
            && (p.Fresh? || p.Described? ==> !Interrupted(left))
  {
    hide Scan, Opens, Lines, Parsed, HasResult, Says, LastOf, Latest;
    var p, left := Scan(log[..n]), Left(log, n, torn);
    PrefixInOrder(log, n);
    OrderedSays(log[..n]);
    OrderedMarks(log[..n]);
    TornIsSkipped(Lines(log[..n]), torn);
    LatestIsLast(before, left);
    LatestIsLast(before, left.(acknowledged := true));
    if p.Running? {
      RunningIsInterrupted(left, p);
    } else if !p.Finished? {
      NotYetInterrupted(left, p);
    }
  }

  lemma {:induction false} TornIsSkipped(lines: seq<Option<Crumb>>, torn: bool)
    ensures Parsed(lines + (if torn then [None] else [])) == Parsed(lines)
  {
    ParsedSnoc(lines, None);
    assert lines + [] == lines;
  }

  lemma {:induction false} NothingOpen(t: seq<Crumb>)
    ensures t == [] ==> Opens(t) == map[]
  {
  }

  lemma {:induction false} LatestIsLast(before: seq<RunDir>, d: RunDir)
    ensures d.metadata ==> Latest(before + [d]) == Some(|before|)
  {
  }

  // ================= the device =================

  /** One use of the device during an operation, when `at` writes were durable. */
  datatype Use = Use(at: nat, op: Op)

  function Ops(uses: seq<Use>): seq<Op> {
    seq(|uses|, i requires 0 <= i < |uses| => uses[i].op)
  }

  function Repeated(op: Op, count: nat): seq<Op> {
    seq(count, _ => op)
  }

  /** A crash is reported as having interrupted this operation. */
  ghost predicate ReportedAs(d: RunDir, op: Op) {
    Interrupted(d) && forall c | LastOf(Opens(Parsed(d.lines)), c) :: c.op == op
  }

  /** At each use the log had its operation open. */
  ghost predicate Attributed(log: seq<Write>, uses: seq<Use>) {
    forall k | 0 <= k < |uses| :: uses[k].at <= |log| && Open(Scan(log[..uses[k].at]), uses[k].op)
  }

  predicate Open(p: Progress, op: Op) {
    p.Running? && p.open == Some(op)
  }

  /** How a phase that is open has come along since `before`: its start, then nothing but checkpoints, and
      `count` uses of the device, all of them after the start. */
  predicate Opened(op: Op, s: nat, before: seq<Write>, now: seq<Write>, used: seq<Use>, uses: seq<Use>, count: nat) {
    && |before| < |now| && before <= now && now[|before|] == Line(Crumb(s + 1, op, Started))
    && (forall i | |before| < i < |now| :: now[i] == Current)
    && used <= uses && Ops(uses) == Ops(used) + Repeated(op, count)
    && forall k | |used| <= k < |uses| :: |before| < uses[k].at <= |now|
  }

  /** A whole phase: its start, nothing but checkpoints, its completion, and `count` uses of the device,
      all of them between the two. */
  predicate Done(op: Op, s: nat, before: seq<Write>, after: seq<Write>, used: seq<Use>, uses: seq<Use>, count: nat) {
    && after != [] && after[|after| - 1] == Line(Crumb(s + 2, op, Completed))
    && Opened(op, s, before, after[..|after| - 1], used, uses, count)
  }

  lemma {:induction false} PhaseOpens(op: Op, s: nat, log: seq<Write>, uses: seq<Use>)
    ensures Opened(op, s, log, log + [Line(Crumb(s + 1, op, Started))], uses, uses, 0)
  {
    assert Repeated(op, 0) == [];
  }

  lemma {:induction false} PhaseUses(op: Op, s: nat, before: seq<Write>, now: seq<Write>, used: seq<Use>,
                                     uses: seq<Use>, count: nat)
    requires Opened(op, s, before, now, used, uses, count)
    ensures Opened(op, s, before, now, used, uses + [Use(|now|, op)], count + 1)
  {
    assert Ops(uses + [Use(|now|, op)]) == Ops(uses) + [op];
    assert Repeated(op, count + 1) == Repeated(op, count) + [op];
  }

  lemma {:induction false} PhaseCheckpoints(op: Op, s: nat, before: seq<Write>, now: seq<Write>, used: seq<Use>,
                                            uses: seq<Use>, count: nat)
    requires Opened(op, s, before, now, used, uses, count)
    ensures Opened(op, s, before, now + [Current], used, uses, count)
  {
  }

  lemma {:induction false} PhaseCloses(op: Op, s: nat, before: seq<Write>, now: seq<Write>, used: seq<Use>,
                                       uses: seq<Use>, count: nat)
    requires Opened(op, s, before, now, used, uses, count)
    ensures Done(op, s, before, now + [Line(Crumb(s + 2, op, Completed))], used, uses, count)
  {
    hide Opened;
    assert (now + [Line(Crumb(s + 2, op, Completed))])[..|now|] == now;
  }

  /** From its start on and until its completion, the phase is open in the log. */
  lemma {:induction false} OpenInside(op: Op, s: nat, before: seq<Write>, now: seq<Write>, n: nat)
    requires Scan(before) == Running(None, s) && op != RUN
    requires |before| < n <= |now| && before <= now && now[|before|] == Line(Crumb(s + 1, op, Started))
    requires forall i | |before| < i < |now| :: now[i] == Current
    ensures Scan(now[..n]) == Running(Some(op), s + 1)
    decreases n
  {
    assert now[..n] == now[..n - 1] + [now[n - 1]];
    ScanSnoc(now[..n - 1], now[n - 1]);
    if n > |before| + 1 {
      OpenInside(op, s, before, now, n - 1);
    } else {
      assert now[..n - 1] == before;
    }
  }

  lemma {:induction false} AttributedLater(log: seq<Write>, later: seq<Write>, uses: seq<Use>)
    requires Attributed(log, uses) && log <= later
    ensures Attributed(later, uses)
  {
    hide Scan, Open;
    forall k | 0 <= k < |uses|
      ensures uses[k].at <= |later| && Open(Scan(later[..uses[k].at]), uses[k].op)
    {
      assert later[..uses[k].at] == log[..uses[k].at];
    }
  }

  lemma {:induction false} DoneAttributes(op: Op, s: nat, before: seq<Write>, after: seq<Write>, used: seq<Use>,
                                          uses: seq<Use>, count: nat)
    requires Scan(before) == Running(None, s) && op != RUN
    requires Attributed(before, used) && Done(op, s, before, after, used, uses, count)
    ensures Attributed(after, uses)
  {
    hide Scan;
    AttributedLater(before, after, used);
    var now := after[..|after| - 1];
    forall k | |used| <= k < |uses|
      ensures uses[k].at <= |after| && Open(Scan(after[..uses[k].at]), uses[k].op)
    {
      OpenInside(op, s, before, now, uses[k].at);
      assert after[..uses[k].at] == now[..uses[k].at];
      UseOfPhase(op, used, uses, count, k);
    }
  }

  lemma {:induction false} UseOfPhase(op: Op, used: seq<Use>, uses: seq<Use>, count: nat, k: nat)
    requires Ops(uses) == Ops(used) + Repeated(op, count) && |used| <= k < |uses|
    ensures uses[k].op == op
  {
    assert Ops(uses)[k] == uses[k].op;
  }

  /** A crash at any use of the device, torn last line included, is reported as that use's operation. */
  ghost predicate UsesAreReported(log: seq<Write>, uses: seq<Use>) {
    forall k: nat, torn | k < |uses| ::
      uses[k].at <= |log| && ReportedAs(Left(log, uses[k].at, torn), uses[k].op)
  }

  lemma {:induction false} AttributedAreReported(log: seq<Write>, uses: seq<Use>)
    requires Scan(log) != Disordered && Attributed(log, uses)
    ensures UsesAreReported(log, uses)
  {
    hide Scan, ReportedAs, Left;
    forall k: nat, torn | k < |uses|
      ensures uses[k].at <= |log| && ReportedAs(Left(log, uses[k].at, torn), uses[k].op)
    {
      UseIsReported(log, uses, k, torn);
    }
  }

  lemma {:induction false} UseIsReported(log: seq<Write>, uses: seq<Use>, k: nat, torn: bool)
    requires Scan(log) != Disordered && Attributed(log, uses) && k < |uses|
    ensures ReportedAs(Left(log, uses[k].at, torn), uses[k].op)
  {
    hide Scan, Left, Interrupted, LastOf, Opens, Parsed, Latched;
    CrashIsDetected(log, uses[k].at, torn, []);
  }

  // ================= the run =================

  class Journal {
    var sequence: nat
    var log: seq<Write>

    constructor ()
      ensures sequence == 0 && log == []
    {
      sequence, log := 0, [];
    }

    method Timeline(op: Op, state: State)
      modifies this
      ensures sequence == old(sequence) + 1
      ensures log == old(log) + [Line(Crumb(sequence, op, state))]
      ensures Scan(log) == Advance(old(Scan(log)), Line(Crumb(sequence, op, state)))
    {
      sequence := sequence + 1;
      ScanSnoc(log, Line(Crumb(sequence, op, state)));
      log := log + [Line(Crumb(sequence, op, state))];
    }

    method Write(w: Write)
      modifies `log
      ensures log == old(log) + [w] && Scan(log) == Advance(old(Scan(log)), w)
    {
      ScanSnoc(log, w);
      log := log + [w];
    }
  }

  /** What a request to the worker comes to; an answer may be slower than allowed. */
  datatype Answer = NoAnswer | BadAnswer | Good(slow: bool)

  /** One turn of the steady phase: the operator's stop, a pause, or a request, perhaps with a checkpoint. */
  datatype Tick = Stop | Pause | Request(answer: Answer, checkpoint: bool)

  /** How one run goes: the preconditions, the activation, the answers to the probe and the calibration,
      when the operator stops it, and the turns of the steady phase. */
  datatype Course = Course(
    inhibited: bool, prepared: bool, activation: Option<string>, probe: Answer,
    stops: nat -> bool, calibration: nat -> Answer, warmup: nat, measured: nat, zeroMedian: bool,
    ticks: seq<Tick>, stopBetween: nat -> bool, steady: bool)

  /** How many requests the calibration makes from its `i`-th on: up to a stop or the first that fails. */
  function Calibrating(c: Course, i: nat): nat
    decreases c.warmup + c.measured - i
  {
    if i >= c.warmup + c.measured || c.stops(i) then 0
    else if c.calibration(i) != Good(false) then 1
    else 1 + Calibrating(c, i + 1)
  }

  /** How many requests the steady phase makes. */
  function Steadying(ticks: seq<Tick>): nat {
    if ticks == [] || ticks[0].Stop? then 0
    else if ticks[0].Pause? then Steadying(ticks[1..])
    else if ticks[0].answer != Good(false) then 1
    else 1 + Steadying(ticks[1..])
  }

  /** The calibration goes on exactly to the first stop, or the first request that fails, or its end. */
  lemma {:induction false} CalibratingMeans(c: Course, i: nat)
    requires i <= c.warmup + c.measured
    ensures var n := i + Calibrating(c, i);
            && n <= c.warmup + c.measured && (forall k | i <= k < n :: !c.stops(k))
            && (forall k | i <= k < n - 1 :: c.calibration(k) == Good(false))
            && (n == c.warmup + c.measured || c.stops(n) || (n > i && c.calibration(n - 1) != Good(false)))
    decreases c.warmup + c.measured - i
  {
    if i < c.warmup + c.measured && !c.stops(i) && c.calibration(i) == Good(false) {
      CalibratingMeans(c, i + 1);
    }
  }

  /** How many of the first `n` turns are requests. */
  function Requests(ticks: seq<Tick>, n: nat): nat
    requires n <= |ticks|
  {
    if n == 0 then 0 else Requests(ticks, n - 1) + if ticks[n - 1].Request? then 1 else 0
  }

  /** The steady phase makes the requests of its turns exactly up to a stop, or the first that fails, or its end. */
  lemma {:induction false} SteadyingMeans(ticks: seq<Tick>) returns (n: nat)
    ensures n <= |ticks| && Steadying(ticks) == Requests(ticks, n)
    ensures forall k | 0 <= k < n :: !ticks[k].Stop?
    ensures forall k | 0 <= k < n - 1 :: ticks[k].Request? ==> ticks[k].answer == Good(false)
    ensures n == |ticks| || ticks[n].Stop? || (n > 0 && ticks[n - 1].Request? && ticks[n - 1].answer != Good(false))
  {
    if ticks == [] || ticks[0].Stop? {
      n := 0;
    } else if ticks[0].Request? && ticks[0].answer != Good(false) {
      n := 1;
      assert Requests(ticks, 0) == 0;
    } else {
      var m := SteadyingMeans(ticks[1..]);
      n := m + 1;
      RequestsTail(ticks, n);
    }
  }

  lemma {:induction false} RequestsTail(ticks: seq<Tick>, n: nat)
    requires 0 < n <= |ticks|
    ensures Requests(ticks, n) == (if ticks[0].Request? then 1 else 0) + Requests(ticks[1..], n - 1)
  {
    if n > 1 {
      RequestsTail(ticks, n - 1);
    } else {
      assert Requests(ticks, 0) == 0;
    }
  }

  predicate Probed(c: Course) {
    c.activation.None? && c.probe == Good(false)
  }

  predicate Calibrated(c: Course) {
    && (forall i | 0 <= i < c.warmup + c.measured :: !c.stops(i) && c.calibration(i) == Good(false))
    && !c.zeroMedian
  }

  predicate Harmless(t: Tick) {
    t.Pause? || (t.Request? && t.answer == Good(false))
  }

  predicate Steady(ticks: seq<Tick>) {
    forall i | 0 <= i < |ticks| :: Harmless(ticks[i])
  }

  /** Which courses pass. */
  predicate Passes(c: Course) {
    && !c.inhibited && c.prepared && Probed(c) && !c.stopBetween(1) && Calibrated(c)
    && (c.steady ==> !c.stopBetween(2) && Steady(c.ticks))
  }

  lemma {:induction false} PassesMeans(c: Course)
    ensures Passes(c) <==>
            && !c.inhibited && c.prepared && c.activation.None? && c.probe == Good(false) && !c.stopBetween(1)
            && (forall i | 0 <= i < c.warmup + c.measured :: !c.stops(i) && c.calibration(i) == Good(false))
            && !c.zeroMedian
            && (c.steady ==>
                  && !c.stopBetween(2)
                  && forall i | 0 <= i < |c.ticks| ::
                       c.ticks[i].Pause? || (c.ticks[i].Request? && c.ticks[i].answer == Good(false)))
  {
  }

  const H1 := Phase("H1")
  const H2 := Phase("H2")
  const H3 := Phase("H3")

  /** What the device is used for: the activation and the probe, the calibration, the steady phase, each
      only after the one before it passed. */
  function DeviceOps(c: Course): seq<Op> {
    if c.inhibited || !c.prepared then []
    else
      Repeated(H1, if c.activation.None? then 2 else 1)
      + if !Probed(c) || c.stopBetween(1) then []
        else
          Repeated(H2, Calibrating(c, 0))
          + if !Calibrated(c) || !c.steady || c.stopBetween(2) then [] else Repeated(H3, Steadying(c.ticks))
  }

  /** The device is not touched unless the model is prepared and nothing inhibits it; first it is activated and, if
      that worked, probed; the calibration and then the steady phase use it only if all before them passed. */
  lemma {:induction false} DeviceOpsMeans(c: Course)
    ensures c.inhibited || !c.prepared ==> DeviceOps(c) == []
    ensures !c.inhibited && c.prepared && c.activation.Some? ==> DeviceOps(c) == [Op("H1", "PHASE", None)]
    ensures !c.inhibited && c.prepared && c.activation.None? && (c.probe != Good(false) || c.stopBetween(1)) ==>
              DeviceOps(c) == [Op("H1", "PHASE", None), Op("H1", "PHASE", None)]
    ensures !c.inhibited && c.prepared && c.activation.None? && c.probe == Good(false) && !c.stopBetween(1) ==>
              && |DeviceOps(c)| == 2 + Calibrating(c, 0)
                 + (if Calibrated(c) && c.steady && !c.stopBetween(2) then Steadying(c.ticks) else 0)
              && forall i | 0 <= i < |DeviceOps(c)| ::
                   DeviceOps(c)[i] == Op(if i < 2 then "H1" else if i < 2 + Calibrating(c, 0) then "H2" else "H3",
                                         "PHASE", None)
  {
    hide Calibrating, Steadying, Calibrated;
  }

  class Run {
    const j: Journal
    var submitted: nat
    var completed: nat
    var errors: nat
    var timeouts: nat
    /** Every use of the device so far. */
    ghost var uses: seq<Use>

    /** Every request is accounted for; only one that was answered too late counts twice. */
    predicate Counted()
      reads this
    {
      completed + errors <= submitted <= completed + errors + timeouts
    }

    /** Between phases. */
    predicate Between()
      reads this, j
    {
      Counted() && Scan(j.log) == Running(None, j.sequence)
    }

    predicate During(op: Op)
      reads this, j
    {
      Counted() && Scan(j.log) == Running(Some(op), j.sequence)
    }

    constructor (j: Journal)
      ensures this.j == j && submitted == 0 && completed == 0 && errors == 0 && timeouts == 0 && uses == []
    {
      this.j := j;
      submitted, completed, errors, timeouts, uses := 0, 0, 0, 0, [];
    }

    /** Loads the model on the device, with a phase open. */
    method Activate(op: Op, failure: Option<string>) returns (err: Option<string>)
      requires During(op)
      modifies `uses
      ensures During(op) && uses == old(uses) + [Use(|j.log|, op)] && err == failure
    {
      uses := uses + [Use(|j.log|, op)];
      return failure;
    }

    /** One request to the device, with a phase open. */
    method InferOnce(op: Op, answer: Answer) returns (err: Option<string>)
      requires During(op)
      modifies this
      ensures During(op) && uses == old(uses) + [Use(|j.log|, op)]
      ensures submitted == old(submitted) + 1
      ensures completed == old(completed) + if answer.Good? then 1 else 0
      ensures errors == old(errors) + if answer.BadAnswer? then 1 else 0
      ensures timeouts == old(timeouts) + if answer.NoAnswer? || answer == Good(true) then 1 else 0
      ensures err.None? <==> answer == Good(false)
    {
      uses := uses + [Use(|j.log|, op)];
      submitted := submitted + 1;
      match answer
      case NoAnswer =>
        timeouts := timeouts + 1;
        return Some("TIMEOUT");
      case BadAnswer =>
        errors := errors + 1;
        return Some("WORKER_FAILED");
      case Good(slow) =>
        completed := completed + 1;
        if slow {
          timeouts := timeouts + 1;
          return Some("TIMEOUT");
        }
        return None;
    }

    method Begin(op: Op)
      requires Between() && op != RUN
      modifies j
      ensures During(op) && j.sequence == old(j.sequence) + 1
      ensures Opened(op, old(j.sequence), old(j.log), j.log, uses, uses, 0)
    {
      PhaseOpens(op, j.sequence, j.log, uses);
      j.Timeline(op, Started);
    }

    method End(op: Op, ghost s: nat, ghost before: seq<Write>, ghost used: seq<Use>, ghost count: nat)
      requires During(op) && j.sequence == s + 1 && Opened(op, s, before, j.log, used, uses, count)
      modifies j
      ensures Between() && Done(op, s, before, j.log, used, uses, count)
    {
      PhaseCloses(op, s, before, j.log, used, uses, count);
      j.Timeline(op, Completed);
    }

    method PhaseE0(c: Course) returns (err: Option<string>)
      requires Between()
      modifies j
      ensures Between() && (err.None? <==> !c.inhibited && c.prepared)
      ensures j.log == old(j.log) + [Current]
    {
      j.Write(Current);
      if c.inhibited { return Some("SAFETY_INHIBITED"); }
      if !c.prepared { return Some("NOT_PREPARED"); }
      return None;
    }

    method PhaseH1(c: Course) returns (err: Option<string>)
      requires Between()
      modifies this, j
      ensures Between() && (err.None? <==> Probed(c))
      ensures Done(H1, old(j.sequence), old(j.log), j.log, old(uses), uses, if c.activation.None? then 2 else 1)
      ensures submitted == old(submitted) + if c.activation.None? then 1 else 0
    {
      hide Opened, Done, Scan;
      ghost var s, before, used := j.sequence, j.log, uses;
      Begin(H1);
      PhaseUses(H1, s, before, j.log, used, uses, 0);
      err := Activate(H1, c.activation);
      if err.Some? {
        End(H1, s, before, used, 1);
        return Some("ACTIVATION_FAILED");
      }
      PhaseCheckpoints(H1, s, before, j.log, used, uses, 1);
      j.Write(Current);
      PhaseUses(H1, s, before, j.log, used, uses, 1);
      err := InferOnce(H1, c.probe);
      End(H1, s, before, used, 2);
    }

    method PhaseH2(c: Course) returns (err: Option<string>)
      requires Between()
      modifies this, j
      ensures Between() && (err.None? <==> Calibrated(c))
      ensures Done(H2, old(j.sequence), old(j.log), j.log, old(uses), uses, Calibrating(c, 0))
      ensures submitted == old(submitted) + Calibrating(c, 0)
    {
      hide Opened, Done, Scan;
      ghost var s, before, used := j.sequence, j.log, uses;
      Begin(H2);
      for i := 0 to c.warmup + c.measured
        invariant During(H2) && j.sequence == s + 1 && Opened(H2, s, before, j.log, used, uses, i)
        invariant Calibrating(c, 0) == i + Calibrating(c, i) && submitted == old(submitted) + i
        invariant forall k | 0 <= k < i :: !c.stops(k) && c.calibration(k) == Good(false)
      {
        if c.stops(i) {
          End(H2, s, before, used, i);
          return Some("INTERRUPTED");
        }
        PhaseUses(H2, s, before, j.log, used, uses, i);
        err := InferOnce(H2, c.calibration(i));
        if err.Some? {
          End(H2, s, before, used, i + 1);
          return;
        }
      }
      End(H2, s, before, used, c.warmup + c.measured);
      return if c.zeroMedian then Some("WORKER_FAILED") else None;
    }

    method PhaseH3(c: Course) returns (err: Option<string>)
      requires Between()
      modifies this, j
      ensures Between() && (err.None? <==> Steady(c.ticks))
      ensures Done(H3, old(j.sequence), old(j.log), j.log, old(uses), uses, Steadying(c.ticks))
      ensures submitted == old(submitted) + Steadying(c.ticks)
    {
      hide Opened, Done, Scan;
      ghost var s, before, used, n := j.sequence, j.log, uses, 0;
      Begin(H3);
      for i := 0 to |c.ticks|
        invariant During(H3) && j.sequence == s + 1 && Opened(H3, s, before, j.log, used, uses, n)
        invariant Steadying(c.ticks) == n + Steadying(c.ticks[i..]) && submitted == old(submitted) + n
        invariant forall k | 0 <= k < i :: Harmless(c.ticks[k])
      {
        assert c.ticks[i..][1..] == c.ticks[i + 1..];
        match c.ticks[i] {
          case Stop =>
            End(H3, s, before, used, n);
            return Some("INTERRUPTED");
          case Pause =>
          case Request(answer, checkpoint) =>
            PhaseUses(H3, s, before, j.log, used, uses, n);
            n := n + 1;
            err := InferOnce(H3, answer);
            if err.Some? {
              End(H3, s, before, used, n);
              return;
            }
            if checkpoint {
              PhaseCheckpoints(H3, s, before, j.log, used, uses, n);
              j.Write(Current);
            }
        }
      }
      End(H3, s, before, used, n);
      return None;
    }

    /** The phases that touch the device; an operator's stop between two of them ends the run. */
    method Phases(c: Course) returns (err: Option<string>)
      requires Between() && !c.inhibited && c.prepared && uses == []
      modifies this, j
      ensures Between() && (err.None? <==> Passes(c))
      ensures Attributed(j.log, uses) && Ops(uses) == DeviceOps(c) && old(j.log) <= j.log
    {
      hide Scan, Done, Attributed, Probed, Calibrated, Steady;
      ghost var s, before, used := j.sequence, j.log, uses;
      NothingUsed(before);
      err := PhaseH1(c);
      DoneAttributes(H1, s, before, j.log, used, uses, if c.activation.None? then 2 else 1);
      DoneOps(H1, s, before, j.log, used, uses, if c.activation.None? then 2 else 1);
      if err.None? && c.stopBetween(1) { err := Some("INTERRUPTED"); }
      if err.Some? { return; }
      s, before, used := j.sequence, j.log, uses;
      err := PhaseH2(c);
      DoneAttributes(H2, s, before, j.log, used, uses, Calibrating(c, 0));
      DoneOps(H2, s, before, j.log, used, uses, Calibrating(c, 0));
      if err.None? && c.steady && c.stopBetween(2) { err := Some("INTERRUPTED"); }
      if err.Some? || !c.steady { return; }
      s, before, used := j.sequence, j.log, uses;
      err := PhaseH3(c);
      DoneAttributes(H3, s, before, j.log, used, uses, Steadying(c.ticks));
      DoneOps(H3, s, before, j.log, used, uses, Steadying(c.ticks));
    }
  }

  lemma {:induction false} NothingUsed(log: seq<Write>)
    ensures Attributed(log, []) && Ops([]) == []
  {
  }

  lemma {:induction false} DoneOps(op: Op, s: nat, before: seq<Write>, after: seq<Write>, used: seq<Use>,
                                   uses: seq<Use>, count: nat)
    requires Done(op, s, before, after, used, uses, count)
    ensures Ops(uses) == Ops(used) + Repeated(op, count) && before <= after
  {
  }

  /** The whole run, to its deliberate end: the smoke profile without, the gentle one with the steady
      phase.  Its writes are in order on every path, and a crash at any use of the device is reported as
      the operation that used it. */
  method RunStability(c: Course) returns (j: Journal, pass: bool, ghost uses: seq<Use>)
    ensures fresh(j) && Scan(j.log) == Finished(pass)
    ensures pass <==> Passes(c)
    ensures pass <==>
            && !c.inhibited && c.prepared && c.activation.None? && c.probe == Good(false) && !c.stopBetween(1)
            && (forall i | 0 <= i < c.warmup + c.measured :: !c.stops(i) && c.calibration(i) == Good(false))
            && !c.zeroMedian
            && (c.steady ==>
                  && !c.stopBetween(2)
                  && forall i | 0 <= i < |c.ticks| ::
                       c.ticks[i].Pause? || (c.ticks[i].Request? && c.ticks[i].answer == Good(false)))
    ensures Ops(uses) == DeviceOps(c)
    ensures UsesAreReported(j.log, uses)
    ensures |j.log| >= 5 && j.log[0] == Metadata && j.log[1] == Line(Crumb(1, Op("RUN", "RUN", None), Started))
    ensures var n := |j.log|;
            && j.log[n - 3] == Result(pass) && j.log[n - 1] == Current
            && j.log[n - 2] == Line(Crumb(j.sequence, Op("RUN", "RUN", None), Completed))
  {
    hide Scan, Attributed, UsesAreReported, DeviceOps, Passes, Probed, Calibrated, Steady;
    j := new Journal();
    NothingScanned();
    j.Write(Metadata);
    var run := new Run(j);
    j.Timeline(RUN, Started);
    ghost var first := j.log;
    assert first == [Metadata, Line(Crumb(1, RUN, Started))];
    var err := run.PhaseE0(c);
    NothingUsed(j.log);
    NoDevice(c);
    PassesMeans(c);
    if err.None? {
      err := run.Phases(c);
    } else {
      assert run.uses == [];
    }
    uses := run.uses;
    ghost var before := j.log;
    assert before[0] == Metadata && before[1] == Line(Crumb(1, Op("RUN", "RUN", None), Started));
    pass := err.None?;
    j.Write(Result(pass));
    j.Timeline(RUN, Completed);
    j.Write(Current);
    AttributedLater(before, j.log, uses);
    AttributedAreReported(j.log, uses);
  }

  lemma {:induction false} NoDevice(c: Course)
    ensures c.inhibited || !c.prepared ==> DeviceOps(c) == [] && !Passes(c)
  {
  }

  lemma {:induction false} NothingScanned()
    ensures Scan([]) == Fresh
  {
  }
}
