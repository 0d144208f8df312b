/** The two compile backends a job manager polls. */
module Backends {
  import opened Text
  import opened RetryPolicy

  // ================= the fake backend =================

  datatype Fake = Fake(duration: nat, succeed: bool, failState: Stage, deviceHeld: bool, state: Stage, elapsed: nat)

  function FakeStep(f: Fake, dt: nat): Fake {
    if IsTerminal(f.state) then f
    else if f.deviceHeld then f.(state := WaitingForDevice)
    else if f.elapsed + dt >= f.duration
      then f.(elapsed := f.elapsed + dt, state := if f.succeed then Prepared else f.failState)
    else f.(elapsed := f.elapsed + dt, state := Compiling)
  }

  function FakeRun(f: Fake, dts: seq<nat>): Fake {
    if dts == [] then f else FakeStep(FakeRun(f, dts[..|dts| - 1]), dts[|dts| - 1])
  }

  function Total(dts: seq<nat>): nat {
    if dts == [] then 0 else Total(dts[..|dts| - 1]) + dts[|dts| - 1]
  }

  /** However the time is cut into polls, a fake compile ends with the poll that reaches its duration. */
  lemma {:induction false} FakeEndsOnTime(f: Fake, dts: seq<nat>)
    requires f.state.Queued? && f.elapsed == 0
    ensures FakeRun(f, dts).state ==
            (if dts == [] then Queued
             else if f.deviceHeld then WaitingForDevice
             else if Total(dts) < f.duration then Compiling
             else if f.succeed then Prepared else f.failState)
    ensures var g := FakeRun(f, dts);
            && g.(state := f.state, elapsed := 0) == f
            && (!f.deviceHeld && !IsTerminal(g.state) ==> g.elapsed == Total(dts))
            && (dts == [] || f.deviceHeld ==> g.elapsed == 0)
  {
    if dts != [] {
      FakeEndsOnTime(f, dts[..|dts| - 1]);
    }
  }

  class FakeCompileJob {
    const duration: nat
    const succeed: bool
    const failState: Stage
    const deviceRequired: bool
    const deviceHeldByWorker: bool
    var state: Stage
    var elapsed: nat

    constructor (duration: nat, succeed: bool, failState: Stage, deviceRequired: bool, deviceHeldByWorker: bool)
      ensures Value() == Fake(duration, succeed, failState, deviceRequired && deviceHeldByWorker, Queued, 0)
    {
      this.duration, this.succeed, this.failState := duration, succeed, failState;
      this.deviceRequired, this.deviceHeldByWorker := deviceRequired, deviceHeldByWorker;
      state, elapsed := Queued, 0;
    }

    function Value(): Fake
      reads this
    {
      Fake(duration, succeed, failState, deviceRequired && deviceHeldByWorker, state, elapsed)
    }

    method Poll(dt: nat) returns (s: Stage)
      modifies this
      ensures Value() == FakeStep(old(Value()), dt) && s == state
    {
      if IsTerminal(state) { return state; }
      if deviceRequired && deviceHeldByWorker {
        state := WaitingForDevice;
        return state;
      }
      state := Compiling;
      elapsed := elapsed + dt;
      if elapsed >= duration { state := if succeed then Prepared else failState; }
      return state;
    }
  }

  // ================= the real backend =================

  const TIMED_OUT := 124
  const LAUNCHER_BUSY := 98

  /** What a poll sees of the compiler's thread: at work, gone without a result, or done. */
  datatype Seen = Alive | Crashed | Returned(code: int)

  /** The state of a compile, whether a thread has been started for it, and the return code that the last
      thread with a result left. */
  datatype Progress = Progress(state: Stage, running: bool, result: Option<int>)

  const BEGUN := Progress(Queued, false, None)

  /** A thread that crashes leaves the result of an earlier one in place, and it is this that is judged. */
  function Left(p: Progress, now: Seen): Option<int> {
    if now.Returned? then Some(now.code) else p.result
  }

  function Judged(result: Option<int>): Progress {
    if result == Some(LAUNCHER_BUSY) then Progress(Queued, false, result)
    else Progress(if result == Some(0) then Prepared else CompileFailed, true, result)
  }

  function Advance(p: Progress, now: Seen): Progress {
    if IsTerminal(p.state) then p
    else if !p.running then p.(state := Compiling, running := true)
    else if now.Alive? then p.(state := Compiling)
    else Judged(Left(p, now))
  }

  /** What the history of a compile calls for. */
  function Verdict(seen: seq<Seen>): Progress {
    if seen == [] then BEGUN else Advance(Verdict(seen[..|seen| - 1]), seen[|seen| - 1])
  }

  /** Poll `i` looked at a thread that had been started before. */
  predicate Looked(seen: seq<Seen>, i: nat) {
    i < |seen| && Verdict(seen[..i]).running && !IsTerminal(Verdict(seen[..i]).state)
  }

  /** Before poll `n` some poll found the launcher busy. */
  ghost predicate SawBusy(seen: seq<Seen>, n: nat) {
    exists i: nat | i < n :: Looked(seen, i) && seen[i] == Returned(LAUNCHER_BUSY)
  }

  /** Poll `i` ends the compile: the thread returned anything but busy, or crashed before any poll of this
      compile found the launcher busy. */
  ghost predicate Decides(seen: seq<Seen>, i: nat) {
    && Looked(seen, i)
    && match seen[i]
       case Alive => false
       case Crashed => !SawBusy(seen, i)
       case Returned(code) => code != LAUNCHER_BUSY
  }

  lemma {:induction false} VerdictSnoc(seen: seq<Seen>, now: Seen)
    ensures Verdict(seen + [now]) == Advance(Verdict(seen), now)
  {
    assert (seen + [now])[..|seen|] == seen;
  }

  lemma {:induction false} LookedBefore(seen: seq<Seen>, n: nat, i: nat)
    requires i < n <= |seen|
    ensures Looked(seen[..n], i) <==> Looked(seen, i)
  {
    hide Verdict;
    assert seen[..n][..i] == seen[..i];
  }

  lemma {:induction false} BusyBefore(seen: seq<Seen>, n: nat, m: nat)
    requires m <= n <= |seen|
    ensures SawBusy(seen[..n], m) <==> SawBusy(seen, m)
  {
    hide Looked;
    forall i: nat | i < m
      ensures Looked(seen[..n], i) && seen[..n][i] == Returned(LAUNCHER_BUSY)
              <==> Looked(seen, i) && seen[i] == Returned(LAUNCHER_BUSY)
    {
      LookedBefore(seen, n, i);
    }
  }

  lemma {:induction false} DecidesBefore(seen: seq<Seen>, n: nat, i: nat)
    requires i < n <= |seen|
    ensures Decides(seen[..n], i) <==> Decides(seen, i)
  {
    hide Looked, SawBusy;
    LookedBefore(seen, n, i);
    BusyBefore(seen, n, i);
  }

  /** A compile that is not over has kept a result exactly if a poll of it found the launcher busy. */
  predicate Kept(p: Progress, busy: bool) {
    p.state in {Queued, Compiling} && p.result == if busy then Some(LAUNCHER_BUSY) else None
  }

  ghost predicate Decided(seen: seq<Seen>, n: nat) {
    exists i: nat | i < n :: Decides(seen, i)
  }

  lemma {:induction false} DecidedStep(seen: seq<Seen>, n: nat)
    requires n < |seen|
    ensures Decided(seen, n + 1) <==> Decided(seen[..n], n) || Decides(seen, n)
  {
    hide Decides;
    forall i: nat | i < n
      ensures Decides(seen[..n], i) <==> Decides(seen, i)
    {
      DecidesBefore(seen, n, i);
    }
  }

  lemma {:induction false} NothingSeen()
    ensures Verdict([]) == BEGUN && Kept(BEGUN, false) && !SawBusy([], 0) && !Decided([], 0)
  {
  }

  /** What one poll makes of a compile, of which earlier polls have seen the launcher busy or not. */
  lemma {:induction false} AdvanceSays(p: Progress, now: Seen, busy: bool)
    requires IsTerminal(p.state) || Kept(p, busy)
    requires p.running <==> !p.state.Queued?
    ensures var q := Advance(p, now);
            && q.state in {p.state, Queued, Compiling, CompileFailed, Prepared} && (q.running <==> !q.state.Queued?)
            && (!IsTerminal(q.state) ==>
                  !IsTerminal(p.state) && Kept(q, busy || (p.running && now == Returned(LAUNCHER_BUSY))))
            && (IsTerminal(p.state) ==> q == p)
    ensures !IsTerminal(p.state) ==>
              var decided := p.running && (if now.Returned? then now.code != LAUNCHER_BUSY else now.Crashed? && !busy);
              && (IsTerminal(Advance(p, now).state) <==> decided)
              && (decided ==> Advance(p, now).state == if now == Returned(0) then Prepared else CompileFailed)
  {
  }

  /** What the last poll adds. */
  lemma {:induction false} LastPoll(seen: seq<Seen>)
    requires seen != []
    requires var n := |seen| - 1;
             var p := Verdict(seen[..n]);
             (IsTerminal(p.state) || Kept(p, SawBusy(seen[..n], n))) && (p.running <==> !p.state.Queued?)
    ensures var n := |seen| - 1;
            var p := Verdict(seen[..n]);
            && Verdict(seen) == Advance(p, seen[n])
            && (Decides(seen, n) <==> !IsTerminal(p.state) && IsTerminal(Verdict(seen).state))
            && (Decides(seen, n) ==>
                  Verdict(seen).state == if seen[n] == Returned(0) then Prepared else CompileFailed)
            && (!IsTerminal(Verdict(seen).state) ==> !IsTerminal(p.state) && Kept(Verdict(seen), SawBusy(seen, n + 1)))
            && (IsTerminal(p.state) ==> Verdict(seen) == p)
            && Verdict(seen).state in {p.state, Queued, Compiling, CompileFailed, Prepared}
            && (Verdict(seen).running <==> !Verdict(seen).state.Queued?)
  {
    hide Advance, SawBusy, Kept, Verdict;
    var n := |seen| - 1;
    assert seen == seen[..n] + [seen[n]];
    VerdictSnoc(seen[..n], seen[n]);
    BusyBefore(seen, n, n);
    BusyStep(seen, n);
    AdvanceSays(Verdict(seen[..n]), seen[n], SawBusy(seen, n));
  }

  lemma {:induction false} BusyStep(seen: seq<Seen>, n: nat)
    requires n < |seen|
    ensures SawBusy(seen, n + 1) <==> SawBusy(seen, n) || (Looked(seen, n) && seen[n] == Returned(LAUNCHER_BUSY))
  {
    hide Looked;
  }

  lemma {:induction false} PollsSoFar(seen: seq<Seen>)
    ensures Verdict(seen).state in {Queued, Compiling, CompileFailed, Prepared}
    ensures Verdict(seen).running <==> !Verdict(seen).state.Queued?
    ensures IsTerminal(Verdict(seen).state) <==> Decided(seen, |seen|)
    ensures !IsTerminal(Verdict(seen).state) ==> Kept(Verdict(seen), SawBusy(seen, |seen|))
  {
    hide Verdict, SawBusy, Decides, Decided, Advance, Kept;
    if seen != [] {
      var n := |seen| - 1;
      PollsSoFar(seen[..n]);
      DecidedStep(seen, n);
      LastPoll(seen);
    } else {
      NothingSeen();
    }
  }

  lemma {:induction false} DecidedState(seen: seq<Seen>, i: nat)
    requires i < |seen| && Decides(seen, i)
    ensures Verdict(seen).state == if seen[i] == Returned(0) then Prepared else CompileFailed
  {
    hide Verdict, SawBusy, Decides, Decided, Advance, Kept;
    var n := |seen| - 1;
    PollsSoFar(seen[..n]);
    LastPoll(seen);
    if i < n {
      DecidesBefore(seen, n, i);
      DecidedState(seen[..n], i);
    }
  }

  /** A compile is over exactly when a poll decided it, and then it is prepared exactly if that poll saw the
      compiler succeed; no interruption is ever reported. */
  lemma {:induction false} OnePollDecides(seen: seq<Seen>)
    ensures Verdict(seen).state in {Queued, Compiling, CompileFailed, Prepared}
    ensures IsTerminal(Verdict(seen).state) <==> exists i: nat | i < |seen| :: Decides(seen, i)
    ensures forall i: nat | i < |seen| && Decides(seen, i) ::
              Verdict(seen).state == if seen[i] == Returned(0) then Prepared else CompileFailed
  {
    hide Verdict, Decides, Kept;
    PollsSoFar(seen);
    forall i: nat | i < |seen| && Decides(seen, i)
      ensures Verdict(seen).state == if seen[i] == Returned(0) then Prepared else CompileFailed
    {
      DecidedState(seen, i);
    }
  }

  /** A crash ends a compile under way exactly if no earlier poll of it found the launcher busy; otherwise
      it is taken for another busy launcher. */
  lemma {:induction false} CrashIsTakenForBusy(seen: seq<Seen>)
    requires Verdict(seen).running && !IsTerminal(Verdict(seen).state)
    ensures Verdict(seen + [Crashed]).state ==
            if exists i: nat | i < |seen| :: Looked(seen, i) && seen[i] == Returned(98) then Queued else CompileFailed
  {
    hide Verdict, Looked;
    PollsSoFar(seen);
    VerdictSnoc(seen, Crashed);
  }

  /** After one busy launcher, `n` threads that are started and crash. */
  function Crashing(n: nat): seq<Seen> {
    if n == 0 then [Alive, Returned(LAUNCHER_BUSY)] else Crashing(n - 1) + [Alive] + [Crashed]
  }

  /** However often its thread crashes, such a compile is queued again and never ends. */
  lemma {:induction false} CrashesNeverEnd(n: nat)
    ensures Verdict(Crashing(n)) == Progress(Queued, false, Some(LAUNCHER_BUSY))
  {
    hide Verdict;
    if n == 0 {
      NothingSeen();
      VerdictSnoc([], Alive);
      VerdictSnoc([] + [Alive], Returned(LAUNCHER_BUSY));
      assert Crashing(0) == [] + [Alive] + [Returned(LAUNCHER_BUSY)];
    } else {
      CrashesNeverEnd(n - 1);
      VerdictSnoc(Crashing(n - 1), Alive);
      VerdictSnoc(Crashing(n - 1) + [Alive], Crashed);
    }
  }

  class RealCompileJob {
    var state: Stage
    var running: bool
    var result: Option<int>
    ghost var seen: seq<Seen>

    ghost predicate Valid()
      reads this
    {
      Verdict(seen) == Progress(state, running, result)
    }

    constructor ()
      ensures Valid() && seen == []
    {
      state, running, result, seen := Queued, false, None, [];
    }

    /** The thread's own assignment of its result happens before the poll that sees it gone. */
    method Poll(now: Seen) returns (s: Stage)
      requires Valid()
      modifies this
      ensures Valid() && seen == old(seen) + [now] && s == state
    {
      hide Verdict;
      PollsSoFar(seen);
      VerdictSnoc(seen, now);
      seen := seen + [now];
      if state.Prepared? || state.CompileFailed? || state.ResourceExceeded? || state.ValidationFailed?
        || state.Interrupted? {
        return state;
      }
      if !running {
        running, state := true, Compiling;
        return state;
      }
      if now.Returned? { result := Some(now.code); }
      if now.Alive? {
        state := Compiling;
      } else if result.None? || result.value == TIMED_OUT {
        state := CompileFailed;
      } else if result.value == LAUNCHER_BUSY {
        running, state := false, Queued;
      } else if result.value != 0 {
        state := CompileFailed;
      } else {
        state := Prepared;
      }
      return state;
    }
  }
}
