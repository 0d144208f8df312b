/** The journal of a stability run: which operation was open when the host was lost, and whether the next
    run may start. */
module Stability {
  import opened Text

  datatype State = Started | Completed | OtherState

  /** An operation, and one breadcrumb of the timeline about it. */
  datatype Op = Op(phase: string, step: string, cycle: Option<nat>)

  datatype Crumb = Crumb(sequence: nat, op: Op, state: State)

  // ================= reading the timeline =================

  /** The lines that parse; none of the others is fatal. */
  function Parsed(lines: seq<Option<Crumb>>): seq<Crumb> {
    if lines == [] then []
    else Parsed(lines[..|lines| - 1]) + if lines[|lines| - 1].Some? then [lines[|lines| - 1].value] else []
  }

  method ReadTimeline(lines: seq<Option<Crumb>>) returns (timeline: seq<Crumb>)
    ensures timeline == Parsed(lines)
  {
    timeline := [];
    for i := 0 to |lines|
      invariant timeline == Parsed(lines[..i])
    {
      assert lines[..i + 1][..i] == lines[..i];
      if lines[i].Some? { timeline := timeline + [lines[i].value]; }
    }
    assert lines[..|lines|] == lines;
  }

  /** Breadcrumb `i` started an operation that no later breadcrumb starts again or completes. */
  predicate OpenAt(t: seq<Crumb>, i: nat) {
    i < |t| && t[i].state.Started? && forall j | i < j < |t| :: t[j].op != t[i].op || t[j].state.OtherState?
  }

  /** The open operations, each with the breadcrumb that started it last. */
  function Opens(t: seq<Crumb>): map<Op, Crumb> {
    if t == [] then map[]
    else
      var last, earlier := t[|t| - 1], Opens(t[..|t| - 1]);
      match last.state
      case Started => earlier[last.op := last]
      case Completed => earlier - {last.op}
      case OtherState => earlier
  }

  /** The table of open operations holds exactly the breadcrumbs that are open in the timeline. */
  lemma {:induction false} OpensAreOpen(t: seq<Crumb>, op: Op)
    ensures op in Opens(t) <==> exists i: nat :: i < |t| && OpenAt(t, i) && t[i].op == op
    ensures forall i: nat | OpenAt(t, i) && t[i].op == op :: op in Opens(t) && Opens(t)[op] == t[i]
  {
    if t != [] {
      var n, init := |t| - 1, t[..|t| - 1];
      OpensAreOpen(init, op);
      forall i: nat | i < n
        ensures OpenAt(t, i) <==> OpenAt(init, i) && (t[n].op != t[i].op || t[n].state.OtherState?)
      {
        OpenLater(t, i);
      }
      if t[n].op == op && !t[n].state.OtherState? {
        assert t[n].state.Started? ==> OpenAt(t, n);
      } else {
        assert forall i: nat | i < n && t[i].op == op :: OpenAt(t, i) <==> OpenAt(init, i);
        assert t[n].op == op ==> !OpenAt(t, n);
      }
    }
  }

  lemma {:induction false} OpenLater(t: seq<Crumb>, i: nat)
    requires i + 1 < |t|
    ensures OpenAt(t, i) <==> OpenAt(t[..|t| - 1], i) && (t[|t| - 1].op != t[i].op || t[|t| - 1].state.OtherState?)
  {
  }

  predicate LastOf(opens: map<Op, Crumb>, c: Crumb) {
    c.op in opens && opens[c.op] == c && forall op | op in opens :: opens[op].sequence <= c.sequence
  }

  lemma {:induction false} OpensNameTheirOp(t: seq<Crumb>)
    ensures forall op | op in Opens(t) :: Opens(t)[op].op == op
  {
    if t != [] {
      OpensNameTheirOp(t[..|t| - 1]);
    }
  }

  /** The open operation with the largest sequence number, if the run has no result and one is open. */
  method DetectInterrupted(t: seq<Crumb>, hasResult: bool) returns (r: Option<Crumb>)
    ensures r.None? <==> hasResult || Opens(t) == map[]
    ensures r.Some? ==> LastOf(Opens(t), r.value)
  {
    if hasResult { return None; }
    var opens: map<Op, Crumb> := map[];
    for i := 0 to |t|
      invariant opens == Opens(t[..i])
    {
      assert t[..i + 1][..i] == t[..i];
      if t[i].state.Started? {
        opens := opens[t[i].op := t[i]];
      } else if t[i].state.Completed? && t[i].op in opens {
        opens := opens - {t[i].op};
      }
      assert opens == Opens(t[..i + 1]);
    }
    assert t[..|t|] == t;
    if opens == map[] { return None; }
    OpensNameTheirOp(t);
    r := Largest(opens);
  }

  method Largest(opens: map<Op, Crumb>) returns (r: Option<Crumb>)
    requires opens != map[] && forall op | op in opens :: opens[op].op == op
    ensures r.Some? && LastOf(opens, r.value)
  {
    var todo := opens.Keys;
    r := None;
    while todo != {}
      invariant todo <= opens.Keys
      invariant r.None? ==> todo == opens.Keys
      invariant r.Some? ==> r.value.op in opens && opens[r.value.op] == r.value
      invariant r.Some? ==> forall op | op in opens.Keys - todo :: opens[op].sequence <= r.value.sequence
      decreases todo
    {
      var op :| op in todo;
      if r.None? || opens[op].sequence > r.value.sequence { r := Some(opens[op]); }
      todo := todo - {op};
    }
  }

  /** A timeline numbered as a journal numbers it. */
  predicate Numbered(t: seq<Crumb>) {
    forall i | 0 <= i < |t| :: t[i].sequence == i + 1
  }

  /** In a numbered timeline the detected operation is the last breadcrumb that is open. */
  lemma {:induction false} DetectedIsLastOpen(t: seq<Crumb>, c: Crumb)
    requires Numbered(t) && LastOf(Opens(t), c)
    ensures exists i: nat :: i < |t| && t[i] == c && OpenAt(t, i) && forall j: nat | i < j < |t| :: !OpenAt(t, j)
  {
    OpensAreOpen(t, c.op);
    var i: nat :| i < |t| && OpenAt(t, i) && t[i].op == c.op;
    forall j: nat | i < j < |t|
      ensures !OpenAt(t, j)
    {
      OpensAreOpen(t, t[j].op);
    }
  }

  // ================= the latch =================

  /** The directory of one run. */
  datatype RunDir = RunDir(metadata: bool, lines: seq<Option<Crumb>>, result: bool, acknowledged: bool)

  predicate Interrupted(d: RunDir) {
    !d.result && Opens(Parsed(d.lines)) != map[]
  }

  /** The latest run, of runs in the order of their identifiers. */
  function Latest(runs: seq<RunDir>): (r: Option<nat>)
    ensures r.Some? ==> r.value < |runs| && runs[r.value].metadata
    ensures forall i | (r.Some? ==> r.value < i) && 0 <= i < |runs| :: !runs[i].metadata
  {
    if runs == [] then None
    else if runs[|runs| - 1].metadata then Some(|runs| - 1)
    else Latest(runs[..|runs| - 1])
  }

  /** Whether the next run must refuse to start. */
  predicate Latched(runs: seq<RunDir>) {
    var latest := Latest(runs);
    latest.Some? && Interrupted(runs[latest.value]) && !runs[latest.value].acknowledged
  }

  /** Which run an operator names: the latest, one by its place, or a name that is no directory's. */
  datatype Choice = Last | Unsafe | Named(run: nat)

  datatype Acknowledgement = InvalidArgs | NotFound | Already | NotInterrupted | Recorded

  /** The run that is named, if it has metadata. */
  function Chosen(runs: seq<RunDir>, choice: Choice): (r: Option<nat>)
    ensures r.Some? ==> r.value < |runs| && runs[r.value].metadata
  {
    match choice
    case Last => Latest(runs)
    case Unsafe => None
    case Named(i) => if i < |runs| && runs[i].metadata then Some(i) else None
  }

  class Runs {
    var dirs: seq<RunDir>

    constructor (dirs: seq<RunDir>)
      ensures this.dirs == dirs
    {
      this.dirs := dirs;
    }

    method LatestRun() returns (r: Option<nat>)
      ensures r == Latest(dirs)
    {
      var i := |dirs|;
      assert dirs[..i] == dirs;
      while i > 0
        invariant 0 <= i <= |dirs| && Latest(dirs) == Latest(dirs[..i])
      {
        i := i - 1;
        assert dirs[..i + 1][..i] == dirs[..i];
        if dirs[i].metadata { return Some(i); }
      }
      return None;
    }

    method LoadReport(i: nat) returns (interrupted: Option<Crumb>)
      requires i < |dirs|
      ensures interrupted.Some? <==> Interrupted(dirs[i])
      ensures interrupted.Some? ==> LastOf(Opens(Parsed(dirs[i].lines)), interrupted.value)
    {
      var timeline := ReadTimeline(dirs[i].lines);
      interrupted := DetectInterrupted(timeline, dirs[i].result);
    }

    method CheckStartupLatch() returns (refused: bool)
      ensures refused <==> Latched(dirs)
    {
      var latest := LatestRun();
      if latest.None? { return false; }
      var interrupted := LoadReport(latest.value);
      return interrupted.Some? && !dirs[latest.value].acknowledged;
    }

    /** Acknowledges one run, if it was interrupted and is not acknowledged yet; the latch is lifted only
        if that is the latest run. */
    method AcknowledgeRun(choice: Choice) returns (r: Acknowledgement)
      modifies this
      ensures var chosen := Chosen(old(dirs), choice);
              && (r.Recorded? <==>
                    chosen.Some? && Interrupted(old(dirs)[chosen.value]) && !old(dirs)[chosen.value].acknowledged)
              && (r.Already? <==> chosen.Some? && old(dirs)[chosen.value].acknowledged)
              && (r.InvalidArgs? <==> choice.Unsafe?) && (r.NotFound? <==> !choice.Unsafe? && chosen.None?)
              && dirs == (if r.Recorded? then old(dirs)[chosen.value := old(dirs)[chosen.value].(acknowledged := true)]
                          else old(dirs))
              && (Latched(dirs) <==> Latched(old(dirs)) && !(r.Recorded? && chosen == Latest(old(dirs))))
      ensures choice.Named? && !(choice.run < |old(dirs)| && old(dirs)[choice.run].metadata) ==> r.NotFound?
      ensures choice.Named? && r.Recorded? ==>
                dirs == old(dirs)[choice.run := old(dirs)[choice.run].(acknowledged := true)]
      ensures choice.Last? && r.Recorded? ==>
                exists i: nat | i < |old(dirs)| ::
                  && old(dirs)[i].metadata && (forall j | i < j < |old(dirs)| :: !old(dirs)[j].metadata)
                  && dirs == old(dirs)[i := old(dirs)[i].(acknowledged := true)]
    {
      if choice.Unsafe? { return InvalidArgs; }
      var chosen;
      if choice.Last? { chosen := LatestRun(); } else { chosen := Some(choice.run); }
      if chosen.None? || chosen.value >= |dirs| || !dirs[chosen.value].metadata { return NotFound; }
      var interrupted := LoadReport(chosen.value);
      if dirs[chosen.value].acknowledged { return Already; }
      if interrupted.None? { return NotInterrupted; }
      LatestAmended(dirs, chosen.value, dirs[chosen.value].(acknowledged := true));
      dirs := dirs[chosen.value := dirs[chosen.value].(acknowledged := true)];
      return Recorded;
    }
  }

  lemma {:induction false} LatestAmended(runs: seq<RunDir>, i: nat, d: RunDir)
    requires i < |runs| && runs[i].metadata == d.metadata
    ensures Latest(runs[i := d]) == Latest(runs)
  {
    if |runs| - 1 > i {
      assert runs[i := d][..|runs| - 1] == runs[..|runs| - 1][i := d];
      LatestAmended(runs[..|runs| - 1], i, d);
    } else {
      assert runs[i := d][..|runs| - 1] == runs[..|runs| - 1];
    }
  }
}
