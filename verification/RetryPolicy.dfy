/** Failure classification and bounded retry. */
module RetryPolicy {
  import opened Text

  const MAX_ATTEMPTS := 3
  const BACKOFF_BASE_S := 30
  const BACKOFF_CAP_S := 600

  datatype Stage =
    | Queued | WaitingForDevice | Compiling | Fetching | Downloaded | Inspected
    | Prepared
    | CompileFailed | ResourceExceeded | ValidationFailed | UnsupportedContract | Quarantined | Interrupted

  predicate IsError(s: Stage) {
    s.CompileFailed? || s.ResourceExceeded? || s.ValidationFailed? || s.UnsupportedContract? || s.Quarantined?
      || s.Interrupted?
  }

  predicate IsTerminal(s: Stage) {
    s.Prepared? || IsError(s)
  }

  function StageName(s: Stage): string {
    match s
    case Queued => "QUEUED"
    case WaitingForDevice => "WAITING_FOR_DEVICE"
    case Compiling => "COMPILING"
    case Fetching => "FETCHING"
    case Downloaded => "DOWNLOADED"
    case Inspected => "INSPECTED"
    case Prepared => "PREPARED"
    case CompileFailed => "COMPILE_FAILED"
    case ResourceExceeded => "RESOURCE_EXCEEDED"
    case ValidationFailed => "VALIDATION_FAILED"
    case UnsupportedContract => "UNSUPPORTED_CONTRACT"
    case Quarantined => "QUARANTINED"
    case Interrupted => "INTERRUPTED"
  }

  datatype Kind = Transient | ConfigBlocked | InterruptedSafe | Permanent | Safety | Unknown

  /** What the vendor tail and the error text were recognised as. */
  datatype Evidence = Evidence(memlockPattern: bool, probeFailed: bool, timeout: bool)

  datatype Class = Class(kind: Kind, retryable: bool, auto: bool)

  const SAFETY_CODES := {"QUARANTINED", "SAFETY_INHIBITED", "DEVICE_FAULT"}

  const PERMANENT_CODES := {
    "AUTH_FAILED", "UNSUPPORTED_CONTRACT", "INVALID_ARGS", "INVALID_MODEL", "INVALID_CONFIG", "SOURCE_CHANGED",
    "CACHE_CORRUPT", "NOT_PREPARED", "OWNERSHIP_CONFLICT", "MODEL_IN_USE", "QUARANTINED", "SAFETY_INHIBITED",
    "DEVICE_FAULT", "DEVICE_BUSY", "VALIDATION_FAILED", "ACTIVATION_FAILED"}

  function Classify(stage: Stage, code: string, evidence: Evidence, memlockAdequate: bool): Class {
    if stage.Interrupted? then Class(InterruptedSafe, true, true)
    else if stage.Quarantined? || code in SAFETY_CODES then Class(Safety, false, false)
    else if stage.ResourceExceeded? || code == "RESOURCE_EXCEEDED" then Class(Transient, true, true)
    else if stage.UnsupportedContract? || stage.ValidationFailed? || code in PERMANENT_CODES then
      Class(Permanent, false, false)
    else if evidence.memlockPattern then
      if memlockAdequate then Class(Unknown, true, false) else Class(ConfigBlocked, true, false)
    else if evidence.probeFailed then Class(Permanent, false, false)
    else if evidence.timeout then Class(Transient, true, true)
    else Class(Unknown, true, false)
  }

  function Backoff(attempt: nat): nat {
    var s := BACKOFF_BASE_S * Pow2(if attempt == 0 then 0 else attempt - 1);
    if s < BACKOFF_CAP_S then s else BACKOFF_CAP_S
  }

  function Pow2(n: nat): nat {
    if n == 0 then 1 else 2 * Pow2(n - 1)
  }

  datatype Event = Event(attempt: nat, stage: Stage, at: nat)

  /** A structured failure record.  The note left on a row opened by a retry has no phase. */
  datatype Record = Record(
    phase: Option<Stage>, kind: Kind, retryable: bool, attempts: nat, notBefore: nat,
    history: seq<Event>, resumedTo: Option<nat>, resumeRefused: bool)

  function ResumeNote(history: seq<Event>): Record {
    Record(None, Unknown, false, 0, 0, history, None, false)
  }

  function NewRecord(stage: Stage, code: string, evidence: Evidence, memlockAdequate: bool,
                     attempt: nat, now: nat, history: seq<Event>): Record {
    var c := Classify(stage, code, evidence, memlockAdequate);
    Record(Some(stage), c.kind, c.retryable, attempt,
           if c.auto && c.kind.Transient? then now + Backoff(attempt) else now,
           history + [Event(attempt, stage, now)], None, false)
  }

  /** Whether a new attempt may be opened automatically now. */
  predicate AutoEligible(r: Record, now: nat, memlockAdequate: bool) {
    && r.resumedTo.None? && !r.resumeRefused && r.phase.Some? && r.attempts < MAX_ATTEMPTS
    && match r.kind
       case Transient => now >= r.notBefore
       case ConfigBlocked => memlockAdequate
       case InterruptedSafe => true
       case _ => false
  }

  /** The backoff in seconds: 30 after the first attempt, then doubling up to 600. */
  lemma {:induction false} BackoffDoubles(attempt: nat)
    ensures Backoff(0) == Backoff(1) == 30 && Backoff(2) == 60
    ensures attempt >= 1 ==> Backoff(attempt + 1) == if 2 * Backoff(attempt) < 600 then 2 * Backoff(attempt) else 600
    ensures 30 <= Backoff(attempt) <= 600
  {
    assert Pow2(1) == 2;
    PowPositive(if attempt == 0 then 0 else attempt - 1);
  }

  /** What each failure is taken for, by the first of these that applies: an interruption; a stage or code that
      endangers the device; exhausted resources; an unsupported or invalid source; the locked-memory pattern,
      to be blamed on the configuration only if the limit is too low; a failed probe; a timeout.  Only
      interruptions, exhausted resources and timeouts are retried automatically, and only safety and permanent
      failures never. */
  lemma {:induction false} Classified(stage: Stage, code: string, evidence: Evidence, memlockAdequate: bool)
    ensures var c := Classify(stage, code, evidence, memlockAdequate);
            var unsafe := stage == Quarantined || code == "QUARANTINED" || code == "SAFETY_INHIBITED"
                          || code == "DEVICE_FAULT";
            var exhausted := stage == ResourceExceeded || code == "RESOURCE_EXCEEDED";
            var refused := stage == UnsupportedContract || stage == ValidationFailed
                           || code in {"AUTH_FAILED", "UNSUPPORTED_CONTRACT", "INVALID_ARGS", "INVALID_MODEL",
                                       "INVALID_CONFIG", "SOURCE_CHANGED", "CACHE_CORRUPT", "NOT_PREPARED",
                                       "OWNERSHIP_CONFLICT", "MODEL_IN_USE", "DEVICE_BUSY", "VALIDATION_FAILED",
                                       "ACTIVATION_FAILED"};
            && (c.kind == InterruptedSafe <==> stage == Interrupted)
            && (c.kind == Safety <==> stage != Interrupted && unsafe)
            && (stage != Interrupted && !unsafe ==>
                  && (exhausted ==> c.kind == Transient)
                  && (!exhausted && refused ==> c.kind == Permanent)
                  && (!exhausted && !refused ==>
                        && (c.kind == ConfigBlocked <==> evidence.memlockPattern && !memlockAdequate)
                        && (c.kind == Permanent <==> !evidence.memlockPattern && evidence.probeFailed)
                        && (c.kind == Transient <==>
                              !evidence.memlockPattern && !evidence.probeFailed && evidence.timeout)))
            && (c.auto <==> c.kind == InterruptedSafe || c.kind == Transient)
            && (!c.retryable <==> c.kind == Safety || c.kind == Permanent)
  {
  }

  /** A fresh record of a failure that is not an interruption is not eligible yet: a transient one waits
      for its backoff of at least 30 s, a blocked one for a changed memlock limit, the others for ever. */
  lemma {:induction false} FreshRecordWaits(stage: Stage, code: string, evidence: Evidence, memlockAdequate: bool,
                                            attempt: nat, now: nat, history: seq<Event>, later: nat)
    requires !stage.Interrupted?
    ensures var r := NewRecord(stage, code, evidence, memlockAdequate, attempt, now, history);
            AutoEligible(r, later, memlockAdequate) <==>
            r.kind.Transient? && attempt < MAX_ATTEMPTS && later >= now + Backoff(attempt)
    ensures Backoff(attempt) >= 30
  {
    PowPositive(if attempt == 0 then 0 else attempt - 1);
  }

  lemma {:induction false} PowPositive(n: nat)
    ensures Pow2(n) >= 1
  {
    if n > 0 {
      PowPositive(n - 1);
    }
  }
}
