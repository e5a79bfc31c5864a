/**
 * The five-state debug run mode and its two transitions, `pause` and
 * `resume`. Both take the current mode and only return the successor (or an
 * error message); the mode they are asked about is a value and stays as it
 * was, which is why they are functions here.
 */
module DebugRunMode {
  import opened Results

  datatype RunMode = Normal | DebugStep | DebugRunning | DebugCond | DebugCondStep

  const PAUSE_ERROR := "Cannot pause this run mode"
  const RESUME_ERROR := "Cannot resume this run mode"

  /** A debug mode in which execution goes on by itself. */
  predicate IsRunningDebug(m: RunMode) {
    m == DebugRunning || m == DebugCond
  }

  /** A debug mode in which execution waits for single steps. */
  predicate IsPausedDebug(m: RunMode) {
    m == DebugStep || m == DebugCondStep
  }

  /** One of the two conditional-debug modes. */
  predicate IsConditional(m: RunMode) {
    m == DebugCond || m == DebugCondStep
  }

  /**
   * `RunMode::pause`: legal exactly from a running debug mode, and then it
   * gives the paused mode of the same kind (plain or conditional).
   */
  function Pause(m: RunMode): (r: Result<RunMode, string>)
    ensures r.Ok? <==> IsRunningDebug(m)
    ensures r.Ok? ==> IsPausedDebug(r.value) && IsConditional(r.value) == IsConditional(m)
    ensures r.Err? ==> r.error == PAUSE_ERROR
  {
    match m
    case DebugRunning => Ok(DebugStep)
    case DebugCond => Ok(DebugCondStep)
    case _ => Err(PAUSE_ERROR)
  }

  /**
   * `RunMode::resume`: legal exactly from a paused debug mode, and then it
   * gives the running mode of the same kind.
   */
  function Resume(m: RunMode): (r: Result<RunMode, string>)
    ensures r.Ok? <==> IsPausedDebug(m)
    ensures r.Ok? ==> IsRunningDebug(r.value) && IsConditional(r.value) == IsConditional(m)
    ensures r.Err? ==> r.error == RESUME_ERROR
  {
    match m
    case DebugStep => Ok(DebugRunning)
    case DebugCondStep => Ok(DebugCond)
    case _ => Err(RESUME_ERROR)
  }

  /** The two legal pauses, and every other mode refused. */
  lemma PauseTransitions(m: RunMode)
    ensures Pause(DebugRunning) == Ok(DebugStep)
    ensures Pause(DebugCond) == Ok(DebugCondStep)
    ensures m in {Normal, DebugStep, DebugCondStep} ==> Pause(m) == Err(PAUSE_ERROR)
  {
  }

  /** The two legal resumes, and every other mode refused. */
  lemma ResumeTransitions(m: RunMode)
    ensures Resume(DebugStep) == Ok(DebugRunning)
    ensures Resume(DebugCondStep) == Ok(DebugCond)
    ensures m in {Normal, DebugRunning, DebugCond} ==> Resume(m) == Err(RESUME_ERROR)
  {
  }

  /** `pause` and `resume` are inverse partial maps: each undoes the other. */
  lemma PauseResumeInverse(m: RunMode, p: RunMode)
    ensures Pause(m) == Ok(p) <==> Resume(p) == Ok(m)
  {
  }

  /** `Normal` is isolated: neither transition leaves it or reaches it. */
  lemma NormalIsolated(m: RunMode)
    ensures Pause(Normal).Err? && Resume(Normal).Err?
    ensures Pause(m) != Ok(Normal) && Resume(m) != Ok(Normal)
  {
  }

  /** A second `pause` always fails: a paused mode cannot be paused. */
  lemma PauseTwiceFails(m: RunMode)
    ensures Pause(m).Ok? ==> Pause(Pause(m).value) == Err(PAUSE_ERROR)
  {
  }

  /** Likewise a second `resume` always fails. */
  lemma ResumeTwiceFails(m: RunMode)
    ensures Resume(m).Ok? ==> Resume(Resume(m).value) == Err(RESUME_ERROR)
  {
  }
}
