/**
 * The decision logic of the SDL main loop, apart from the SDL plumbing.
 *
 * The emulated machine and the audio device are outside this model: the
 * loop's effect on them is the sequence of calls it makes, a `Call` trace.
 * One iteration polls a batch of events, dispatches each, runs the machine
 * when free-running, and toggles the audio device on an edge of the
 * machine's sound flag. The value `should_make_sound()` returns after the
 * events and the run is an input of the iteration.
 */
module EventLoop {
  import opened Results
  import opened Bytes
  import opened Keypad

  /** The front end's own run mode: free-running, or single-stepped with the step key. */
  datatype RunMode = Normal | DebugStep

  /** The SDL events the loop tells apart; every other event is `OtherEvent`. */
  datatype Event =
    | Quit
    | KeyDown(keycode: Option<Keycode>)
    | KeyUp(keycode: Option<Keycode>)
    | OtherEvent

  /** A call the loop makes on the machine or on the audio device. */
  datatype Call =
    | PressKey(code: u8)
    | ReleaseKey(code: u8)
    | Run
    | RunStepDebug
    | ResumeAudio
    | PauseAudio

  /** What dispatching one event does: leave the loop, or go on after some calls. */
  datatype Dispatch = Break | Continue(calls: seq<Call>)

  /** What draining a batch of events did: whether the loop was left, and the calls made. */
  datatype Drained = Drained(quit: bool, calls: seq<Call>)

  /** What one iteration of the loop observes: the events polled and the machine's sound flag. */
  datatype Frame = Frame(events: seq<Event>, sound: bool)

  /** What one iteration did, and the audio edge detector's state after it. */
  datatype Step = Step(quit: bool, calls: seq<Call>, audioLastState: bool)

  /** Closing the window or pressing Escape. */
  predicate IsQuitEvent(e: Event) {
    e == Quit || e == KeyDown(Some(Escape))
  }

  /**
   * `keyboard_mappings.get(&k)`: a code exactly for the keys in the table,
   * and then a keypad code from which `KeyForCode` gives back the key.
   */
  function Lookup(k: Keycode): (r: Option<u8>)
    ensures r.Some? <==> k in DefaultKeyboardMappings()
    ensures r.Some? ==> r.value as int < KEY_COUNT && KeyForCode(r.value) == k
  {
    var table := DefaultKeyboardMappings();
    if k in table then
      TableIsInjective(k);
      Some(table[k])
    else
      None
  }

  /**
   * The `match event` of one polled event. Quit events leave the loop; the
   * step key single-steps the machine in `DebugStep` only; any other key
   * down or up is routed through the keypad table, press to press and
   * release to release, and a key outside the table does nothing.
   */
  function DispatchEvent(mode: RunMode, e: Event): (d: Dispatch)
    ensures d.Break? <==> IsQuitEvent(e)
    ensures d.Continue? ==> |d.calls| <= 1
    ensures d.Continue? ==> (RunStepDebug in d.calls <==> mode == DebugStep && e == KeyDown(Some(Space)))
    ensures d.Continue? ==> forall c :: c in d.calls ==> c.PressKey? || c.ReleaseKey? || c == RunStepDebug
    ensures d.Continue? && d.calls != [] && d.calls[0].PressKey? ==> e.KeyDown?
    ensures d.Continue? && d.calls != [] && d.calls[0].ReleaseKey? ==> e.KeyUp?
  {
    match e
    case Quit => Break
    case KeyDown(Some(Escape)) => Break
    case KeyDown(Some(Space)) =>
      (match mode
       case Normal => Continue([])
       case DebugStep => Continue([RunStepDebug]))
    case KeyDown(Some(k)) =>
      (match Lookup(k)
       case Some(v) => Continue([PressKey(v)])
       case None => Continue([]))
    case KeyUp(Some(k)) =>
      (match Lookup(k)
       case Some(v) => Continue([ReleaseKey(v)])
       case None => Continue([]))
    case _ => Continue([])
  }

  /** A key down on a key of the table presses exactly its code. */
  lemma KeyDownPresses(mode: RunMode, k: Keycode)
    requires k in DefaultKeyboardMappings()
    ensures DispatchEvent(mode, KeyDown(Some(k))) == Continue([PressKey(DefaultKeyboardMappings()[k])])
  {
  }

  /** A key up on a key of the table releases exactly its code. */
  lemma KeyUpReleases(mode: RunMode, k: Keycode)
    requires k in DefaultKeyboardMappings()
    ensures DispatchEvent(mode, KeyUp(Some(k))) == Continue([ReleaseKey(DefaultKeyboardMappings()[k])])
  {
  }

  /**
   * A key outside the table makes no call when released, nor when pressed
   * unless it is Escape or the step key; an event without a key code makes none.
   */
  lemma UnmappedKeyIgnored(mode: RunMode, k: Keycode)
    requires k !in DefaultKeyboardMappings()
    ensures k != Escape && k != Space ==> DispatchEvent(mode, KeyDown(Some(k))) == Continue([])
    ensures DispatchEvent(mode, KeyUp(Some(k))) == Continue([])
    ensures DispatchEvent(mode, KeyDown(None)) == Continue([])
    ensures DispatchEvent(mode, KeyUp(None)) == Continue([])
  {
  }

  /** A press of code `v` comes only from a key down of the key mapped to `v`; likewise a release. */
  lemma KeyCallsComeFromTheirKey(mode: RunMode, e: Event, v: u8)
    ensures DispatchEvent(mode, e) == Continue([PressKey(v)]) ==>
      v as int < KEY_COUNT && e == KeyDown(Some(KeyForCode(v)))
    ensures DispatchEvent(mode, e) == Continue([ReleaseKey(v)]) ==>
      v as int < KEY_COUNT && e == KeyUp(Some(KeyForCode(v)))
  {
    if e.KeyDown? || e.KeyUp? {
      if e.keycode.Some? && e.keycode.value in DefaultKeyboardMappings() {
        TableIsInjective(e.keycode.value);
      }
    }
  }

  /** The step key single-steps only in `DebugStep`, and does nothing in `Normal`. */
  lemma StepKeyGated(mode: RunMode)
    ensures DispatchEvent(mode, KeyDown(Some(Space))) ==
      if mode == DebugStep then Continue([RunStepDebug]) else Continue([])
    ensures DispatchEvent(mode, KeyUp(Some(Space))) == Continue([])
  {
    TableExamples(0);
  }

  /** Has the loop been told to quit by one of these events? */
  predicate HasQuitEvent(events: seq<Event>) {
    exists i :: 0 <= i < |events| && IsQuitEvent(events[i])
  }

  /**
   * The `for event in event_pump.poll_iter()` loop as a function: the calls
   * of each event in turn, up to the first quit event, which leaves the loop
   * and drops the events behind it.
   */
  function DrainAll(mode: RunMode, events: seq<Event>): Drained
    decreases |events|
  {
    if events == [] then Drained(false, [])
    else Then(DispatchEvent(mode, events[0]), DrainAll(mode, events[1..]))
  }

  /** One dispatched event followed by the rest of the batch. */
  function Then(d: Dispatch, rest: Drained): Drained {
    match d
    case Break => Drained(true, [])
    case Continue(calls) => Drained(rest.quit, calls + rest.calls)
  }

  /** A drained batch followed by another: the second counts only if the first did not quit. */
  function Join(first: Drained, second: Drained): Drained {
    if first.quit then first else Drained(second.quit, first.calls + second.calls)
  }

  /** Dispatching an event before two joined batches is joining after dispatching it. */
  lemma ThenJoin(d: Dispatch, x: Drained, y: Drained)
    ensures Then(d, Join(x, y)) == Join(Then(d, x), y)
  {
    if d.Continue? && !x.quit {
      assert d.calls + x.calls + y.calls == d.calls + (x.calls + y.calls);
    }
  }

  /**
   * Draining a batch leaves the loop exactly when the batch holds a quit
   * event; it makes at most one call per event, only key and step calls, and
   * no step call in `Normal`.
   */
  lemma {:induction false} DrainAllFacts(mode: RunMode, events: seq<Event>)
    ensures DrainAll(mode, events).quit <==> HasQuitEvent(events)
    ensures |DrainAll(mode, events).calls| <= |events|
    ensures forall c :: c in DrainAll(mode, events).calls ==> c.PressKey? || c.ReleaseKey? || c == RunStepDebug
    ensures mode == Normal ==> RunStepDebug !in DrainAll(mode, events).calls
    decreases |events|
  {
    if events != [] && !IsQuitEvent(events[0]) {
      DrainAllFacts(mode, events[1..]);
      if HasQuitEvent(events[1..]) {
        var i :| 0 <= i < |events[1..]| && IsQuitEvent(events[1..][i]);
        assert IsQuitEvent(events[i + 1]);
      }
      if HasQuitEvent(events) {
        var i :| 0 <= i < |events| && IsQuitEvent(events[i]);
        assert i > 0 && IsQuitEvent(events[1..][i - 1]);
      }
    }
  }

  /**
   * Draining two batches one after the other is draining their concatenation:
   * the second batch is dropped if the first holds a quit event.
   */
  lemma {:induction false} DrainAllAppend(mode: RunMode, a: seq<Event>, b: seq<Event>)
    ensures DrainAll(mode, a + b) == Join(DrainAll(mode, a), DrainAll(mode, b))
  {
    if a == [] {
      assert a + b == b;
    } else {
      assert (a + b)[0] == a[0];
      assert (a + b)[1..] == a[1..] + b;
      DrainAllAppend(mode, a[1..], b);
      ThenJoin(DispatchEvent(mode, a[0]), DrainAll(mode, a[1..]), DrainAll(mode, b));
    }
  }

  /** Everything polled after a quit event is ignored. */
  lemma QuitDropsLaterEvents(mode: RunMode, before: seq<Event>, q: Event, after: seq<Event>)
    requires IsQuitEvent(q)
    ensures DrainAll(mode, before + [q] + after) == Drained(true, DrainAll(mode, before).calls)
  {
    DrainAllAppend(mode, before + [q], after);
    DrainAllAppend(mode, before, [q]);
  }

  /** Draining one more event after a batch. */
  lemma DrainAllSnoc(mode: RunMode, a: seq<Event>, e: Event)
    ensures DrainAll(mode, a + [e]) == Join(DrainAll(mode, a), Then(DispatchEvent(mode, e), Drained(false, [])))
  {
    DrainAllAppend(mode, a, [e]);
    assert [e][1..] == [];
  }

  /** The event loop of one iteration, proved to do what `DrainAll` says. */
  method DrainEvents(mode: RunMode, events: seq<Event>) returns (quit: bool, calls: seq<Call>)
    ensures Drained(quit, calls) == DrainAll(mode, events)
  {
    quit, calls := false, [];
    var i := 0;
    while i < |events|
      invariant 0 <= i <= |events|
      invariant DrainAll(mode, events[..i]) == Drained(false, calls)
    {
      DrainAllSnoc(mode, events[..i], events[i]);
      assert events[..i + 1] == events[..i] + [events[i]];
      match DispatchEvent(mode, events[i]) {
        case Break =>
          DrainAllAppend(mode, events[..i + 1], events[i + 1..]);
          assert events[..i + 1] + events[i + 1..] == events;
          assert calls + [] == calls;
          quit := true;
          return;
        case Continue(made) =>
          assert made + [] == made;
          calls := calls + made;
          i := i + 1;
      }
    }
    assert events[..i] == events;
  }

  /** `machine.run()` is called once in `Normal` and not at all in `DebugStep`. */
  function RunGate(mode: RunMode): (calls: seq<Call>)
    ensures Run in calls <==> mode == Normal
    ensures forall c :: c in calls ==> c == Run
    ensures |calls| <= 1
  {
    match mode
    case Normal => [Run]
    case DebugStep => []
  }

  /** Whether the audio device plays after call `c`, if it played (`on`) before. */
  function DeviceStep(on: bool, c: Call): bool {
    match c
    case ResumeAudio => true
    case PauseAudio => false
    case _ => on
  }

  /** Whether the audio device plays after `calls`, starting from `on`. */
  function DeviceAfter(on: bool, calls: seq<Call>): bool
    decreases |calls|
  {
    if calls == [] then on else DeviceAfter(DeviceStep(on, calls[0]), calls[1..])
  }

  /** No call in `calls` resumes a playing device or pauses a paused one. */
  predicate NoRedundantToggle(on: bool, calls: seq<Call>)
    decreases |calls|
  {
    calls == [] ||
    ((calls[0] == ResumeAudio ==> !on) && (calls[0] == PauseAudio ==> on) &&
     NoRedundantToggle(DeviceStep(on, calls[0]), calls[1..]))
  }

  /**
   * The edge-triggered audio toggle: with the device in the state `last`
   * says, it ends in the state the sound flag asks for, and it is called
   * once on an edge of the flag and not at all otherwise.
   */
  function AudioGate(last: bool, sound: bool): (calls: seq<Call>)
    ensures DeviceAfter(last, calls) == sound
    ensures NoRedundantToggle(last, calls)
    ensures calls == [] <==> last == sound
    ensures |calls| <= 1
    ensures forall c :: c in calls ==> c == ResumeAudio || c == PauseAudio
  {
    if last != sound then
      if sound then [ResumeAudio] else [PauseAudio]
    else
      []
  }

  /** Running the device through two call sequences one after the other. */
  lemma {:induction false} DeviceAfterAppend(on: bool, a: seq<Call>, b: seq<Call>)
    ensures DeviceAfter(on, a + b) == DeviceAfter(DeviceAfter(on, a), b)
    ensures NoRedundantToggle(on, a + b) <==>
      NoRedundantToggle(on, a) && NoRedundantToggle(DeviceAfter(on, a), b)
    decreases |a|
  {
    if a == [] {
      assert a + b == b;
    } else {
      assert (a + b)[0] == a[0];
      assert (a + b)[1..] == a[1..] + b;
      DeviceAfterAppend(DeviceStep(on, a[0]), a[1..], b);
    }
  }

  /** Calls that are not audio calls leave the device alone. */
  lemma {:induction false} DeviceIgnoresOtherCalls(on: bool, calls: seq<Call>)
    requires forall c :: c in calls ==> c != ResumeAudio && c != PauseAudio
    ensures DeviceAfter(on, calls) == on && NoRedundantToggle(on, calls)
    decreases |calls|
  {
    if calls != [] {
      assert calls[0] in calls;
      assert forall c :: c in calls[1..] ==> c in calls;
      DeviceIgnoresOtherCalls(on, calls[1..]);
    }
  }

  /**
   * One iteration of `main_sdl_loop`: drain the events; unless one of them
   * quit, run the machine in `Normal`, toggle audio on an edge of the sound
   * flag, and remember the flag.
   */
  function Iteration(mode: RunMode, last: bool, frame: Frame): Step {
    var drained := DrainAll(mode, frame.events);
    if drained.quit then
      Step(true, drained.calls, last)
    else
      Step(false, drained.calls + RunGate(mode) + AudioGate(last, frame.sound), frame.sound)
  }

  /**
   * After one iteration the audio device plays exactly when the new
   * `audio_last_state` says so, and the iteration toggled it only on an edge.
   */
  lemma IterationKeepsDevice(mode: RunMode, last: bool, frame: Frame)
    ensures DeviceAfter(last, Iteration(mode, last, frame).calls) == Iteration(mode, last, frame).audioLastState
    ensures NoRedundantToggle(last, Iteration(mode, last, frame).calls)
  {
    var drained := DrainAll(mode, frame.events);
    DrainAllFacts(mode, frame.events);
    DeviceIgnoresOtherCalls(last, drained.calls);
    if !drained.quit {
      DeviceIgnoresOtherCalls(last, RunGate(mode));
      DeviceAfterAppend(last, drained.calls, RunGate(mode));
      DeviceAfterAppend(last, drained.calls + RunGate(mode), AudioGate(last, frame.sound));
    }
  }

  /** How many times `calls` resumes or pauses the audio device. */
  function AudioCallCount(calls: seq<Call>): nat {
    multiset(calls)[ResumeAudio] + multiset(calls)[PauseAudio]
  }

  /**
   * An iteration toggles the audio device at most once: it resumes it
   * exactly on a rising edge of the sound flag and pauses it exactly on a
   * falling one, and makes no audio call if it quit.
   */
  lemma IterationTogglesAtEdge(mode: RunMode, last: bool, frame: Frame)
    ensures AudioCallCount(Iteration(mode, last, frame).calls) ==
      if !Iteration(mode, last, frame).quit && last != frame.sound then 1 else 0
    ensures ResumeAudio in Iteration(mode, last, frame).calls <==>
      !Iteration(mode, last, frame).quit && !last && frame.sound
    ensures PauseAudio in Iteration(mode, last, frame).calls <==>
      !Iteration(mode, last, frame).quit && last && !frame.sound
  {
    var drained := DrainAll(mode, frame.events);
    DrainAllFacts(mode, frame.events);
    assert ResumeAudio !in drained.calls && PauseAudio !in drained.calls;
    TogglesAfterDrain(mode, last, frame.sound, drained);
  }

  /** The gates after a drained batch without audio calls make the iteration's only audio call, on an edge. */
  lemma TogglesAfterDrain(mode: RunMode, last: bool, sound: bool, drained: Drained)
    requires ResumeAudio !in drained.calls && PauseAudio !in drained.calls
    ensures drained.quit ==> AudioCallCount(drained.calls) == 0
    ensures !drained.quit ==>
      var calls := drained.calls + RunGate(mode) + AudioGate(last, sound);
      AudioCallCount(calls) == (if last != sound then 1 else 0) &&
      (ResumeAudio in calls <==> !last && sound) &&
      (PauseAudio in calls <==> last && !sound)
  {
    AudioCallsAfter(drained.calls, []);
    assert drained.calls + [] == drained.calls;
    var before := drained.calls + RunGate(mode);
    assert ResumeAudio !in before && PauseAudio !in before;
    AudioCallsAfter(before, AudioGate(last, sound));
  }

  /** Calls without audio calls in front of `b` add no audio call. */
  lemma AudioCallsAfter(a: seq<Call>, b: seq<Call>)
    requires ResumeAudio !in a && PauseAudio !in a
    ensures AudioCallCount(a + b) == AudioCallCount(b)
    ensures ResumeAudio in a + b <==> ResumeAudio in b
    ensures PauseAudio in a + b <==> PauseAudio in b
  {
    assert multiset(a + b) == multiset(a) + multiset(b);
  }

  /**
   * An iteration ends the loop exactly when it polled a quit event; it runs
   * the machine only in `Normal` and only if it did not quit; and it
   * remembers the new sound flag unless it quit.
   */
  lemma IterationGates(mode: RunMode, last: bool, frame: Frame)
    ensures Iteration(mode, last, frame).quit <==> HasQuitEvent(frame.events)
    ensures Iteration(mode, last, frame).audioLastState ==
      if Iteration(mode, last, frame).quit then last else frame.sound
    ensures Run in Iteration(mode, last, frame).calls <==> !Iteration(mode, last, frame).quit && mode == Normal
    ensures mode == Normal ==> RunStepDebug !in Iteration(mode, last, frame).calls
  {
    var drained := DrainAll(mode, frame.events);
    DrainAllFacts(mode, frame.events);
    if !drained.quit {
      assert Iteration(mode, last, frame).calls == drained.calls + RunGate(mode) + AudioGate(last, frame.sound);
    }
  }

  /** An iteration calls `machine.run()` once if it did not quit in `Normal`, and not at all otherwise. */
  lemma IterationRunsOnce(mode: RunMode, last: bool, frame: Frame)
    ensures multiset(Iteration(mode, last, frame).calls)[Run] ==
      if !Iteration(mode, last, frame).quit && mode == Normal then 1 else 0
  {
    var drained := DrainAll(mode, frame.events);
    DrainAllFacts(mode, frame.events);
    assert Run !in drained.calls;
    RunsOnceAfterDrain(mode, last, frame.sound, drained);
  }

  /** The gates after a drained batch without `run()` calls make the one `run()` call of the iteration. */
  lemma RunsOnceAfterDrain(mode: RunMode, last: bool, sound: bool, drained: Drained)
    requires Run !in drained.calls
    ensures !drained.quit ==>
      multiset(drained.calls + RunGate(mode) + AudioGate(last, sound))[Run] == if mode == Normal then 1 else 0
    ensures drained.quit ==> multiset(drained.calls)[Run] == 0
  {
    RunCountSplit(drained.calls, RunGate(mode));
    RunCountSplit(drained.calls + RunGate(mode), AudioGate(last, sound));
    assert Run !in AudioGate(last, sound);
  }

  /** The `run()` calls of two call sequences one after the other add up. */
  lemma RunCountSplit(a: seq<Call>, b: seq<Call>)
    ensures multiset(a + b)[Run] == multiset(a)[Run] + multiset(b)[Run]
  {
    assert multiset(a + b) == multiset(a) + multiset(b);
  }

  /**
   * The loop over a run of iterations, starting with the edge detector at
   * `last`, until an iteration sees a quit event or the frames run out.
   */
  function Session(mode: RunMode, last: bool, frames: seq<Frame>): Step
    decreases |frames|
  {
    if frames == [] then
      Step(false, [], last)
    else
      var before := Session(mode, last, frames[..|frames| - 1]);
      if before.quit then
        before
      else
        var final := Iteration(mode, before.audioLastState, frames[|frames| - 1]);
        Step(final.quit, before.calls + final.calls, final.audioLastState)
  }

  /**
   * Over a whole session the audio device ends up as the final
   * `audio_last_state` says, and it is never resumed while playing nor
   * paused while paused.
   */
  lemma {:induction false} SessionKeepsDevice(mode: RunMode, last: bool, frames: seq<Frame>)
    ensures DeviceAfter(last, Session(mode, last, frames).calls) == Session(mode, last, frames).audioLastState
    ensures NoRedundantToggle(last, Session(mode, last, frames).calls)
    decreases |frames|
  {
    if frames != [] {
      var prefix := frames[..|frames| - 1];
      SessionKeepsDevice(mode, last, prefix);
      var before := Session(mode, last, prefix);
      if !before.quit {
        var final := Iteration(mode, before.audioLastState, frames[|frames| - 1]);
        IterationKeepsDevice(mode, before.audioLastState, frames[|frames| - 1]);
        DeviceAfterAppend(last, before.calls, final.calls);
      }
    }
  }

  /** The session over one more frame, one step unfolded. */
  lemma SessionSnoc(mode: RunMode, last: bool, frames: seq<Frame>, n: nat)
    requires n < |frames|
    ensures Session(mode, last, frames[..n + 1]) ==
      var before := Session(mode, last, frames[..n]);
      if before.quit then before
      else
        var final := Iteration(mode, before.audioLastState, frames[n]);
        Step(final.quit, before.calls + final.calls, final.audioLastState)
  {
    assert frames[..n + 1][..n] == frames[..n];
  }

  /** `machine.run()` is never called in `DebugStep`, and the step key never single-steps in `Normal`. */
  lemma {:induction false} SessionRunsOnlyInMode(mode: RunMode, last: bool, frames: seq<Frame>)
    ensures mode == Normal ==> RunStepDebug !in Session(mode, last, frames).calls
    ensures mode == DebugStep ==> Run !in Session(mode, last, frames).calls
    decreases |frames|
  {
    if frames != [] {
      var before := Session(mode, last, frames[..|frames| - 1]);
      SessionRunsOnlyInMode(mode, last, frames[..|frames| - 1]);
      if !before.quit {
        IterationGates(mode, before.audioLastState, frames[|frames| - 1]);
      }
    }
  }

  /** While the sound flag keeps the value the detector remembers, the audio device is never called. */
  lemma {:induction false} SteadySoundIsSilent(mode: RunMode, last: bool, frames: seq<Frame>)
    requires forall i :: 0 <= i < |frames| ==> frames[i].sound == last
    ensures ResumeAudio !in Session(mode, last, frames).calls
    ensures PauseAudio !in Session(mode, last, frames).calls
    ensures Session(mode, last, frames).audioLastState == last
    decreases |frames|
  {
    if frames != [] {
      var prefix, frame := frames[..|frames| - 1], frames[|frames| - 1];
      SteadySoundIsSilent(mode, last, prefix);
      if !Session(mode, last, prefix).quit {
        IterationSteadySound(mode, last, frame);
      }
    }
  }

  /** An iteration whose sound flag equals the remembered state makes no audio call and keeps the state. */
  lemma IterationSteadySound(mode: RunMode, last: bool, frame: Frame)
    requires frame.sound == last
    ensures ResumeAudio !in Iteration(mode, last, frame).calls
    ensures PauseAudio !in Iteration(mode, last, frame).calls
    ensures Iteration(mode, last, frame).audioLastState == last
  {
    var drained := DrainAll(mode, frame.events);
    DrainAllFacts(mode, frame.events);
    if !drained.quit {
      assert AudioGate(last, frame.sound) == [];
      assert Iteration(mode, last, frame).calls == drained.calls + RunGate(mode);
    }
  }

  /** Once an iteration quits, the frames after it change nothing. */
  lemma {:induction false} SessionStopsAtQuit(mode: RunMode, last: bool, frames: seq<Frame>, n: nat)
    requires n <= |frames| && Session(mode, last, frames[..n]).quit
    ensures Session(mode, last, frames) == Session(mode, last, frames[..n])
    decreases |frames| - n
  {
    if n < |frames| {
      var longer := frames[..n + 1];
      assert longer[..n] == frames[..n];
      SessionStopsAtQuit(mode, last, frames, n + 1);
    } else {
      assert frames[..n] == frames;
    }
  }

  /**
   * One pass of the `'running` loop: poll and dispatch the events, run the
   * machine in `Normal`, and toggle audio on an edge of the sound flag.
   * `audioLastState` is the loop's `audio_last_state` before the pass.
   */
  method RunIteration(mode: RunMode, audioLastState: bool, frame: Frame)
    returns (quit: bool, calls: seq<Call>, newAudioLastState: bool)
    ensures Step(quit, calls, newAudioLastState) == Iteration(mode, audioLastState, frame)
  {
    quit, calls := DrainEvents(mode, frame.events);
    newAudioLastState := audioLastState;
    if quit {
      return;
    }
    if mode == Normal {
      calls := calls + [Run];
    }
    if audioLastState != frame.sound {
      if frame.sound {
        calls := calls + [ResumeAudio];
      } else {
        calls := calls + [PauseAudio];
      }
    }
    newAudioLastState := frame.sound;
  }

  /**
   * `main_sdl_loop` over the frames it is given: `audio_last_state` starts
   * false, and the loop ends at the first quit event or when the frames run
   * out. The audio device is taken to start paused, as SDL opens it.
   */
  method MainSdlLoop(mode: RunMode, frames: seq<Frame>) returns (s: Step)
    ensures s == Session(mode, false, frames)
  {
    var audioLastState := false;
    var trace: seq<Call> := [];
    var i := 0;
    while i < |frames|
      invariant 0 <= i <= |frames|
      invariant Session(mode, false, frames[..i]) == Step(false, trace, audioLastState)
    {
      var quit, calls, next := RunIteration(mode, audioLastState, frames[i]);
      SessionAfterIteration(mode, frames, i, trace, audioLastState);
      trace := trace + calls;
      if quit {
        return Step(true, trace, audioLastState);
      }
      audioLastState := next;
      i := i + 1;
    }
    assert frames[..i] == frames;
    s := Step(false, trace, audioLastState);
  }

  /** What the loop of `MainSdlLoop` knows after iteration `i`, which did not start after a quit. */
  lemma SessionAfterIteration(mode: RunMode, frames: seq<Frame>, i: nat, trace: seq<Call>, last: bool)
    requires i < |frames| && Session(mode, false, frames[..i]) == Step(false, trace, last)
    ensures var it := Iteration(mode, last, frames[i]);
      Session(mode, false, frames[..i + 1]) == Step(it.quit, trace + it.calls, it.audioLastState) &&
      (it.quit ==> Session(mode, false, frames) == Step(true, trace + it.calls, last))
  {
    SessionSnoc(mode, false, frames, i);
    var it := Iteration(mode, last, frames[i]);
    if it.quit {
      IterationGates(mode, last, frames[i]);
      SessionStopsAtQuit(mode, false, frames, i + 1);
    }
  }
}
