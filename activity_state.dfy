/**
 * The recording flags of the sample activity and the two buttons that read them.
 *
 * The activity keeps two booleans, `isRecording` and `isPaused`, and rewrites them
 * whenever the recorder reports a new `RecorderState`. The start/stop button and
 * the pause/resume button pick the recorder command to issue from those flags.
 * Widget updates, toasts, logging and the permission dialogs are not modelled; the
 * permission check enters as a boolean.
 */
module ActivityState {
  import opened Wrappers

  /** The states the recorder reports to `onStateChangeListener`. */
  datatype RecorderState = Recording | Pause | SkippingSilence | Stop

  /** The recorder calls the two buttons can make. */
  datatype RecorderCommand = StartRecording | StopRecording | PauseRecording | ResumeRecording

  /** A snapshot of the activity's two flags. */
  datatype Flags = Flags(isRecording: bool, isPaused: bool)

  /** Both flags start out false. */
  const Initial: Flags := Flags(false, false)

  // ---------------------------------------------------------------------------
  // Specification of the state-change listener
  // ---------------------------------------------------------------------------

  /** The flags after the listener handles one reported state. */
  function Apply(f: Flags, s: RecorderState): Flags
  {
    match s
    case Recording => Flags(true, false)
    case SkippingSilence => Flags(true, false)
    case Stop => Flags(false, false)
    case Pause => f.(isPaused := true)
  }

  /** The flags after the listener handles a sequence of reported states in order. */
  function Replay(f: Flags, events: seq<RecorderState>): Flags
  {
    if events == [] then f else Apply(Replay(f, events[..|events| - 1]), events[|events| - 1])
  }

  /** The flags say what the recorder last reported: recording in every state but
      STOP, paused exactly in PAUSE. */
  predicate Mirrors(f: Flags, s: RecorderState)
  {
    f.isRecording == (s != Stop) && f.isPaused == (s == Pause)
  }

  /** RECORDING and SKIPPING_SILENCE both mean recording and not paused; STOP clears
      both flags; PAUSE sets the paused flag and keeps the recording flag. */
  lemma ApplyEffect(f: Flags, s: RecorderState)
    ensures s in {Recording, SkippingSilence} ==> Apply(f, s) == Flags(true, false)
    ensures s == Stop ==> Apply(f, s) == Flags(false, false)
    ensures s == Pause ==> Apply(f, s).isPaused && Apply(f, s).isRecording == f.isRecording
  {
  }

  /** After handling a state the flags mirror it, except for a PAUSE reported while
      the flags said not recording. */
  lemma ApplyMirrors(f: Flags, s: RecorderState)
    ensures Mirrors(Apply(f, s), s) <==> (s != Pause || f.isRecording)
  {
  }

  /** Handling the same state twice in a row is the same as handling it once. */
  lemma ApplyIdempotent(f: Flags, s: RecorderState)
    ensures Apply(Apply(f, s), s) == Apply(f, s)
  {
  }

  /** After a run of reports, the flags depend only on the last report that was not
      PAUSE and on whether a PAUSE followed it. */
  lemma {:induction false} ReplaySettled(f: Flags, events: seq<RecorderState>, i: nat)
    requires i < |events| && events[i] != Pause
    requires forall j :: i < j < |events| ==> events[j] == Pause
    ensures Replay(f, events) == Flags(events[i] != Stop, i < |events| - 1)
  {
    var n := |events|;
    if i < n - 1 {
      var prefix := events[..n - 1];
      forall j | i < j < |prefix| ensures prefix[j] == Pause {
        assert prefix[j] == events[j];
      }
      ReplaySettled(f, prefix, i);
    } else {
      assert events[n - 1] == events[i];
    }
  }

  /** A run of PAUSE reports alone keeps the recording flag and sets the paused flag
      if there was at least one. */
  lemma {:induction false} ReplayOnlyPauses(f: Flags, events: seq<RecorderState>)
    requires forall j :: 0 <= j < |events| ==> events[j] == Pause
    ensures Replay(f, events) == Flags(f.isRecording, f.isPaused || |events| > 0)
  {
    if events != [] {
      var prefix := events[..|events| - 1];
      forall j | 0 <= j < |prefix| ensures prefix[j] == Pause {
        assert prefix[j] == events[j];
      }
      ReplayOnlyPauses(f, prefix);
    }
  }

  /** From the initial flags, the flags mirror the last reported state whenever that
      state is not PAUSE. */
  lemma ReplayMirrorsLast(events: seq<RecorderState>)
    requires events != [] && events[|events| - 1] != Pause
    ensures Mirrors(Replay(Initial, events), events[|events| - 1])
  {
    ReplaySettled(Initial, events, |events| - 1);
  }

  // ---------------------------------------------------------------------------
  // Specification of the two buttons
  // ---------------------------------------------------------------------------

  /** The start/stop button: stop when recording, whatever the permission; start when
      not recording and the permission is granted; otherwise no recorder call (the
      activity asks for the permission instead). */
  function StartStopCommand(isRecording: bool, permissionGranted: bool): (c: Option<RecorderCommand>)
    ensures c == Some(StopRecording) <==> isRecording
    ensures c == Some(StartRecording) <==> !isRecording && permissionGranted
    ensures c == None <==> !isRecording && !permissionGranted
  {
    if !isRecording then
      if permissionGranted then Some(StartRecording) else None
    else
      Some(StopRecording)
  }

  /** The pause/resume button: pause unless paused, resume when paused. */
  function PauseResumeCommand(isPaused: bool): (c: RecorderCommand)
    ensures c == PauseRecording <==> !isPaused
    ensures c == ResumeRecording <==> isPaused
  {
    if !isPaused then PauseRecording else ResumeRecording
  }

  /** When the flags mirror the recorder's state, the start/stop button only ever asks
      a stopped recorder to start and a running one to stop, and the pause/resume
      button asks to resume exactly when the recorder is paused. */
  lemma ButtonsFollowState(f: Flags, s: RecorderState, permissionGranted: bool)
    requires Mirrors(f, s)
    ensures StartStopCommand(f.isRecording, permissionGranted) == Some(StartRecording) ==> s == Stop
    ensures StartStopCommand(f.isRecording, permissionGranted) == Some(StopRecording) <==> s != Stop
    ensures PauseResumeCommand(f.isPaused) == ResumeRecording <==> s == Pause
  {
  }

  /** After RECORDING or SKIPPING_SILENCE the buttons offer stop and pause; after STOP
      the start/stop button starts a new recording once permission is granted; after
      PAUSE the pause/resume button resumes. */
  lemma ButtonsAfterReport(f: Flags, s: RecorderState, permissionGranted: bool)
    ensures s in {Recording, SkippingSilence} ==>
      StartStopCommand(Apply(f, s).isRecording, permissionGranted) == Some(StopRecording)
      && PauseResumeCommand(Apply(f, s).isPaused) == PauseRecording
    ensures s == Stop ==>
      StartStopCommand(Apply(f, s).isRecording, permissionGranted)
        == (if permissionGranted then Some(StartRecording) else None)
    ensures s == Pause ==> PauseResumeCommand(Apply(f, s).isPaused) == ResumeRecording
  {
  }

  // ---------------------------------------------------------------------------
  // The activity
  // ---------------------------------------------------------------------------

  class MainActivity {
    var isRecording: bool
    var isPaused: bool

    function Snapshot(): Flags
      reads this
    {
      Flags(isRecording, isPaused)
    }

    constructor ()
      ensures Snapshot() == Initial
    {
      isRecording := false;
      isPaused := false;
    }

    /** Handler for RECORDING. */
    method StartRecording()
      modifies this
      ensures isRecording && !isPaused
      ensures Snapshot() == Apply(old(Snapshot()), Recording)
    {
      isRecording := true;
      isPaused := false;
    }

    /** Handler for SKIPPING_SILENCE: the same flags as RECORDING. */
    method SkipRecording()
      modifies this
      ensures isRecording && !isPaused
      ensures Snapshot() == Apply(old(Snapshot()), SkippingSilence)
    {
      isRecording := true;
      isPaused := false;
    }

    /** Handler for STOP. */
    method StopRecording()
      modifies this
      ensures !isRecording && !isPaused
      ensures Snapshot() == Apply(old(Snapshot()), Stop)
    {
      isRecording := false;
      isPaused := false;
    }

    /** Handler for PAUSE: only the paused flag changes. */
    method PauseRecording()
      modifies this
      ensures isPaused && isRecording == old(isRecording)
      ensures Snapshot() == Apply(old(Snapshot()), Pause)
    {
      isPaused := true;
    }

    /** `onStateChangeListener`: dispatches each reported state to its handler. */
    method OnStateChange(s: RecorderState)
      modifies this
      ensures Snapshot() == Apply(old(Snapshot()), s)
    {
      match s {
        case Recording => StartRecording();
        case Stop => StopRecording();
        case Pause => PauseRecording();
        case SkippingSilence => SkipRecording();
      }
    }

    /** The start/stop button's click listener; it changes no flag. */
    method OnStartStopClick(permissionGranted: bool) returns (cmd: Option<RecorderCommand>)
      ensures cmd == StartStopCommand(isRecording, permissionGranted)
    {
      if !isRecording {
        if permissionGranted {
          cmd := Some(RecorderCommand.StartRecording);
        } else {
          cmd := None;
        }
      } else {
        cmd := Some(RecorderCommand.StopRecording);
      }
    }

    /** The pause/resume button's click listener; it changes no flag. */
    method OnPauseResumeClick() returns (cmd: RecorderCommand)
      ensures cmd == PauseResumeCommand(isPaused)
    {
      if !isPaused {
        cmd := RecorderCommand.PauseRecording;
      } else {
        cmd := ResumeRecording;
      }
    }
  }
}
