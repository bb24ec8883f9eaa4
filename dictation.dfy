/**
 * The dictation session of src/hooks/useVoiceRecognition.ts, without React and
 * the browser: a state machine over the hook's refs and state, with one
 * function per handler. The browser's collaborators become inputs: whether the speech
 * and wake-lock APIs exist, whether a lock request is granted, whether a
 * restart's `start()` throws, and whether the page is visible.
 */
module Dictation {

  import opened Wrappers
  import opened FrenchNumberParser

  /** Which handler scheduled a pending restart timer. */
  datatype RestartOrigin = AfterError | AfterEnd

  /** A call the hook made on a speech recognition object, identified by creation order. */
  datatype EngineCall = Start(recognition: nat) | Stop(recognition: nat)

  /** One call of the `onResult` callback: the transcript and the number found in it. */
  datatype Delivery = Delivery(transcript: string, number: Option<int>)

  /**
   * The session's observable state. `recognition` and `wakeLock` name the
   * object the hook's refs point to; `heldLocks` are the screen locks granted
   * and not yet released, whoever holds the reference; `pendingRestarts` are the
   * 100 ms timers in the order they will fire.
   */
  datatype Session = Session(
    shouldListen: bool,
    isListening: bool,
    recognizedText: string,
    recognition: Option<nat>,
    recognitionsCreated: nat,
    wakeLock: Option<nat>,
    heldLocks: set<nat>,
    locksGranted: nat,
    pendingRestarts: seq<RestartOrigin>,
    engineCalls: seq<EngineCall>,
    delivered: seq<Delivery>)

  /** The state the hook mounts with. */
  const Initial := Session(false, false, "", None, 0, None, {}, 0, [], [], [])

  /** The two errors after which the session keeps listening. */
  predicate IsRecoverable(error: string) {
    error == "no-speech" || error == "aborted"
  }

  /** The invariant every handler keeps. */
  ghost predicate Inv(s: Session) {
    && s.isListening == s.shouldListen
    && (s.shouldListen ==> s.recognition.Some?)
    && (s.recognition.Some? ==> s.recognition.value < s.recognitionsCreated)
    && (s.wakeLock.Some? ==> s.wakeLock.value < s.locksGranted)
    && (forall l :: l in s.heldLocks ==> l < s.locksGranted)
    && (forall k :: 0 <= k < |s.engineCalls| ==> s.engineCalls[k].recognition < s.recognitionsCreated)
  }

  // ---------------------------------------------------------------------------
  // The handlers, as functions of the state
  // ---------------------------------------------------------------------------

  /** `requestWakeLock`, with the awaited request's outcome as `granted`. */
  function RequestWakeLock(s: Session, wakeLockApi: bool, granted: bool): Session {
    if wakeLockApi && granted then
      s.(wakeLock := Some(s.locksGranted), heldLocks := s.heldLocks + {s.locksGranted},
         locksGranted := s.locksGranted + 1)
    else s
  }

  /** `releaseWakeLock`: release the referenced lock, if any, and drop the reference. */
  function ReleaseWakeLock(s: Session): Session {
    match s.wakeLock
    case Some(l) => s.(heldLocks := s.heldLocks - {l}, wakeLock := None)
    case None => s
  }

  /** `startListening`: nothing without a speech API; otherwise a fresh, started recognition. */
  function StartListening(s: Session, speechApi: bool, wakeLockApi: bool, lockGranted: bool): Session {
    if !speechApi then s
    else
      var r := s.recognitionsCreated;
      var t := s.(shouldListen := true, isListening := true, recognition := Some(r),
                  recognitionsCreated := r + 1, engineCalls := s.engineCalls + [Start(r)]);
      RequestWakeLock(t, wakeLockApi, lockGranted)
  }

  /** `onresult`: show the transcript and hand it to `onResult` with the number found in it. */
  function OnResult(s: Session, transcript: string): Session {
    s.(recognizedText := transcript,
       delivered := s.delivered + [Delivery(transcript, ExtractNumberFromText(transcript))])
  }

  /** `onerror`: rearm after a recoverable error while listening, stop after any other. */
  function OnError(s: Session, error: string): Session {
    if IsRecoverable(error) then
      if s.shouldListen then s.(pendingRestarts := s.pendingRestarts + [AfterError]) else s
    else ReleaseWakeLock(s.(shouldListen := false, isListening := false))
  }

  /** `onend`: rearm while listening, otherwise mark the session as not listening. */
  function OnEnd(s: Session): Session {
    if s.shouldListen then s.(pendingRestarts := s.pendingRestarts + [AfterEnd])
    else s.(isListening := false)
  }

  /**
   * The oldest pending timer fires: it restarts the current recognition if the
   * session should still listen. A throwing `start()` stops the session on the
   * `onend` path and is ignored on the `onerror` path.
   */
  function FireRestart(s: Session, startThrows: bool): Session
    requires s.pendingRestarts != []
  {
    var origin := s.pendingRestarts[0];
    var t := s.(pendingRestarts := s.pendingRestarts[1..]);
    if t.shouldListen && t.recognition.Some? then
      if !startThrows then t.(engineCalls := t.engineCalls + [Start(t.recognition.value)])
      else if origin == AfterEnd then t.(shouldListen := false, isListening := false)
      else t
    else t
  }

  /** `stopListening`: stop and drop the recognition, then release the wake lock. */
  function StopListening(s: Session): Session {
    var t := match s.recognition
      case Some(r) => s.(shouldListen := false, engineCalls := s.engineCalls + [Stop(r)], recognition := None)
      case None => s.(shouldListen := false);
    ReleaseWakeLock(t.(isListening := false))
  }

  /** The visibility handler: re-request the lock when the page shows again while listening. */
  function OnVisibilityChange(s: Session, visible: bool, wakeLockApi: bool, lockGranted: bool): Session {
    if visible && s.isListening then RequestWakeLock(s, wakeLockApi, lockGranted) else s
  }

  /**
   * Not a handler of the hook: a hidden page loses its screen locks, while the
   * hook keeps its reference to the released lock.
   */
  function PageHidden(s: Session): Session {
    s.(heldLocks := {})
  }

  /** The unmount cleanup: stop the recognition and release the lock; the refs stay. */
  function Unmount(s: Session): Session {
    var t := match s.recognition
      case Some(r) => s.(engineCalls := s.engineCalls + [Stop(r)])
      case None => s;
    ReleaseWakeLock(t)
  }

  /** `clearRecognizedText`. */
  function ClearRecognizedText(s: Session): Session {
    s.(recognizedText := "")
  }
}
