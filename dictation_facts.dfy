/**
 * What the dictation session promises, proved about the handler functions of
 * Dictation: the invariant every sequence of events keeps, the rules for
 * errors, restarts and stopping, and the behaviours of a few event orders that
 * the handlers allow.
 */
module DictationFacts {

  import opened Wrappers
  import opened Strings
  import opened FrenchNumberParser
  import opened ExtractFacts
  import opened Dictation

  // ---------------------------------------------------------------------------
  // Every reachable state keeps the invariant
  // ---------------------------------------------------------------------------

  /** Everything that can happen to a mounted session, with the browser's outcomes. */
  datatype Event =
    | UserStart(speechApi: bool, lockGranted: bool)
    | UserStop
    | Result(transcript: string)
    | Error(error: string)
    | End
    | TimerFires(startThrows: bool)
    | VisibilityChange(visible: bool, lockGranted: bool)
    | Hidden
    | ClearText
    | Teardown

  /** The state after one event; a timer fires only when one is pending. */
  function Apply(s: Session, e: Event, wakeLockApi: bool): Session {
    match e
    case UserStart(speechApi, granted) => StartListening(s, speechApi, wakeLockApi, granted)
    case UserStop => StopListening(s)
    case Result(t) => OnResult(s, t)
    case Error(err) => OnError(s, err)
    case End => OnEnd(s)
    case TimerFires(th) => if s.pendingRestarts == [] then s else FireRestart(s, th)
    case VisibilityChange(v, granted) => OnVisibilityChange(s, v, wakeLockApi, granted)
    case Hidden => PageHidden(s)
    case ClearText => ClearRecognizedText(s)
    case Teardown => Unmount(s)
  }

  /** The state after a sequence of events, applied in order. */
  function Replay(s: Session, events: seq<Event>, wakeLockApi: bool): Session {
    if events == [] then s
    else Apply(Replay(s, events[..|events| - 1], wakeLockApi), events[|events| - 1], wakeLockApi)
  }

  lemma InitialIsValid()
    ensures Inv(Initial)
    ensures !Initial.isListening && Initial.wakeLock.None? && Initial.heldLocks == {}
  {
  }

  /** Every handler keeps the invariant. */
  lemma EveryEventKeepsInv(s: Session, e: Event, wakeLockApi: bool)
    requires Inv(s)
    ensures Inv(Apply(s, e, wakeLockApi))
  {
    match e
    case UserStart(speechApi, granted) =>
      StartKeepsInv(s, speechApi, wakeLockApi, granted);
    case Result(t) =>
      assert OnResult(s, t).engineCalls == s.engineCalls;
    case _ =>
  }

  lemma StartKeepsInv(s: Session, speechApi: bool, wakeLockApi: bool, granted: bool)
    requires Inv(s)
    ensures Inv(StartListening(s, speechApi, wakeLockApi, granted))
  {
  }

  /**
   * In every state reachable from mounting, `isListening` agrees with
   * `shouldListen`, and a session that should listen has a recognition.
   */
  lemma {:induction false} ReachableStatesKeepInv(events: seq<Event>, wakeLockApi: bool)
    ensures Inv(Replay(Initial, events, wakeLockApi))
  {
    if events != [] {
      ReachableStatesKeepInv(events[..|events| - 1], wakeLockApi);
      EveryEventKeepsInv(Replay(Initial, events[..|events| - 1], wakeLockApi), events[|events| - 1], wakeLockApi);
    }
  }

  lemma ListeningMeansShouldListen(events: seq<Event>, wakeLockApi: bool)
    ensures var s := Replay(Initial, events, wakeLockApi);
            s.isListening == s.shouldListen && (s.shouldListen ==> s.recognition.Some?)
  {
    ReachableStatesKeepInv(events, wakeLockApi);
  }

  // ---------------------------------------------------------------------------
  // Starting
  // ---------------------------------------------------------------------------

  /** Without a speech API, starting changes nothing. */
  lemma StartWithoutSpeechApi(s: Session, wakeLockApi: bool, granted: bool)
    ensures StartListening(s, false, wakeLockApi, granted) == s
  {
  }

  /**
   * With a speech API, starting listens, starts a recognition the session has
   * never called before, and takes a new wake lock when one is granted.
   */
  lemma StartStartsFreshRecognition(s: Session, wakeLockApi: bool, granted: bool)
    requires Inv(s)
    ensures var t := StartListening(s, true, wakeLockApi, granted);
            && t.shouldListen && t.isListening && t.recognition.Some?
            && t.engineCalls == s.engineCalls + [Start(t.recognition.value)]
            && (forall k :: 0 <= k < |s.engineCalls| ==> s.engineCalls[k].recognition != t.recognition.value)
            && (if wakeLockApi && granted
                then t.wakeLock.Some? && t.wakeLock.value !in s.heldLocks && t.heldLocks == s.heldLocks + {t.wakeLock.value}
                else t.wakeLock == s.wakeLock && t.heldLocks == s.heldLocks)
  {
  }

  // ---------------------------------------------------------------------------
  // Results and errors
  // ---------------------------------------------------------------------------

  /**
   * A result shows its transcript and calls `onResult` once with the number
   * extracted from it; nothing else changes.
   */
  lemma ResultIsDelivered(s: Session, transcript: string)
    ensures var t := OnResult(s, transcript);
            && t.recognizedText == transcript
            && t.delivered == s.delivered + [Delivery(transcript, ExtractNumberFromText(transcript))]
            && t.(recognizedText := s.recognizedText, delivered := s.delivered) == s
  {
  }

  /** A spoken number in digits reaches `onResult` as that number. */
  lemma DigitsAreDelivered(s: Session, n: nat)
    ensures OnResult(s, NatToString(n)).delivered == s.delivered + [Delivery(NatToString(n), Some(n))]
  {
    ExtractNatToString(n);
  }

  /**
   * A recoverable error leaves the flags and the wake lock alone, and schedules a
   * restart exactly when the session should listen.
   */
  lemma RecoverableErrorKeepsListening(s: Session, error: string)
    requires IsRecoverable(error)
    ensures var t := OnError(s, error);
            && t.(pendingRestarts := s.pendingRestarts) == s
            && t.pendingRestarts == (if s.shouldListen then s.pendingRestarts + [AfterError] else s.pendingRestarts)
  {
  }

  /** Any other error stops the session and releases the wake lock it refers to. */
  lemma OtherErrorStops(s: Session, error: string)
    requires !IsRecoverable(error)
    ensures var t := OnError(s, error);
            && !t.shouldListen && !t.isListening && t.wakeLock.None?
            && (s.wakeLock.Some? ==> s.wakeLock.value !in t.heldLocks)
            && t.pendingRestarts == s.pendingRestarts && t.engineCalls == s.engineCalls
  {
  }

  /** `onend` rearms exactly when the session should listen. */
  lemma EndRearmsOnlyWhileListening(s: Session)
    requires Inv(s)
    ensures var t := OnEnd(s);
            && t.pendingRestarts == (if s.shouldListen then s.pendingRestarts + [AfterEnd] else s.pendingRestarts)
            && t.(pendingRestarts := s.pendingRestarts) == s
  {
  }

  // ---------------------------------------------------------------------------
  // Restarts
  // ---------------------------------------------------------------------------

  /**
   * A firing timer calls `start()` exactly when the session should still listen,
   * has a recognition, and `start()` does not throw; the call goes to the
   * current recognition.
   */
  lemma RestartOnlyWhileListening(s: Session, startThrows: bool)
    requires s.pendingRestarts != []
    ensures var t := FireRestart(s, startThrows);
            && t.pendingRestarts == s.pendingRestarts[1..]
            && (t.engineCalls != s.engineCalls <==> s.shouldListen && s.recognition.Some? && !startThrows)
            && (t.engineCalls != s.engineCalls ==> t.engineCalls == s.engineCalls + [Start(s.recognition.value)])
  {
  }

  /**
   * A `start()` that throws stops the session when the timer came from `onend`
   * and is ignored when it came from `onerror`.
   */
  lemma ThrowingRestartByOrigin(s: Session)
    requires s.pendingRestarts != [] && s.shouldListen && s.recognition.Some?
    ensures var t := FireRestart(s, true);
            && t.engineCalls == s.engineCalls && t.wakeLock == s.wakeLock
            && (s.pendingRestarts[0] == AfterEnd ==> !t.shouldListen && !t.isListening)
            && (s.pendingRestarts[0] == AfterError ==> t == s.(pendingRestarts := s.pendingRestarts[1..]))
  {
  }

  /**
   * A `start()` that throws on the `onend` path stops the session without
   * `releaseWakeLock()`: the lock stays referenced and held.
   */
  lemma FailedEndRestartKeepsLock(s: Session)
    requires s.pendingRestarts != [] && s.pendingRestarts[0] == AfterEnd
    requires s.shouldListen && s.recognition.Some?
    ensures var t := FireRestart(s, true);
            && !t.shouldListen && !t.isListening && t.pendingRestarts == s.pendingRestarts[1..]
            && t.wakeLock == s.wakeLock && t.heldLocks == s.heldLocks
  {
  }

  /** Fires the pending timers, one per outcome in `throws`, as long as any are pending. */
  function FireAll(s: Session, throws: seq<bool>): Session
    decreases |throws|
  {
    if throws == [] || s.pendingRestarts == [] then s
    else FireAll(FireRestart(s, throws[0]), throws[1..])
  }

  /** Once the session should not listen, no pending timer calls the engine or changes the session. */
  lemma {:induction false} TimersAfterStopAreInert(s: Session, throws: seq<bool>)
    requires !s.shouldListen
    ensures var t := FireAll(s, throws);
            && t.engineCalls == s.engineCalls && !t.shouldListen
            && t == s.(pendingRestarts := t.pendingRestarts)
            && |t.pendingRestarts| <= |s.pendingRestarts|
    decreases |throws|
  {
    if throws != [] && s.pendingRestarts != [] {
      TimersAfterStopAreInert(FireRestart(s, throws[0]), throws[1..]);
    }
  }

  /** No restart runs after `stopListening`, whatever the timers still pending. */
  lemma NoRestartAfterStop(s: Session, throws: seq<bool>)
    ensures var t := FireAll(StopListening(s), throws);
            && t.engineCalls == StopListening(s).engineCalls
            && !t.shouldListen && !t.isListening && t.recognition.None?
  {
    TimersAfterStopAreInert(StopListening(s), throws);
  }

  // ---------------------------------------------------------------------------
  // Stopping and the wake lock
  // ---------------------------------------------------------------------------

  /**
   * `stopListening` stops and drops the recognition and releases the wake lock
   * the session refers to; a second stop changes nothing.
   */
  lemma StopReleasesEverything(s: Session)
    ensures var t := StopListening(s);
            && !t.shouldListen && !t.isListening && t.recognition.None? && t.wakeLock.None?
            && (s.wakeLock.Some? ==> t.heldLocks == s.heldLocks - {s.wakeLock.value})
            && (s.wakeLock.None? ==> t.heldLocks == s.heldLocks)
            && t.engineCalls == (if s.recognition.Some? then s.engineCalls + [Stop(s.recognition.value)] else s.engineCalls)
            && t.pendingRestarts == s.pendingRestarts && t.delivered == s.delivered
  {
  }

  lemma StopIsIdempotent(s: Session)
    ensures StopListening(StopListening(s)) == StopListening(s)
  {
  }

  /** Releasing without a lock is a no-op, and releasing twice is releasing once. */
  lemma ReleaseIsIdempotent(s: Session)
    ensures s.wakeLock.None? ==> ReleaseWakeLock(s) == s
    ensures ReleaseWakeLock(ReleaseWakeLock(s)) == ReleaseWakeLock(s)
  {
  }

  /** The lock is re-requested only when the page shows while the session listens. */
  lemma VisibilityRequestsLockOnlyWhileListening(s: Session, visible: bool, wakeLockApi: bool, granted: bool)
    ensures var t := OnVisibilityChange(s, visible, wakeLockApi, granted);
            && (t != s <==> visible && s.isListening && wakeLockApi && granted)
            && (t != s ==> t.wakeLock == Some(s.locksGranted) && t.heldLocks == s.heldLocks + {s.locksGranted})
  {
  }

  /** A page that is hidden and shown again while listening holds exactly the new lock. */
  lemma HiddenThenVisibleHoldsOneLock(s: Session, wakeLockApi: bool)
    requires s.isListening && wakeLockApi
    ensures var t := OnVisibilityChange(PageHidden(s), true, wakeLockApi, true);
            && t.wakeLock.Some? && t.heldLocks == {t.wakeLock.value}
  {
  }

  // ---------------------------------------------------------------------------
  // Event orders the handlers allow
  // ---------------------------------------------------------------------------

  /**
   * Nothing guards a second `startListening`: its lock replaces the first in the
   * session's reference, so stopping releases only the second and the first
   * stays held with nothing referring to it.
   */
  lemma DoubleStartLeaksLock(s: Session)
    requires Inv(s)
    ensures var t := StopListening(StartListening(StartListening(s, true, true, true), true, true, true));
            && !t.isListening && t.wakeLock.None?
            && s.locksGranted in t.heldLocks
            && s.locksGranted + 1 !in t.heldLocks
  {
  }

  /**
   * A timer left over from an `onend` before a stop fires after the user has
   * started again; its `start()` on the already started recognition throws, and
   * the new session stops listening.
   */
  lemma StaleTimerStopsNewSession(s: Session, granted: bool)
    requires Inv(s) && s.shouldListen
    ensures var t := StartListening(StopListening(OnEnd(s)), true, true, granted);
            && t.isListening && t.pendingRestarts == s.pendingRestarts + [AfterEnd]
            && (s.pendingRestarts == [] ==> !FireRestart(t, true).isListening)
  {
  }

  /**
   * Unmounting stops the recognition but leaves `shouldListen` set, so its
   * `onend` still rearms and the timer starts the same recognition again.
   */
  lemma UnmountDoesNotEndSession(s: Session)
    requires Inv(s) && s.shouldListen && s.pendingRestarts == []
    ensures var t := FireRestart(OnEnd(Unmount(s)), false);
            && t.isListening
            && t.engineCalls == s.engineCalls + [Stop(s.recognition.value), Start(s.recognition.value)]
  {
  }
}
