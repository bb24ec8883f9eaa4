/**
 * The hook as an object whose fields are its refs and state, with one method per
 * event; each method is specified by the corresponding function of Dictation.
 */
module VoiceRecognition {

  import opened Wrappers
  import opened FrenchNumberParser
  import opened Dictation

  class DictationSession {
    /** Whether the browser has `SpeechRecognition` and `navigator.wakeLock`. */
    const speechApi: bool
    const wakeLockApi: bool

    var shouldListen: bool
    var isListening: bool
    var recognizedText: string
    var recognition: Option<nat>
    var recognitionsCreated: nat
    var wakeLock: Option<nat>
    var heldLocks: set<nat>
    var locksGranted: nat
    var pendingRestarts: seq<RestartOrigin>
    var engineCalls: seq<EngineCall>
    var delivered: seq<Delivery>

    function State(): Session
      reads this
    {
      Session(shouldListen, isListening, recognizedText, recognition, recognitionsCreated,
              wakeLock, heldLocks, locksGranted, pendingRestarts, engineCalls, delivered)
    }

    ghost predicate Valid()
      reads this
    {
      Inv(State())
    }

    constructor (speechApi: bool, wakeLockApi: bool)
      ensures Valid() && State() == Initial
      ensures this.speechApi == speechApi && this.wakeLockApi == wakeLockApi
    {
      this.speechApi, this.wakeLockApi := speechApi, wakeLockApi;
      shouldListen, isListening, recognizedText := false, false, "";
      recognition, recognitionsCreated := None, 0;
      wakeLock, heldLocks, locksGranted := None, {}, 0;
      pendingRestarts, engineCalls, delivered := [], [], [];
    }

    method RequestWakeLock(granted: bool)
      requires Valid()
      modifies this
      ensures Valid() && State() == Dictation.RequestWakeLock(old(State()), wakeLockApi, granted)
    {
      if wakeLockApi && granted {
        wakeLock := Some(locksGranted);
        heldLocks := heldLocks + {locksGranted};
        locksGranted := locksGranted + 1;
      }
    }

    method ReleaseWakeLock()
      requires Valid()
      modifies this
      ensures Valid() && State() == Dictation.ReleaseWakeLock(old(State()))
    {
      if wakeLock.Some? {
        heldLocks := heldLocks - {wakeLock.value};
        wakeLock := None;
      }
    }

    method StartListening(lockGranted: bool)
      requires Valid()
      modifies this
      ensures Valid() && State() == Dictation.StartListening(old(State()), speechApi, wakeLockApi, lockGranted)
    {
      if !speechApi {
        return;
      }
      shouldListen := true;
      isListening := true;
      var r := recognitionsCreated;
      recognitionsCreated := recognitionsCreated + 1;
      recognition := Some(r);
      engineCalls := engineCalls + [Start(r)];
      // the request is not awaited: the lock, if granted, arrives after start()
      RequestWakeLock(lockGranted);
    }

    method OnResult(transcript: string)
      requires Valid()
      modifies this
      ensures Valid() && State() == Dictation.OnResult(old(State()), transcript)
    {
      ghost var before := State();
      var number := ExtractNumberFromText(transcript);
      recognizedText, delivered := transcript, delivered + [Delivery(transcript, number)];
      assert State() == before.(recognizedText := transcript, delivered := before.delivered + [Delivery(transcript, number)]);
    }

    method OnError(error: string)
      requires Valid()
      modifies this
      ensures Valid() && State() == Dictation.OnError(old(State()), error)
    {
      if IsRecoverable(error) {
        if shouldListen {
          pendingRestarts := pendingRestarts + [AfterError];
        }
        return;
      }
      shouldListen := false;
      isListening := false;
      ReleaseWakeLock();
    }

    method OnEnd()
      requires Valid()
      modifies this
      ensures Valid() && State() == Dictation.OnEnd(old(State()))
    {
      if shouldListen {
        pendingRestarts := pendingRestarts + [AfterEnd];
      } else {
        isListening := false;
      }
    }

    method FireRestart(startThrows: bool)
      requires Valid() && pendingRestarts != []
      modifies this
      ensures Valid() && State() == Dictation.FireRestart(old(State()), startThrows)
    {
      var origin := pendingRestarts[0];
      pendingRestarts := pendingRestarts[1..];
      if shouldListen && recognition.Some? {
        if !startThrows {
          engineCalls := engineCalls + [Start(recognition.value)];
        } else if origin == AfterEnd {
          shouldListen := false;
          isListening := false;
        }
      }
    }

    method StopListening()
      requires Valid()
      modifies this
      ensures Valid() && State() == Dictation.StopListening(old(State()))
    {
      shouldListen := false;
      if recognition.Some? {
        engineCalls := engineCalls + [Stop(recognition.value)];
        recognition := None;
      }
      isListening := false;
      ReleaseWakeLock();
    }

    method OnVisibilityChange(visible: bool, lockGranted: bool)
      requires Valid()
      modifies this
      ensures Valid() && State() == Dictation.OnVisibilityChange(old(State()), visible, wakeLockApi, lockGranted)
    {
      if visible && isListening {
        RequestWakeLock(lockGranted);
      }
    }

    method PageHidden()
      requires Valid()
      modifies this
      ensures Valid() && State() == Dictation.PageHidden(old(State()))
    {
      heldLocks := {};
    }

    method Unmount()
      requires Valid()
      modifies this
      ensures Valid() && State() == Dictation.Unmount(old(State()))
    {
      if recognition.Some? {
        engineCalls := engineCalls + [Stop(recognition.value)];
      }
      ReleaseWakeLock();
    }

    method ClearRecognizedText()
      requires Valid()
      modifies this
      ensures Valid() && State() == Dictation.ClearRecognizedText(old(State()))
    {
      recognizedText := "";
    }
  }
}
