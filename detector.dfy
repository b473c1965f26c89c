/**
 The detector object: the monitoring flag, the detection log and the alert
 trackers, changed in place by the alert step and by the session routes.
 Every state-changing method is proved to leave the state that the value
 model in AlertRules prescribes.
 */
module Detector {
  import opened AlertRules

  class MalpracticeDetector {
    /** Detection parameters, fixed at construction. */
    const params: Config
    var isMonitoring: bool
    var detectionLog: seq<Record>
    var alertTrackers: map<string, Tracker>

    /** The part of the object the alert step changes, as a value. */
    function State(): EngineState
      reads this
    {
      EngineState(alertTrackers, detectionLog)
    }

    /** What holds between calls: the log is within its bound and every
        tracker left behind belongs to a key that was logged. */
    ghost predicate Valid()
      reads this
    {
      |detectionLog| <= LOG_CAPACITY &&
      forall k :: k in alertTrackers ==> alertTrackers[k].logged
    }

    constructor (params: Config)
      ensures this.params == params
      ensures !isMonitoring && detectionLog == [] && alertTrackers == map[]
      ensures Valid()
    {
      this.params := params;
      isMonitoring := false;
      detectionLog := [];
      alertTrackers := map[];
    }

    /** Creates the tracker of `key` if it has none, then tells whether more
        than `threshold` ticks have passed since its start time. */
    method CheckDuration(key: string, threshold: int, now: int) returns (due: bool)
      modifies this`alertTrackers
      ensures alertTrackers ==
        if key in old(alertTrackers) then old(alertTrackers)
        else old(alertTrackers)[key := Tracker(now, false)]
      ensures due <==> now - alertTrackers[key].startTime > threshold
      ensures key !in old(alertTrackers) && threshold >= 0 ==> !due
    {
      if key !in alertTrackers {
        alertTrackers := alertTrackers[key := Tracker(now, false)];
      }
      due := now - alertTrackers[key].startTime > threshold;
    }

    /** The alert step for one frame taken at time `now`. */
    method ProcessAlerts(now: int, detections: seq<Detection>)
      modifies this`alertTrackers, this`detectionLog
      ensures State() == Process(params, old(State()), now, detections)
      ensures Valid()
    {
      ghost var t0 := alertTrackers;
      var activeAlerts, description := CollectAlerts(now, detections);
      ghost var t1 := alertTrackers;
      FreshTrackersKeepNewKeys(t0, t1, now, activeAlerts);
      LogNewAlerts(now, activeAlerts, description);
      ghost var t2 := alertTrackers;
      RetireTrackers(activeAlerts);
      TrackerPhases(t0, t1, t2, alertTrackers, now, activeAlerts);
      detectionLog := Trim(detectionLog);
    }

    /** The detection loop and the multiple-people rule: the keys active in
        this call and the description left for its records. Duration checks
        may add trackers that start now and are not logged. */
    method CollectAlerts(now: int, detections: seq<Detection>) returns (activeAlerts: set<string>, description: string)
      modifies this`alertTrackers
      ensures activeAlerts == ActiveKeys(params, old(alertTrackers), now, detections)
      ensures description == CallDescription(params, old(alertTrackers), now, detections)
      ensures forall k :: k in old(alertTrackers) ==> k in alertTrackers && alertTrackers[k] == old(alertTrackers)[k]
      ensures forall k :: k in alertTrackers && k !in old(alertTrackers) ==> alertTrackers[k] == Tracker(now, false)
      ensures alertTrackers.Keys == old(alertTrackers).Keys + TimedKeys(detections)
    {
      ghost var t0 := alertTrackers;
      activeAlerts := {};
      description := "";
      var i := 0;
      while i < |detections|
        invariant 0 <= i <= |detections|
        invariant activeAlerts == DetectionKeys(params, t0, now, detections[..i])
        invariant description == LastDescription(params, t0, now, detections[..i])
        invariant forall k :: k in t0 ==> k in alertTrackers && alertTrackers[k] == t0[k]
        invariant forall k :: k in alertTrackers && k !in t0 ==> alertTrackers[k] == Tracker(now, false)
        invariant alertTrackers.Keys == t0.Keys + TimedKeys(detections[..i])
      {
        var active;
        active, description := JudgeDetection(now, detections[i], t0);
        if active {
          activeAlerts := activeAlerts + {detections[i].cls};
        }
        assert detections[..i + 1][..i] == detections[..i];
        TimedKeysStep(detections, i);
        i := i + 1;
      }
      assert detections[..i] == detections;

      if params.multiplePeopleEnabled && PersonCount(detections) > params.maxPeople {
        description := COLLUSION_TEXT;
        activeAlerts := activeAlerts + {MULTIPLE_PEOPLE};
      }
    }

    /** One pass of the detection loop: whether `det` makes its class an
        active key, and the description it leaves. The verdict is that of the
        trackers `t0` the call began with, since the loop only adds trackers
        that start now. */
    method JudgeDetection(now: int, det: Detection, ghost t0: map<string, Tracker>) returns (active: bool, description: string)
      modifies this`alertTrackers
      requires forall k :: k in t0 ==> k in alertTrackers && alertTrackers[k] == t0[k]
      requires forall k :: k in alertTrackers && k !in t0 ==> alertTrackers[k] == Tracker(now, false)
      ensures active == Judge(params, t0, now, det).key.Some?
      ensures description == Judge(params, t0, now, det).description
      ensures forall k :: k in t0 ==> k in alertTrackers && alertTrackers[k] == t0[k]
      ensures forall k :: k in alertTrackers && k !in t0 ==> alertTrackers[k] == Tracker(now, false)
      ensures alertTrackers.Keys == old(alertTrackers).Keys + (if IsTimed(det) then {det.cls} else {})
    {
      var alertKey := det.cls;
      active := false;
      description := "";
      if det.Object? && det.cls != PERSON {
        description := ObjectText(det.cls);
        active := true;
      } else if det.Behavior? {
        if det.cls == SUSPICIOUS_GAZE {
          var due := CheckDuration(alertKey, params.gazeThreshold, now);
          if due {
            description := GAZE_TEXT;
            active := true;
          }
        } else if det.cls == HAND_NEAR_HEAD {
          var due := CheckDuration(alertKey, params.handNearHeadThreshold, now);
          if due {
            description := POSE_TEXT;
            active := true;
          }
        } else if Contains(det.cls, GESTURE) {
          description := GestureText(det.cls);
          active := true;
        }
      }
    }

    /** Appends one record for each active key whose tracker is not logged,
        and marks that key logged as of `now`. */
    method LogNewAlerts(now: int, activeAlerts: set<string>, description: string)
      modifies this`alertTrackers, this`detectionLog
      ensures detectionLog ==
        old(detectionLog) + Repeat(Record(now, description), |NewKeys(old(alertTrackers), activeAlerts)|)
      ensures forall k :: k in activeAlerts ==>
        k in alertTrackers &&
        alertTrackers[k] == (if WasLogged(old(alertTrackers), k) then old(alertTrackers)[k] else Tracker(now, true))
      ensures forall k :: k !in activeAlerts ==>
        (k in alertTrackers <==> k in old(alertTrackers)) &&
        (k in alertTrackers ==> alertTrackers[k] == old(alertTrackers)[k])
    {
      ghost var t1 := alertTrackers;
      var pending := activeAlerts;
      while pending != {}
        invariant pending <= activeAlerts
        invariant detectionLog ==
          old(detectionLog) + Repeat(Record(now, description), |NewKeys(t1, activeAlerts - pending)|)
        invariant forall k :: k in activeAlerts - pending ==>
          k in alertTrackers && alertTrackers[k] == (if WasLogged(t1, k) then t1[k] else Tracker(now, true))
        invariant forall k :: k !in activeAlerts - pending ==>
          (k in alertTrackers <==> k in t1) && (k in t1 ==> alertTrackers[k] == t1[k])
        decreases pending
      {
        var key :| key in pending;
        ghost var done := activeAlerts - pending;
        assert activeAlerts - (pending - {key}) == done + {key};
        NewKeysStep(t1, done, key);
        if !(key in alertTrackers && alertTrackers[key].logged) {
          detectionLog := detectionLog + [Record(now, description)];
          alertTrackers := alertTrackers[key := Tracker(now, true)];
        }
        pending := pending - {key};
      }
      assert activeAlerts - pending == activeAlerts;
    }

    /** Deletes the tracker of every key that is not active. */
    method RetireTrackers(activeAlerts: set<string>)
      modifies this`alertTrackers
      ensures forall k :: k in alertTrackers <==> k in old(alertTrackers) && k in activeAlerts
      ensures forall k :: k in alertTrackers ==> alertTrackers[k] == old(alertTrackers)[k]
    {
      var keys := alertTrackers.Keys;
      while keys != {}
        invariant keys <= old(alertTrackers).Keys
        invariant forall k :: k in alertTrackers <==> k in old(alertTrackers) && (k in activeAlerts || k in keys)
        invariant forall k :: k in alertTrackers ==> alertTrackers[k] == old(alertTrackers)[k]
        decreases keys
      {
        var key :| key in keys;
        if key !in activeAlerts {
          alertTrackers := alertTrackers - {key};
        }
        keys := keys - {key};
      }
    }

    /** Processes frames while monitoring, until the camera yields no more.
        Nothing in this model clears the flag during the loop, so a stopped
        detector processes no frame and a running one processes them all. */
    method GenerateFrames(frames: seq<Frame>)
      modifies this`alertTrackers, this`detectionLog
      ensures old(isMonitoring) ==> State() == Run(params, old(State()), frames)
      ensures !old(isMonitoring) ==> State() == old(State())
      ensures old(isMonitoring) && |frames| > 0 ==> Valid()
      ensures old(Valid()) ==> Valid()
    {
      if !isMonitoring {
        return;
      }
      ghost var target := Run(params, State(), frames);
      var i := 0;
      while isMonitoring && i < |frames|
        invariant 0 <= i <= |frames|
        invariant isMonitoring
        invariant i > 0 ==> Valid()
        invariant Run(params, State(), frames[i..]) == target
      {
        ghost var before := State();
        ProcessAlerts(frames[i].now, frames[i].detections);
        RunStep(params, before, frames, i);
        i := i + 1;
      }
    }

    /** Starts a session; a fresh session begins with an empty log and no trackers. */
    method StartMonitoring()
      modifies this`isMonitoring, this`detectionLog, this`alertTrackers
      ensures isMonitoring
      ensures old(isMonitoring) ==> detectionLog == old(detectionLog) && alertTrackers == old(alertTrackers)
      ensures !old(isMonitoring) ==> detectionLog == [] && alertTrackers == map[]
      ensures old(Valid()) || !old(isMonitoring) ==> Valid()
    {
      if !isMonitoring {
        isMonitoring := true;
        detectionLog := [];
        alertTrackers := map[];
      }
    }

    /** Stops the session; the log and the trackers are kept. */
    method StopMonitoring()
      modifies this`isMonitoring
      ensures !isMonitoring
      ensures old(Valid()) ==> Valid()
    {
      if isMonitoring {
        isMonitoring := false;
      }
    }

    /** The log, newest record first. */
    method GetAlerts() returns (alerts: seq<Record>)
      ensures |alerts| == |detectionLog|
      ensures forall j :: 0 <= j < |alerts| ==> alerts[j] == detectionLog[|detectionLog| - 1 - j]
    {
      alerts := [];
      var i := |detectionLog|;
      while i > 0
        invariant 0 <= i <= |detectionLog|
        invariant |alerts| == |detectionLog| - i
        invariant forall j :: 0 <= j < |alerts| ==> alerts[j] == detectionLog[|detectionLog| - 1 - j]
      {
        i := i - 1;
        alerts := alerts + [detectionLog[i]];
      }
    }
  }
}
