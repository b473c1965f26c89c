/**
 The alert rules of the malpractice detector, as values: what one frame's
 detections turn into (alert keys and a description), and what one call of
 the alert step does to the trackers and the log. The imperative detector in
 detector.dfy is proved to compute exactly `Process`.

 Time is an integer number of ticks; one tick is one microsecond, the
 resolution of the timestamps the detector compares.
 */
module AlertRules {

  datatype Option<T> = None | Some(value: T)

  /** One detection of one frame: an object class from the object detector,
      or a behaviour class from the pose, gaze and gesture analysers. */
  datatype Detection = Object(cls: string) | Behavior(cls: string)

  /** Per-key tracker: when the key was first seen, and whether it was logged. */
  datatype Tracker = Tracker(startTime: int, logged: bool)

  /** One entry of the detection log. */
  datatype Record = Record(timestamp: int, description: string)

  /** The detection parameters the alert step reads. */
  datatype Config = Config(
    multiplePeopleEnabled: bool,
    maxPeople: int,
    gazeThreshold: int,          // ticks
    handNearHeadThreshold: int   // ticks
  )

  /** The state the alert step changes: the trackers and the log. */
  datatype EngineState = EngineState(trackers: map<string, Tracker>, log: seq<Record>)

  /** One frame handed to the alert step: its timestamp and its detections. */
  datatype Frame = Frame(now: int, detections: seq<Detection>)

  /** What one detection contributes: an alert key or none, and the
      description the loop leaves behind after it. */
  datatype Verdict = Verdict(key: Option<string>, description: string)

  const PERSON: string := "person"
  const SUSPICIOUS_GAZE: string := "Suspicious Gaze"
  const HAND_NEAR_HEAD: string := "Hand Near Head"
  const GESTURE: string := "Gesture"
  const MULTIPLE_PEOPLE: string := "Multiple People"

  const LOG_CAPACITY: nat := 100
  const TICKS_PER_SECOND: int := 1_000_000

  /** The built-in parameters used when no parameter file can be read. */
  const DEFAULT_CONFIG: Config := Config(true, 1, 3 * TICKS_PER_SECOND, 2 * TICKS_PER_SECOND)

  // Each text is its headline followed by its explanation.
  const GAZE_TEXT: string :=
    "Suspicious Gaze Detected: " + "The student is looking away from their desk for an extended period."
  const POSE_TEXT: string :=
    "Suspicious Pose Detected: " + "The student has their hand raised near their head, which could be used to obscure actions."
  const COLLUSION_TEXT: string :=
    "Potential Collusion Detected: " + "More than one person is visible in the frame."

  function ObjectText(cls: string): string
  {
    "Prohibited Object Detected: A '" + cls + "' is visible near the student."
  }

  function GestureText(cls: string): string
  {
    "Suspicious Action Detected: A '" + cls + "' was made, which is unusual for an exam environment."
  }

  /** Substring test, as the `in` operator on two strings. */
  function Contains(s: string, sub: string): bool
    decreases |s|
  {
    if |sub| > |s| then false
    else s[..|sub|] == sub || Contains(s[1..], sub)
  }

  /** Start time of the tracker of `key` once the duration check has run:
      the existing one, or `now` for the tracker the check creates. */
  function StartOf(trackers: map<string, Tracker>, now: int, key: string): int
  {
    if key in trackers then trackers[key].startTime else now
  }

  /** The duration check: strictly more than `threshold` ticks elapsed. */
  predicate Due(trackers: map<string, Tracker>, now: int, key: string, threshold: int)
  {
    now - StartOf(trackers, now, key) > threshold
  }

  /** What one detection contributes, judged against the trackers as they
      were when the call began. */
  function Judge(cfg: Config, trackers: map<string, Tracker>, now: int, det: Detection): (v: Verdict)
    ensures v.key.Some? ==> v.key.value == det.cls && v.description != ""
    ensures v.key.None? ==> v.description == ""
    ensures det.Object? ==> (v.key.Some? <==> det.cls != PERSON)
    ensures det.cls == PERSON ==> v.key.None?
  {
    match det
    case Object(c) =>
      if c != PERSON then Verdict(Some(c), ObjectText(c)) else Verdict(None, "")
    case Behavior(c) =>
      if c == SUSPICIOUS_GAZE then
        if Due(trackers, now, c, cfg.gazeThreshold) then Verdict(Some(c), GAZE_TEXT) else Verdict(None, "")
      else if c == HAND_NEAR_HEAD then
        if Due(trackers, now, c, cfg.handNearHeadThreshold) then Verdict(Some(c), POSE_TEXT) else Verdict(None, "")
      else if Contains(c, GESTURE) then
        Verdict(Some(c), GestureText(c))
      else
        Verdict(None, "")
  }

  /** Number of detections whose class is `person`, whatever their kind:
      the number of positions holding such a detection. */
  function PersonCount(dets: seq<Detection>): (n: nat)
    ensures n == |set i | 0 <= i < |dets| && dets[i].cls == PERSON|
    ensures n <= |dets|
    ensures n == 0 <==> forall i :: 0 <= i < |dets| ==> dets[i].cls != PERSON
  {
    if |dets| == 0 then 0
    else
      var k := |dets| - 1;
      var front := dets[..k];
      assert (set i | 0 <= i < |dets| && dets[i].cls == PERSON) ==
        (set i | 0 <= i < |front| && front[i].cls == PERSON) + (if dets[k].cls == PERSON then {k} else {});
      PersonCount(front) + (if dets[k].cls == PERSON then 1 else 0)
  }

  /** A behaviour whose key the duration check tracks. */
  predicate IsTimed(det: Detection)
  {
    det.Behavior? && (det.cls == SUSPICIOUS_GAZE || det.cls == HAND_NEAR_HEAD)
  }

  /** The keys the duration checks of one call look up, and so give a
      tracker if they have none. */
  function TimedKeys(dets: seq<Detection>): set<string>
  {
    set i | 0 <= i < |dets| && IsTimed(dets[i]) :: dets[i].cls
  }

  /** Extending the prefix `dets[..i]` by one detection extends its timed
      keys by that detection's class when it is timed. */
  lemma TimedKeysStep(dets: seq<Detection>, i: nat)
    requires i < |dets|
    ensures TimedKeys(dets[..i + 1]) == TimedKeys(dets[..i]) + (if IsTimed(dets[i]) then {dets[i].cls} else {})
  {
    var front := dets[..i + 1];
    assert front[..i] == dets[..i];
    forall k | k in TimedKeys(front)
      ensures k in TimedKeys(dets[..i]) + (if IsTimed(dets[i]) then {dets[i].cls} else {})
    {
      var j :| 0 <= j < |front| && IsTimed(front[j]) && front[j].cls == k;
      if j < i {
        assert dets[..i][j] == front[j];
      }
    }
    forall k | k in TimedKeys(dets[..i])
      ensures k in TimedKeys(front)
    {
      var j :| 0 <= j < i && IsTimed(dets[..i][j]) && dets[..i][j].cls == k;
      assert front[j] == dets[..i][j];
    }
    if IsTimed(dets[i]) {
      assert front[i] == dets[i];
    }
  }

  /** The multiple-people rule. */
  predicate MultiplePeople(cfg: Config, dets: seq<Detection>)
  {
    cfg.multiplePeopleEnabled && PersonCount(dets) > cfg.maxPeople
  }

  /** The keys the detections themselves make active. */
  function DetectionKeys(cfg: Config, trackers: map<string, Tracker>, now: int, dets: seq<Detection>): (keys: set<string>)
    ensures PERSON !in keys
  {
    if |dets| == 0 then {}
    else
      var v := Judge(cfg, trackers, now, dets[|dets| - 1]);
      DetectionKeys(cfg, trackers, now, dets[..|dets| - 1]) + (if v.key.Some? then {v.key.value} else {})
  }

  /** The description the detection loop leaves: that of the last detection. */
  function LastDescription(cfg: Config, trackers: map<string, Tracker>, now: int, dets: seq<Detection>): string
  {
    if |dets| == 0 then "" else Judge(cfg, trackers, now, dets[|dets| - 1]).description
  }

  /** All keys active in this call. */
  function ActiveKeys(cfg: Config, trackers: map<string, Tracker>, now: int, dets: seq<Detection>): set<string>
  {
    DetectionKeys(cfg, trackers, now, dets) + (if MultiplePeople(cfg, dets) then {MULTIPLE_PEOPLE} else {})
  }

  /** The one description every record appended in this call carries. */
  function CallDescription(cfg: Config, trackers: map<string, Tracker>, now: int, dets: seq<Detection>): string
  {
    if MultiplePeople(cfg, dets) then COLLUSION_TEXT else LastDescription(cfg, trackers, now, dets)
  }

  predicate WasLogged(trackers: map<string, Tracker>, key: string)
  {
    key in trackers && trackers[key].logged
  }

  /** The active keys that get a record: those not logged before. */
  function NewKeys(trackers: map<string, Tracker>, active: set<string>): set<string>
  {
    set k | k in active && !WasLogged(trackers, k)
  }

  /** Adding one more handled key to `done` adds one new key exactly when
      that key was not logged. */
  lemma NewKeysStep(trackers: map<string, Tracker>, done: set<string>, key: string)
    requires key !in done
    ensures |NewKeys(trackers, done + {key})| ==
      |NewKeys(trackers, done)| + (if WasLogged(trackers, key) then 0 else 1)
  {
    if WasLogged(trackers, key) {
      assert NewKeys(trackers, done + {key}) == NewKeys(trackers, done);
    } else {
      assert NewKeys(trackers, done + {key}) == NewKeys(trackers, done) + {key};
    }
  }

  /** Adding unlogged trackers leaves the logged keys, and so the new keys
      of any active set, as they were. */
  lemma FreshTrackersKeepNewKeys(t0: map<string, Tracker>, t1: map<string, Tracker>, now: int, active: set<string>)
    requires forall k :: k in t0 ==> k in t1 && t1[k] == t0[k]
    requires forall k :: k in t1 && k !in t0 ==> t1[k] == Tracker(now, false)
    ensures forall k :: WasLogged(t1, k) <==> WasLogged(t0, k)
    ensures NewKeys(t1, active) == NewKeys(t0, active)
  {
    assert forall k :: WasLogged(t1, k) <==> WasLogged(t0, k);
  }

  /** The three tracker phases of one call: duration checks add unlogged
      trackers (`t0` to `t1`), logging marks every active key logged (`t1` to
      `t2`), retiring keeps only the active keys (`t2` to `t3`). The result is
      `Retained` of the trackers the call began with. */
  lemma TrackerPhases(t0: map<string, Tracker>, t1: map<string, Tracker>, t2: map<string, Tracker>,
                      t3: map<string, Tracker>, now: int, active: set<string>)
    requires forall k :: k in t0 ==> k in t1 && t1[k] == t0[k]
    requires forall k :: k in t1 && k !in t0 ==> t1[k] == Tracker(now, false)
    requires forall k :: k in active ==>
      k in t2 && t2[k] == (if WasLogged(t1, k) then t1[k] else Tracker(now, true))
    requires forall k :: k !in active ==> (k in t2 <==> k in t1) && (k in t2 ==> t2[k] == t1[k])
    requires forall k :: k in t3 <==> k in t2 && k in active
    requires forall k :: k in t3 ==> t3[k] == t2[k]
    ensures t3 == Retained(t0, now, active)
  {
    var r := Retained(t0, now, active);
    forall k | k in active
      ensures t3[k] == r[k]
    {
      assert WasLogged(t1, k) <==> WasLogged(t0, k);
    }
    assert t3.Keys == r.Keys;
  }

  /** The trackers kept at the end of a call: exactly the active keys, each
      logged; a key logged before keeps its tracker. */
  function Retained(trackers: map<string, Tracker>, now: int, active: set<string>): (r: map<string, Tracker>)
    ensures r.Keys == active
    ensures forall k :: k in r ==> r[k].logged
  {
    map k | k in active :: if WasLogged(trackers, k) then trackers[k] else Tracker(now, true)
  }

  /** `n` copies of one record. */
  function Repeat(r: Record, n: nat): (s: seq<Record>)
    ensures |s| == n
    ensures forall i :: 0 <= i < n ==> s[i] == r
  {
    if n == 0 then [] else Repeat(r, n - 1) + [r]
  }

  /** The log bound: keep the last `LOG_CAPACITY` records. */
  function Trim(s: seq<Record>): (t: seq<Record>)
    ensures |t| == if |s| <= LOG_CAPACITY then |s| else LOG_CAPACITY
    ensures t == s[|s| - |t|..]
  {
    if |s| > LOG_CAPACITY then s[|s| - LOG_CAPACITY..] else s
  }

  /** One call of the alert step on one frame. */
  function Process(cfg: Config, e: EngineState, now: int, dets: seq<Detection>): (r: EngineState)
    ensures r.trackers.Keys == ActiveKeys(cfg, e.trackers, now, dets)
    ensures forall k :: k in r.trackers ==> r.trackers[k].logged
    ensures |r.log| <= LOG_CAPACITY
  {
    var active := ActiveKeys(cfg, e.trackers, now, dets);
    var added := Repeat(Record(now, CallDescription(cfg, e.trackers, now, dets)), |NewKeys(e.trackers, active)|);
    EngineState(Retained(e.trackers, now, active), Trim(e.log + added))
  }

  /** The frame loop while monitoring: one alert step per frame, in order. */
  function Run(cfg: Config, e: EngineState, frames: seq<Frame>): EngineState
    decreases |frames|
  {
    if |frames| == 0 then e
    else Run(cfg, Process(cfg, e, frames[0].now, frames[0].detections), frames[1..])
  }

  /** One more frame of a run: the rest of the run starts from the state
      that frame leaves. */
  lemma RunStep(cfg: Config, e: EngineState, frames: seq<Frame>, i: nat)
    requires i < |frames|
    ensures Run(cfg, e, frames[i..]) ==
      Run(cfg, Process(cfg, e, frames[i].now, frames[i].detections), frames[i + 1..])
  {
    assert frames[i..][1..] == frames[i + 1..];
  }
}
