/**
 Properties of the alert step: which detections become keys, what a call
 appends to the log, how the trackers debounce a key across calls, and what
 the duration rule does when trackers are retired after every call.
 */
module AlertProperties {
  import opened AlertRules

  /** `sub` occurs in `s` starting at index `i`. */
  predicate OccursAt(s: string, sub: string, i: int)
  {
    0 <= i && i + |sub| <= |s| && s[i..i + |sub|] == sub
  }

  /** Reference rule for one detection, written flat: the conditions under
      which a detection makes its class an active key. */
  ghost predicate Qualifies(cfg: Config, trackers: map<string, Tracker>, now: int, det: Detection)
  {
    || (det.Object? && det.cls != PERSON)
    || (det.Behavior? && det.cls == SUSPICIOUS_GAZE && Due(trackers, now, det.cls, cfg.gazeThreshold))
    || (det.Behavior? && det.cls == HAND_NEAR_HEAD && Due(trackers, now, det.cls, cfg.handNearHeadThreshold))
    || (det.Behavior? && det.cls != SUSPICIOUS_GAZE && det.cls != HAND_NEAR_HEAD &&
        exists j :: OccursAt(det.cls, GESTURE, j))
  }

  /** `Contains` is the substring test. */
  lemma {:induction false} ContainsIff(s: string, sub: string)
    ensures Contains(s, sub) <==> exists i :: OccursAt(s, sub, i)
    decreases |s|
  {
    if |sub| > |s| {
    } else if s[..|sub|] == sub {
      assert OccursAt(s, sub, 0);
    } else {
      ContainsIff(s[1..], sub);
      if Contains(s[1..], sub) {
        var i :| OccursAt(s[1..], sub, i);
        assert s[i + 1..i + 1 + |sub|] == s[1..][i..i + |sub|];
        assert OccursAt(s, sub, i + 1);
      } else {
        forall i | OccursAt(s, sub, i)
          ensures false
        {
          if i > 0 {
            forall k | 0 <= k < |sub|
              ensures s[1..][i - 1..i - 1 + |sub|][k] == sub[k]
            {
              assert s[1..][i - 1..i - 1 + |sub|][k] == s[i..i + |sub|][k];
            }
            assert OccursAt(s[1..], sub, i - 1);
          }
        }
      }
    }
  }

  /** A detection yields a key exactly when it qualifies, and the key is its class. */
  lemma JudgeMatchesRules(cfg: Config, trackers: map<string, Tracker>, now: int, det: Detection)
    ensures Judge(cfg, trackers, now, det).key.Some? <==> Qualifies(cfg, trackers, now, det)
    ensures Judge(cfg, trackers, now, det).key.Some? ==> Judge(cfg, trackers, now, det).key.value == det.cls
  {
    ContainsIff(det.cls, GESTURE);
  }

  /** The detection keys are the keys of the individual detections. */
  lemma {:induction false} DetectionKeysIff(cfg: Config, trackers: map<string, Tracker>, now: int, dets: seq<Detection>, k: string)
    ensures k in DetectionKeys(cfg, trackers, now, dets) <==>
      exists i :: 0 <= i < |dets| && Judge(cfg, trackers, now, dets[i]).key == Some(k)
  {
    if |dets| > 0 {
      var last := |dets| - 1;
      var init := dets[..last];
      DetectionKeysIff(cfg, trackers, now, init, k);
      if k in DetectionKeys(cfg, trackers, now, dets) {
        if k in DetectionKeys(cfg, trackers, now, init) {
          var i :| 0 <= i < |init| && Judge(cfg, trackers, now, init[i]).key == Some(k);
          assert init[i] == dets[i];
        } else {
          assert Judge(cfg, trackers, now, dets[last]).key == Some(k);
        }
      }
      if exists i :: 0 <= i < |dets| && Judge(cfg, trackers, now, dets[i]).key == Some(k) {
        var i :| 0 <= i < |dets| && Judge(cfg, trackers, now, dets[i]).key == Some(k);
        if i < last {
          assert init[i] == dets[i];
        }
      }
    }
  }

  /** Which keys a call makes active: the classes of qualifying detections,
      and "Multiple People" when that rule fires. */
  lemma ActiveKeyRules(cfg: Config, trackers: map<string, Tracker>, now: int, dets: seq<Detection>, k: string)
    ensures k in ActiveKeys(cfg, trackers, now, dets) <==>
      || (k == MULTIPLE_PEOPLE && MultiplePeople(cfg, dets))
      || exists i :: 0 <= i < |dets| && dets[i].cls == k && Qualifies(cfg, trackers, now, dets[i])
  {
    DetectionKeysIff(cfg, trackers, now, dets, k);
    forall i | 0 <= i < |dets| {
      JudgeMatchesRules(cfg, trackers, now, dets[i]);
    }
  }

  /** "Multiple People" is active exactly when the rule fires, unless an
      object detection happens to carry that very class. */
  lemma MultiplePeopleKey(cfg: Config, trackers: map<string, Tracker>, now: int, dets: seq<Detection>)
    ensures MULTIPLE_PEOPLE in ActiveKeys(cfg, trackers, now, dets) <==>
      MultiplePeople(cfg, dets) || exists i :: 0 <= i < |dets| && dets[i] == Object(MULTIPLE_PEOPLE)
  {
    ActiveKeyRules(cfg, trackers, now, dets, MULTIPLE_PEOPLE);
    forall j | 0 <= j <= |MULTIPLE_PEOPLE| - |GESTURE|
      ensures !OccursAt(MULTIPLE_PEOPLE, GESTURE, j)
    {
      assert 'G' !in MULTIPLE_PEOPLE;
      assert MULTIPLE_PEOPLE[j..j + |GESTURE|][0] == MULTIPLE_PEOPLE[j];
    }
    forall i | 0 <= i < |dets| && dets[i].cls == MULTIPLE_PEOPLE && Qualifies(cfg, trackers, now, dets[i])
      ensures dets[i] == Object(MULTIPLE_PEOPLE)
    {
    }
  }

  /** Objects other than persons, and gesture classes, are active on the
      frame they are seen; a person is never a key. */
  lemma InstantKeys(cfg: Config, trackers: map<string, Tracker>, now: int, dets: seq<Detection>, i: nat)
    requires i < |dets|
    ensures PERSON !in ActiveKeys(cfg, trackers, now, dets)
    ensures dets[i].Object? && dets[i].cls != PERSON ==> dets[i].cls in ActiveKeys(cfg, trackers, now, dets)
    ensures (dets[i].Behavior? && dets[i].cls != SUSPICIOUS_GAZE && dets[i].cls != HAND_NEAR_HEAD &&
             Contains(dets[i].cls, GESTURE)) ==> dets[i].cls in ActiveKeys(cfg, trackers, now, dets)
  {
    ActiveKeyRules(cfg, trackers, now, dets, dets[i].cls);
    ContainsIff(dets[i].cls, GESTURE);
  }

  /** Appending records that all equal `rec` and trimming keeps the last
      records of the old log followed by the new ones. */
  lemma TrimAfterAppend(log: seq<Record>, added: seq<Record>, rec: Record)
    requires forall i :: 0 <= i < |added| ==> added[i] == rec
    ensures
      var t := Trim(log + added);
      var n := |added|;
      && |t| == (if |log| + n <= LOG_CAPACITY then |log| + n else LOG_CAPACITY)
      && forall j :: 0 <= j < |t| ==> t[j] == if j >= |t| - n then rec else log[|log| + n - |t| + j]
  {
    var s := log + added;
    var t := Trim(s);
    forall j | 0 <= j < |t|
      ensures t[j] == if j >= |t| - |added| then rec else log[|log| + |added| - |t| + j]
    {
      var p := |s| - |t| + j;
      assert t[j] == s[p];
      if p >= |log| {
        assert s[p] == added[p - |log|];
      } else {
        assert s[p] == log[p];
      }
    }
  }

  /** What one call appends: as many records as active keys not logged
      before, all stamped `now` with the one description of the call; the
      log then keeps the last `LOG_CAPACITY` records of old log + new ones. */
  lemma AppendedRecords(cfg: Config, e: EngineState, now: int, dets: seq<Detection>)
    ensures
      var r := Process(cfg, e, now, dets);
      var n := |NewKeys(e.trackers, ActiveKeys(cfg, e.trackers, now, dets))|;
      var d := CallDescription(cfg, e.trackers, now, dets);
      && |r.log| == (if |e.log| + n <= LOG_CAPACITY then |e.log| + n else LOG_CAPACITY)
      && forall j :: 0 <= j < |r.log| ==>
           r.log[j] == if j >= |r.log| - n then Record(now, d) else e.log[|e.log| + n - |r.log| + j]
  {
    var n := |NewKeys(e.trackers, ActiveKeys(cfg, e.trackers, now, dets))|;
    var d := CallDescription(cfg, e.trackers, now, dets);
    TrimAfterAppend(e.log, Repeat(Record(now, d), n), Record(now, d));
  }

  /** After a call with active keys `a`, the keys that are new in the next
      call are exactly its active keys that were not active in this one. */
  lemma NextNewKeys(trackers: map<string, Tracker>, now: int, a: set<string>, b: set<string>)
    ensures NewKeys(Retained(trackers, now, a), b) == b - a
  {
    var r := Retained(trackers, now, a);
    forall k | k in b
      ensures k in NewKeys(r, b) <==> k !in a
    {
      if k in a {
        assert WasLogged(r, k);
      }
    }
  }

  /** A key active in one call is not logged again in the next call if it
      is still active. */
  lemma SustainedKeyNotLoggedAgain(cfg: Config, e: EngineState, now1: int, dets1: seq<Detection>,
                                   now2: int, dets2: seq<Detection>, k: string)
    requires k in ActiveKeys(cfg, e.trackers, now1, dets1)
    ensures
      var e1 := Process(cfg, e, now1, dets1);
      k !in NewKeys(e1.trackers, ActiveKeys(cfg, e1.trackers, now2, dets2))
  {
  }

  /** A key missing from one call has no tracker afterwards, so it is
      logged again as soon as it is active again. */
  lemma InterruptedKeyLoggedAgain(cfg: Config, e: EngineState, now1: int, dets1: seq<Detection>,
                                  now2: int, dets2: seq<Detection>, k: string)
    requires k !in ActiveKeys(cfg, e.trackers, now1, dets1)
    ensures
      var e1 := Process(cfg, e, now1, dets1);
      k !in e1.trackers &&
      (k in ActiveKeys(cfg, e1.trackers, now2, dets2) ==> k in NewKeys(e1.trackers, ActiveKeys(cfg, e1.trackers, now2, dets2)))
  {
  }

  /** An object other than a person, or a gesture, seen for the first time
      is logged on that very frame. */
  lemma InstantKeyLoggedOnFirstFrame(cfg: Config, e: EngineState, now: int, dets: seq<Detection>, i: nat)
    requires i < |dets|
    requires || (dets[i].Object? && dets[i].cls != PERSON)
             || (dets[i].Behavior? && dets[i].cls != SUSPICIOUS_GAZE && dets[i].cls != HAND_NEAR_HEAD &&
                 Contains(dets[i].cls, GESTURE))
    requires dets[i].cls !in e.trackers
    ensures dets[i].cls in NewKeys(e.trackers, ActiveKeys(cfg, e.trackers, now, dets))
    ensures |NewKeys(e.trackers, ActiveKeys(cfg, e.trackers, now, dets))| >= 1
  {
    InstantKeys(cfg, e.trackers, now, dets, i);
  }

  /** Every record a call appends has the same text: the collusion text when
      that rule fires, otherwise the text of the last detection, which is
      empty when that detection did not make a key. */
  lemma CallDescriptionRule(cfg: Config, trackers: map<string, Tracker>, now: int, dets: seq<Detection>)
    ensures MultiplePeople(cfg, dets) ==> CallDescription(cfg, trackers, now, dets) == COLLUSION_TEXT
    ensures !MultiplePeople(cfg, dets) && |dets| > 0 && !Qualifies(cfg, trackers, now, dets[|dets| - 1]) ==>
      CallDescription(cfg, trackers, now, dets) == ""
    ensures !MultiplePeople(cfg, dets) && |dets| == 0 ==> CallDescription(cfg, trackers, now, dets) == ""
  {
    if |dets| > 0 {
      JudgeMatchesRules(cfg, trackers, now, dets[|dets| - 1]);
    }
  }

  /** A frame whose last detection is a person: the phone seen before it is
      logged, but with an empty description. */
  lemma TrailingPersonBlanksDescription(now: int)
    ensures Process(DEFAULT_CONFIG, EngineState(map[], []), now, [Object("cell phone"), Object(PERSON)]).log
      == [Record(now, "")]
  {
    var dets := [Object("cell phone"), Object(PERSON)];
    assert dets[..1] == [Object("cell phone")];
    assert PersonCount(dets) == 1;
    assert DetectionKeys(DEFAULT_CONFIG, map[], now, dets[..1][..0]) == {};
    assert DetectionKeys(DEFAULT_CONFIG, map[], now, dets[..1]) == {"cell phone"};
    var active := ActiveKeys(DEFAULT_CONFIG, map[], now, dets);
    assert active == {"cell phone"};
    assert NewKeys(map[], active) == {"cell phone"};
  }

  ghost predicate Chronological(log: seq<Record>)
  {
    forall i, j :: 0 <= i < j < |log| ==> log[i].timestamp <= log[j].timestamp
  }

  ghost predicate NotAfter(log: seq<Record>, t: int)
  {
    forall i :: 0 <= i < |log| ==> log[i].timestamp <= t
  }

  /** The log stays in timestamp order when calls come with non-decreasing times. */
  lemma StepKeepsChronological(cfg: Config, e: EngineState, now: int, dets: seq<Detection>)
    requires Chronological(e.log) && NotAfter(e.log, now)
    ensures Chronological(Process(cfg, e, now, dets).log)
    ensures NotAfter(Process(cfg, e, now, dets).log, now)
  {
    AppendedRecords(cfg, e, now, dets);
  }

  ghost predicate NonDecreasingTimes(frames: seq<Frame>)
  {
    forall i, j :: 0 <= i < j < |frames| ==> frames[i].now <= frames[j].now
  }

  lemma {:induction false} RunKeepsChronological(cfg: Config, e: EngineState, frames: seq<Frame>)
    requires Chronological(e.log)
    requires NonDecreasingTimes(frames)
    requires |frames| > 0 ==> NotAfter(e.log, frames[0].now)
    ensures Chronological(Run(cfg, e, frames).log)
    decreases |frames|
  {
    if |frames| > 0 {
      var e1 := Process(cfg, e, frames[0].now, frames[0].detections);
      StepKeepsChronological(cfg, e, frames[0].now, frames[0].detections);
      if |frames| > 1 {
        assert frames[0].now <= frames[1].now;
      }
      RunKeepsChronological(cfg, e1, frames[1..]);
    }
  }

  /** The text of the duration-gated alert for `key`. */
  function DurationText(key: string): string
  {
    if key == SUSPICIOUS_GAZE then GAZE_TEXT else POSE_TEXT
  }

  predicate DurationRule(cfg: Config, key: string, threshold: int)
  {
    || (key == SUSPICIOUS_GAZE && threshold == cfg.gazeThreshold)
    || (key == HAND_NEAR_HEAD && threshold == cfg.handNearHeadThreshold)
  }

  /** No detection's text is the duration-gated text of a key that has no
      tracker: that key is not due yet, and every other text differs. */
  lemma VerdictTextIsNot(cfg: Config, trackers: map<string, Tracker>, now: int, det: Detection, key: string, threshold: int)
    requires DurationRule(cfg, key, threshold) && threshold >= 0
    requires key !in trackers
    ensures Judge(cfg, trackers, now, det).description != DurationText(key)
  {
    assert GAZE_TEXT[0] == 'S' && GAZE_TEXT[11] == 'G';
    assert POSE_TEXT[0] == 'S' && POSE_TEXT[11] == 'P';
    match det
    case Object(c) =>
      assert ObjectText(c)[0] == 'P';
    case Behavior(c) =>
      assert GestureText(c)[11] == 'A';
      assert !Due(trackers, now, key, threshold);
  }

  /** With a non-negative threshold, a duration-gated key with no tracker is
      not active in a call (barring an object of that class), so it has no
      tracker after the call either, and no record with its text is added. */
  lemma DurationKeyStep(cfg: Config, e: EngineState, now: int, dets: seq<Detection>, key: string, threshold: int)
    requires DurationRule(cfg, key, threshold) && threshold >= 0
    requires key !in e.trackers
    requires Object(key) !in dets
    requires forall r :: r in e.log ==> r.description != DurationText(key)
    ensures key !in Process(cfg, e, now, dets).trackers
    ensures forall r :: r in Process(cfg, e, now, dets).log ==> r.description != DurationText(key)
  {
    DurationKeyInactive(cfg, e.trackers, now, dets, key, threshold);
    CallTextIsNot(cfg, e.trackers, now, dets, key, threshold);
    AppendedRecords(cfg, e, now, dets);
    var r := Process(cfg, e, now, dets);
    forall x | x in r.log
      ensures x.description != DurationText(key)
    {
      var j :| 0 <= j < |r.log| && r.log[j] == x;
    }
  }

  /** A timed key with no tracker, and no object of that class, is not active. */
  lemma DurationKeyInactive(cfg: Config, trackers: map<string, Tracker>, now: int, dets: seq<Detection>, key: string, threshold: int)
    requires DurationRule(cfg, key, threshold) && threshold >= 0
    requires key !in trackers
    requires Object(key) !in dets
    ensures key !in ActiveKeys(cfg, trackers, now, dets)
  {
    ActiveKeyRules(cfg, trackers, now, dets, key);
    forall i | 0 <= i < |dets| && dets[i].cls == key
      ensures !Qualifies(cfg, trackers, now, dets[i])
    {
      assert dets[i] != Object(key);
    }
  }

  /** The one description of a call is never the text of a timed key that
      has no tracker. */
  lemma CallTextIsNot(cfg: Config, trackers: map<string, Tracker>, now: int, dets: seq<Detection>, key: string, threshold: int)
    requires DurationRule(cfg, key, threshold) && threshold >= 0
    requires key !in trackers
    ensures CallDescription(cfg, trackers, now, dets) != DurationText(key)
  {
    if MultiplePeople(cfg, dets) {
      assert COLLUSION_TEXT[0] == 'P' && DurationText(key)[0] == 'S';
    } else if |dets| > 0 {
      VerdictTextIsNot(cfg, trackers, now, dets[|dets| - 1], key, threshold);
    }
  }

  /** Trackers are retired after every call, and a fresh duration tracker
      starts at the call's own time, so with a non-negative threshold a
      gaze or hand-near-head alert is never logged in any run of frames. */
  lemma {:induction false} DurationGatedNeverLogged(cfg: Config, e: EngineState, frames: seq<Frame>, key: string, threshold: int)
    requires DurationRule(cfg, key, threshold) && threshold >= 0
    requires key !in e.trackers
    requires forall f :: 0 <= f < |frames| ==> Object(key) !in frames[f].detections
    requires forall r :: r in e.log ==> r.description != DurationText(key)
    ensures key !in Run(cfg, e, frames).trackers
    ensures forall r :: r in Run(cfg, e, frames).log ==> r.description != DurationText(key)
    decreases |frames|
  {
    if |frames| > 0 {
      DurationKeyStep(cfg, e, frames[0].now, frames[0].detections, key, threshold);
      var e1 := Process(cfg, e, frames[0].now, frames[0].detections);
      forall f | 0 <= f < |frames[1..]|
        ensures Object(key) !in frames[1..][f].detections
      {
        assert frames[1..][f] == frames[f + 1];
      }
      DurationGatedNeverLogged(cfg, e1, frames[1..], key, threshold);
    }
  }

  /** The object invariant of the detector survives any run of frames. */
  lemma {:induction false} RunKeepsTrackersLogged(cfg: Config, e: EngineState, frames: seq<Frame>)
    requires |e.log| <= LOG_CAPACITY
    requires forall k :: k in e.trackers ==> e.trackers[k].logged
    ensures |Run(cfg, e, frames).log| <= LOG_CAPACITY
    ensures forall k :: k in Run(cfg, e, frames).trackers ==> Run(cfg, e, frames).trackers[k].logged
    decreases |frames|
  {
    if |frames| > 0 {
      RunKeepsTrackersLogged(cfg, Process(cfg, e, frames[0].now, frames[0].detections), frames[1..]);
    }
  }

  /** A frame showing only object `c`: its key is the only active one. */
  lemma OnlyObjectFrameKeys(cfg: Config, trackers: map<string, Tracker>, t: int, c: string)
    requires c != PERSON && (!cfg.multiplePeopleEnabled || cfg.maxPeople >= 0)
    ensures ActiveKeys(cfg, trackers, t, [Object(c)]) == {c}
    ensures CallDescription(cfg, trackers, t, [Object(c)]) == ObjectText(c)
  {
    assert [Object(c)][..0] == [];
    assert DetectionKeys(cfg, trackers, t, [Object(c)][..0]) == {};
    assert PersonCount([Object(c)][..0]) == 0;
    assert !MultiplePeople(cfg, [Object(c)]);
  }

  /** A frame showing only object `c`, not logged before: one record, and
      `c` is the only tracker left, started now. */
  lemma ObjectFirstFrameStep(cfg: Config, e: EngineState, t: int, c: string)
    requires c != PERSON && (!cfg.multiplePeopleEnabled || cfg.maxPeople >= 0)
    requires !WasLogged(e.trackers, c)
    ensures Process(cfg, e, t, [Object(c)]) ==
      EngineState(map[c := Tracker(t, true)], Trim(e.log + [Record(t, ObjectText(c))]))
  {
    OnlyObjectFrameKeys(cfg, e.trackers, t, c);
    assert NewKeys(e.trackers, {c}) == {c};
    assert |NewKeys(e.trackers, {c})| == 1;
    assert Repeat(Record(t, ObjectText(c)), 1) == [Record(t, ObjectText(c))];
    assert Retained(e.trackers, t, {c}) == map[c := Tracker(t, true)];
  }

  /** A frame showing only object `c`, already logged: nothing is added. */
  lemma ObjectSustainedStep(cfg: Config, e: EngineState, t: int, c: string)
    requires c != PERSON && (!cfg.multiplePeopleEnabled || cfg.maxPeople >= 0)
    requires WasLogged(e.trackers, c)
    ensures Process(cfg, e, t, [Object(c)]) == EngineState(map[c := e.trackers[c]], Trim(e.log))
  {
    OnlyObjectFrameKeys(cfg, e.trackers, t, c);
    assert NewKeys(e.trackers, {c}) == {};
    assert e.log + Repeat(Record(t, ObjectText(c)), 0) == e.log;
  }

  /** An empty frame makes no key active and drops every tracker. */
  lemma EmptyFrameStep(cfg: Config, e: EngineState, t: int)
    requires !cfg.multiplePeopleEnabled || cfg.maxPeople >= 0
    ensures Process(cfg, e, t, []) == EngineState(map[], Trim(e.log))
  {
    assert ActiveKeys(cfg, e.trackers, t, []) == {};
    assert NewKeys(e.trackers, {}) == {};
    assert e.log + Repeat(Record(t, ""), 0) == e.log;
  }

  /** A frame of persons only, more than allowed, with "Multiple People" not
      logged before: one collusion record, and that key is the only tracker. */
  lemma CrowdFirstFrameStep(cfg: Config, e: EngineState, t: int, dets: seq<Detection>)
    requires forall i :: 0 <= i < |dets| ==> dets[i] == Object(PERSON)
    requires MultiplePeople(cfg, dets)
    requires !WasLogged(e.trackers, MULTIPLE_PEOPLE)
    ensures Process(cfg, e, t, dets) ==
      EngineState(map[MULTIPLE_PEOPLE := Tracker(t, true)], Trim(e.log + [Record(t, COLLUSION_TEXT)]))
  {
    forall k | k in DetectionKeys(cfg, e.trackers, t, dets)
      ensures false
    {
      DetectionKeysIff(cfg, e.trackers, t, dets, k);
    }
    assert ActiveKeys(cfg, e.trackers, t, dets) == {MULTIPLE_PEOPLE};
    assert NewKeys(e.trackers, {MULTIPLE_PEOPLE}) == {MULTIPLE_PEOPLE};
    assert Repeat(Record(t, COLLUSION_TEXT), 1) == [Record(t, COLLUSION_TEXT)];
  }
}
