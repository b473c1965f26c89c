# Malpractice detector: alert aggregation engine

This project models the alert engine of the exam-proctoring detector
`MalpracticeDetector` (main.py). On every camera frame, the perception stage
produces a list of detections. Objects come from the object detector
(`person`, `cell phone`, `book`, ...). Behaviours come from the pose, gaze
and gesture analysers (`Suspicious Gaze`, `Hand Near Head`, `... Gesture`).

The engine turns each frame's detections into a set of active alert keys.
It appends one log record for every active key that was not already logged,
deletes the trackers of keys that are no longer active, and keeps only the
last 100 records. Three routes act as a small session state machine:

- start monitoring, from the stopped state, clears the log and the trackers;
- stop monitoring clears the flag;
- reading the alerts lists the log newest first.

The project has three modules:

- `AlertRules` (alert_rules.dfy) is the engine as values. It defines:
  - the entities (`Detection`, `Tracker`, `Record`, `Config`, `EngineState`);
  - the built-in parameters (`DEFAULT_CONFIG`: multiple-people rule on, at most one person, 3 s gaze threshold, 2 s hand-near-head threshold);
  - `Judge`, the verdict for one detection;
  - `Process`, one alert step;
  - `Run`, a sequence of steps.
- `Detector` (detector.dfy) is the class `MalpracticeDetector`. Its fields `isMonitoring`, `detectionLog` and `alertTrackers` are updated in place by methods that follow the source's loops. `ProcessAlerts` is proved to leave exactly the state that `Process` prescribes.
- `AlertProperties` (alert_properties.dfy) holds the properties of the engine, proved about `Process` and `Run`.

Time is an integer number of ticks, one tick per microsecond (the
resolution of the source's timestamps). One alert step receives a single
`now`, which the duration check uses too.

Object and gesture keys are logged in the call that first sees them, with
no one-frame delay. The duration test is a strict `>`.

Quirks of the code that the model keeps:

- A gaze or hand-near-head key that is not yet due is not active. The tracker that the duration check has just created for it is therefore deleted in the same call, so the key does not accumulate time across calls. In the model, which reads the clock once per call, such a key is never logged when its threshold is non-negative (`DurationGatedNeverLogged`). The code can still log it within one frame in the case listed under "Left out".
- Every record appended in one call carries the same description:
  - the collusion text when the multiple-people rule fires;
  - otherwise the text of the last detection;
  - or "" when that last detection makes no key (`CallDescriptionRule`, `TrailingPersonBlanksDescription`).
- People are counted by class `person`, whatever the kind of detection.

## Model

| member | source | states |
|---|---|---|
| AlertRules.Judge | main.py:141-160 | A detection yields a key only as its own class, and then with a nonempty description. It yields no key with the empty description. An object yields a key exactly when it is not a person, and a person never yields a key. |
| AlertRules.PersonCount | main.py:138 | The count is the number of positions whose detection has class `person`, whatever its kind. So it is at most the number of detections, and zero exactly when no detection is a person. |
| AlertRules.DetectionKeys | main.py:141-160 | The keys made by the detections never include `person`. |
| AlertRules.NewKeysStep | main.py:168-171 | Handling one more active key adds one record exactly when that key was not logged, and none otherwise. |
| AlertRules.Retained | main.py:168-176 | The trackers kept after a call are exactly the active keys, and each one is logged. |
| AlertRules.Repeat | main.py:168-170 | The records appended in one call are n identical copies of one record. |
| AlertRules.Trim | main.py:178 | The trimmed log has min(length, 100) records and is the suffix of the untrimmed log. |
| AlertRules.Process | main.py:135-178 | After one alert step, the tracker keys are exactly that call's active keys and every tracker is logged. The log holds at most 100 records. |
| Detector.MalpracticeDetector.constructor | main.py:28-31 | A new detector is not monitoring and has an empty log and no trackers. Its object invariant `Valid` holds: at most 100 records, and every tracker logged. |
| Detector.MalpracticeDetector.CheckDuration | main.py:180-188 | It inserts a tracker `(now, not logged)` only when the key has none, and leaves the rest unchanged. It reports due exactly when strictly more than the threshold has elapsed since the tracker's start. On the call that creates the tracker it reports not due whenever the threshold is non-negative. |
| Detector.MalpracticeDetector.ProcessAlerts | main.py:135-178 | The new trackers and log are exactly `Process` of the old ones. Every property proved about `Process` therefore holds of the object. Afterwards `Valid` holds, whatever the state before. |
| Detector.MalpracticeDetector.CollectAlerts | main.py:140-165 | The detection loop and the multiple-people rule compute exactly `ActiveKeys` and `CallDescription` of the trackers as the call found them. Existing trackers are untouched. Trackers are added exactly for the gaze and hand-near-head behaviours that had none (`TimedKeys`), and each starts now and is not logged. |
| Detector.MalpracticeDetector.JudgeDetection | main.py:142-160 | One pass of the detection loop returns exactly the verdict `Judge` gives against the trackers the call began with: whether the class becomes active, and the description left behind. It adds a tracker exactly when the detection is a gaze or hand-near-head behaviour with none, and that tracker starts now and is not logged. |
| Detector.MalpracticeDetector.LogNewAlerts | main.py:167-171 | The log grows by one record `(now, description)` per active key not logged before. Such a key gets tracker `(now, logged)`, a key already logged keeps its tracker, and inactive keys are unchanged. |
| Detector.MalpracticeDetector.RetireTrackers | main.py:173-176 | The remaining trackers are exactly the old ones whose key is active, with unchanged values. |
| Detector.MalpracticeDetector.GenerateFrames | main.py:197-207 | While monitoring, each frame goes through one alert step in order, so the final state is `Run` of the frames. When not monitoring, nothing changes. `Valid` holds afterwards if it held before, or if at least one frame was processed. |
| Detector.MalpracticeDetector.StartMonitoring | main.py:244-247 | Afterwards the detector is monitoring. From the stopped state it has an empty log and no trackers. When already monitoring, the log and trackers are unchanged. |
| Detector.MalpracticeDetector.StopMonitoring | main.py:253-254 | Afterwards the detector is not monitoring. Only the flag may change, so the log and trackers are untouched and `Valid` is kept. |
| Detector.MalpracticeDetector.GetAlerts | main.py:260-267 | It returns one entry per log record, in reverse log order (newest first), with records unchanged, and it does not modify the detector. |
| AlertProperties.ContainsIff | main.py:158 | The substring test used for gesture classes holds exactly when the text occurs at some position. |
| AlertProperties.JudgeMatchesRules | main.py:145-160 | A detection yields a key exactly when it meets the flat reference rule (`Qualifies`), and that key is its class. |
| AlertProperties.DetectionKeysIff | main.py:141-160 | A key is made by the detections exactly when some detection with that class qualifies. |
| AlertProperties.ActiveKeyRules | main.py:138-165 | A key is active in a call exactly when some qualifying detection has it as its class, or it is "Multiple People" and the multiple-people rule fires. |
| AlertProperties.MultiplePeopleKey | main.py:138-165 | "Multiple People" is active exactly when the rule fires (enabled, and more persons than `max_people`) or an object of that very class was detected. |
| AlertProperties.InstantKeys | main.py:145-160 | `person` is never active. Every non-person object is active, and so is every behaviour class containing "Gesture" other than the two timed classes, in the very call where it appears. |
| AlertProperties.TrimAfterAppend | main.py:170-178 | Appending n copies of a record and trimming leaves min(100, old + n) records. The last min(n, 100) of them are the new record and the rest are the newest old records in order. |
| AlertProperties.AppendedRecords | main.py:137-178 | One call appends exactly as many records as there are active keys not previously logged. All of them carry the call's `now` and the same description, and the rest of the log is the old log's tail in order. |
| AlertProperties.NextNewKeys | main.py:168-176 | After a call whose active keys are A, the keys that are new in the next call with active keys B are exactly B minus A. |
| AlertProperties.SustainedKeyNotLoggedAgain | main.py:168-171 | A key active in two consecutive calls is logged at most once: the second call appends nothing for it. |
| AlertProperties.InterruptedKeyLoggedAgain | main.py:173-176 | A key absent from one call has no tracker afterwards, so it is logged again when it reappears. |
| AlertProperties.InstantKeyLoggedOnFirstFrame | main.py:145-171 | A non-person object, or a behaviour class containing "Gesture" other than the two timed classes, that has no tracker is a new key in the call that first sees it. That call therefore appends at least one record. |
| AlertProperties.CallDescriptionRule | main.py:143-170 | The shared description is the collusion text when the multiple-people rule fires. Otherwise it is the last detection's text, which is "" when that detection makes no key. For an empty frame the model takes "". The code never binds the variable in that case, and the value cannot be observed: no key is active, so no record is written (`EmptyFrameStep`). |
| AlertProperties.TrailingPersonBlanksDescription | main.py:143-170 | From a fresh detector (no trackers, empty log) with the built-in parameters, a frame with a phone followed by a person logs a single record whose description is empty. |
| AlertProperties.StepKeepsChronological | main.py:170-178 | If the log is in timestamp order and no record is later than `now`, the same holds after one call at `now`. |
| AlertProperties.RunKeepsChronological | main.py:197-207 | Start from a log already in timestamp order, with no record later than the first frame. Frames with non-decreasing timestamps then keep the log in timestamp order. |
| AlertProperties.VerdictTextIsNot | main.py:150-157 | A timed key with no tracker and a non-negative threshold is not due, so no detection produces its text. |
| AlertProperties.DurationKeyStep | main.py:150-186 | In one call, take a gaze or hand-near-head key with no tracker, a non-negative threshold and no object of that class in the frame. It is not active, it keeps no tracker, and no record with its text is appended, provided the log had none before. |
| AlertProperties.DurationKeyInactive | main.py:150-157 | A gaze or hand-near-head key with no tracker, a non-negative threshold and no object of that class is not active in the call. |
| AlertProperties.CallTextIsNot | main.py:143-164 | The one description of a call is never the text of a timed key that has no tracker when its threshold is non-negative. |
| AlertProperties.DurationGatedNeverLogged | main.py:150-186 | Over any run of frames, take a gaze or hand-near-head key with a non-negative threshold, no tracker at the start, and no object of that class in any frame. The key is never kept, and if the log starts without its alert text, that text is never logged. |
| AlertProperties.RunKeepsTrackersLogged | main.py:168-178 | Over any run of frames, the log stays within 100 records and every remaining tracker is logged. This is the detector's object invariant. |
| AlertProperties.OnlyObjectFrameKeys | main.py:145-163 | A frame showing only one non-person object makes exactly that key active, with its object text. This holds when the multiple-people rule is off or `max_people` is non-negative. |
| AlertProperties.ObjectFirstFrameStep | main.py:145-178 | A frame showing only a non-person object not logged before appends one record with its text, and leaves that key as the only, logged tracker. This holds when the multiple-people rule is off or `max_people` is non-negative. |
| AlertProperties.ObjectSustainedStep | main.py:168-178 | A frame showing only an already-logged non-person object appends nothing and keeps only that key's tracker. This holds when the multiple-people rule is off or `max_people` is non-negative. |
| AlertProperties.EmptyFrameStep | main.py:173-178 | An empty frame appends nothing and removes every tracker. This holds when the multiple-people rule is off or `max_people` is non-negative. |
| AlertProperties.CrowdFirstFrameStep | main.py:138-171 | A frame of persons only, more than allowed, with "Multiple People" not logged before, appends one collusion record and leaves "Multiple People" as the only, logged tracker. |

## Left out

- Perception (main.py:57-133: object detection, pose, gaze and gesture analysis) calls into external vision models and does floating-point landmark geometry. Its output is the input detection sequence.
- Frame acquisition in `generate_frames` is left out: camera capture, drawing, JPEG encoding and the multipart stream. The model keeps only the loop rule: one alert step per frame while monitoring, and a stop when frames run out.
- Loading the parameter file (main.py:47-53) is file and JSON I/O. Only the built-in defaults of main.py:54 are kept, as `DEFAULT_CONFIG`. The parameters are constructor input, and only those the alert step reads are modelled. The perception-only parameters (confidence, sensitivity, the per-detector enabled flags) are not.
- The web layer (Flask app, page routes, `jsonify`) is left out.
- Wall-clock time is not modelled. `datetime.now()` becomes the `now` parameter, one per alert step; the source reads the clock again inside the duration check, microseconds later. Timestamps are stored as ticks, not ISO strings, and the `strftime` formatting of `get_alerts` is not modelled.
- Thresholds are integer ticks, not floating-point seconds.
- AlertProperties.DurationGatedNeverLogged: like DurationKeyStep and CheckDuration, it assumes one clock reading per call, but the source reads the clock again in every duration check (main.py:182). "Hand Near Head" is reported once per person in a frame (main.py:86-95). So a frame with two such detections and a threshold shorter than the time between the two checks (a threshold of 0, say) makes the second check due, and the code logs the key in that call. The model does not capture that case.
- Concurrency between request threads and the streaming generator is not modelled.
- train.py is not part of this model: it only writes a parameter file.
