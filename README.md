# Hand gesture controller: classifier and cooldown dispatcher

This project models the decision core of a webcam hand-gesture controller
(`detection_app.py`, class `HandControllerApp`). It has two parts:

- **The gesture classifier** (`detect_gesture`), in module
  `GestureClassifier` (`classifier.dfy`). It takes one hand's landmarks and
  derives an "is up" flag per finger: the tip's y is numerically less than
  the PIP joint's y (smaller y is higher in the image), and for the thumb
  the reference is its IP joint. It also
  derives the 3D distance between the thumb tip and the index tip. It then
  tries five rules in a fixed order (V-SIGN, LIKE, OK, CALL, WAVE) and
  reports the first that matches, or none. `Classify` is that priority
  chain. `Matches` is the rule table read row by row. The lemmas say how
  the two relate. The rows are pairwise exclusive except OK and WAVE.
  Where both match, OK wins.
- **The dispatcher**, in module `GestureDispatch` (`dispatch.dfy`). This is
  the body of the per-frame camera loop in `process_camera`. When a hand is
  present, it classifies it. When the gesture is recognised, the time since
  the last dispatch exceeds the cooldown, and the gesture's label is a key
  of the action table, it runs the registered action and moves
  `lastDispatch` to the current time. `HandController` is the object with
  the fields `lastDispatch` (initially 0), `cooldown` (1.0) and
  `applications` (the label-keyed action table). Its method `Tick` changes
  those fields in place and records every action call in the ghost log
  `dispatched`. `ProcessFrames` is the camera loop over a sequence of
  frames. The pure functions `Step` and `Run` specify `Tick` and
  `ProcessFrames`. The invariant `Consistent` is proved for every run: any
  two dispatches are strictly more than one cooldown apart, whatever
  gestures caused them.

Coordinates are `real`. The source's test `sqrt(d²) < 0.05` is modelled
as `d² < 0.05 * 0.05`. `PinchedIffDistanceBelowThreshold` proves the two
agree. The thresholds 0.05 and 0.2 are the named constants
`OkPinchThreshold` and `WaveSpreadThreshold`. Gesture labels are the
source's own strings, emoji included. The action table is keyed by those
strings, as in the source.

The code has no error path for a malformed hand, so `Classify` is total.
The thresholds and the cooldown are fixed in the code. The pure
`Controller` value still takes any non-negative cooldown, and the
consistency lemmas hold for every such cooldown.

## Model

| member | source | states |
|---|---|---|
| `GestureClassifier.ThumbIndexDistanceSq` | detection_app.py:288-292 | the squared thumb-tip/index-tip 3D distance (the radicand of the source's square root) is never negative and is at least the squared gap along each axis |
| `GestureClassifier.PinchedIffDistanceBelowThreshold` | detection_app.py:288-292 | for the non-negative distance d whose square is computed, the squared test holds iff d < 0.05, as the source's `sqrt(...) < 0.05` does |
| `GestureClassifier.IsUp` | detection_app.py:295-299 | a finger is up iff its tip's y is numerically less than its PIP joint's y (the thumb's IP joint); the test is strict, so a level tip is not up and a finger and its reverse are never both up |
| `GestureClassifier.Pinched` | detection_app.py:313 | the OK pinch test `thumb_index_distance < 0.05`, on the squared distance; touching tips always pinch, and a pinch keeps the tips less than 0.05 apart on each axis |
| `GestureClassifier.Spread` | detection_app.py:325 | the signed spread `index_tip.x - pinky_tip.x`, positive exactly when the index tip lies right of the pinky tip |
| `GestureClassifier.Matches` | detection_app.py:302-326 | the five rule conditions, row by row, without priority; the middle and ring flags sort a matching row into V-SIGN, LIKE/CALL or OK/WAVE |
| `GestureClassifier.Label` | detection_app.py:304-326 | the source's own string for each gesture, emoji included; never empty, so a recognised gesture passes the truth test at line 219 |
| `GestureClassifier.ClassifyIgnoresPosition` | detection_app.py:288-326 | moving every joint of the hand by the same vector leaves the classification unchanged, since every test compares joints with each other |
| `GestureClassifier.Classify` | detection_app.py:294-328 | a returned gesture's rule row matches; no row earlier in the order V-SIGN, LIKE, OK, CALL, WAVE matches; and None means no row matches |
| `GestureClassifier.OnlyOkAndWaveOverlap` | detection_app.py:301-326 | two different rule rows that match the same hand are OK and WAVE; every other pair excludes each other |
| `GestureClassifier.ClassifyExact` | detection_app.py:301-328 | the result is g iff g's row matches, except that a hand matching both WAVE and OK is OK (both directions) |
| `GestureClassifier.OkShadowsWave` | detection_app.py:312-326 | some hand matches both OK and WAVE, and it is classified OK, so the priority order matters |
| `GestureClassifier.VSignWhateverThumb` | detection_app.py:301-304 | index and middle up with ring and pinky down give V-SIGN for any thumb, and so for any thumb-index distance |
| `GestureClassifier.ThumbAndIndexWithoutMiddleIsNone` | detection_app.py:301-328 | thumb and index up with middle down gives no gesture: not LIKE and not V-SIGN |
| `GestureClassifier.OkIgnoresThumbAndIndexFlags` | detection_app.py:312-315 | the result is OK iff the pinch test holds and middle, ring and pinky are up, whatever the thumb's and index's own flags |
| `GestureClassifier.WaveMeansSpreadAndApart` | detection_app.py:312-326 | a WAVE result implies all five fingers up, a signed spread above 0.2, and a thumb-index distance of at least 0.05 |
| `GestureClassifier.WaveSpreadIsStrictAndSigned` | detection_app.py:322-328 | an open, unpinched hand with spread exactly 0.2, or with the pinky more than 0.2 right of the index, gives no gesture |
| `GestureDispatch.DefaultApplications` | detection_app.py:38-44 | the action table: every label the classifier returns is a key, every key is such a label, and distinct gestures reach distinct entries |
| `GestureDispatch.DefaultRegistryNeverDrops` | detection_app.py:215-229 | with the default table, a recognised gesture after the cooldown always dispatches, and it dispatches that gesture |
| `GestureDispatch.Step` | detection_app.py:202-229 | one frame appends exactly one dispatch iff a hand is present, it classifies to a gesture, now - lastDispatch > cooldown, and the label is registered; that dispatch carries the gesture, its registered command and `now`, and lastDispatch becomes now; otherwise nothing changes |
| `GestureDispatch.Run` | detection_app.py:180-229 | running frames in order only appends to the log, at most one dispatch per frame, and never changes cooldown or table |
| `GestureDispatch.StepKeepsConsistent` | detection_app.py:219-229 | one frame preserves the invariant: logged dispatches pairwise more than cooldown apart, lastDispatch equal to the latest one |
| `GestureDispatch.RunKeepsConsistent` | detection_app.py:219-229 | any sequence of frames preserves that invariant |
| `GestureDispatch.AtMostOneDispatchPerWindow` | detection_app.py:219-229 | any two dispatches of a run are more than one cooldown apart, whatever gestures caused them (one shared cooldown) |
| `GestureDispatch.CooldownScenario` | detection_app.py:215-229 | with cooldown 1.0 elapsed at t, gesture frames at t, t+0.1, t+0.5, t+1.1 dispatch exactly twice, at t and t+1.1, even for different gestures |
| `GestureDispatch.HandController.constructor` | detection_app.py:30-44 | starts with lastDispatch 0, cooldown 1.0, the default action table and an empty dispatch log |
| `GestureDispatch.HandController.Tick` | detection_app.py:202-229 | updates the fields and the dispatch log exactly as `Step` does, and keeps the invariant |
| `GestureDispatch.HandController.ProcessFrames` | detection_app.py:180-229 | a tick per frame in capture order leaves the state that `Run` gives, and keeps the invariant |

## Left out

- Camera capture, resizing, mirroring, colour conversion and the MediaPipe hand detector. These are I/O and a foreign model. The detected hand, or its absence, is an input to `Tick`.
- The MCP and wrist landmarks. The classifier reads them but no decision uses them. The fields `prev_hand_x`, `prev_hand_y`, `smoothing` and `show_cursor` are left out for the same reason.
- Drawing landmarks, on-screen text, the preview window, and the ESC key that ends the loop. These are rendering and UI. `ProcessFrames` runs over a given finite sequence of frames.
- The Tkinter window, the start, stop and closing handlers, the camera thread and the `is_running` flag. These are UI lifecycle and concurrency.
- The action bodies (`open_browser`, `open_notepad`, `open_calculator`, `open_email`, `close_current_app`). They are operating-system side effects. Each call is recorded as a `Command` in the ghost dispatch log. A call returns when the launched command returns. Some commands (`gedit`, `gnome-calculator` through `os.system`) run in the foreground, so the camera loop waits until that program exits. In the model such a stall shows only as a later `now` on the next frame. The spacing lemmas hold for any frame times. The handlers catch `Exception` only; anything else they raise is not modelled.
- The clock `time.time()`. The current time is a parameter of `Tick` and of each `Frame`.
- Floating-point rounding. Coordinates and times are exact reals. The square root is replaced by a comparison of squared distances.
- The Python truthiness test on the gesture string. Every label is a non-empty string, so "truthy" is modelled as a recognised gesture (`Some`).
