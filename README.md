# Emotion stabilizer: a Dafny model

`emotion_detection_deepface.py` is a webcam script. Once per frame it asks a
face-analysis library for the dominant emotion. It then smooths that noisy
label stream into a stable "current emotion", tints the frame and prints a
canned feedback sentence. At the end of the session it reports how many
seconds each emotion was shown and how many frames were attributed to it.

This project models the logic of that script, which is the smoothing and
accounting policy of the main loop plus the two lookup tables the display uses:

- `Smoothing` (smoothing.dfy) models the recent-label window, a
  `deque(maxlen=10)` appended once per frame. It also models the majority vote
  `Counter(window).most_common(1)`. `MostCommon` picks the label with the
  highest count. Among tied labels it picks the one whose first occurrence in
  the window, read oldest to newest, comes earliest. That is what
  `most_common(1)` returns, because a Counter built from the window lists its
  keys in first-occurrence order and keeps the first maximum.
- `Counters` (counters.dfy) models the two `Counter` objects as maps.
  `c[k] += d` reads a missing key as zero. `Total` and `Tally` are the sums of
  the values.
- `Stabilizer` (stabilizer.dfy) holds the class `EmotionStabilizer`. Its fields
  are the script's globals: `window`, `current`, `emotionStart`, `lastUpdate`,
  `durations` and `counts`. `Observe(detected, now)` is one pass of the main
  loop's smoothing (lines 53-71). `Finalize(now)` flushes the last open
  interval (lines 93-94). Ghost fields record every observed label
  (`history`), every accepted transition time (`switches`), the latest time
  seen (`clock`), and whether the session was finalized. `Valid()` ties them
  to the real fields:
  - the window is the newest 10 labels of the history, in arrival order;
  - something is shown exactly when a transition has been accepted;
  - consecutive transitions are spaced more than 5 s apart, and so are the
    session start and the first transition;
  - both timers sit at the latest transition, or at the session start;
  - the recorded durations add up to the time from the first transition to the
    start of the open interval;
  - the frame counts add up to the number of frames observed.
- `Feedback` (feedback.dfy) models `ai_feedback` and the `emotion_colors`
  overlay table.
- `Scenarios` (scenarios.dfy) drives two short sessions through the class
  contracts alone.

Decisions the code makes, which the model follows:

- **Time is one reading per frame.** The script reads `time.time()` up to four
  times in one frame (lines 59, 62, 67 and 68). The model uses a single `now`
  per call. Times are `real` seconds and must not go backwards between calls.
- **The first transition is gated too.** `feedback_last_update` starts at the
  session start (line 17). So even the first switch away from `None` needs more
  than 5 s to have passed since the session started. A session whose only
  frame comes at its start shows nothing and records no duration, however late
  it is finalized (`Scenarios.LoneFrameAtStart`).
- **Ties go to the first-seen label.** The vote's tie-break is the Counter's
  first-occurrence order, not the most recent label.
- **Frames are counted for what is shown.** `counts` is keyed by the shown
  emotion, so `None` is a key: frames before the first transition are counted
  under `None` (line 71).
- **Finalizing happens once.** The script finalizes once, at the end of the
  session. After `Finalize` the object is no longer `Valid()`, so neither
  `Observe` nor `Finalize` can be called again.
- **Colour names follow the channel order.** The colour triples are kept as
  written, in the blue-green-red channel order of the camera frames. The
  table's comments name them as if they were red-green-blue. For example,
  "sad" is `(255, 0, 0)`, which tints the frame blue.

## Model

| member | source | states |
|---|---|---|
| `Smoothing.Slide` | emotion_detection_deepface.py:53 | Appending to the full window evicts its oldest label first. The result is the newest 10 labels of the old window followed by the new one, and never holds more than 10 labels. |
| `Smoothing.WindowOfHistory` | emotion_detection_deepface.py:12-53 | Sliding the previous window is the same as taking the newest 10 labels of the whole history. After n frames the window holds the last min(n, 10) labels in arrival order. |
| `Smoothing.InLastN` | emotion_detection_deepface.py:53-56 | Every label in the window was observed. |
| `Smoothing.FirstIndex` | emotion_detection_deepface.py:56 | The position it returns holds the label, and no earlier position does. |
| `Smoothing.MostCommon` | emotion_detection_deepface.py:56 | The vote over a non-empty window is always one of the window's labels. |
| `Smoothing.ScanFromFindsMostCommon` | emotion_detection_deepface.py:56 | The scan keeps the winner of the positions seen so far: a label replaces it only with a strictly higher count. The scan therefore ends at the window's winner. |
| `Smoothing.MostCommonCorrect` | emotion_detection_deepface.py:56 | The vote has the highest count in the window. Among labels with that count, its first occurrence is the earliest. |
| `Smoothing.MostCommonUnique` | emotion_detection_deepface.py:56 | A label satisfies the vote's definition if and only if it is what `MostCommon` returns, so the vote is fully determined. |
| `Smoothing.CountPair` | emotion_detection_deepface.py:56 | Two different labels together occur no more often than the window is long. |
| `Smoothing.StrictMajorityWins` | emotion_detection_deepface.py:55-56 | A label holding more than half of the window wins the vote. |
| `Counters.TotalAddTo` | emotion_detection_deepface.py:61-63 | `durations[k] += d` adds exactly `d` to the total and touches no other key. When `d` is not negative, no entry goes down. |
| `Counters.TallyBump` | emotion_detection_deepface.py:71 | `counts[k] += 1` raises that one key by 1, starting from 0 when it is missing, touches no other key, and adds exactly 1 to the total. |
| `Stabilizer.SpacedExtend` | emotion_detection_deepface.py:59-68 | A transition that passes the strict 5 s cooldown, measured from the latest transition or the session start, keeps the transitions spaced and becomes the latest. |
| `Stabilizer.SpacedBounds` | emotion_detection_deepface.py:14-68 | Accepted transitions come more than 5 s after the session start and no later than the latest one. |
| `Stabilizer.SpacedPairwise` | emotion_detection_deepface.py:14-68 | Any two accepted transitions are more than 5 s apart, and so are the session start and any transition. |
| `Stabilizer.FlushCovers` | emotion_detection_deepface.py:61-68 | Closing the open interval at an accepted transition and opening the next one keeps the durations covering the session since the first transition. The shown emotion's entry is credited only if it is not `None`. |
| `Stabilizer.EmotionStabilizer.constructor` | emotion_detection_deepface.py:11-17 | A session starts with an empty window, nothing shown, empty counters, and both timers at the start time. |
| `Stabilizer.EmotionStabilizer.Observe` | emotion_detection_deepface.py:53-71 | The label joins the bounded window. If the vote differs from what is shown and more than 5 s have passed since the last update, the shown emotion's interval is credited (unless nothing was shown), the vote is shown, and both timers move to `now`. Otherwise the shown emotion, both timers and the durations are unchanged. Exactly one count goes up by 1: the one for what is shown after that decision. Once something is shown, `None` never returns. No duration goes down, and the invariant is kept. |
| `Stabilizer.EmotionStabilizer.Append` | emotion_detection_deepface.py:53 | The window becomes the slid window and stays the newest 10 labels of the history. |
| `Stabilizer.EmotionStabilizer.Stabilize` | emotion_detection_deepface.py:56-68 | It switches to the vote exactly when the transition rule accepts it, with the timer and duration effects described for `Observe`, and otherwise leaves everything as it was. |
| `Stabilizer.EmotionStabilizer.SwitchTo` | emotion_detection_deepface.py:61-68 | An accepted transition credits the open interval, shows the new emotion, resets both timers to `now` and records the transition. |
| `Stabilizer.EmotionStabilizer.CountFrame` | emotion_detection_deepface.py:71 | The frame is counted once, under the shown emotion, so the counts add up to the number of frames observed. |
| `Stabilizer.EmotionStabilizer.Finalize` | emotion_detection_deepface.py:93-94 | The shown emotion, if any, is credited with the open interval. The durations then add up to `now` minus the first accepted transition, or stay empty if no transition was ever accepted. No entry goes down. |
| `Feedback.AiFeedback` | emotion_detection_deepface.py:28-38 | For "happy", "sad", "angry" and "surprise" the sentence is one of that emotion's two canned responses. For any other label, and for `None`, it is "Stay balanced and keep going!". |
| `Feedback.FeedbackChoices` | emotion_detection_deepface.py:30-37 | For each of the four emotions, some choice yields each of its canned responses, and no choice yields anything else. |
| `Feedback.FallbackIsDistinct` | emotion_detection_deepface.py:30-38 | The fallback sentence is none of the canned responses. |
| `Feedback.OverlayColour` | emotion_detection_deepface.py:20-25 | A tint exists exactly for "happy", "sad", "angry" and "surprise". |
| `Feedback.ColoursDistinct` | emotion_detection_deepface.py:20-25 | Different tinted emotions get different tints. |
| `Feedback.TintMatchesFeedback` | emotion_detection_deepface.py:20-38 | A frame is tinted exactly when its feedback is a canned response rather than the fallback. |

## Left out

- Camera capture, frame display, the `q` key that ends the loop, and window teardown (lines 41-48, 85-89, 97-98) are OpenCV input and output.
- DeepFace classification (lines 51-52) is a foreign machine-learning library. The detected label is `Observe`'s input.
- Blending the overlay at 0.3/0.7 and drawing the text (lines 76-77, 81-82) are floating-point image arithmetic and rendering. Only the choice of tint and sentence is modelled.
- The session summary printout, the unused `total_duration` (line 102) and the bar chart (lines 100-114) are output formatting and plotting. The model provides the `durations` and `counts` maps they read.
- `random.choice` (line 37) is not random here. The caller supplies the choice as `pick`, and its remainder modulo the number of responses selects one.
- `time.time()` becomes the caller-supplied `now`.
- Observe: durations are exact reals; the floating-point rounding of the script's second counts is not modelled.
- Finalize: a second call is ruled out by its precondition instead of being modelled; the script only ever finalizes once.
