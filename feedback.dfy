/**
 * What the display layer derives from the shown emotion: the canned
 * feedback sentence of `ai_feedback` and the overlay tint.
 */
module Feedback {
  import opened Wrappers
  import opened Smoothing

  /** The two canned sentences of each emotion that gets a personal response. */
  const Responses: map<Label, seq<string>> := map[
    "happy" := ["Keep up the positive energy!", "Happiness looks great on you!"],
    "sad" := ["Take a deep breath. It\U{2019}s okay to feel down sometimes.", "Consider doing something you enjoy!"],
    "angry" := ["Take a few calming breaths.", "It might help to take a quick walk!"],
    "surprise" := ["You look pleasantly surprised!", "Stay curious!"]
  ]

  /** The sentence shown for every other emotion, and before any emotion is shown. */
  const Fallback: string := "Stay balanced and keep going!"

  /** The emotions with their own responses and their own tint. */
  const Tinted: set<Label> := {"happy", "sad", "angry", "surprise"}

  /**
   * `ai_feedback(emotion)`. The random choice among an emotion's responses
   * is the caller's `pick`, taken modulo the number of responses.
   */
  function AiFeedback(emotion: Option<Label>, pick: nat): (r: string)
    ensures emotion.Some? && emotion.value in Tinted ==> r in Responses[emotion.value]
    ensures !(emotion.Some? && emotion.value in Tinted) ==> r == Fallback
  {
    if emotion.Some? && emotion.value in Responses then
      var options := Responses[emotion.value];
      options[pick % |options|]
    else
      Fallback
  }

  /** Every canned response of an emotion can be drawn, and nothing else can. */
  lemma FeedbackChoices(e: Label, r: string)
    requires e in Tinted
    ensures (exists pick: nat :: AiFeedback(Some(e), pick) == r) <==> r in Responses[e]
  {
    if r in Responses[e] {
      var options := Responses[e];
      var i :| 0 <= i < |options| && options[i] == r;
      assert AiFeedback(Some(e), i) == r;
    }
  }

  /** The fallback sentence is not one of the canned responses, so it tells the cases apart. */
  lemma FallbackIsDistinct(e: Label)
    requires e in Tinted
    ensures Fallback !in Responses[e]
  {
  }

  /** An 8-bit colour channel. */
  type Channel = c: int | 0 <= c < 256

  /** A colour in the channel order of the camera frames (blue, green, red). */
  datatype Bgr = Bgr(blue: Channel, green: Channel, red: Channel)

  /** `emotion_colors`, in the order the table lists its channels. */
  const Colours: map<Label, Bgr> := map[
    "happy" := Bgr(0, 255, 0),
    "sad" := Bgr(255, 0, 0),
    "angry" := Bgr(0, 0, 255),
    "surprise" := Bgr(255, 255, 0)
  ]

  /** The tint laid over the frame for the shown emotion, if any. */
  function OverlayColour(emotion: Option<Label>): (c: Option<Bgr>)
    ensures c.Some? <==> emotion.Some? && emotion.value in Tinted
  {
    if emotion.Some? && emotion.value in Colours then Some(Colours[emotion.value]) else None
  }

  /** Distinct tinted emotions get distinct tints. */
  lemma ColoursDistinct(e1: Label, e2: Label)
    requires e1 in Tinted && e2 in Tinted && e1 != e2
    ensures OverlayColour(Some(e1)) != OverlayColour(Some(e2))
  {
  }

  /** A frame is tinted exactly when its feedback is a personal response. */
  lemma TintMatchesFeedback(emotion: Option<Label>, pick: nat)
    ensures OverlayColour(emotion).Some? <==> AiFeedback(emotion, pick) != Fallback
  {
    if emotion.Some? && emotion.value in Tinted {
      FallbackIsDistinct(emotion.value);
    }
  }
}
