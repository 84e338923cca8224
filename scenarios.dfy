/** Sessions driven through the stabilizer's contracts alone. */
module Scenarios {
  import opened Wrappers
  import opened Smoothing
  import opened Counters
  import opened Stabilizer

  /**
   * A lone frame at the session start is never shown: the cooldown also
   * gates the first transition, so finalizing records no duration.
   */
  method LoneFrameAtStart()
  {
    var s := new EmotionStabilizer(0.0);
    var shown := s.Observe("neutral", 0.0);
    assert shown == None;
    s.Finalize(10.0);
    assert s.durations == map[];
    assert s.counts == map[None := 1];
  }

  /**
   * Two "happy" frames and a "sad" one: "happy" is shown once the cooldown
   * is over and keeps the majority, so the whole tail of the session is
   * booked to it.
   */
  method HappyThenOneSadFrame()
  {
    var s := new EmotionStabilizer(0.0);
    var shown := s.Observe("happy", 1.0);
    assert shown == None;
    shown := s.Observe("happy", 6.5);
    assert s.window == ["happy", "happy"];
    StrictMajorityWins(["happy", "happy"], "happy");
    assert shown == Some("happy");
    shown := s.Observe("sad", 12.0);
    assert s.window == ["happy", "happy", "sad"];
    StrictMajorityWins(["happy", "happy", "sad"], "happy");
    assert shown == Some("happy");
    s.Finalize(16.5);
    assert s.durations == map["happy" := 10.0];
  }
}
