/**
 * The per-frame smoothing and duration accounting of the main loop, as an
 * object: `window` is `emotion_history`, `current` is `current_emotion`,
 * `emotionStart` and `lastUpdate` are `emotion_start_time` and
 * `feedback_last_update`, `durations` and `counts` are
 * `emotion_durations` and `emotion_counter`.
 */
module Stabilizer {
  import opened Wrappers
  import opened Smoothing
  import opened Counters

  /** Seconds that must strictly elapse after the last accepted transition. */
  const Cooldown: real := 5.0

  /** The transition rule: the vote differs from the shown emotion and the cooldown is over. */
  predicate Accepts(majority: Label, current: Option<Label>, lastUpdate: real, now: real)
  {
    Some(majority) != current && now - lastUpdate > Cooldown
  }

  /** The latest accepted transition, or the session start before the first one. */
  function Latest(start: real, times: seq<real>): real
  {
    if times == [] then start else times[|times| - 1]
  }

  /**
   * Each accepted transition lies more than a cooldown after the one before
   * it, and the first more than a cooldown after the session start.
   */
  ghost predicate Spaced(start: real, times: seq<real>)
    decreases |times|
  {
    times == [] ||
    (var before := times[..|times| - 1];
     Spaced(start, before) && times[|times| - 1] - Latest(start, before) > Cooldown)
  }

  /** A transition accepted by the cooldown gate keeps the transitions spaced. */
  lemma SpacedExtend(start: real, times: seq<real>, now: real)
    requires Spaced(start, times)
    requires now - Latest(start, times) > Cooldown
    ensures Spaced(start, times + [now]) && Latest(start, times + [now]) == now
  {
    assert (times + [now])[..|times|] == times;
  }

  /** Spaced transitions are in increasing order and none comes before the session start. */
  lemma {:induction false} SpacedBounds(start: real, times: seq<real>, i: nat)
    requires Spaced(start, times) && i < |times|
    ensures start + Cooldown < times[i] <= Latest(start, times)
    decreases |times|
  {
    var before := times[..|times| - 1];
    if i < |times| - 1 {
      SpacedBounds(start, before, i);
    } else if before != [] {
      SpacedBounds(start, before, |before| - 1);
    }
  }

  /** Any two accepted transitions, and the session start and any transition, lie more than a cooldown apart. */
  lemma {:induction false} SpacedPairwise(start: real, times: seq<real>, i: nat, j: nat)
    requires Spaced(start, times) && i < j < |times|
    ensures times[i] - start > Cooldown && times[j] - times[i] > Cooldown
    decreases |times|
  {
    var before := times[..|times| - 1];
    if j < |times| - 1 {
      SpacedPairwise(start, before, i, j);
    } else {
      SpacedBounds(start, before, i);
    }
  }

  /**
   * The closed intervals add up to the time from the first accepted
   * transition to the start of the open one, and nothing is recorded
   * before the first transition.
   */
  ghost predicate Covered(durations: map<Label, real>, times: seq<real>, emotionStart: real)
  {
    && (times == [] ==> durations == map[])
    && (times != [] ==> Total(durations) == emotionStart - times[0])
  }

  /**
   * Closing the open interval at an accepted transition `now` (lines 61-63
   * of the script) and opening the next one at `now` keeps the intervals
   * covering the session from the first transition on.
   */
  lemma FlushCovers(durations: map<Label, real>, times: seq<real>, current: Option<Label>, emotionStart: real, now: real)
    requires Covered(durations, times, emotionStart)
    requires current.None? <==> times == []
    requires emotionStart <= now
    ensures Covered(if current.Some? then AddTo(durations, current.value, now - emotionStart) else durations,
                    times + [now], now)
  {
    if current.Some? {
      TotalAddTo(durations, current.value, now - emotionStart);
    } else {
      assert Total(durations) == 0.0;
    }
  }

  class EmotionStabilizer {
    var window: seq<Label>
    var current: Option<Label>
    var emotionStart: real
    var lastUpdate: real
    var durations: map<Label, real>
    var counts: map<Option<Label>, nat>
    const sessionStart: real

    /** Every label observed so far, oldest first. */
    ghost var history: seq<Label>
    /** The time of every accepted transition, oldest first. */
    ghost var switches: seq<real>
    /** The latest time handed in; times never go backwards. */
    ghost var clock: real
    /** Set once the last open interval has been flushed. */
    ghost var finalized: bool

    /** The window holds the newest WindowSize observed labels, in arrival order. */
    ghost predicate WindowValid()
      reads this`window, this`history
    {
      window == LastN(history, WindowSize)
    }

    /**
     * Something is shown exactly when a transition was accepted; both
     * timers sit at the latest accepted transition, or at the session start.
     */
    ghost predicate ShownValid()
      reads this`current, this`switches, this`emotionStart, this`lastUpdate
    {
      && (current.None? <==> switches == [])
      && Spaced(sessionStart, switches)
      && lastUpdate == emotionStart == Latest(sessionStart, switches)
    }

    /** The closed intervals cover the session from the first transition to the open one. */
    ghost predicate DurationsValid()
      reads this`durations, this`switches, this`emotionStart
    {
      Covered(durations, switches, emotionStart)
    }

    ghost predicate Valid()
      reads this
    {
      && !finalized
      && WindowValid()
      && ShownValid()
      && DurationsValid()
      && (current.Some? ==> current.value in history)
      && emotionStart <= clock
      && Tally(counts) == |history|
    }

    /** A session that starts at `start`: nothing observed, nothing shown, both timers at `start`. */
    constructor (start: real)
      ensures Valid()
      ensures window == [] && current == None && durations == map[] && counts == map[]
      ensures sessionStart == start && emotionStart == start && lastUpdate == start
      ensures history == [] && switches == [] && clock == start
    {
      window := [];
      current := None;
      emotionStart := start;
      lastUpdate := start;
      durations := map[];
      counts := map[];
      sessionStart := start;
      history := [];
      switches := [];
      clock := start;
      finalized := false;
    }

    /**
     * One processed frame whose classifier label is `detected`, at time `now`.
     * Returns the emotion to display.
     */
    method Observe(detected: Label, now: real) returns (shown: Option<Label>)
      requires Valid() && clock <= now
      modifies this
      ensures Valid() && clock == now
      ensures history == old(history) + [detected]
      ensures window == Slide(old(window), detected) && |window| <= WindowSize
      ensures Accepts(MostCommon(window), old(current), old(lastUpdate), now) ==>
        && current == Some(MostCommon(window))
        && emotionStart == now && lastUpdate == now
        && durations == (if old(current).Some?
                         then AddTo(old(durations), old(current).value, now - old(emotionStart))
                         else old(durations))
        && switches == old(switches) + [now]
      ensures !Accepts(MostCommon(window), old(current), old(lastUpdate), now) ==>
        && current == old(current)
        && emotionStart == old(emotionStart) && lastUpdate == old(lastUpdate)
        && durations == old(durations)
        && switches == old(switches)
      ensures counts == Bump(old(counts), current)
      ensures old(current).Some? ==> current.Some?
      ensures forall k :: k in old(durations) ==> k in durations && durations[k] >= old(durations)[k]
      ensures shown == current
    {
      Append(detected);
      clock := now;
      Stabilize(now);
      CountFrame();
      shown := current;
    }

    /**
     * The vote over the window and the transition rule (lines 56-68 of the
     * script): switch to the majority only when it differs from what is
     * shown and the cooldown is over.
     */
    method Stabilize(now: real)
      requires ShownValid() && DurationsValid() && 0 < |window|
      requires window == LastN(history, WindowSize)
      requires current.Some? ==> current.value in history
      modifies this`current, this`emotionStart, this`lastUpdate, this`durations, this`switches
      ensures ShownValid() && DurationsValid()
      ensures current.Some? ==> current.value in history
      ensures Accepts(MostCommon(window), old(current), old(lastUpdate), now) ==>
        && current == Some(MostCommon(window))
        && emotionStart == now && lastUpdate == now
        && durations == (if old(current).Some?
                         then AddTo(old(durations), old(current).value, now - old(emotionStart))
                         else old(durations))
        && switches == old(switches) + [now]
      ensures !Accepts(MostCommon(window), old(current), old(lastUpdate), now) ==>
        && current == old(current)
        && emotionStart == old(emotionStart) && lastUpdate == old(lastUpdate)
        && durations == old(durations)
        && switches == old(switches)
      ensures forall k :: k in old(durations) ==> k in durations && durations[k] >= old(durations)[k]
    {
      var majority := MostCommon(window);
      if Some(majority) != current && now - lastUpdate > Cooldown {
        InLastN(history, WindowSize, majority);
        SwitchTo(majority, now);
      }
    }

    /** `emotion_history.append(detected)`: the window follows the history. */
    method Append(detected: Label)
      requires WindowValid()
      modifies this`window, this`history
      ensures WindowValid()
      ensures history == old(history) + [detected]
      ensures window == Slide(old(window), detected)
    {
      WindowOfHistory(history, detected);
      window := Slide(window, detected);
      history := history + [detected];
    }

    /** An accepted transition at `now`: the open interval is closed and `majority` is shown from `now` on. */
    method SwitchTo(majority: Label, now: real)
      requires ShownValid() && DurationsValid()
      requires Some(majority) != current && now - lastUpdate > Cooldown
      modifies this`current, this`emotionStart, this`lastUpdate, this`durations, this`switches
      ensures ShownValid() && DurationsValid()
      ensures current == Some(majority) && emotionStart == now && lastUpdate == now
      ensures switches == old(switches) + [now]
      ensures durations == (if old(current).Some?
                            then AddTo(old(durations), old(current).value, now - old(emotionStart))
                            else old(durations))
      ensures forall k :: k in old(durations) ==> k in durations && durations[k] >= old(durations)[k]
    {
      SpacedExtend(sessionStart, switches, now);
      FlushCovers(durations, switches, current, emotionStart, now);
      if current.Some? {
        TotalAddTo(durations, current.value, now - emotionStart);
        durations := AddTo(durations, current.value, now - emotionStart);
      }
      current := Some(majority);
      emotionStart := now;
      lastUpdate := now;
      switches := switches + [now];
    }

    /** `emotion_counter[current_emotion] += 1`: the frame is counted for what is shown. */
    method CountFrame()
      requires Tally(counts) + 1 == |history|
      modifies this`counts
      ensures Tally(counts) == |history|
      ensures counts == Bump(old(counts), current)
    {
      TallyBump(counts, current);
      counts := Bump(counts, current);
    }

    /**
     * End of the session at time `now`: the interval of the shown emotion,
     * if any, is added to its duration. Afterwards the durations cover the
     * whole span from the first accepted transition to `now`.
     */
    method Finalize(now: real)
      requires Valid() && clock <= now
      modifies this`durations, this`finalized
      ensures finalized
      ensures current.Some? ==> durations == AddTo(old(durations), current.value, now - emotionStart)
      ensures current.None? ==> durations == old(durations) == map[]
      ensures switches != [] ==> Total(durations) == now - switches[0]
      ensures forall k :: k in old(durations) ==> k in durations && durations[k] >= old(durations)[k]
    {
      if current.Some? {
        TotalAddTo(durations, current.value, now - emotionStart);
        durations := AddTo(durations, current.value, now - emotionStart);
      }
      finalized := true;
    }
  }
}
