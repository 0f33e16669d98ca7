/** The duration clock worker: a message handler over two closure variables,
    `time` and `timerInterval`, and the intervals it has scheduled. Each live
    interval fires one tick per second; a tick adds one to `time` and posts the
    new value. Tick delivery is an explicit step naming the interval that fires. */
module Clock {
  import opened Wrappers

  /** A handle returned by setInterval. */
  type Handle = nat

  datatype ClockState = ClockState(
    time: nat,
    timerInterval: Option<Handle>,
    live: set<Handle>,        // intervals scheduled and not cleared
    nextHandle: Handle,       // the handle setInterval returns next
    posted: seq<nat>)         // values posted to the page, oldest first

  function Initial(): (s: ClockState)
    ensures Inv(s) && s.time == 0 && s.live == {} && s.posted == []
  {
    ClockState(0, None, {}, 0, [])
  }

  /** Handles are issued in order, so every one in use has been issued. */
  ghost predicate Inv(s: ClockState)
  {
    (forall h :: h in s.live ==> h < s.nextHandle) &&
    (s.timerInterval.Some? ==> s.timerInterval.value < s.nextHandle)
  }

  /** clearInterval(timerInterval); clearing nothing or a cleared handle does nothing. */
  function ClearInterval(live: set<Handle>, h: Option<Handle>): set<Handle>
  {
    if h.Some? then live - {h.value} else live
  }

  /** setInterval: a fresh handle, now live, stored in timerInterval. */
  function SetInterval(s: ClockState): ClockState
  {
    s.(live := s.live + {s.nextHandle}, timerInterval := Some(s.nextHandle), nextHandle := s.nextHandle + 1)
  }

  /** onmessage with data { turn }: the three tests of the handler, in order. */
  function HandleMessage(s: ClockState, turn: string): (r: ClockState)
    ensures Inv(s) ==> Inv(r)
    ensures r.posted == s.posted
  {
    var s1 := if turn == "off" then s.(live := ClearInterval(s.live, s.timerInterval), time := 0) else s;
    var s2 := if turn == "on" then SetInterval(s1) else s1;
    if turn == "pause" then s2.(live := ClearInterval(s2.live, s2.timerInterval)) else s2
  }

  /** One firing of interval h: time += 1; postMessage({ time }). */
  function TickInterval(s: ClockState, h: Handle): (r: ClockState)
    requires h in s.live
    ensures Inv(s) ==> Inv(r)
    ensures r.time == s.time + 1 && r.posted == s.posted + [r.time]
  {
    s.(time := s.time + 1, posted := s.posted + [s.time + 1])
  }

  // ---------------------------------------------------------------------------
  // The three commands

  /** "off" clears the current interval and resets time to zero. */
  lemma OffResets(s: ClockState)
    requires Inv(s)
    ensures var r := HandleMessage(s, "off");
      r.time == 0 && r.timerInterval == s.timerInterval &&
      r.live == ClearInterval(s.live, s.timerInterval) &&
      (s.timerInterval.Some? ==> s.timerInterval.value !in r.live)
  {
  }

  /** "pause" clears the current interval and keeps time. */
  lemma PauseKeepsTime(s: ClockState)
    ensures var r := HandleMessage(s, "pause");
      r.time == s.time && r.live == ClearInterval(s.live, s.timerInterval) &&
      (s.timerInterval.Some? ==> s.timerInterval.value !in r.live)
  {
  }

  /** "on" starts a new interval and keeps time. */
  lemma OnStartsInterval(s: ClockState)
    requires Inv(s)
    ensures var r := HandleMessage(s, "on");
      r.time == s.time && r.timerInterval == Some(s.nextHandle) &&
      r.live == s.live + {s.nextHandle} && s.nextHandle !in s.live
  {
  }

  /** Any other turn leaves the clock untouched. */
  lemma UnknownTurnIgnored(s: ClockState, turn: string)
    requires turn != "on" && turn != "off" && turn != "pause"
    ensures HandleMessage(s, turn) == s
  {
  }

  /** After "pause" then "on", counting continues from the paused value. */
  lemma PauseThenOnContinues(s: ClockState)
    requires Inv(s)
    ensures var r := HandleMessage(HandleMessage(s, "pause"), "on");
      r.time == s.time && r.timerInterval.Some? && r.timerInterval.value in r.live &&
      TickInterval(r, r.timerInterval.value).posted == s.posted + [s.time + 1]
  {
  }

  /** After "off" then "on", whichever live interval fires first posts 1. */
  lemma OffThenOnPostsOne(s: ClockState, h: Handle)
    requires Inv(s)
    requires h in HandleMessage(HandleMessage(s, "off"), "on").live
    ensures TickInterval(HandleMessage(HandleMessage(s, "off"), "on"), h).posted == s.posted + [1]
  {
  }

  /** A second "on" with no "pause" or "off" between does not clear the first
      interval: both keep firing, and a later "pause" stops only the second. */
  lemma SecondOnLeaksInterval(s: ClockState)
    requires Inv(s)
    ensures var r := HandleMessage(HandleMessage(s, "on"), "on");
      var first, second := s.nextHandle, s.nextHandle + 1;
      r.timerInterval == Some(second) &&
      first in r.live && second in r.live && first != second &&
      first in HandleMessage(r, "pause").live && second !in HandleMessage(r, "pause").live
  {
  }

  // ---------------------------------------------------------------------------
  // Runs of ticks

  /** The live intervals in `hs` fire in this order, with no message between. */
  function RunTicks(s: ClockState, hs: seq<Handle>): Option<ClockState>
    decreases |hs|
  {
    if hs == [] then Some(s)
    else if hs[0] !in s.live then None
    else RunTicks(TickInterval(s, hs[0]), hs[1..])
  }

  /** from, from + 1, ..., from + n - 1 */
  function Consecutive(from: nat, n: nat): (r: seq<nat>)
    ensures |r| == n && forall i :: 0 <= i < n ==> r[i] == from + i
    decreases n
  {
    if n == 0 then [] else [from] + Consecutive(from + 1, n - 1)
  }

  /** With no message between, the values posted are consecutive integers
      continuing from `time`, whichever live intervals fire. */
  lemma {:induction false} TicksPostConsecutive(s: ClockState, hs: seq<Handle>)
    requires forall i :: 0 <= i < |hs| ==> hs[i] in s.live
    ensures RunTicks(s, hs).Some?
    ensures RunTicks(s, hs).value.time == s.time + |hs|
    ensures RunTicks(s, hs).value.posted == s.posted + Consecutive(s.time + 1, |hs|)
    decreases |hs|
  {
    if hs != [] {
      var t := TickInterval(s, hs[0]);
      assert forall i :: 0 <= i < |hs[1..]| ==> hs[1..][i] in t.live by {
        forall i | 0 <= i < |hs[1..]| ensures hs[1..][i] in t.live {
          assert hs[1..][i] == hs[i + 1];
        }
      }
      TicksPostConsecutive(t, hs[1..]);
      assert Consecutive(s.time + 1, |hs|) == [s.time + 1] + Consecutive(t.time + 1, |hs| - 1);
    }
  }

  // ---------------------------------------------------------------------------
  // The worker, as it runs

  class ClockWorker {
    var time: nat
    var timerInterval: Option<Handle>
    var live: set<Handle>
    var nextHandle: Handle
    var posted: seq<nat>

    function Abstract(): ClockState
      reads this
    {
      ClockState(time, timerInterval, live, nextHandle, posted)
    }

    ghost predicate Valid()
      reads this
    {
      Inv(Abstract())
    }

    constructor ()
      ensures Valid() && Abstract() == Initial()
    {
      time, timerInterval, live, nextHandle, posted := 0, None, {}, 0, [];
    }

    method OnMessage(turn: string)
      requires Valid()
      modifies this
      ensures Valid()
      ensures Abstract() == HandleMessage(old(Abstract()), turn)
    {
      if turn == "off" {
        live := ClearInterval(live, timerInterval);
        time := 0;
      }
      if turn == "on" {
        var h := nextHandle;
        nextHandle := nextHandle + 1;
        live := live + {h};
        timerInterval := Some(h);
      }
      if turn == "pause" {
        live := ClearInterval(live, timerInterval);
      }
    }

    /** The body of the interval callback, for the live interval h. */
    method Tick(h: Handle)
      requires Valid() && h in live
      modifies this
      ensures Valid()
      ensures Abstract() == TickInterval(old(Abstract()), h)
      ensures time == old(time) + 1 && posted == old(posted) + [time]
    {
      time := time + 1;
      posted := posted + [time];
    }
  }
}
