/**
 * The coalesced thinking widget: its open and close timers over whole turns of
 * overlapping reasoning bursts, against what the reader of the chat should see.
 */
module ThinkingWidget {
  import opened Prelude

  const AUTO_CLOSE_DELAY_MS: nat := 3000
  const TICK_MS: nat := 50

  datatype Burst = Start(t: nat) | End(t: nat)

  // ------------------------------------------------------------------ the turn

  /** The bursts under way after the first `m` events. */
  function Active(turn: seq<Burst>, m: nat): int
    requires m <= |turn|
  {
    if m == 0 then 0 else Active(turn, m - 1) + if turn[m - 1].Start? then 1 else -1
  }

  /** Bursts that overlap as they like but begin before they end, and all end. */
  predicate Balanced(turn: seq<Burst>) {
    && turn != []
    && (forall m :: 0 <= m <= |turn| ==> Active(turn, m) >= 0)
    && Active(turn, |turn|) == 0
  }

  /** Balanced bursts in time order on the tick grid. */
  predicate Turn(turn: seq<Burst>) {
    && (forall i, j :: 0 <= i < j < |turn| ==> turn[i].t <= turn[j].t)
    && (forall i :: 0 <= i < |turn| ==> turn[i].t % TICK_MS == 0)
    && Balanced(turn)
  }

  /** The number of events before time `t`. */
  function Before(turn: seq<Burst>, t: nat): (m: nat)
    ensures m <= |turn|
  {
    if turn == [] then 0 else Before(turn[..|turn| - 1], t) + if turn[|turn| - 1].t < t then 1 else 0
  }

  /** What should be seen after `m` events when the timers were last looked at at `upTo`. */
  predicate Open(turn: seq<Burst>, m: nat, upTo: int)
    requires m <= |turn|
  {
    m > 0 && (Active(turn, m) > 0 || upTo < turn[m - 1].t + AUTO_CLOSE_DELAY_MS)
  }

  /** What should be seen at time `t`: thinking, or not quiet for long enough. */
  predicate OpenAt(turn: seq<Burst>, t: nat) {
    Open(turn, Before(turn, t + 1), t)
  }

  /** The ticks among the first `n` at which the widget goes from open to closed. */
  function Closings(turn: seq<Burst>, n: nat): seq<nat> {
    if n == 0 then []
    else Closings(turn, n - 1)
         + if n > 1 && OpenAt(turn, TICK_MS * (n - 2)) && !OpenAt(turn, TICK_MS * (n - 1))
           then [TICK_MS * (n - 1)] else []
  }

  /** The events that fall on one tick, in the order they are listed. */
  function EventsAt(turn: seq<Burst>, t: nat): seq<Burst> {
    if turn == [] then []
    else EventsAt(turn[..|turn| - 1], t) + if turn[|turn| - 1].t == t then [turn[|turn| - 1]] else []
  }

  /** `e` behind every event of `turn` that is not later. */
  function Slot(e: Burst, turn: seq<Burst>): (r: seq<Burst>)
    ensures |r| == |turn| + 1
  {
    var n := |turn| - 1;
    if n >= 0 && e.t < turn[n].t then Slot(e, turn[..n]) + [turn[n]] else turn + [e]
  }

  /** The events of a listing that fall on a tick, by time and then in the order listed. */
  function Schedule(listing: seq<Burst>): seq<Burst> {
    if listing == [] then []
    else
      var front, e := Schedule(listing[..|listing| - 1]), listing[|listing| - 1];
      if e.t % TICK_MS == 0 then Slot(e, front) else front
  }

  predicate Timed(turn: seq<Burst>) {
    forall i, j :: 0 <= i < j < |turn| ==> turn[i].t <= turn[j].t
  }

  lemma {:induction false} BeforeSplits(turn: seq<Burst>, t: nat)
    requires Timed(turn)
    ensures forall i :: 0 <= i < |turn| ==> (i < Before(turn, t) <==> turn[i].t < t)
    decreases |turn|
  {
    if turn != [] {
      var n := |turn| - 1;
      BeforeSplits(turn[..n], t);
      var front, m := turn[..n], Before(turn[..n], t);
      assert forall i :: 0 <= i < n ==> front[i] == turn[i];
      assert m == n || front[m] == turn[m];
    }
  }

  lemma BeforeLast(turn: seq<Burst>, t: nat)
    requires Timed(turn) && turn != []
    ensures Timed(turn[..|turn| - 1])
    ensures var n := |turn| - 1;
      && Before(turn, t) == Before(turn[..n], t) + (if turn[n].t < t then 1 else 0)
      && (turn[n].t < t ==> Before(turn[..n], t) == n)
  {
    var n := |turn| - 1;
    var front, m := turn[..n], Before(turn[..n], t);
    BeforeSplits(front, t);
    assert m == n || front[m] == turn[m];
  }

  lemma EventsAtLast(turn: seq<Burst>, t: nat)
    requires turn != []
    ensures EventsAt(turn, t) == EventsAt(turn[..|turn| - 1], t)
      + if turn[|turn| - 1].t == t then [turn[|turn| - 1]] else []
  {
  }

  lemma {:induction false} EventsAtSlice(turn: seq<Burst>, t: nat)
    requires Timed(turn)
    ensures Before(turn, t) <= Before(turn, t + 1)
    ensures EventsAt(turn, t) == turn[Before(turn, t)..Before(turn, t + 1)]
    decreases |turn|
  {
    if turn != [] {
      var n := |turn| - 1;
      var front := turn[..n];
      BeforeLast(turn, t);
      BeforeLast(turn, t + 1);
      EventsAtSlice(front, t);
      hide Before, Timed;
      var a, b := Before(front, t), Before(front, t + 1);
      EventsAtLast(turn, t);
      hide EventsAt;
      assert front[a..b] == turn[a..b];
      if turn[n].t == t {
        assert turn[a..n + 1] == turn[a..n] + [turn[n]];
      }
    }
  }

  lemma {:induction false} SlotEventsAt(e: Burst, turn: seq<Burst>, t: nat)
    ensures EventsAt(Slot(e, turn), t) == EventsAt(turn, t) + if e.t == t then [e] else []
    decreases |turn|
  {
    var n := |turn| - 1;
    if n >= 0 && e.t < turn[n].t {
      SlotEventsAt(e, turn[..n], t);
      var r := Slot(e, turn[..n]);
      assert (r + [turn[n]])[..|r|] == r;
    } else {
      assert (turn + [e])[..|turn|] == turn;
    }
  }

  /** What is looked up under a tick is what the schedule holds for it, however the events are listed. */
  lemma {:induction false} ScheduleEventsAt(listing: seq<Burst>, k: nat)
    ensures EventsAt(listing, TICK_MS * k) == EventsAt(Schedule(listing), TICK_MS * k)
    decreases |listing|
  {
    if listing != [] {
      var n, t := |listing| - 1, TICK_MS * k;
      ScheduleEventsAt(listing[..n], k);
      EventsAtLast(listing, t);
      hide EventsAt;
      assert t % TICK_MS == 0;
      SlotEventsAt(listing[n], Schedule(listing[..n]), t);
    }
  }

  // ---------------------------------------------------------------- the widget

  /** `Math.max(0, x)` */
  function OrZero(x: int): nat {
    if x > 0 then x else 0
  }

  class Widget {
    var mounted: bool
    var isStreaming: bool
    var isOpen: bool
    var closeTimerAt: Option<nat>
    var active: nat
    var closes: seq<nat>

    constructor ()
      ensures !mounted && closes == [] && forall turn, upTo :: Shows(turn, 0, upTo)
    {
      mounted, isStreaming, isOpen, closeTimerAt, active, closes := false, false, false, None, 0, [];
    }

    /** The fields are what the turn's first `m` events and the timer ticks up to `upTo` call for. */
    ghost predicate Shows(turn: seq<Burst>, m: nat, upTo: int)
      reads this
    {
      && m <= |turn|
      && mounted == (m > 0)
      && active == Active(turn, m)
      && isStreaming == (Active(turn, m) > 0)
      && isOpen == Open(turn, m, upTo)
      && closeTimerAt == if m > 0 && Active(turn, m) == 0 && upTo < turn[m - 1].t + AUTO_CLOSE_DELAY_MS
                         then Some(turn[m - 1].t + AUTO_CLOSE_DELAY_MS) else None
    }

    /** `setStreaming` */
    method SetStreaming(t: nat, streaming: bool)
      modifies this
      ensures mounted == old(mounted) && active == old(active) && closes == old(closes) && isStreaming == streaming
      ensures isOpen == (old(isOpen) || (streaming && !old(isStreaming)))
      ensures closeTimerAt == if old(isStreaming) == streaming then old(closeTimerAt)
                              else if streaming then None else Some(t + AUTO_CLOSE_DELAY_MS)
    {
      if isStreaming == streaming { return; }
      isStreaming := streaming;
      if streaming {
        closeTimerAt := None;
        if !isOpen { isOpen := true; }
      } else {
        closeTimerAt := Some(t + AUTO_CLOSE_DELAY_MS);
      }
    }

    /** `processEvent`, every part mapped to the one merged widget. */
    method ProcessEvent(e: Burst, ghost turn: seq<Burst>, ghost m: nat, ghost upTo: int)
      requires Turn(turn) && m < |turn| && e == turn[m] && upTo < e.t && Shows(turn, m, upTo)
      modifies this
      ensures Shows(turn, m + 1, upTo) && closes == old(closes)
    {
      assert Active(turn, m + 1) >= 0;
      if e.Start? {
        active := active + 1;
        if !mounted {
          mounted, isStreaming, isOpen, closeTimerAt := true, true, true, None;
        } else {
          SetStreaming(e.t, true);
        }
      } else {
        active := OrZero(active - 1);
        if active == 0 {
          SetStreaming(e.t, false);
        }
      }
    }

    /** `tickCloseTimer` */
    method TickCloseTimer(t: nat, ghost turn: seq<Burst>, ghost m: nat, ghost upTo: int)
      requires upTo <= t && Shows(turn, m, upTo)
      modifies this
      ensures Shows(turn, m, t)
      ensures closes == old(closes) + if Open(turn, m, upTo) && !Open(turn, m, t) then [t] else []
    {
      if closeTimerAt.Some? && t >= closeTimerAt.value {
        closeTimerAt := None;
        if isOpen {
          isOpen := false;
          closes := closes + [t];
        }
      }
    }

    /** One tick: the events listed for it, then the timer. */
    method Tick(listing: seq<Burst>, k: nat, ghost turn: seq<Burst>)
      requires turn == Schedule(listing) && Turn(turn)
      requires Shows(turn, Before(turn, TICK_MS * k), TICK_MS * k - TICK_MS as int)
      modifies this
      ensures Shows(turn, Before(turn, TICK_MS * k + 1), TICK_MS * k)
      ensures closes == old(closes)
        + if Open(turn, Before(turn, TICK_MS * k + 1), TICK_MS * k - TICK_MS as int) && !OpenAt(turn, TICK_MS * k)
          then [TICK_MS * k] else []
    {
      hide Turn, Before;
      var t := TICK_MS * k;
      ghost var m := Before(turn, t);
      assert Timed(turn) by { IsTimed(turn); }
      EventsAtSlice(turn, t);
      ScheduleEventsAt(listing, k);
      var due := EventsAt(listing, t);
      hide EventsAt, Schedule;
      for i := 0 to |due|
        invariant Shows(turn, m + i, t - TICK_MS as int) && closes == old(closes)
      {
        DueNow(turn, t, i);
        ProcessEvent(due[i], turn, m + i, t - TICK_MS as int);
      }
      TickCloseTimer(t, turn, m + |due|, t - TICK_MS as int);
    }

    /** The simulation loop: a tick every 50 ms, `n` of them, over the events in whatever order they are listed. */
    method Simulate(listing: seq<Burst>, n: nat)
      requires Balanced(Schedule(listing)) && Shows(Schedule(listing), 0, 0 - TICK_MS as int) && closes == []
      modifies this
      ensures closes == Closings(Schedule(listing), n)
      ensures n > 0 ==> Shows(Schedule(listing), Before(Schedule(listing), TICK_MS * (n - 1) + 1), TICK_MS * (n - 1))
    {
      ghost var turn := Schedule(listing);
      NothingBefore(turn);
      ScheduleIsTurn(listing);
      hide Turn, Balanced, Before, OpenAt, Open, Schedule;
      for k := 0 to n
        invariant Shows(turn, Before(turn, TICK_MS * k), TICK_MS * k - TICK_MS as int) && closes == Closings(turn, k)
        invariant k > 0 ==> Shows(turn, Before(turn, TICK_MS * (k - 1) + 1), TICK_MS * (k - 1))
      {
        ClosesWithout(turn, k);
        Tick(listing, k, turn);
        NoneBetween(turn, k);
      }
    }
  }

  lemma IsTimed(turn: seq<Burst>)
    requires Turn(turn)
    ensures Timed(turn)
  {
  }

  lemma {:induction false} SlotTimed(e: Burst, turn: seq<Burst>)
    requires Timed(turn)
    ensures Timed(Slot(e, turn))
    ensures forall x :: x in Slot(e, turn) ==> x == e || x in turn
    decreases |turn|
  {
    var n := |turn| - 1;
    if n >= 0 && e.t < turn[n].t {
      SlotTimed(e, turn[..n]);
      forall x | x in Slot(e, turn[..n]) ensures x.t <= turn[n].t {
        assert x == e || x in turn[..n];
      }
    }
  }

  lemma {:induction false} ScheduleOnGrid(listing: seq<Burst>)
    ensures Timed(Schedule(listing)) && forall x :: x in Schedule(listing) ==> x.t % TICK_MS == 0
    decreases |listing|
  {
    if listing != [] {
      var n := |listing| - 1;
      ScheduleOnGrid(listing[..n]);
      SlotTimed(listing[n], Schedule(listing[..n]));
    }
  }

  /** A schedule is in time order and on the grid: all a turn asks is that its bursts begin before they end. */
  lemma ScheduleIsTurn(listing: seq<Burst>)
    ensures Turn(Schedule(listing)) <==> Balanced(Schedule(listing))
  {
    var turn := Schedule(listing);
    ScheduleOnGrid(listing);
    hide Schedule, Balanced;
    assert forall i :: 0 <= i < |turn| ==> turn[i] in turn && turn[i].t % TICK_MS == 0;
  }

  lemma DueNow(turn: seq<Burst>, t: nat, i: nat)
    requires Timed(turn) && i < |EventsAt(turn, t)|
    ensures Before(turn, t) + i < |turn| && EventsAt(turn, t)[i] == turn[Before(turn, t) + i]
    ensures turn[Before(turn, t) + i].t == t
  {
    EventsAtSlice(turn, t);
    BeforeSplits(turn, t);
    BeforeSplits(turn, t + 1);
  }

  lemma {:induction false} NothingBefore(turn: seq<Burst>)
    ensures Before(turn, 0) == 0
    decreases |turn|
  {
    if turn != [] { NothingBefore(turn[..|turn| - 1]); }
  }

  lemma {:induction false} SameBefore(turn: seq<Burst>, a: nat, b: nat)
    requires forall i :: 0 <= i < |turn| ==> (turn[i].t < a <==> turn[i].t < b)
    ensures Before(turn, a) == Before(turn, b)
    decreases |turn|
  {
    if turn != [] {
      assert forall i :: 0 <= i < |turn| - 1 ==> turn[..|turn| - 1][i] == turn[i];
      SameBefore(turn[..|turn| - 1], a, b);
    }
  }

  /** Between two ticks nothing is scheduled. */
  lemma NoneBetween(turn: seq<Burst>, k: nat)
    requires Turn(turn)
    ensures Before(turn, TICK_MS * k + 1) == Before(turn, TICK_MS * (k + 1))
  {
    var a, b := TICK_MS * k + 1, TICK_MS * (k + 1);
    forall i | 0 <= i < |turn| ensures turn[i].t < a <==> turn[i].t < b {
      OnGrid(turn[i].t, k);
    }
    SameBefore(turn, a, b);
  }

  lemma OnGrid(t: nat, k: nat)
    requires t % TICK_MS == 0
    ensures t < TICK_MS * k + 1 <==> t < TICK_MS * (k + 1)
  {
  }

  /** A tick with events of its own never closes the widget. */
  lemma ClosesWithout(turn: seq<Burst>, k: nat)
    requires Turn(turn)
    ensures var t := TICK_MS * k;
      (Open(turn, Before(turn, t + 1), t - TICK_MS as int) && !OpenAt(turn, t))
      <==> (k > 0 && OpenAt(turn, t - TICK_MS) && !OpenAt(turn, t))
  {
    IsTimed(turn);
    var t := TICK_MS * k;
    var m0, m := Before(turn, t), Before(turn, t + 1);
    BeforeSplits(turn, t);
    BeforeSplits(turn, t + 1);
    if k > 0 { NoneBetween(turn, k - 1); } else { NothingBefore(turn); }
    if m0 < m { assert turn[m - 1].t == t; }
    hide Turn, Before, Timed, Active;
  }

  // --------------------------------------------------------------- what is seen

  /** In every state of a turn the fields keep to each other. */
  lemma ShownIsSafe(w: Widget, turn: seq<Burst>, m: nat, upTo: int)
    requires Turn(turn) && w.Shows(turn, m, upTo)
    ensures w.isStreaming <==> w.active > 0
    ensures w.isStreaming ==> w.isOpen
    ensures w.closeTimerAt.Some? ==> !w.isStreaming && w.isOpen && upTo < w.closeTimerAt.value
    ensures w.isOpen && !w.isStreaming ==> w.closeTimerAt.Some?
  {
    if m > 0 { assert Active(turn, m) >= 0; }
  }

  predicate LongGap(turn: seq<Burst>, i: nat)
    requires i + 1 < |turn|
  {
    Active(turn, i + 1) == 0 && turn[i + 1].t - turn[i].t > AUTO_CLOSE_DELAY_MS
  }

  predicate OneStretch(turn: seq<Burst>, t: nat)
    requires turn != []
  {
    turn[0].t <= t < turn[|turn| - 1].t + AUTO_CLOSE_DELAY_MS
  }

  /** Without a long quiet gap the widget is open from the first start to the delay after the last end. */
  lemma OpenWithoutGap(turn: seq<Burst>, t: nat)
    requires Turn(turn) && forall i :: 0 <= i < |turn| - 1 ==> !LongGap(turn, i)
    ensures OpenAt(turn, t) <==> OneStretch(turn, t)
  {
    IsTimed(turn);
    BeforeSplits(turn, t + 1);
    var m, last := Before(turn, t + 1), |turn| - 1;
    assert Active(turn, m) >= 0;
    assert turn[0].t <= turn[last].t;
    if 0 < m < |turn| {
      assert !LongGap(turn, m - 1);
      assert turn[m - 1].t <= turn[m].t <= turn[last].t;
      assert turn[0].t <= turn[m - 1].t;
    }
    assert m == 0 ==> turn[0].t > t;
    assert m == |turn| ==> turn[last].t <= t;
    hide Turn, Before, Timed, LongGap;
  }

  /** At the end of the delay inside a long gap it is closed. */
  lemma ClosedInGap(turn: seq<Burst>, i: nat)
    requires Turn(turn) && i + 1 < |turn| && LongGap(turn, i)
    ensures var t := turn[i].t + AUTO_CLOSE_DELAY_MS;
      t % TICK_MS == 0 && OneStretch(turn, t) && !OpenAt(turn, t)
  {
    IsTimed(turn);
    var t := turn[i].t + AUTO_CLOSE_DELAY_MS;
    BeforeSplits(turn, t + 1);
    var m := Before(turn, t + 1);
    assert turn[i + 1].t <= turn[|turn| - 1].t && turn[0].t <= turn[i].t;
    assert i < m <= i + 1;
    hide Turn, Before, Timed;
  }

  /**
   * The widget is seen as one stretch, from the first start to the delay after the last
   * end, exactly if no quiet gap exceeds the delay.
   */
  lemma OneStretchIff(turn: seq<Burst>)
    requires Turn(turn)
    ensures (forall k: nat :: OpenAt(turn, TICK_MS * k) <==> OneStretch(turn, TICK_MS * k))
       <==> (forall i :: 0 <= i < |turn| - 1 ==> !LongGap(turn, i))
  {
    if forall i :: 0 <= i < |turn| - 1 ==> !LongGap(turn, i) {
      forall k: nat ensures OpenAt(turn, TICK_MS * k) <==> OneStretch(turn, TICK_MS * k) {
        OpenWithoutGap(turn, TICK_MS * k);
      }
    } else {
      var i :| 0 <= i < |turn| - 1 && LongGap(turn, i);
      ClosedInGap(turn, i);
      var k := (turn[i].t + AUTO_CLOSE_DELAY_MS) / TICK_MS;
      assert TICK_MS * k == turn[i].t + AUTO_CLOSE_DELAY_MS;
      assert OneStretch(turn, TICK_MS * k) && !OpenAt(turn, TICK_MS * k);
    }
  }

  lemma {:induction false} ClosingsOfStretch(turn: seq<Burst>, n: nat, first: nat, end: nat)
    requires first < end && first % TICK_MS == 0 && end % TICK_MS == 0
    requires forall k: nat :: OpenAt(turn, TICK_MS * k) <==> first <= TICK_MS * k < end
    ensures Closings(turn, n) == if n > 0 && end <= TICK_MS * (n - 1) then [end] else []
  {
    hide OpenAt;
    if n > 0 {
      ClosingsOfStretch(turn, n - 1, first, end);
      var k := n - 1;
      assert OpenAt(turn, TICK_MS * k) <==> first <= TICK_MS * k < end;
      if n > 1 { assert OpenAt(turn, TICK_MS * (n - 2)) <==> first <= TICK_MS * (n - 2) < end; }
      OnGrid(end, k);
    }
  }

  /**
   * With no quiet gap over the delay the widget closes once, at the first tick at least the delay
   * after the last end.
   */
  lemma ClosesOnce(turn: seq<Burst>, n: nat)
    requires Turn(turn) && forall i :: 0 <= i < |turn| - 1 ==> !LongGap(turn, i)
    requires n > 0 && turn[|turn| - 1].t + AUTO_CLOSE_DELAY_MS <= TICK_MS * (n - 1)
    ensures Closings(turn, n) == [turn[|turn| - 1].t + AUTO_CLOSE_DELAY_MS]
  {
    OneStretchIff(turn);
    assert turn[0].t <= turn[|turn| - 1].t;
    hide OpenAt, LongGap;
    var last := turn[|turn| - 1].t;
    assert forall k: nat :: OpenAt(turn, TICK_MS * k) <==> turn[0].t <= TICK_MS * k < last + AUTO_CLOSE_DELAY_MS;
    ClosingsOfStretch(turn, n, turn[0].t, turn[|turn| - 1].t + AUTO_CLOSE_DELAY_MS);
  }
}
