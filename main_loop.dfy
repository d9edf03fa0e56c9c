/** One cycle of the timer check loop of the current bot (`check_timers` in `bot/main.py`):
    alerts for every timer, then the expiry sweep, then a re-render only if something
    expired. */
module MainLoop {
  import opened Wrappers
  import opened DateTimes
  import opened Seqs
  import opened Discord
  import opened Alerts
  import opened Timers

  /** The message a timer raises in this cycle, if any. */
  function AlertFor(t: Timer, now: Instant, notificationMinutes: int): Option<string> {
    match Classify(TimeKey(t) - Seconds(now), notificationMinutes)
    case Notify => Some(NotificationText(notificationMinutes, t.system, t.structureName, t.notes, t.time, t.timerId))
    case StartingNow => Some(StartText(t.system, t.structureName, t.notes, t.timerId))
    case Silent => None
  }

  function AlertOf(now: Instant, notificationMinutes: int): Timer -> Option<string> {
    t => AlertFor(t, now, notificationMinutes)
  }

  /** The messages of one alert pass, in the order of the timers, at most one per timer. */
  function AlertTexts(timers: seq<Timer>, now: Instant, notificationMinutes: int): (r: seq<string>)
    ensures |r| <= |timers|
  {
    Collect(timers, AlertOf(now, notificationMinutes))
  }

  /** The loop's step: the next timer adds its own alert, if it has one, after the alerts of
      the timers before it. */
  lemma AlertTextsStep(timers: seq<Timer>, i: nat, now: Instant, notificationMinutes: int)
    requires i < |timers|
    ensures var alert := AlertFor(timers[i], now, notificationMinutes);
      AlertTexts(timers[..i + 1], now, notificationMinutes) ==
      AlertTexts(timers[..i], now, notificationMinutes) + (if alert.Some? then [alert.value] else [])
  {
    CollectStep(timers, i, AlertOf(now, notificationMinutes));
  }

  /** The pass is silent exactly when every timer is outside both windows. */
  lemma AlertTextsEmpty(timers: seq<Timer>, now: Instant, notificationMinutes: int)
    ensures AlertTexts(timers, now, notificationMinutes) == [] <==>
      forall i :: 0 <= i < |timers| ==> AlertFor(timers[i], now, notificationMinutes).None?
  {
    CollectEmpty(timers, AlertOf(now, notificationMinutes));
  }

  /** The body of one iteration of `check_timers`. The clock is read three times: `now` for
      the alert pass, `sweepNow` inside `remove_expired` (after every alert was sent), and
      `boardNow` for the header of the board update. Nothing orders the three readings: the
      wall clock may also go back. Alerts go to the command channel only when it exists
      (`cmdChannel`). Then `remove_expired` runs, and only when it removed something is the
      timer board channel (which may be missing) updated. The sleep between cycles is not
      part of a cycle. */
  method CheckTimersCycle(board: TimerBoard, now: Instant, sweepNow: Instant, boardNow: Instant,
                          notificationMinutes: int, expiryMinutes: int,
                          cmdChannel: bool, timerboardChannel: Option<seq<Message>>)
    returns (sent: seq<string>, expired: seq<Timer>, ops: seq<Option<BoardOp>>)
    modifies board
    ensures sent == if cmdChannel then AlertTexts(old(board.timers), now, notificationMinutes) else []
    ensures var threshold := ExpiryThreshold(sweepNow, expiryMinutes);
      expired == Below(old(board.timers), TimeKey, threshold) &&
      board.timers == AtLeast(old(board.timers), TimeKey, threshold)
    ensures expired == [] ==> ops == [] && board.timers == old(board.timers) && board.saves == old(board.saves)
    ensures expired != [] ==>
      ops == [ChannelOp(timerboardChannel, BoardText(boardNow, board.timers))]
    ensures board.nextId == old(board.nextId)
  {
    var timers := board.timers;
    sent := [];
    var i := 0;
    while i < |timers|
      invariant 0 <= i <= |timers|
      invariant unchanged(board)
      invariant sent == if cmdChannel then AlertTexts(timers[..i], now, notificationMinutes) else []
    {
      var alert := AlertFor(timers[i], now, notificationMinutes);
      var piece := if alert.Some? then [alert.value] else [];
      AlertTextsStep(timers, i, now, notificationMinutes);
      if cmdChannel {
        sent := sent + piece;
      }
      i := i + 1;
    }
    assert timers[..i] == timers;
    expired := board.RemoveExpired(sweepNow, expiryMinutes);
    ops := [];
    if expired != [] {
      ops := board.UpdateTimerboard(boardNow, [timerboardChannel]);
      OneChannel(timerboardChannel, BoardText(boardNow, board.timers));
    }
  }
}
