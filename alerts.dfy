/** The alert rule of the timer check loop (`check_timers`, the same in `bot/main.py` and in
    the single-file `bot.py`): each cycle, every timer is classified by how far away it is. */
module Alerts {
  import opened Strings
  import opened DateTimes
  import opened Helpers

  datatype Alert = Notify | StartingNow | Silent

  /** The classification for a timer `secondsUntil` seconds away (negative once it has
      passed), with `notification_time` in minutes: a notification when the timer is
      between N and N+1 minutes away, otherwise a start alert when it is less than a minute
      away on either side, otherwise nothing. Nothing of earlier cycles is consulted. */
  function Classify(secondsUntil: int, notificationMinutes: int): Alert {
    if 60 * notificationMinutes <= secondsUntil < 60 * notificationMinutes + 60 then Notify
    else if -60 <= secondsUntil < 60 then StartingNow
    else Silent
  }

  /** A timer far from both windows, in particular one more than a minute past, raises
      nothing; any alert means the timer is within one of the two windows. */
  lemma AlertOnlyInWindows(secondsUntil: int, notificationMinutes: int)
    ensures Classify(secondsUntil, notificationMinutes) != Silent <==>
      (60 * notificationMinutes <= secondsUntil < 60 * notificationMinutes + 60 || -60 <= secondsUntil < 60)
    ensures secondsUntil < -60 && notificationMinutes >= -1 ==> Classify(secondsUntil, notificationMinutes) == Silent
  {
  }

  /** The start alert is an `elif`: when the notification window does not overlap the start
      window it fires exactly within a minute of the start; with `notification_time` 0 the
      notification takes the minute before the start. */
  lemma StartWindow(secondsUntil: int, notificationMinutes: int)
    ensures notificationMinutes >= 2 || notificationMinutes <= -3 ==>
      (Classify(secondsUntil, notificationMinutes) == StartingNow <==> -60 <= secondsUntil < 60)
    ensures notificationMinutes == 0 ==>
      (Classify(secondsUntil, notificationMinutes) == StartingNow <==> -60 <= secondsUntil < 0)
  {
  }

  /** With a check interval of at most a minute, a timer that was at least N minutes away
      at some cycle is notified at a later cycle: the cycles `interval` seconds apart cannot
      jump over the minute-wide window. */
  lemma {:induction false} NotificationNotMissed(secondsUntil: int, interval: int, notificationMinutes: int)
    requires 1 <= interval <= 60
    requires secondsUntil >= 60 * notificationMinutes
    ensures exists k: nat :: Classify(secondsUntil - k * interval, notificationMinutes) == Notify
  {
    var gap := secondsUntil - 60 * notificationMinutes;
    var k: nat := gap / interval;
    assert gap - k * interval == gap % interval;
    assert Classify(secondsUntil - k * interval, notificationMinutes) == Notify;
  }

  /** With a check interval of exactly a minute the notification fires at most once. */
  lemma OneNotificationPerMinuteInterval(secondsUntil: int, notificationMinutes: int, k1: nat, k2: nat)
    requires Classify(secondsUntil - 60 * k1, notificationMinutes) == Notify
    requires Classify(secondsUntil - 60 * k2, notificationMinutes) == Notify
    ensures k1 == k2
  {
  }

  /** No record of sent alerts is kept: with a 30-second interval the same timer is notified
      on two consecutive cycles. */
  lemma NotificationRepeatsOnShortInterval(notificationMinutes: int)
    ensures Classify(60 * notificationMinutes + 30, notificationMinutes) == Notify
    ensures Classify(60 * notificationMinutes + 30 - 30, notificationMinutes) == Notify
  {
  }

  /** The start window is two minutes wide, so with the default one-minute interval every
      timer that is ahead when first seen gets the start alert on two consecutive cycles. */
  lemma {:induction false} StartAlertTwice(secondsUntil: int, notificationMinutes: int)
    requires secondsUntil >= 0
    requires notificationMinutes >= 2 || notificationMinutes <= -3
    ensures exists k: nat :: Classify(secondsUntil - 60 * k, notificationMinutes) == StartingNow &&
                             Classify(secondsUntil - 60 * (k + 1), notificationMinutes) == StartingNow
  {
    var k: nat := secondsUntil / 60;
    assert secondsUntil - 60 * k == secondsUntil % 60;
    assert Classify(secondsUntil - 60 * k, notificationMinutes) == StartingNow;
    assert Classify(secondsUntil - 60 * (k + 1), notificationMinutes) == StartingNow;
  }

  /** `[system](https://evemaps.dotlan.net/system/<slug>)`. */
  function SystemLink(system: string): string {
    "[" + system + "](https://evemaps.dotlan.net/system/" + CleanSystemName(system) + ")"
  }

  /** The notification sent to the command channel. */
  function NotificationText(notificationMinutes: int, system: string, structureName: string, notes: string,
                            time: Instant, timerId: int): string {
    "\U{26A0}\U{FE0F} Timer in " + IntToString(notificationMinutes) + " minutes: " + SystemLink(system) +
    " - " + structureName + " " + notes + " at `" + Format(time) + "` (ID: " + IntToString(timerId) + ")"
  }

  /** The start alert sent to the command channel. */
  function StartText(system: string, structureName: string, notes: string, timerId: int): string {
    "\U{1F6A8} **TIMER STARTING NOW**: " + SystemLink(system) + " - " + structureName + " " + notes +
    " (ID: " + IntToString(timerId) + ")"
  }
}
