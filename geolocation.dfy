/**
 * The location hook: it watches the browser position, keeps the last location,
 * the last error and a loading flag, shows a "location active" notice at most
 * once every five minutes, and arms a single one-minute "location lost" timer
 * on errors. Time is integer milliseconds; notices and timers are events.
 */
module Geolocation {
  import opened Wrappers
  import opened Types

  /** `5 * 60 * 1000`: the minimum gap between two "location active" notices. */
  const NotificationInterval: int := 300000

  /** The message when the browser has no geolocation. */
  const NotSupported: string := "Geolocalizaci\U{00F3}n no soportada"

  /** The notices the hook shows. */
  datatype Toast = LocationActive | LocationLost

  /** The throttle: a notice is shown the first time, or once more than five minutes have passed. */
  predicate ShowsNotice(isFirstTime: bool, last: int, now: int) {
    isFirstTime || now - last > NotificationInterval
  }

  /**
   * The times at which notices are shown for position updates arriving at
   * `times`, starting from the last notice time `last` and the first-location
   * flag `first`: the pure counterpart of a run of success callbacks, which
   * `LocationTracker.OnPosition` follows one update at a time.
   */
  function ShownTimes(last: int, first: bool, times: seq<int>): (shown: seq<int>)
    ensures |shown| <= |times|
    decreases |times|
  {
    if |times| == 0 then []
    else
      var show := ShowsNotice(first, last, times[0]);
      (if show then [times[0]] else []) + ShownTimes(if show then times[0] else last, false, times[1..])
  }

  /** After the first update, the first notice comes more than five minutes after the last one. */
  lemma {:induction false} ShownTimesAfter(last: int, times: seq<int>)
    ensures var shown := ShownTimes(last, false, times);
      |shown| > 0 ==> shown[0] - last > NotificationInterval
  {
    if |times| > 0 && !ShowsNotice(false, last, times[0]) {
      ShownTimesAfter(last, times[1..]);
    }
  }

  /** Any two consecutive notices are more than five minutes apart. */
  lemma {:induction false} ShownTimesSpaced(last: int, first: bool, times: seq<int>)
    ensures var shown := ShownTimes(last, first, times);
      forall k :: 0 <= k < |shown| - 1 ==> shown[k + 1] - shown[k] > NotificationInterval
    decreases |times|
  {
    if |times| > 0 {
      var show := ShowsNotice(first, last, times[0]);
      var next := if show then times[0] else last;
      ShownTimesSpaced(next, false, times[1..]);
      ShownTimesAfter(next, times[1..]);
    }
  }

  /** Updates that all come within five minutes of a first notice show only that one. */
  lemma {:induction false} BurstShowsOnce(last: int, times: seq<int>)
    requires |times| > 0
    requires forall k :: 0 <= k < |times| ==> times[k] - times[0] <= NotificationInterval
    ensures ShownTimes(last, true, times) == [times[0]]
  {
    QuietWindow(times[0], times[1..]);
  }

  lemma {:induction false} QuietWindow(last: int, times: seq<int>)
    requires forall k :: 0 <= k < |times| ==> times[k] - last <= NotificationInterval
    ensures ShownTimes(last, false, times) == []
  {
    if |times| > 0 {
      QuietWindow(last, times[1..]);
    }
  }

  /** The hook's state and refs; `lostTimeout` is the ref being non-null, `timerPending` the timer still to fire. */
  class LocationTracker {
    var location: Option<UserLocation>
    var error: Option<string>
    var loading: bool
    var lastNotificationTime: int
    var lostTimeout: bool
    var timerPending: bool
    var isFirstLocation: bool
    var watching: bool
    var toasts: seq<Toast>
    var timersArmed: nat

    /** A pending timer is always held by the ref. */
    ghost predicate Valid()
      reads this
    {
      timerPending ==> lostTimeout
    }

    /** The first render: no location, no error, loading, and no notice shown yet. */
    constructor ()
      ensures location.None? && error.None? && loading
      ensures lastNotificationTime == 0 && !lostTimeout && !timerPending
      ensures isFirstLocation && !watching && toasts == [] && timersArmed == 0
      ensures Valid()
    {
      location, error, loading := None, None, true;
      lastNotificationTime := 0;
      lostTimeout, timerPending := false, false;
      isFirstLocation, watching := true, false;
      toasts, timersArmed := [], 0;
    }

    /** `showLocationNotification`: show the notice when the throttle allows it and remember when. */
    method ShowLocationNotification(isFirstTime: bool, now: int) returns (shown: bool)
      modifies this`toasts, this`lastNotificationTime
      ensures shown == ShowsNotice(isFirstTime, old(lastNotificationTime), now)
      ensures lastNotificationTime == if shown then now else old(lastNotificationTime)
      ensures toasts == old(toasts) + (if shown then [LocationActive] else [])
    {
      var timeSinceLastNotification := now - lastNotificationTime;
      shown := isFirstTime || timeSinceLastNotification > NotificationInterval;
      if shown {
        toasts := toasts + [LocationActive];
        lastNotificationTime := now;
      }
    }

    /** The mount effect: report missing support, or start watching with the first-location flag set. */
    method Mount(supported: bool)
      modifies this`error, this`loading, this`isFirstLocation, this`watching
      ensures !supported ==> error == Some(NotSupported) && !loading && watching == old(watching)
      ensures !supported ==> isFirstLocation == old(isFirstLocation)
      ensures supported ==> watching && isFirstLocation && error == old(error) && loading == old(loading)
    {
      if !supported {
        error := Some(NotSupported);
        loading := false;
        return;
      }
      isFirstLocation := true;
      watching := true;
    }

    /**
     * The watch success callback: store the position, clear the error and the
     * loading flag, clear a pending lost timer, and show the notice, as the
     * first one only for the first position.
     */
    method OnPosition(pos: UserLocation, now: int) returns (shown: bool)
      requires watching
      requires Valid()
      modifies this`location, this`error, this`loading, this`lostTimeout, this`timerPending,
               this`toasts, this`lastNotificationTime, this`isFirstLocation
      ensures location == Some(pos) && error.None? && !loading
      ensures !lostTimeout && !timerPending
      ensures shown == ShowsNotice(old(isFirstLocation), old(lastNotificationTime), now)
      ensures lastNotificationTime == if shown then now else old(lastNotificationTime)
      ensures toasts == old(toasts) + (if shown then [LocationActive] else [])
      ensures !isFirstLocation
      ensures Valid()
      ensures forall rest :: ShownTimes(old(lastNotificationTime), old(isFirstLocation), [now] + rest)
                == (if shown then [now] else []) + ShownTimes(lastNotificationTime, isFirstLocation, rest)
    {
      location := Some(pos);
      error := None;
      loading := false;
      if lostTimeout {
        timerPending := false;
        lostTimeout := false;
      }
      shown := ShowLocationNotification(isFirstLocation, now);
      isFirstLocation := false;
      forall rest
        ensures ShownTimes(old(lastNotificationTime), old(isFirstLocation), [now] + rest)
                == (if shown then [now] else []) + ShownTimes(lastNotificationTime, isFirstLocation, rest)
      {
        assert ([now] + rest)[1..] == rest;
      }
    }

    /** The watch error callback: store the message, stop loading, and arm the lost timer unless one is set. */
    method OnPositionError(message: string)
      requires watching
      requires Valid()
      modifies this`error, this`loading, this`lostTimeout, this`timerPending, this`timersArmed
      ensures error == Some(message) && !loading
      ensures lostTimeout
      ensures timersArmed == old(timersArmed) + (if old(lostTimeout) then 0 else 1)
      ensures timerPending == if old(lostTimeout) then old(timerPending) else true
      ensures Valid()
    {
      error := Some(message);
      loading := false;
      if !lostTimeout {
        lostTimeout := true;
        timerPending := true;
        timersArmed := timersArmed + 1;
      }
    }

    /** The lost timer fires: show the warning and clear the ref so that a later error can arm it again. */
    method OnLostTimeout()
      requires timerPending
      requires Valid()
      modifies this`toasts, this`lostTimeout, this`timerPending
      ensures toasts == old(toasts) + [LocationLost]
      ensures !lostTimeout && !timerPending
      ensures Valid()
    {
      toasts := toasts + [LocationLost];
      lostTimeout := false;
      timerPending := false;
    }

    /** The cleanup: stop watching and cancel a pending timer; the ref itself is not cleared. */
    method Unmount()
      requires Valid()
      modifies this`watching, this`timerPending
      ensures !watching && !timerPending && lostTimeout == old(lostTimeout)
      ensures Valid()
    {
      watching := false;
      timerPending := false;
    }
  }
}
