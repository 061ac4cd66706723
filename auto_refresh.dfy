/** The auto-refresh control: a switch and an interval in seconds, and the
    interval timer that its effect installs and tears down.  The effect depends on
    the switch, the interval and the callback; the page passes a new callback on
    every render, so every render of the page restarts the timer. */
module AutoRefresh {

  /** An installed interval timer. */
  datatype Timer = Timer(id: nat, periodMs: int)

  const DefaultSeconds: int := 5
  const MinSeconds: int := 3

  /** The interval an input change sets: a cleared or zero input gives the
      minimum. */
  function IntervalFromInput(input: int, present: bool): (seconds: int)
    ensures !present || input == 0 ==> seconds == MinSeconds
    ensures present && input != 0 ==> seconds == input
  {
    if !present || input == 0 then MinSeconds else input
  }

  class Refresher {
    var enabled: bool
    var intervalSeconds: int
    /** Timers installed and not yet cleared, oldest first. */
    var live: seq<Timer>
    /** Ids of the timers cleared so far, in order. */
    var cleared: seq<nat>
    var nextId: nat
    /** How many times the callback has been invoked. */
    var triggers: nat

    /** While enabled exactly one timer runs, with the current period; while
        disabled none does.  Ids are never reused. */
    ghost predicate Valid()
      reads this
    {
      (enabled ==> |live| == 1 && live[0].periodMs == intervalSeconds * 1000 && live[0].id < nextId) &&
      (!enabled ==> live == [])
    }

    constructor ()
      ensures Valid()
      ensures !enabled && intervalSeconds == DefaultSeconds && live == [] && cleared == [] && nextId == 0 && triggers == 0
    {
      enabled, intervalSeconds := false, DefaultSeconds;
      live, cleared, nextId, triggers := [], [], 0, 0;
    }

    /** The effect: the previous timer is cleared first, then a new one is
        installed iff the control is enabled. */
    method Restart()
      requires |live| <= 1 && (enabled ==> forall k :: 0 <= k < |live| ==> live[k].id < nextId)
      modifies this
      ensures Valid()
      ensures cleared == old(cleared) + (if |old(live)| == 1 then [old(live)[0].id] else [])
      ensures enabled ==> live == [Timer(old(nextId), intervalSeconds * 1000)] && nextId == old(nextId) + 1
      ensures enabled == old(enabled) && intervalSeconds == old(intervalSeconds) && triggers == old(triggers)
    {
      if |live| > 0 {
        cleared := cleared + [live[0].id];
        live := [];
      }
      if enabled {
        live := [Timer(nextId, intervalSeconds * 1000)];
        nextId := nextId + 1;
      }
    }

    /** The switch. */
    method SetEnabled(on: bool)
      requires Valid()
      modifies this
      ensures Valid() && enabled == on && intervalSeconds == old(intervalSeconds) && triggers == old(triggers)
      ensures on == old(enabled) ==> live == old(live) && cleared == old(cleared)
      ensures on && !old(enabled) ==> cleared == old(cleared) && live == [Timer(old(nextId), intervalSeconds * 1000)] &&
                                      nextId == old(nextId) + 1
      ensures !on && old(enabled) ==> cleared == old(cleared) + [old(live)[0].id] && live == []
    {
      if on != enabled {
        enabled := on;
        Restart();
      }
    }

    /** The interval input (shown only while enabled). */
    method SetInterval(input: int, present: bool)
      requires Valid()
      modifies this
      ensures Valid() && enabled == old(enabled) && triggers == old(triggers)
      ensures intervalSeconds == IntervalFromInput(input, present)
      ensures intervalSeconds != old(intervalSeconds) && enabled ==>
                cleared == old(cleared) + [old(live)[0].id] && live == [Timer(old(nextId), intervalSeconds * 1000)] &&
                nextId == old(nextId) + 1
      ensures intervalSeconds == old(intervalSeconds) || !enabled ==> live == old(live) && cleared == old(cleared)
    {
      var seconds := IntervalFromInput(input, present);
      if seconds != intervalSeconds {
        intervalSeconds := seconds;
        Restart();
      }
    }

    /** The page rendered again and passed a new callback. */
    method ParentRendered()
      requires Valid()
      modifies this
      ensures Valid() && enabled == old(enabled) && intervalSeconds == old(intervalSeconds) && triggers == old(triggers)
      ensures enabled ==> cleared == old(cleared) + [old(live)[0].id] && live == [Timer(old(nextId), intervalSeconds * 1000)]
      ensures !enabled ==> live == [] && cleared == old(cleared)
    {
      Restart();
    }

    /** A live timer fires: the callback runs once. */
    method Tick(t: Timer)
      requires Valid() && t in live
      modifies this`triggers
      ensures triggers == old(triggers) + 1
    {
      triggers := triggers + 1;
    }
  }

  /** Disabling stops the callback: a disabled control has no live timer, so no
      tick can be delivered. */
  method DisabledNeverTriggers() returns (canTick: bool, triggers: nat)
    ensures !canTick && triggers == 0
  {
    var r := new Refresher();
    r.SetEnabled(true);
    r.SetInterval(0, true);
    r.SetEnabled(false);
    canTick := |r.live| > 0;
    triggers := r.triggers;
  }

  /** Enabling installs a 5000 ms timer; a cleared input turns it into a
      3000 ms timer after clearing the first. */
  method IntervalScenario() returns (first: Timer, second: Timer, cleared: seq<nat>)
    ensures first == Timer(0, 5000) && second == Timer(1, 3000) && cleared == [0]
  {
    var r := new Refresher();
    r.SetEnabled(true);
    first := r.live[0];
    r.SetInterval(0, false);
    second := r.live[0];
    cleared := r.cleared;
  }
}
