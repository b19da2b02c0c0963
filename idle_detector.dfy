// src/idledetector.cpp: reports idle when a single-shot timer runs out
// without input activity, and resumed when activity or an inhibition ends
// an idle period. The timer is modelled by whether it is running; its expiry
// is the Timeout step. Registration with the input redirection is not part
// of this model.
module IdleDetectors {

  /** The signals of an IdleDetector. */
  datatype IdleEvent = Idle | Resumed

  /** The state the signals depend on: the inhibition flag, the timer, and what was emitted. */
  datatype Detector = Detector(inhibited: bool, timerActive: bool, events: seq<IdleEvent>)

  /** The state after construction: not inhibited, the timer started. */
  function Initial(): (d: Detector)
    ensures !d.inhibited && d.timerActive && d.events == []
  {
    Detector(false, true, [])
  }

  /** setInhibited. */
  function SetInhibitedSpec(d: Detector, inhibited: bool): Detector
  {
    if d.inhibited == inhibited then d
    else if inhibited then Detector(true, false, d.events + (if !d.timerActive then [Resumed] else []))
    else Detector(false, true, d.events)
  }

  /** activity. */
  function ActivitySpec(d: Detector): Detector
  {
    if d.inhibited then d
    else Detector(false, true, d.events + (if !d.timerActive then [Resumed] else []))
  }

  /** The single-shot timer runs out: it stops and idle is emitted. */
  function TimeoutSpec(d: Detector): Detector
  {
    Detector(d.inhibited, false, d.events + [Idle])
  }

  /** Idle and resumed alternate, idle first. */
  predicate Alternating(events: seq<IdleEvent>)
  {
    forall i :: 0 <= i < |events| ==> events[i] == if i % 2 == 0 then Idle else Resumed
  }

  /**
   * The detector's invariant: an inhibited detector's timer is stopped, the
   * signals alternate, and the last signal was idle exactly when the timer
   * has run out without an inhibition.
   */
  predicate Consistent(d: Detector)
  {
    (d.inhibited ==> !d.timerActive)
    && Alternating(d.events)
    && (|d.events| % 2 == 1 <==> !d.inhibited && !d.timerActive)
  }

  lemma InitialConsistent()
    ensures Consistent(Initial())
  {
  }

  lemma AlternatingSnoc(events: seq<IdleEvent>, e: IdleEvent)
    requires Alternating(events)
    requires e == if |events| % 2 == 0 then Idle else Resumed
    ensures Alternating(events + [e])
  {
    var s := events + [e];
    forall i | 0 <= i < |s| ensures s[i] == if i % 2 == 0 then Idle else Resumed {
      if i < |events| {
        assert s[i] == events[i];
      }
    }
  }

  /** setInhibited keeps the invariant. */
  lemma SetInhibitedConsistent(d: Detector, inhibited: bool)
    requires Consistent(d)
    ensures Consistent(SetInhibitedSpec(d, inhibited))
  {
    if d.inhibited != inhibited && inhibited && !d.timerActive {
      AlternatingSnoc(d.events, Resumed);
    }
  }

  /** activity keeps the invariant. */
  lemma ActivityConsistent(d: Detector)
    requires Consistent(d)
    ensures Consistent(ActivitySpec(d))
  {
    if !d.inhibited && !d.timerActive {
      AlternatingSnoc(d.events, Resumed);
    }
  }

  /** An expiry of the running timer keeps the invariant. */
  lemma TimeoutConsistent(d: Detector)
    requires Consistent(d) && d.timerActive
    ensures Consistent(TimeoutSpec(d))
  {
    AlternatingSnoc(d.events, Idle);
  }

  /**
   * Setting the current value changes nothing; inhibiting stops the timer
   * and reports resumed only if the timer had run out; lifting the
   * inhibition restarts the timer and reports nothing.
   */
  lemma SetInhibitedEffect(d: Detector, inhibited: bool)
    ensures d.inhibited == inhibited ==> SetInhibitedSpec(d, inhibited) == d
    ensures var r := SetInhibitedSpec(d, inhibited);
      r.inhibited == inhibited
      && (inhibited && !d.inhibited ==> !r.timerActive)
      && (!inhibited && d.inhibited ==> r.timerActive && r.events == d.events)
      && (r.events == d.events + [Resumed] <==> inhibited && !d.inhibited && !d.timerActive)
  {
    assert |d.events + [Resumed]| != |d.events|;
  }

  /**
   * Activity while inhibited does nothing; otherwise the timer runs again
   * and resumed is reported only if it had run out.
   */
  lemma ActivityEffect(d: Detector)
    ensures d.inhibited ==> ActivitySpec(d) == d
    ensures var r := ActivitySpec(d);
      !d.inhibited ==> (r.timerActive && !r.inhibited
        && (r.events == d.events + [Resumed] <==> !d.timerActive)
        && (r.events == d.events <==> d.timerActive))
  {
    assert |d.events + [Resumed]| != |d.events|;
  }

  /** An inhibited detector never reports idle: neither setting the same value nor activity emits anything. */
  lemma InhibitedSilent(d: Detector)
    requires Consistent(d) && d.inhibited
    ensures ActivitySpec(d).events == d.events
    ensures SetInhibitedSpec(d, true).events == d.events
    ensures !d.timerActive
  {
  }

  /** IdleDetector. */
  class IdleDetector {
    const interval: nat
    const singleShot: bool
    var inhibited: bool
    var timerActive: bool
    var events: seq<IdleEvent>

    function State(): Detector
      reads this
    {
      Detector(inhibited, timerActive, events)
    }

    predicate Valid()
      reads this
    {
      singleShot && Consistent(State())
    }

    /** The constructor: a single-shot timer with the given interval, started. */
    constructor(timeout: nat)
      ensures Valid() && State() == Initial() && interval == timeout
    {
      singleShot := true;
      interval := timeout;
      inhibited := false;
      timerActive := true;
      events := [];
    }

    function IsInhibited(): (b: bool)
      reads this
      ensures b == State().inhibited
    {
      inhibited
    }

    method SetInhibited(inhibited: bool)
      requires Valid()
      modifies this`inhibited, this`timerActive, this`events
      ensures Valid()
      ensures State() == SetInhibitedSpec(old(State()), inhibited)
    {
      SetInhibitedConsistent(State(), inhibited);
      if this.inhibited == inhibited {
        return;
      }
      this.inhibited := inhibited;
      if inhibited {
        if !timerActive {
          events := events + [Resumed];
        }
        timerActive := false;
      } else {
        timerActive := true;
      }
    }

    method Activity()
      requires Valid()
      modifies this`timerActive, this`events
      ensures Valid()
      ensures State() == ActivitySpec(old(State()))
    {
      ActivityConsistent(State());
      if !inhibited {
        if !timerActive {
          events := events + [Resumed];
        }
        timerActive := true;
      }
    }

    /** The timer's timeout, connected to idle. */
    method Timeout()
      requires Valid() && timerActive
      modifies this`timerActive, this`events
      ensures Valid()
      ensures State() == TimeoutSpec(old(State()))
    {
      TimeoutConsistent(State());
      timerActive := false;
      events := events + [Idle];
    }
  }
}
