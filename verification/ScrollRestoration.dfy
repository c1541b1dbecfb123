/**
 Scroll restoration across a dashboard navigation: an offset stored for one mount, and a retry chain
 over animation frames that the page height, the clock and the user can all interfere with.
 */
module ScrollRestoration {
  import opened Wrappers

  const MAX_ATTEMPTS: nat := 60

  // ------------------------------------------------------------- stored offset

  /** Block is a mount whose storage access throws. */
  datatype SessionEvent = Remember(offset: string) | Mount | Block

  function Kept(stored: Option<string>, e: SessionEvent): Option<string> {
    match e
    case Remember(offset) => Some(offset)
    case Mount => None
    case Block => stored
  }

  function KeptAfter(stored: Option<string>, events: seq<SessionEvent>): Option<string> {
    if events == [] then stored else Kept(KeptAfter(stored, events[..|events| - 1]), events[|events| - 1])
  }

  /** The effect's first lines: the offset to restore, if any; toNumber is Number, None unless finite. */
  function OffsetOf(toNumber: string -> Option<real>, stored: Option<string>): Option<real> {
    if stored.None? || toNumber(stored.value).None? || toNumber(stored.value).value <= 0.0 then None
    else toNumber(stored.value)
  }

  /** A click stored the offset and neither another click nor a mount has happened since. */
  ghost predicate LeftBehind(events: seq<SessionEvent>, offset: string) {
    exists i | 0 <= i < |events| :: events[i] == Remember(offset) && forall j | i < j < |events| :: events[j] == Block
  }

  lemma LeftBehindStep(before: seq<SessionEvent>, e: SessionEvent, offset: string)
    ensures LeftBehind(before + [e], offset) <==>
              e == Remember(offset) || (e == Block && LeftBehind(before, offset))
  {
    var events, n := before + [e], |before|;
    if e == Remember(offset) {
      assert events[n] == Remember(offset);
    }
    if e == Block && LeftBehind(before, offset) {
      var i :| 0 <= i < n && before[i] == Remember(offset) && forall j | i < j < n :: before[j] == Block;
      assert events[i] == Remember(offset) && forall j | i < j < |events| :: events[j] == Block;
    }
    if LeftBehind(events, offset) && e != Remember(offset) {
      var i :| 0 <= i < |events| && events[i] == Remember(offset) && forall j | i < j < |events| :: events[j] == Block;
      assert events[n] == e;
      assert before[i] == Remember(offset) && forall j | i < j < n :: before[j] == Block by {
        assert forall j | 0 <= j < n :: before[j] == events[j];
      }
    }
  }

  /** A mount finds an offset exactly when a click left it behind; a plain visit finds none. */
  lemma {:induction false} FoundIff(events: seq<SessionEvent>, offset: string)
    ensures KeptAfter(None, events) == Some(offset) <==> LeftBehind(events, offset)
    decreases |events|
  {
    if events != [] {
      var n := |events| - 1;
      FoundIff(events[..n], offset);
      assert events == events[..n] + [events[n]];
      LeftBehindStep(events[..n], events[n], offset);
      hide LeftBehind;
    }
  }

  /** An offset is consumed by one mount at most: between two mounts that find one, a click stored again. */
  lemma {:induction false} ConsumedOnce(events: seq<SessionEvent>, m: nat, n: nat)
    requires m < n < |events| && events[m] == Mount && events[n] == Mount
    requires KeptAfter(None, events[..n]).Some?
    ensures exists i :: m < i < n && events[i].Remember?
  {
    var offset := KeptAfter(None, events[..n]).value;
    FoundIff(events[..n], offset);
    var i :| 0 <= i < n && events[..n][i] == Remember(offset) && forall j | i < j < n :: events[..n][j] == Block;
    assert events[i] == Remember(offset);
    assert events[..n][m] == Mount;
  }

  /** How many of the mounts go on to restore a position. */
  function Restored(toNumber: string -> Option<real>, events: seq<SessionEvent>): nat {
    if events == [] then 0
    else
      var before, e := events[..|events| - 1], events[|events| - 1];
      Restored(toNumber, before) + if e == Mount && OffsetOf(toNumber, KeptAfter(None, before)).Some? then 1 else 0
  }

  function Clicks(events: seq<SessionEvent>): nat {
    if events == [] then 0
    else Clicks(events[..|events| - 1]) + if events[|events| - 1].Remember? then 1 else 0
  }

  /** No history restores more positions than clicks stored, and a kept offset is one still to be spent. */
  lemma {:induction false} NoMoreThanClicks(toNumber: string -> Option<real>, events: seq<SessionEvent>)
    ensures Restored(toNumber, events) + (if KeptAfter(None, events).Some? then 1 else 0) <= Clicks(events)
    decreases |events|
  {
    if events != [] {
      NoMoreThanClicks(toNumber, events[..|events| - 1]);
    }
  }

  // --------------------------------------------------------------- retry chain

  /**
   What the browser answers on the n-th scroll: the position read back, the clock, and whether the
   frame requested after it runs at once, as in a test environment.
   */
  datatype Browser = Browser(position: nat -> real, clock: nat -> real, synchronous: nat -> bool)

  datatype Chain = Chain(target: real, deadline: real, attempts: nat, cancelled: bool, pending: bool)

  /** The effect up to its first request. */
  function Fresh(target: real, now: real): Chain {
    Chain(target, now + 1000.0, 0, false, true)
  }

  function Abs(x: real): real {
    if x < 0.0 then -x else x
  }

  predicate Reached(b: Browser, target: real, n: nat) {
    Abs(b.position(n) - target) <= 2.0
  }

  predicate Late(b: Browser, deadline: real, n: nat) {
    b.clock(n) > deadline
  }

  /** One call of attempt, and the calls it makes itself when frames are synchronous. */
  function Attempted(b: Browser, c: Chain): Chain
    requires c.attempts < MAX_ATTEMPTS
    decreases MAX_ATTEMPTS - c.attempts
  {
    if c.cancelled then c
    else
      var n := c.attempts;
      var d := c.(attempts := n + 1);
      if Reached(b, c.target, n) || n + 1 >= MAX_ATTEMPTS || Late(b, c.deadline, n) then d
      else if b.synchronous(n) then Attempted(b, d)
      else d.(pending := true)
  }

  /** Input is a wheel, touch or key event; Unmount is the effect's cleanup. */
  datatype Event = Frame | Input | Unmount

  ghost predicate Valid(c: Chain) {
    c.pending ==> c.attempts < MAX_ATTEMPTS
  }

  function React(b: Browser, c: Chain, e: Event): Chain
    requires c.pending ==> c.attempts < MAX_ATTEMPTS
  {
    match e
    case Frame => if c.pending then Attempted(b, c.(pending := false)) else c
    case Input => c.(cancelled := true)
    case Unmount => c.(cancelled := true, pending := false)
  }

  class Restoration {
    const target: real
    const deadline: real
    var attempts: nat
    var cancelled: bool
    var pending: bool

    function Now(): Chain
      reads this
    {
      Chain(target, deadline, attempts, cancelled, pending)
    }

    /** A synchronous environment runs the requested frame at once. */
    constructor (target: real, now: real)
      ensures Now() == Fresh(target, now)
    {
      this.target, deadline, attempts, cancelled, pending := target, now + 1000.0, 0, false, true;
    }

    method Attempt(b: Browser)
      requires attempts < MAX_ATTEMPTS
      modifies this
      ensures Now() == Attempted(b, old(Now()))
      decreases MAX_ATTEMPTS - attempts
    {
      if cancelled {
        return;
      }
      var position := b.position(attempts);
      var clock := b.clock(attempts);
      attempts := attempts + 1;
      var reached := Abs(position - target) <= 2.0;
      if reached || attempts >= MAX_ATTEMPTS || clock > deadline {
        return;
      }
      if b.synchronous(attempts - 1) {
        Attempt(b);
      } else {
        pending := true;
      }
    }

    method Dispatch(b: Browser, e: Event)
      requires Valid(Now())
      modifies this
      ensures Now() == React(b, old(Now()), e)
    {
      match e
      case Frame =>
        if pending {
          pending := false;
          Attempt(b);
        }
      case Input =>
        cancelled := true;
      case Unmount =>
        cancelled := true;
        pending := false;
    }
  }

  /** The session storage of one browser tab, over the documents it loads. */
  class DashboardTab {
    var stored: Option<string>

    constructor ()
      ensures stored == None
    {
      stored := None;
    }

    /** The click of a state link; a blocked storage loses the offset silently. */
    method RememberDashboardScroll(offset: string, blocked: bool)
      modifies this
      ensures stored == Kept(old(stored), if blocked then Block else Remember(offset))
    {
      if !blocked {
        stored := Some(offset);
      }
    }

    /** The effect of one mount: the chain it starts, if any. */
    method MountEffect(toNumber: string -> Option<real>, now: real, blocked: bool) returns (chain: Restoration?)
      modifies this
      ensures stored == Kept(old(stored), if blocked then Block else Mount)
      ensures chain == null <==> blocked || OffsetOf(toNumber, old(stored)).None?
      ensures chain != null ==> fresh(chain) && chain.Now() == Fresh(OffsetOf(toNumber, old(stored)).value, now)
    {
      chain := null;
      if blocked {
        return;
      }
      var offset := stored;
      stored := None;
      if offset.None? {
        return;
      }
      var target := toNumber(offset.value);
      if target.None? || target.value <= 0.0 {
        return;
      }
      chain := new Restoration(target.value, now);
    }
  }

  /** The chain's promise: every scroll but the last one missed and was in time. */
  ghost predicate Bounded(b: Browser, c: Chain) {
    && c.attempts <= MAX_ATTEMPTS && Valid(c)
    && (forall n | 0 <= n < c.attempts - 1 :: !Reached(b, c.target, n) && !Late(b, c.deadline, n))
    && (c.pending && 0 < c.attempts ==> !Reached(b, c.target, c.attempts - 1) && !Late(b, c.deadline, c.attempts - 1))
  }

  lemma {:induction false} AttemptedIsBounded(b: Browser, c: Chain)
    requires Bounded(b, c) && !c.pending && c.attempts < MAX_ATTEMPTS
    requires 0 < c.attempts ==> !Reached(b, c.target, c.attempts - 1) && !Late(b, c.deadline, c.attempts - 1)
    ensures var d := Attempted(b, c);
            && Bounded(b, d) && d.target == c.target && d.deadline == c.deadline && c.attempts <= d.attempts
            && d.cancelled == c.cancelled && (c.cancelled ==> d == c) && (!c.cancelled ==> c.attempts < d.attempts)
    decreases MAX_ATTEMPTS - c.attempts
  {
    if !c.cancelled {
      var n := c.attempts;
      var d := c.(attempts := n + 1);
      if !Reached(b, c.target, n) && !Late(b, c.deadline, n) && n + 1 < MAX_ATTEMPTS && b.synchronous(n) {
        AttemptedIsBounded(b, d);
      }
    }
  }

  lemma ReactIsBounded(b: Browser, c: Chain, e: Event)
    requires Bounded(b, c)
    ensures Bounded(b, React(b, c, e))
    ensures React(b, c, e).target == c.target && React(b, c, e).deadline == c.deadline
    ensures c.attempts <= React(b, c, e).attempts
    ensures c.cancelled ==> React(b, c, e).cancelled && React(b, c, e).attempts == c.attempts
    ensures !c.pending ==> !React(b, c, e).pending && React(b, c, e).attempts == c.attempts
  {
    match e
    case Frame =>
      if c.pending {
        AttemptedIsBounded(b, c.(pending := false));
      }
    case Input =>
    case Unmount =>
  }

  function Run(b: Browser, c: Chain, events: seq<Event>): Chain
    requires Bounded(b, c)
    decreases |events|
  {
    if events == [] then c
    else
      ReactIsBounded(b, c, events[0]);
      Run(b, React(b, c, events[0]), events[1..])
  }

  lemma {:induction false} RunIsBounded(b: Browser, c: Chain, events: seq<Event>)
    requires Bounded(b, c)
    ensures var d := Run(b, c, events);
            && Bounded(b, d) && c.attempts <= d.attempts && d.target == c.target && d.deadline == c.deadline
            && (c.cancelled || !c.pending ==> d.attempts == c.attempts)
    decreases |events|
  {
    hide React;
    if events != [] {
      ReactIsBounded(b, c, events[0]);
      RunIsBounded(b, React(b, c, events[0]), events[1..]);
    }
  }

  lemma FreshIsBounded(b: Browser, target: real, now: real)
    ensures Bounded(b, Fresh(target, now))
  {
  }

  /**
   For every browser and every sequence of frames, inputs and unmounts: at most 60 scrolls; a scroll
   within two pixels, or one read after the deadline, is the last; and none follows an input or the
   cleanup, however frames are scheduled.
   */
  lemma RestorationIsBounded(b: Browser, target: real, now: real, before: seq<Event>, stop: Event, later: seq<Event>)
    requires stop.Input? || stop.Unmount?
    ensures Bounded(b, Fresh(target, now))
    ensures var c := Run(b, Fresh(target, now), before);
            && c.attempts <= 60
            && (forall n | 0 <= n < c.attempts - 1 ::
                  2.0 < Abs(b.position(n) - target) && b.clock(n) <= now + 1000.0)
            && Bounded(b, c) && Bounded(b, React(b, c, stop))
            && Run(b, React(b, c, stop), later).attempts == c.attempts
  {
    FreshIsBounded(b, target, now);
    RunIsBounded(b, Fresh(target, now), before);
    var c := Run(b, Fresh(target, now), before);
    ReactIsBounded(b, c, stop);
    RunIsBounded(b, React(b, c, stop), later);
    forall n | 0 <= n < c.attempts - 1
      ensures 2.0 < Abs(b.position(n) - target) && b.clock(n) <= now + 1000.0
    {
      assert !Reached(b, c.target, n) && !Late(b, c.deadline, n);
    }
  }

  /**
   The two halves joined, for every history of a tab: a mount starts a chain for a position exactly when
   a click stored a text for that position which no click or mount has touched since, and a mount that
   follows it at once starts none.
   */
  lemma MountStartsIff(toNumber: string -> Option<real>, events: seq<SessionEvent>, target: real)
    ensures OffsetOf(toNumber, KeptAfter(None, events)) == Some(target) <==>
              0.0 < target && exists offset :: LeftBehind(events, offset) && toNumber(offset) == Some(target)
    ensures OffsetOf(toNumber, KeptAfter(None, events + [Mount])).None?
  {
    hide LeftBehind;
    var kept := KeptAfter(None, events);
    if kept.Some? {
      FoundIff(events, kept.value);
    }
    if exists offset :: LeftBehind(events, offset) && toNumber(offset) == Some(target) {
      var offset :| LeftBehind(events, offset) && toNumber(offset) == Some(target);
      FoundIff(events, offset);
    }
    assert (events + [Mount])[..|events|] == events;
  }

  /** One event of a tab's storage; after a mount, the browser it meets and what happens until it is gone. */
  datatype Visit = Visit(event: SessionEvent, browser: Browser, now: real, reactions: seq<Event>)

  function EventsOf(visits: seq<Visit>): (events: seq<SessionEvent>)
    ensures |events| == |visits|
  {
    if visits == [] then [] else EventsOf(visits[..|visits| - 1]) + [visits[|visits| - 1].event]
  }

  function ScrollsOf(toNumber: string -> Option<real>, stored: Option<string>, v: Visit): nat {
    if v.event != Mount || OffsetOf(toNumber, stored).None? then 0
    else
      var target := OffsetOf(toNumber, stored).value;
      FreshIsBounded(v.browser, target, v.now);
      Run(v.browser, Fresh(target, v.now), v.reactions).attempts
  }

  /** How often the page was scrolled by any of the effects. */
  function Scrolls(toNumber: string -> Option<real>, visits: seq<Visit>): nat {
    if visits == [] then 0
    else
      var before := visits[..|visits| - 1];
      Scrolls(toNumber, before) + ScrollsOf(toNumber, KeptAfter(None, EventsOf(before)), visits[|visits| - 1])
  }

  lemma ScrollsOfOne(toNumber: string -> Option<real>, stored: Option<string>, v: Visit)
    ensures ScrollsOf(toNumber, stored, v)
         <= if v.event == Mount && OffsetOf(toNumber, stored).Some? then MAX_ATTEMPTS else 0
  {
    if v.event == Mount && OffsetOf(toNumber, stored).Some? {
      var target := OffsetOf(toNumber, stored).value;
      FreshIsBounded(v.browser, target, v.now);
      RunIsBounded(v.browser, Fresh(target, v.now), v.reactions);
    }
  }

  /** However browsers behave and pages come and go, a tab is scrolled at most sixty times for each click. */
  lemma SixtyPerClick(toNumber: string -> Option<real>, visits: seq<Visit>)
    ensures Scrolls(toNumber, visits) <= 60 * Clicks(EventsOf(visits))
  {
    SixtyPerRestored(toNumber, visits);
    NoMoreThanClicks(toNumber, EventsOf(visits));
  }

  lemma {:induction false} SixtyPerRestored(toNumber: string -> Option<real>, visits: seq<Visit>)
    ensures Scrolls(toNumber, visits) <= 60 * Restored(toNumber, EventsOf(visits))
    decreases |visits|
  {
    if visits != [] {
      var before, v := visits[..|visits| - 1], visits[|visits| - 1];
      SixtyPerRestored(toNumber, before);
      ScrollsOfOne(toNumber, KeptAfter(None, EventsOf(before)), v);
      assert EventsOf(visits)[..|visits| - 1] == EventsOf(before);
      hide ScrollsOf, KeptAfter, OffsetOf;
    }
  }

  /**
   Left alone, the chain stops scrolling only for one of its reasons: it is within two pixels of the
   position, more than a second has passed, or this was the sixtieth scroll.
   */
  lemma StopsForAReason(b: Browser, target: real, now: real, events: seq<Event>)
    ensures Bounded(b, Fresh(target, now))
    ensures var c := Run(b, Fresh(target, now), events);
            && Bounded(b, c)
            && (c.pending && !c.cancelled ==>
                  var d := React(b, c, Frame);
                  && c.attempts < d.attempts
                  && (d.pending || -2.0 <= b.position(d.attempts - 1) - target <= 2.0
                      || now + 1000.0 < b.clock(d.attempts - 1) || d.attempts == 60))
  {
    FreshIsBounded(b, target, now);
    RunIsBounded(b, Fresh(target, now), events);
    var c := Run(b, Fresh(target, now), events);
    if c.pending && !c.cancelled {
      ReasonToStop(b, c.(pending := false));
    }
  }

  /** And nothing but an input or the cleanup keeps an idle chain from being about to scroll or done. */
  lemma {:induction false} ScrollsUntilDone(b: Browser, target: real, now: real, events: seq<Event>)
    requires forall e | e in events :: e.Frame?
    ensures Bounded(b, Fresh(target, now))
    ensures var c := Run(b, Fresh(target, now), events);
            && !c.cancelled
            && (!c.pending ==>
                  && 0 < c.attempts
                  && (-2.0 <= b.position(c.attempts - 1) - target <= 2.0
                      || now + 1000.0 < b.clock(c.attempts - 1) || c.attempts == 60))
    decreases |events|
  {
    FreshIsBounded(b, target, now);
    if events != [] {
      var before, e := events[..|events| - 1], events[|events| - 1];
      assert events == before + [e] && e in events && forall d | d in before :: d in events;
      ScrollsUntilDone(b, target, now, before);
      RunLast(b, Fresh(target, now), before, e);
      RunIsBounded(b, Fresh(target, now), before);
      StopsForAReason(b, target, now, before);
      FrameCancelsNothing(b, Run(b, Fresh(target, now), before));
    }
  }

  lemma {:induction false} RunLast(b: Browser, c: Chain, before: seq<Event>, e: Event)
    requires Bounded(b, c)
    ensures Bounded(b, Run(b, c, before)) && Run(b, c, before + [e]) == React(b, Run(b, c, before), e)
    decreases |before|
  {
    hide React;
    RunIsBounded(b, c, before);
    if before == [] {
      assert [] + [e] == [e] && [e][1..] == [];
      ReactIsBounded(b, c, e);
    } else {
      assert (before + [e])[0] == before[0] && (before + [e])[1..] == before[1..] + [e];
      ReactIsBounded(b, c, before[0]);
      RunLast(b, React(b, c, before[0]), before[1..], e);
    }
  }

  lemma FrameCancelsNothing(b: Browser, c: Chain)
    requires Bounded(b, c)
    ensures React(b, c, Frame).cancelled == c.cancelled
    ensures !c.pending ==> React(b, c, Frame) == c
  {
    if c.pending {
      AttemptedIsBounded(b, c.(pending := false));
    }
  }

  lemma {:induction false} ReasonToStop(b: Browser, c: Chain)
    requires c.attempts < MAX_ATTEMPTS && !c.pending && !c.cancelled
    ensures var d := Attempted(b, c);
            && c.attempts < d.attempts
            && (d.pending || Reached(b, c.target, d.attempts - 1) || Late(b, c.deadline, d.attempts - 1)
                || d.attempts == MAX_ATTEMPTS)
    decreases MAX_ATTEMPTS - c.attempts
  {
    var n := c.attempts;
    var d := c.(attempts := n + 1);
    if !Reached(b, c.target, n) && !Late(b, c.deadline, n) && n + 1 < MAX_ATTEMPTS && b.synchronous(n) {
      ReasonToStop(b, d);
    }
  }
}
