/**
 * Status events of one bridge as the relay reports them: they may arrive late and out of order, and a
 * guard on the time last seen decides which of them count.
 */
module BridgeStatusReports {
  import opened Prelude

  type Instant = int

  datatype Status = Active | Inactive

  datatype Event = Event(status: Status, at: Instant)

  datatype Bridge = Bridge(status: Status, lastSeenAt: Option<Instant>, revoked: bool)

  const REGISTERED := Bridge(Inactive, None, false)

  predicate Counts(b: Bridge, e: Event) {
    !b.revoked && (b.lastSeenAt.None? || b.lastSeenAt.value <= e.at)
  }

  function Reported(b: Bridge, e: Event): Bridge {
    if Counts(b, e) then b.(status := e.status, lastSeenAt := Some(e.at)) else b
  }

  function After(events: seq<Event>): Bridge {
    if events == [] then REGISTERED else Reported(After(events[..|events| - 1]), events[|events| - 1])
  }

  /** The newest event decides: the bridge was last seen when it happened, and has its status. */
  lemma {:induction false} NewestDecides(events: seq<Event>)
    requires events != []
    ensures var b := After(events);
            && !b.revoked && b.lastSeenAt.Some?
            && (forall e <- events :: e.at <= b.lastSeenAt.value)
            && Event(b.status, b.lastSeenAt.value) in events
  {
    var n := |events| - 1;
    if n > 0 {
      NewestDecides(events[..n]);
      assert forall e <- events :: e in events[..n] || e == events[n];
    }
  }

  /** With distinct times the order of arrival does not matter. */
  lemma ArrivalOrderDoesNotMatter(events: seq<Event>, others: seq<Event>)
    requires events != [] && others != [] && forall e :: e in events <==> e in others
    requires forall e <- events, f <- events :: e.at == f.at ==> e == f
    ensures After(events) == After(others)
  {
    NewestDecides(events);
    NewestDecides(others);
    var b, c := After(events), After(others);
    hide After;
    assert b.lastSeenAt.value == c.lastSeenAt.value;
    assert Event(b.status, b.lastSeenAt.value) == Event(c.status, c.lastSeenAt.value);
  }

  /** Of events at the same time the one that arrives last decides; a revoked bridge ignores them all. */
  lemma LastOfTheNewestDecides(events: seq<Event>, e: Event)
    requires forall f <- events :: f.at <= e.at
    ensures After([]) == Bridge(Inactive, None, false)
    ensures After(events + [e]) == Bridge(e.status, Some(e.at), false)
  {
    assert (events + [e])[..|events|] == events;
    if events != [] { NewestDecides(events); }
  }

  /** A report counts exactly on a live bridge that was not seen later; one that does not count changes nothing. */
  lemma ReportsCount(b: Bridge, e: Event)
    ensures var t := Reported(b, e);
            if b.revoked || (b.lastSeenAt.Some? && e.at < b.lastSeenAt.value) then t == b
            else t == Bridge(e.status, Some(e.at), false)
    ensures Counts(b, e) <==> !b.revoked && (b.lastSeenAt.Some? ==> b.lastSeenAt.value <= e.at)
  {}

  datatype ReportResult = NotFound | Found(updated: bool, statusChanged: bool)

  class BridgeRepository {
    var status: Status
    var lastSeenAt: Option<Instant>
    var revoked: bool

    function View(): Bridge
      reads this
    {
      Bridge(status, lastSeenAt, revoked)
    }

    constructor ()
      ensures View() == REGISTERED
    {
      status, lastSeenAt, revoked := Inactive, None, false;
    }

    /** One atomic update; whether it applied is worked out from the document as it was before. */
    method RecordStatusChange(e: Event) returns (r: ReportResult)
      modifies this
      ensures View() == Reported(old(View()), e)
      ensures r.NotFound? <==> old(revoked)
      ensures r.Found? ==> (r.updated <==> Counts(old(View()), e)) && (r.statusChanged <==> View().status != old(status))
    {
      if revoked { return NotFound; }
      var before := View();
      if lastSeenAt.None? || lastSeenAt.value <= e.at {
        status, lastSeenAt := e.status, Some(e.at);
      }
      var applied := before.lastSeenAt.None? || before.lastSeenAt.value <= e.at;
      r := Found(applied, applied && before.status != e.status);
    }

    method Revoke() returns (modified: bool)
      modifies this
      ensures View() == if old(revoked) then old(View()) else Bridge(Inactive, old(lastSeenAt), true)
      ensures modified <==> !old(revoked)
    {
      modified := !revoked;
      if modified {
        status, revoked := Inactive, true;
      }
    }
  }
}
