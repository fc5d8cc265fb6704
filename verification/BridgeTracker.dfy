/**
 * Debounced online and offline pushes per bridge: pending notifications with timers, sends in flight, and
 * the status a user was last told.
 */
module BridgeTracker {
  import opened Prelude

  type BridgeKey = nat
  type ConnectionId = nat
  type DeviceId = nat

  /** The identity of a set of excluded devices: notifications and sends share the set itself, not a copy. */
  type SetId = nat

  const DEBOUNCE_MS := 120_000
  const NORMAL_WAKE_ONLINE_DELAY_MS := 5_000

  datatype Status = Active | Inactive

  datatype Policy = Normal | Conservative | Suppress

  datatype Pending = Pending(
    status: Status,
    connection: Option<ConnectionId>,
    policy: Policy,
    exclusions: SetId,
    generation: nat,
    delay: nat)

  datatype Early = Early(connection: ConnectionId, devices: set<DeviceId>)

  datatype Push = Push(status: Status, exclusions: SetId, generation: nat)

  /**
   * One bridge's entry, told apart by `id`. `armed` are the generations whose timer is set, `sending` those
   * whose send has begun and not finished, and `pushes` every send begun so far. `submitted` holds, for the
   * pushes handed over to the messaging service, the devices their set excluded at that moment.
   */
  datatype Entry = Entry(
    id: nat,
    pending: Option<Pending>,
    early: Option<Early>,
    lastNotified: Status,
    generation: nat,
    armed: set<nat>,
    sending: set<nat>,
    pushes: seq<Push>,
    sets: map<SetId, set<DeviceId>>,
    submitted: map<nat, set<DeviceId>>)

  function NewEntry(id: nat): Entry {
    Entry(id, None, None, Active, 0, {}, {}, [], map[], map[])
  }

  function Excluded(e: Entry, id: SetId): set<DeviceId> {
    if id in e.sets then e.sets[id] else {}
  }

  // ----- one entry -----

  function Cancel(e: Entry): Entry {
    if e.pending.None? then e
    else e.(armed := e.armed - {e.pending.value.generation}, pending := None, generation := e.generation + 1)
  }

  function DelayFor(status: Status, policy: Policy): nat {
    if status == Active && policy == Normal then NORMAL_WAKE_ONLINE_DELAY_MS else DEBOUNCE_MS
  }

  predicate IsOnlineFor(p: Option<Pending>, connection: Option<ConnectionId>) {
    p.Some? && p.value.status == Active && p.value.connection == connection
  }

  predicate IsEarlyFor(early: Option<Early>, connection: Option<ConnectionId>) {
    early.Some? && connection == Some(early.value.connection)
  }

  function Schedule(e: Entry, status: Status, policy: Policy, connection: Option<ConnectionId>): Entry {
    var cancelled := Cancel(e);
    var generation := cancelled.generation + 1;
    var shares := status == Active && IsOnlineFor(e.pending, connection);
    var exclusions := if shares then e.pending.value.exclusions else generation;
    var useEarly := status == Active && IsEarlyFor(e.early, connection);
    var excluded := (if shares then Excluded(e, exclusions) else {}) + if useEarly then e.early.value.devices else {};
    cancelled.(
      generation := generation,
      early := if useEarly then None else e.early,
      sets := e.sets[exclusions := excluded],
      pending := Some(Pending(status, connection, policy, exclusions, generation, DelayFor(status, policy))),
      armed := cancelled.armed + {generation})
  }

  /** The pending notification already covers this event. */
  predicate Covered(p: Option<Pending>, status: Status, policy: Policy, connection: Option<ConnectionId>) {
    && p.Some? && p.value.status == status && p.value.connection == connection
    && (p.value.policy == Normal || policy != Normal)
  }

  function OnStatus(e: Entry, status: Status, policy: Policy, connection: Option<ConnectionId>): Entry {
    if policy == Suppress then
      if e.pending.Some? && e.pending.value.status == Active then Cancel(e) else e
    else
      var f := if e.pending.Some? && e.pending.value.status != status then Cancel(e) else e;
      if f.lastNotified == status && f.pending.None? then f
      else if Covered(f.pending, status, policy, connection) then f
      else Schedule(f, status, policy, connection)
  }

  function OnObserved(e: Entry, connection: ConnectionId, device: DeviceId): Entry {
    if IsOnlineFor(e.pending, Some(connection)) then
      var id := e.pending.value.exclusions;
      e.(sets := e.sets[id := Excluded(e, id) + {device}])
    else
      var known := if IsEarlyFor(e.early, Some(connection)) then e.early.value.devices else {};
      e.(early := Some(Early(connection, known + {device})))
  }

  /** A timer runs out. Its callback sends only for the pending notification it was set for. */
  function OnTimer(e: Entry, generation: nat): Entry {
    if generation !in e.armed then e
    else if e.pending.None? || e.pending.value.generation != generation then e.(armed := e.armed - {generation})
    else
      e.(armed := e.armed - {generation},
         sending := e.sending + {generation},
         lastNotified := e.pending.value.status,
         pushes := e.pushes + [Push(e.pending.value.status, e.pending.value.exclusions, generation)])
  }

  /** After its last lookup a send reads the set, which may have grown since it began, and submits its messages. */
  function OnSubmit(e: Entry, i: nat): Entry {
    if i >= |e.pushes| || e.pushes[i].generation !in e.sending || i in e.submitted then e
    else e.(submitted := e.submitted[i := Excluded(e, e.pushes[i].exclusions)])
  }

  function OnSent(e: Entry, generation: nat): Entry {
    if generation !in e.sending then e
    else
      e.(sending := e.sending - {generation},
         pending := if e.pending.Some? && e.pending.value.generation == generation then None else e.pending)
  }

  // ----- what an entry keeps -----

  ghost function LastStatus(pushes: seq<Push>): Status {
    if pushes == [] then Active else pushes[|pushes| - 1].status
  }

  ghost predicate TimersExact(e: Entry) {
    && (forall g <- e.armed :: e.pending.Some? && e.pending.value.generation == g && g !in e.sending)
    && (forall g <- e.sending :: g <= e.generation)
    && (e.pending.Some? ==>
          var g := e.pending.value.generation;
          0 < g <= e.generation && (g !in e.armed ==> g in e.sending && e.lastNotified == e.pending.value.status))
  }

  ghost predicate PushesExact(e: Entry) {
    && (forall p <- e.pushes :: p.generation <= e.generation && p.generation !in e.armed)
    && (forall i, j :: 0 <= i < j < |e.pushes| ==> e.pushes[i].generation != e.pushes[j].generation)
    && e.lastNotified == LastStatus(e.pushes)
    && (e.pushes != [] ==> e.pushes[0].status == Inactive)
    && (e.pending.Some? && e.pending.value.status == Active ==> e.pushes != [])
  }

  ghost predicate EarlyExact(e: Entry) {
    e.early.Some? ==> !IsOnlineFor(e.pending, Some(e.early.value.connection))
  }

  /** A set outlives every notification and send that shares it, and is not older than the entry's last generation. */
  ghost predicate SetsExact(e: Entry) {
    && (e.pending.Some? ==> e.pending.value.exclusions in e.sets)
    && (forall p <- e.pushes :: p.exclusions in e.sets)
    && (forall id <- e.sets :: id <= e.generation)
    && (forall i <- e.submitted :: i < |e.pushes|)
  }

  ghost predicate EntryValid(e: Entry) {
    TimersExact(e) && PushesExact(e) && EarlyExact(e) && SetsExact(e)
  }

  lemma CancelIsValid(e: Entry)
    requires EntryValid(e)
    ensures EntryValid(Cancel(e)) && Cancel(e).pending.None? && Cancel(e).armed == {}
  {}

  lemma ScheduleIsValid(e: Entry, status: Status, policy: Policy, connection: Option<ConnectionId>)
    requires EntryValid(e) && (status == Active ==> e.pushes != [])
    ensures EntryValid(Schedule(e, status, policy, connection))
  {
    CancelIsValid(e);
  }

  lemma OnStatusIsValid(e: Entry, status: Status, policy: Policy, connection: Option<ConnectionId>)
    requires EntryValid(e)
    ensures EntryValid(OnStatus(e, status, policy, connection))
  {
    CancelIsValid(e);
    var f := if e.pending.Some? && e.pending.value.status != status then Cancel(e) else e;
    if f.pending.Some? || f.lastNotified != status {
      ScheduleIsValid(f, status, policy, connection);
    }
    hide Schedule, Cancel;
  }

  lemma OnObservedIsValid(e: Entry, connection: ConnectionId, device: DeviceId)
    requires EntryValid(e)
    ensures EntryValid(OnObserved(e, connection, device))
  {}

  lemma OnTimerIsValid(e: Entry, generation: nat)
    requires EntryValid(e)
    ensures EntryValid(OnTimer(e, generation))
  {}

  lemma OnSentIsValid(e: Entry, generation: nat)
    requires EntryValid(e)
    ensures EntryValid(OnSent(e, generation))
  {}

  lemma OnSubmitIsValid(e: Entry, i: nat)
    requires EntryValid(e)
    ensures EntryValid(OnSubmit(e, i))
  {}

  /** An armed timer is the pending notification's: an entry has at most one. */
  lemma OneTimer(e: Entry)
    requires EntryValid(e)
    ensures |e.armed| <= 1
  {
    if g :| g in e.armed {
      assert e.armed == {g};
    }
  }

  // ----- what each event does to an entry -----

  /** The event has nothing new to tell: no other notification is pending, and it was told last or is about to be. */
  predicate NothingNew(e: Entry, status: Status, policy: Policy, connection: Option<ConnectionId>) {
    if e.pending.None? then e.lastNotified == status
    else
      && e.pending.value.status == status && e.pending.value.connection == connection
      && (e.pending.value.policy == Normal || policy == Conservative)
  }

  /** A suppressed event only takes back an online push that is still pending. */
  lemma SuppressedEventCancels(e: Entry, status: Status, connection: Option<ConnectionId>)
    requires EntryValid(e)
    ensures var t := OnStatus(e, status, Suppress, connection);
            if e.pending.Some? && e.pending.value.status == Active
            then t.pending.None? && t.armed == {} && t.pushes == e.pushes && t.lastNotified == e.lastNotified
            else t == e
  {
    CancelIsValid(e);
  }

  /** A change back to the status last told withdraws the pending push, and schedules none. */
  lemma ReturningWithdraws(e: Entry, status: Status, policy: Policy, connection: Option<ConnectionId>)
    requires EntryValid(e) && policy != Suppress
    requires e.pending.Some? && e.pending.value.status != status && e.lastNotified == status
    ensures var t := OnStatus(e, status, policy, connection);
            t.pending.None? && t.armed == {} && t.pushes == e.pushes && t.lastNotified == e.lastNotified
  {
    CancelIsValid(e);
  }

  /**
   * Any other event that has something new to tell replaces whatever was pending by one notification of
   * its own, armed alone: five seconds ahead for an ordinary return, two minutes ahead otherwise.
   */
  lemma NewsIsScheduled(e: Entry, status: Status, policy: Policy, connection: Option<ConnectionId>)
    requires EntryValid(e) && policy != Suppress
    requires !(e.pending.Some? && e.pending.value.status != status && e.lastNotified == status)
    ensures var t := OnStatus(e, status, policy, connection);
            if NothingNew(e, status, policy, connection) then t == e
            else
              && t.pending.Some? && t.pending.value.status == status
              && t.pending.value.connection == connection && t.pending.value.policy == policy
              && t.pending.value.delay == (if status == Active && policy == Normal then 5_000 else 120_000)
              && t.pending.value.generation > e.generation && t.armed == {t.pending.value.generation}
              && t.pushes == e.pushes && t.lastNotified == e.lastNotified && t.sending == e.sending
  {
    CancelIsValid(e);
    hide PushesExact, EarlyExact, SetsExact;
  }

  /** The devices left out of a new online push: those observed early on its connection, and those of the one it replaces. */
  ghost predicate ExcludesObserved(e: Entry, t: Entry, status: Status, connection: Option<ConnectionId>) {
    && t.pending.Some?
    && Excluded(t, t.pending.value.exclusions) ==
       (if status == Active && e.pending.Some? && e.pending.value.status == Active && e.pending.value.connection == connection
        then Excluded(e, e.pending.value.exclusions) else {})
       + (if status == Active && e.early.Some? && Some(e.early.value.connection) == connection then e.early.value.devices else {})
    && t.early == (if status == Active && e.early.Some? && Some(e.early.value.connection) == connection then None else e.early)
  }

  lemma ScheduleExcludes(e: Entry, status: Status, policy: Policy, connection: Option<ConnectionId>)
    ensures ExcludesObserved(e, Schedule(e, status, policy, connection), status, connection)
  {}

  lemma NewsExcludes(e: Entry, status: Status, policy: Policy, connection: Option<ConnectionId>)
    requires EntryValid(e) && policy != Suppress && !NothingNew(e, status, policy, connection)
    requires !(e.pending.Some? && e.pending.value.status != status && e.lastNotified == status)
    ensures ExcludesObserved(e, OnStatus(e, status, policy, connection), status, connection)
  {
    var f := if e.pending.Some? && e.pending.value.status != status then Cancel(e) else e;
    ScheduleExcludes(f, status, policy, connection);
    hide EntryValid, Schedule;
  }

  /** The timer of the pending notification sends it; any other timer sends nothing. */
  lemma TimerSends(e: Entry, g: nat)
    requires g in e.armed
    ensures var t := OnTimer(e, g);
            if e.pending.Some? && e.pending.value.generation == g then
              && t.pushes == e.pushes + [Push(e.pending.value.status, e.pending.value.exclusions, g)]
              && t.lastNotified == e.pending.value.status && t.sending == e.sending + {g} && t.armed == e.armed - {g}
              && t.pending == e.pending
            else t == e.(armed := e.armed - {g})
    ensures forall h :: h !in e.armed ==> OnTimer(e, h) == e
  {}

  /** A finished send clears its notification, unless another one has taken its place. */
  lemma SendClears(e: Entry, g: nat)
    requires g in e.sending
    ensures var t := OnSent(e, g);
            t == e.(sending := e.sending - {g},
                    pending := if e.pending.Some? && e.pending.value.generation == g then None else e.pending)
    ensures forall h :: h !in e.sending ==> OnSent(e, h) == e
  {}

  /** A device observed before its connection is announced is remembered for that connection alone. */
  lemma EarlyDevicesAreRemembered(e: Entry, connection: ConnectionId, device: DeviceId)
    requires !(e.pending.Some? && e.pending.value.status == Active && e.pending.value.connection == Some(connection))
    ensures OnObserved(e, connection, device) == e.(early := Some(Early(connection,
              (if e.early.Some? && e.early.value.connection == connection then e.early.value.devices else {}) + {device})))
  {}

  /** A submission leaves out exactly the devices that the set of its push holds at that moment. */
  lemma SubmissionReadsSet(e: Entry, i: nat)
    requires EntryValid(e) && i < |e.pushes| && e.pushes[i].generation in e.sending && i !in e.submitted
    ensures OnSubmit(e, i) == e.(submitted := e.submitted[i := e.sets[e.pushes[i].exclusions]])
  {}

  /** Nothing is submitted twice, or for a send that is over. */
  lemma SubmissionsEnd(e: Entry, i: nat)
    requires i >= |e.pushes| || e.pushes[i].generation !in e.sending || i in e.submitted
    ensures OnSubmit(e, i) == e
  {}

  /** A computer that is back before its offline push was due is not heard of at all. */
  lemma QuickRestartIsSilent(id: nat, c: Option<ConnectionId>, d: Option<ConnectionId>, p: Policy, q: Policy)
    requires p != Suppress && q != Suppress
    ensures var e := OnStatus(OnStatus(NewEntry(id), Inactive, p, c), Active, q, d);
            e.pending.None? && e.armed == {} && e.pushes == []
  {}

  /** One that stays away is reported offline, and online when it returns. */
  lemma AbsenceIsReported(id: nat, c: Option<ConnectionId>, d: Option<ConnectionId>)
    ensures var gone := OnSent(OnTimer(OnStatus(NewEntry(id), Inactive, Normal, c), 1), 1);
            var back := OnStatus(gone, Active, Normal, d);
            && gone.pending.None? && |gone.pushes| == 1 && gone.pushes[0].status == Inactive
            && back.pending.Some? && back.pending.value.delay == 5_000
            && var told := OnTimer(back, back.generation);
               |told.pushes| == 2 && told.pushes[1].status == Active
  {
    var first := OnTimer(OnStatus(NewEntry(id), Inactive, Normal, c), 1);
    assert first.pushes == [Push(Inactive, 1, 1)] && first.sending == {1};
    var gone := OnSent(first, 1);
    assert gone.pending.None? && gone.armed == {} && gone.pushes == first.pushes;
  }

  // ----- alternation -----

  ghost predicate Alternates(pushes: seq<Push>) {
    && (pushes != [] ==> pushes[0].status == Inactive)
    && (forall i :: 0 < i < |pushes| ==> pushes[i - 1].status != pushes[i].status)
  }

  /** The pushes alternate, and whatever is waiting for its timer would continue to. */
  ghost predicate Clean(e: Entry) {
    Alternates(e.pushes) && (e.armed != {} ==> e.pending.Some? && e.pending.value.status != e.lastNotified)
  }

  /** A status event repeats the status that is just being sent, on another connection or more urgently. */
  predicate Doubles(e: Entry, status: Status, policy: Policy, connection: Option<ConnectionId>) {
    && policy != Suppress
    && e.pending.Some? && e.pending.value.generation !in e.armed
    && e.pending.value.status == status && !Covered(e.pending, status, policy, connection)
  }

  /** A status event endangers the alternation exactly when it doubles a push in flight. */
  lemma OnStatusStaysClean(e: Entry, status: Status, policy: Policy, connection: Option<ConnectionId>)
    requires EntryValid(e) && Clean(e)
    ensures Clean(OnStatus(e, status, policy, connection)) <==> !Doubles(e, status, policy, connection)
  {
    hide PushesExact, EarlyExact, Alternates;
    CancelIsValid(e);
    var f := if e.pending.Some? && e.pending.value.status != status then Cancel(e) else e;
    ScheduleArms(f, status, policy, connection);
    hide Schedule;
  }

  /** Scheduling leaves exactly the new timer armed. */
  lemma ScheduleArms(e: Entry, status: Status, policy: Policy, connection: Option<ConnectionId>)
    requires EntryValid(e)
    ensures var t := Schedule(e, status, policy, connection);
            t.armed == {t.generation} && t.pending.Some? && t.pending.value.status == status
            && t.pushes == e.pushes && t.lastNotified == e.lastNotified
  {
    CancelIsValid(e);
    hide PushesExact, EarlyExact;
  }

  lemma OnTimerStaysClean(e: Entry, generation: nat)
    requires EntryValid(e) && Clean(e)
    ensures Clean(OnTimer(e, generation))
  {
    if generation in e.armed {
      assert e.armed - {generation} == {};
    }
  }

  /** When a timer fires, the push alternates with the one before exactly when its status is not the last one told. */
  lemma PushAlternates(e: Entry, generation: nat)
    requires EntryValid(e) && Alternates(e.pushes) && generation in e.armed
    ensures Alternates(OnTimer(e, generation).pushes) <==> e.pending.value.status != e.lastNotified
  {
    var t := OnTimer(e, generation);
    assert t.pushes[|e.pushes|].status == e.pending.value.status;
    if e.pushes != [] {
      assert t.pushes[|e.pushes| - 1] == e.pushes[|e.pushes| - 1];
    }
  }

  // ----- a notification that was cancelled, or sent, is never sent again -----

  /** The generation has been used, and no timer can send for it any more. */
  ghost predicate Spent(e: Entry, g: nat) {
    g <= e.generation && g !in e.armed
  }

  /** What any step may do to an entry: pushes are only added, and never for a spent generation. */
  ghost predicate Grows(e: Entry, f: Entry) {
    && f.id == e.id
    && e.generation <= f.generation
    && e.pushes <= f.pushes
    && (forall g :: Spent(e, g) ==> Spent(f, g))
    && (forall i :: |e.pushes| <= i < |f.pushes| ==> !Spent(e, f.pushes[i].generation))
    && Remembers(e, f)
  }

  /** Sets only grow, and a push submitted meanwhile excluded at least what its set held before. */
  ghost predicate Remembers(e: Entry, f: Entry) {
    && (forall id <- e.sets :: id in f.sets && e.sets[id] <= f.sets[id])
    && (forall i <- e.submitted :: i in f.submitted && f.submitted[i] == e.submitted[i])
    && (forall i <- f.submitted :: i !in e.submitted ==>
          i < |f.pushes| && (f.pushes[i].exclusions in e.sets ==> e.sets[f.pushes[i].exclusions] <= f.submitted[i]))
  }

  lemma RemembersTransitively(e: Entry, f: Entry, h: Entry)
    requires Remembers(e, f) && Remembers(f, h) && f.pushes <= h.pushes
    ensures Remembers(e, h)
  {}

  lemma GrowsTransitively(e: Entry, f: Entry, h: Entry)
    requires Grows(e, f) && Grows(f, h)
    ensures Grows(e, h)
  {
    RemembersTransitively(e, f, h);
    hide Spent, Remembers;
    forall i | |e.pushes| <= i < |h.pushes| ensures !Spent(e, h.pushes[i].generation) {
      if i < |f.pushes| { assert h.pushes[i] == f.pushes[i]; }
    }
  }

  lemma CancelGrows(e: Entry)
    ensures Grows(e, Cancel(e))
  {}

  lemma ScheduleGrows(e: Entry, status: Status, policy: Policy, connection: Option<ConnectionId>)
    requires SetsExact(e)
    ensures Grows(e, Schedule(e, status, policy, connection))
  {
    CancelGrows(e);
    hide IsEarlyFor, DelayFor;
  }

  lemma OnStatusGrows(e: Entry, status: Status, policy: Policy, connection: Option<ConnectionId>)
    requires EntryValid(e)
    ensures Grows(e, OnStatus(e, status, policy, connection))
  {
    CancelGrows(e);
    CancelIsValid(e);
    var f := if e.pending.Some? && e.pending.value.status != status then Cancel(e) else e;
    ScheduleGrows(f, status, policy, connection);
    hide Schedule, Cancel, Spent;
    GrowsTransitively(e, f, Schedule(f, status, policy, connection));
  }

  lemma OnObservedGrows(e: Entry, connection: ConnectionId, device: DeviceId)
    ensures Grows(e, OnObserved(e, connection, device))
  {}

  lemma OnTimerGrows(e: Entry, g: nat)
    requires EntryValid(e)
    ensures Grows(e, OnTimer(e, g))
  {}

  lemma OnSubmitGrows(e: Entry, i: nat)
    requires EntryValid(e)
    ensures Grows(e, OnSubmit(e, i))
  {}

  lemma OnSentGrows(e: Entry, g: nat)
    ensures Grows(e, OnSent(e, g))
  {}

  /** An observed device is left out of the online push of the connection it was observed on. */
  predicate Knows(e: Entry, connection: ConnectionId, device: DeviceId) {
    || (IsOnlineFor(e.pending, Some(connection)) && device in Excluded(e, e.pending.value.exclusions))
    || (IsEarlyFor(e.early, Some(connection)) && device in e.early.value.devices)
  }

  lemma ObservedDeviceIsExcluded(e: Entry, connection: ConnectionId, device: DeviceId, policy: Policy)
    requires EntryValid(e)
    ensures Knows(OnObserved(e, connection, device), connection, device)
    ensures Knows(e, connection, device) && IsOnlineFor(OnStatus(e, Active, policy, Some(connection)).pending, Some(connection)) ==>
              var f := OnStatus(e, Active, policy, Some(connection)); device in Excluded(f, f.pending.value.exclusions)
  {}

  // ----- the tracker -----

  /** `live` are the entries in the tracker's map, `gone` those it has dropped; `created` counts both. */
  datatype Tracker = Tracker(accepting: bool, live: map<BridgeKey, Entry>, gone: set<Entry>, created: nat)

  const NEW_TRACKER := Tracker(true, map[], {}, 0)

  function EntryFor(t: Tracker, k: BridgeKey): Entry {
    if k in t.live then t.live[k] else NewEntry(t.created)
  }

  function Store(t: Tracker, k: BridgeKey, e: Entry): Tracker {
    t.(live := t.live[k := e], created := if k in t.live then t.created else t.created + 1)
  }

  datatype Step =
    | StatusChanged(key: BridgeKey, status: Status, policy: Policy, connection: Option<ConnectionId>)
    | Observed(key: BridgeKey, seenOn: ConnectionId, device: DeviceId)
    | BridgeRevoked(key: BridgeKey)
    | TimerRuns(key: BridgeKey, generation: nat)
    | Submits(key: BridgeKey, push: nat)
    | SendEnds(key: BridgeKey, generation: nat)
    | Dispose

  function CancelAll(live: map<BridgeKey, Entry>): set<Entry> {
    set k | k in live :: Cancel(live[k])
  }

  /** A dropped entry changes no more: its sets are out of reach, and what its last sends do is not followed. */
  function Next(t: Tracker, step: Step): Tracker {
    match step
    case StatusChanged(k, status, policy, connection) =>
      if t.accepting then Store(t, k, OnStatus(EntryFor(t, k), status, policy, connection)) else t
    case Observed(k, c, device) =>
      if t.accepting then Store(t, k, OnObserved(EntryFor(t, k), c, device)) else t
    case BridgeRevoked(k) =>
      if t.accepting && k in t.live then t.(live := t.live - {k}, gone := t.gone + {Cancel(t.live[k])}) else t
    case TimerRuns(k, g) => if k in t.live then Store(t, k, OnTimer(t.live[k], g)) else t
    case Submits(k, i) => if k in t.live then Store(t, k, OnSubmit(t.live[k], i)) else t
    case SendEnds(k, g) => if k in t.live then Store(t, k, OnSent(t.live[k], g)) else t
    case Dispose =>
      Tracker(false, map[], t.gone + CancelAll(t.live), t.created)
  }

  function Run(steps: seq<Step>): Tracker {
    if steps == [] then NEW_TRACKER else Next(Run(steps[..|steps| - 1]), steps[|steps| - 1])
  }

  ghost predicate Has(t: Tracker, e: Entry) {
    e in t.gone || exists k :: k in t.live && t.live[k] == e
  }

  ghost predicate Valid(t: Tracker) {
    && (forall k <- t.live :: EntryValid(t.live[k]) && t.live[k].id < t.created)
    && (forall e <- t.gone :: EntryValid(e) && e.armed == {} && e.id < t.created)
    && (forall j <- t.live, k <- t.live :: t.live[j].id == t.live[k].id ==> j == k)
    && (forall k <- t.live, e <- t.gone :: t.live[k].id != e.id)
    && (!t.accepting ==> t.live == map[])
  }

  lemma NewEntryIsValid(id: nat)
    ensures EntryValid(NewEntry(id)) && Clean(NewEntry(id))
  {}

  lemma StoreIsValid(t: Tracker, k: BridgeKey, e: Entry)
    requires Valid(t) && t.accepting && EntryValid(e) && e.id == EntryFor(t, k).id
    ensures Valid(Store(t, k, e))
  {
    hide EntryValid;
  }

  /** The entry a step works on, and what the step makes of it. */
  function Worked(t: Tracker, step: Step): Entry
    requires step.StatusChanged? || step.Observed? || ((step.TimerRuns? || step.Submits? || step.SendEnds?) && step.key in t.live)
  {
    var e := EntryFor(t, step.key);
    match step
    case StatusChanged(_, status, policy, connection) => OnStatus(e, status, policy, connection)
    case Observed(_, c, device) => OnObserved(e, c, device)
    case TimerRuns(_, g) => OnTimer(e, g)
    case Submits(_, i) => OnSubmit(e, i)
    case SendEnds(_, g) => OnSent(e, g)
  }

  predicate Works(t: Tracker, step: Step) {
    (t.accepting && (step.StatusChanged? || step.Observed?)) || ((step.TimerRuns? || step.Submits? || step.SendEnds?) && step.key in t.live)
  }

  lemma WorkedIsValid(t: Tracker, step: Step)
    requires Valid(t) && Works(t, step)
    ensures EntryValid(Worked(t, step)) && Grows(EntryFor(t, step.key), Worked(t, step))
    ensures Next(t, step) == Store(t, step.key, Worked(t, step)) && t.accepting
  {
    var e := EntryFor(t, step.key);
    NewEntryIsValid(t.created);
    assert EntryValid(e);
    hide EntryValid, Grows, OnStatus, OnObserved, OnTimer, OnSubmit, OnSent;
    match step
    case StatusChanged(_, status, policy, connection) =>
      OnStatusIsValid(e, status, policy, connection);
      OnStatusGrows(e, status, policy, connection);
    case Observed(_, c, device) =>
      OnObservedIsValid(e, c, device);
      OnObservedGrows(e, c, device);
    case TimerRuns(_, g) =>
      OnTimerIsValid(e, g);
      OnTimerGrows(e, g);
    case Submits(_, i) =>
      OnSubmitIsValid(e, i);
      OnSubmitGrows(e, i);
    case SendEnds(_, g) =>
      OnSentIsValid(e, g);
      OnSentGrows(e, g);
  }

  lemma StepIsValid(t: Tracker, step: Step)
    requires Valid(t)
    ensures Valid(Next(t, step))
  {
    if Works(t, step) {
      WorkedIsValid(t, step);
      StoreIsValid(t, step.key, Worked(t, step));
    } else {
      forall k | k in t.live ensures Retired(t.live[k], Cancel(t.live[k])) { CancelIsValid(t.live[k]); }
      hide EntryValid, Cancel;
      RetiringIsValid(t, step);
    }
  }

  ghost predicate Retired(e: Entry, f: Entry) {
    EntryValid(f) && f.armed == {} && f.id == e.id
  }

  lemma RetiringIsValid(t: Tracker, step: Step)
    requires Valid(t) && !Works(t, step) && forall k <- t.live :: Retired(t.live[k], Cancel(t.live[k]))
    ensures Valid(Next(t, step))
  {
    hide EntryValid, Cancel, OnTimer, OnSubmit, OnSent, OnStatus, OnObserved;
  }

  lemma {:induction false} RunIsValid(steps: seq<Step>)
    ensures Valid(Run(steps))
  {
    if steps != [] {
      RunIsValid(steps[..|steps| - 1]);
      StepIsValid(Run(steps[..|steps| - 1]), steps[|steps| - 1]);
      hide Valid, Next;
    }
  }

  /** In every reachable state every entry starts with an offline push and has at most one timer, its pending one's. */
  lemma EveryOnlineAnswersOffline(steps: seq<Step>, e: Entry)
    requires Has(Run(steps), e)
    ensures e.pushes != [] ==> e.pushes[0].status == Inactive
    ensures |e.armed| <= 1 && forall g <- e.armed :: e.pending.Some? && e.pending.value.generation == g
  {
    RunIsValid(steps);
    hide Run;
    assert EntryValid(e);
    OneTimer(e);
  }

  ghost predicate AllClean(t: Tracker) {
    (forall k <- t.live :: Clean(t.live[k])) && (forall e <- t.gone :: Clean(e))
  }

  predicate DoublesIn(t: Tracker, step: Step) {
    step.StatusChanged? && t.accepting && step.key in t.live && Doubles(t.live[step.key], step.status, step.policy, step.connection)
  }

  lemma CancelStaysClean(e: Entry)
    requires EntryValid(e) && Clean(e)
    ensures Clean(Cancel(e))
  {
    CancelIsValid(e);
  }

  lemma WorkedIsClean(t: Tracker, step: Step)
    requires Valid(t) && AllClean(t) && Works(t, step) && !DoublesIn(t, step)
    ensures Clean(Worked(t, step))
  {
    var e := EntryFor(t, step.key);
    NewEntryIsValid(t.created);
    assert EntryValid(e) && Clean(e);
    hide OnStatus, OnTimer;
    match step
    case StatusChanged(_, status, policy, connection) => OnStatusStaysClean(e, status, policy, connection);
    case TimerRuns(_, g) => OnTimerStaysClean(e, g);
    case Observed(_, c, device) =>
    case Submits(_, i) =>
    case SendEnds(_, g) =>
  }

  lemma StepStaysClean(t: Tracker, step: Step)
    requires Valid(t) && AllClean(t) && !DoublesIn(t, step)
    ensures AllClean(Next(t, step))
  {
    if Works(t, step) {
      WorkedIsValid(t, step);
      WorkedIsClean(t, step);
      hide Valid, Clean, Worked;
    } else {
      forall k | k in t.live ensures Clean(Cancel(t.live[k])) { CancelStaysClean(t.live[k]); }
      hide Clean, Cancel, EntryValid;
    }
  }

  lemma {:induction false} RunStaysClean(steps: seq<Step>)
    requires forall m :: 0 <= m < |steps| ==> !DoublesIn(Run(steps[..m]), steps[m])
    ensures AllClean(Run(steps))
  {
    if steps != [] {
      var n := |steps| - 1;
      forall m | 0 <= m < n ensures !DoublesIn(Run(steps[..n][..m]), steps[..n][m]) {
        assert steps[..n][..m] == steps[..m];
      }
      RunStaysClean(steps[..n]);
      RunIsValid(steps[..n]);
      StepStaysClean(Run(steps[..n]), steps[n]);
      hide Next, Valid, AllClean, DoublesIn;
    }
  }

  /** Pushes strictly alternate, offline first, as long as no status event doubles a push in flight. */
  lemma PushesAlternate(steps: seq<Step>, e: Entry)
    requires forall m :: 0 <= m < |steps| ==> !DoublesIn(Run(steps[..m]), steps[m])
    requires Has(Run(steps), e)
    ensures Alternates(e.pushes)
  {
    RunStaysClean(steps);
    hide Run, Alternates;
    assert Clean(e);
  }

  // ----- cancelled notifications, and shutdown -----

  /** What a step makes of the live entry of a key. */
  function Successor(t: Tracker, step: Step, k: BridgeKey): Entry
    requires k in t.live
  {
    if Works(t, step) then (if step.key == k then Worked(t, step) else t.live[k])
    else if step.Dispose? || (step.BridgeRevoked? && step.key == k && t.accepting) then Cancel(t.live[k])
    else t.live[k]
  }

  lemma SuccessorGrows(t: Tracker, step: Step, k: BridgeKey)
    requires Valid(t) && k in t.live
    ensures Grows(t.live[k], Successor(t, step, k))
  {
    if Works(t, step) {
      WorkedIsValid(t, step);
      hide Worked, Valid;
    } else {
      CancelGrows(t.live[k]);
      hide Cancel, Valid;
    }
  }

  lemma SuccessorIsThere(t: Tracker, step: Step, k: BridgeKey)
    requires Valid(t) && k in t.live
    ensures Has(Next(t, step), Successor(t, step, k))
  {
    var f := Successor(t, step, k);
    if Works(t, step) {
      WorkedIsValid(t, step);
      hide Worked, Valid;
      assert Next(t, step).live[k] == f;
    } else {
      hide Cancel, Valid, OnTimer, OnSubmit, OnSent, OnStatus, OnObserved;
      assert f in Next(t, step).gone || (k in Next(t, step).live && Next(t, step).live[k] == f);
    }
  }

  lemma GoneStaysGone(t: Tracker, step: Step, e: Entry)
    requires e in t.gone
    ensures e in Next(t, step).gone
  {
    hide OnTimer, OnSubmit, OnSent, OnStatus, OnObserved, Cancel;
  }

  /** An entry that has been seen is still there later, and has only grown. */
  lemma StepGrows(t: Tracker, step: Step, e: Entry) returns (f: Entry)
    requires Valid(t) && Has(t, e)
    ensures Has(Next(t, step), f) && Grows(e, f)
  {
    hide Valid, Next;
    if e in t.gone {
      f := e;
      GoneStaysGone(t, step, e);
    } else {
      var k :| k in t.live && t.live[k] == e;
      f := Successor(t, step, k);
      SuccessorGrows(t, step, k);
      SuccessorIsThere(t, step, k);
    }
  }

  /** Once its generation is spent, by a cancellation or by its send, a notification is never sent (again). */
  lemma {:induction false} SpentNeverSends(steps: seq<Step>, i: nat, e: Entry, g: nat) returns (f: Entry)
    requires i <= |steps| && Has(Run(steps[..i]), e) && Spent(e, g)
    ensures Has(Run(steps), f) && f.id == e.id && e.pushes <= f.pushes && Spent(f, g)
    ensures forall p :: |e.pushes| <= p < |f.pushes| ==> f.pushes[p].generation != g
    decreases |steps| - i
  {
    if i == |steps| {
      assert steps[..i] == steps;
      f := e;
    } else {
      RunIsValid(steps[..i]);
      assert steps[..i + 1][..i] == steps[..i];
      assert Run(steps[..i + 1]) == Next(Run(steps[..i]), steps[i]);
      hide Run, Next, Valid, Spent, Has;
      var h := StepGrows(Run(steps[..i]), steps[i], e);
      f := SpentNeverSends(steps, i + 1, h, g);
      forall p | |e.pushes| <= p < |f.pushes| ensures f.pushes[p].generation != g {
        if p < |h.pushes| { assert f.pushes[p] == h.pushes[p]; }
      }
    }
  }

  lemma {:induction false} EntryStays(steps: seq<Step>, i: nat, e: Entry) returns (f: Entry)
    requires i <= |steps| && Has(Run(steps[..i]), e)
    ensures Has(Run(steps), f) && Grows(e, f)
    decreases |steps| - i
  {
    if i == |steps| {
      assert steps[..i] == steps;
      f := e;
    } else {
      RunIsValid(steps[..i]);
      assert steps[..i + 1][..i] == steps[..i];
      assert Run(steps[..i + 1]) == Next(Run(steps[..i]), steps[i]);
      hide Run, Next, Valid, Grows, Has;
      var h := StepGrows(Run(steps[..i]), steps[i], e);
      f := EntryStays(steps, i + 1, h);
      GrowsTransitively(e, h, f);
    }
  }

  /**
   * A device observed on the connection of an online push is left out of every push that shares the set of that
   * notification and is submitted later, also of one whose send had begun before the observation.
   */
  lemma ObservedBeforeSubmission(steps: seq<Step>, i: nat, k: BridgeKey, c: ConnectionId, device: DeviceId) returns (f: Entry)
    requires i < |steps| && steps[i] == Observed(k, c, device) && Run(steps[..i]).accepting
    requires IsOnlineFor(EntryFor(Run(steps[..i]), k).pending, Some(c))
    ensures var e := EntryFor(Run(steps[..i]), k);
            && Has(Run(steps), f) && f.id == e.id && e.pushes <= f.pushes
            && forall j <- f.submitted :: j !in e.submitted && j < |f.pushes| && f.pushes[j].exclusions == e.pending.value.exclusions ==>
                 device in f.submitted[j]
  {
    var e := EntryFor(Run(steps[..i]), k);
    var seen := OnObserved(e, c, device);
    assert steps[..i + 1][..i] == steps[..i];
    assert Run(steps[..i + 1]) == Next(Run(steps[..i]), steps[i]);
    assert Run(steps[..i + 1]).live[k] == seen;
    hide Run, Next;
    f := EntryStays(steps, i + 1, seen);
    hide Spent;
    assert device in seen.sets[e.pending.value.exclusions];
  }

  /** Cancelling spends the pending notification. */
  lemma CancelSpends(e: Entry)
    requires EntryValid(e) && e.pending.Some?
    ensures Spent(Cancel(e), e.pending.value.generation) && Cancel(e).pushes == e.pushes
  {}

  /** After disposal no send begins: no entry is left that a timer could fire for. */
  lemma {:induction false} NothingSentAfterDispose(steps: seq<Step>, i: nat)
    requires i <= |steps| && !Run(steps[..i]).accepting
    ensures Run(steps) == Run(steps[..i])
    decreases |steps| - i
  {
    if i == |steps| {
      assert steps[..i] == steps;
    } else {
      RunIsValid(steps[..i]);
      assert steps[..i + 1][..i] == steps[..i];
      assert Run(steps[..i + 1]) == Next(Run(steps[..i]), steps[i]);
      DisposedStandsStill(Run(steps[..i]), steps[i]);
      hide Run, Next, Valid;
      NothingSentAfterDispose(steps, i + 1);
    }
  }

  lemma DisposedStandsStill(t: Tracker, step: Step)
    requires Valid(t) && !t.accepting
    ensures Next(t, step) == t
  {
    hide EntryValid;
    assert t.live == map[];
    assert CancelAll(t.live) == {};
  }

  /** A status event that doubles a push in flight can repeat it. */
  lemma DoublingRepeats(c: ConnectionId, d: ConnectionId)
    requires c != d
    ensures var e := OnTimer(OnStatus(NewEntry(0), Inactive, Conservative, Some(c)), 1);
            var f := OnTimer(OnStatus(e, Inactive, Conservative, Some(d)), 3);
            |f.pushes| == 2 && f.pushes[0].status == Inactive && f.pushes[1].status == Inactive
  {
    var e := OnTimer(OnStatus(NewEntry(0), Inactive, Conservative, Some(c)), 1);
    assert e.pushes == [Push(Inactive, 1, 1)] && e.generation == 1;
    var h := OnStatus(e, Inactive, Conservative, Some(d));
    assert h.pending.value.generation == 3 && 3 in h.armed && h.pushes == e.pushes;
  }

  lemma RunThen(steps: seq<Step>, step: Step)
    ensures Run(steps + [step]) == Next(Run(steps), step)
  {
    assert (steps + [step])[..|steps|] == steps;
  }

  /** From a new tracker: a bridge that goes offline is reported once its timer has run, and back online after its return. */
  lemma OfflineIsReported(k: BridgeKey, c: Option<ConnectionId>, d: Option<ConnectionId>) returns (steps: seq<Step>)
    ensures var t := Run(steps);
            && k in t.live && |t.live[k].pushes| == 2
            && t.live[k].pushes[0].status == Inactive && t.live[k].pushes[1].status == Active
  {
    var first, back := OnStatus(NewEntry(0), Inactive, Normal, c), OnStatus(OnTimer(OnStatus(NewEntry(0), Inactive, Normal, c), 1), Active, Normal, d);
    assert Run([]) == NEW_TRACKER;
    steps := [];
    RunThen(steps, StatusChanged(k, Inactive, Normal, c));
    steps := steps + [StatusChanged(k, Inactive, Normal, c)];
    assert Run(steps).live[k] == first;
    RunThen(steps, TimerRuns(k, 1));
    steps := steps + [TimerRuns(k, 1)];
    RunThen(steps, StatusChanged(k, Active, Normal, d));
    steps := steps + [StatusChanged(k, Active, Normal, d)];
    assert Run(steps).live[k] == back;
    RunThen(steps, TimerRuns(k, back.generation));
    steps := steps + [TimerRuns(k, back.generation)];
    assert Run(steps).live[k] == OnTimer(back, back.generation);
    hide Run, Next;
  }

  // ----- the tracker object -----

  class BridgeStateTracker {
    var accepting: bool
    var state: map<BridgeKey, Entry>
    ghost var gone: set<Entry>
    var created: nat

    ghost function View(): Tracker
      reads this
    {
      Tracker(accepting, state, gone, created)
    }

    constructor ()
      ensures View() == NEW_TRACKER
    {
      accepting, state, gone, created := true, map[], {}, 0;
    }

    method GetOrCreateEntry(k: BridgeKey) returns (e: Entry)
      modifies `state, `created
      ensures e == old(EntryFor(View(), k)) && View() == old(Store(View(), k, EntryFor(View(), k)))
    {
      if k !in state {
        state, created := state[k := NewEntry(created)], created + 1;
      }
      e := state[k];
    }

    method HandleStatusChangeForBridge(k: BridgeKey, status: Status, policy: Policy, connection: Option<ConnectionId>)
      modifies this
      ensures View() == Next(old(View()), StatusChanged(k, status, policy, connection))
    {
      hide Cancel, Schedule, Covered, OnObserved, OnTimer, OnSubmit, OnSent, CancelAll;
      if !accepting { return; }
      var e := GetOrCreateEntry(k);
      if policy == Suppress {
        if e.pending.Some? && e.pending.value.status == Active {
          state := state[k := Cancel(e)];
        }
        return;
      }
      if e.pending.Some? && e.pending.value.status != status {
        e := Cancel(e);
        state := state[k := e];
      }
      if e.lastNotified == status && e.pending.None? { return; }
      if Covered(e.pending, status, policy, connection) { return; }
      state := state[k := Schedule(e, status, policy, connection)];
    }

    method MarkConnectionObserved(k: BridgeKey, c: ConnectionId, device: DeviceId)
      modifies this
      ensures View() == Next(old(View()), Observed(k, c, device))
    {
      if !accepting { return; }
      var e := GetOrCreateEntry(k);
      if e.pending.Some? && e.pending.value.status == Active && e.pending.value.connection == Some(c) {
        var id := e.pending.value.exclusions;
        e := e.(sets := e.sets[id := Excluded(e, id) + {device}]);
      } else {
        var early := if e.early.Some? && e.early.value.connection == c then e.early.value else Early(c, {});
        e := e.(early := Some(early.(devices := early.devices + {device})));
      }
      state := state[k := e];
    }

    method CancelPendingForBridge(k: BridgeKey)
      modifies this
      ensures View() == Next(old(View()), BridgeRevoked(k))
    {
      if !accepting || k !in state { return; }
      gone := gone + {Cancel(state[k])};
      state := state - {k};
    }

    method TimerCallback(k: BridgeKey, g: nat) returns (sent: Option<Push>)
      requires k in state && g in state[k].armed
      modifies `state
      ensures View() == Next(old(View()), TimerRuns(k, g))
      ensures sent.Some? <==> state[k].pushes != old(state[k].pushes)
      ensures sent.Some? ==> state[k].pushes == old(state[k].pushes) + [sent.value] && sent.value.generation == g
    {
      var e := state[k];
      e := e.(armed := e.armed - {g});
      if e.pending.None? || e.pending.value.generation != g {
        state := state[k := e];
        return None;
      }
      var push := Push(e.pending.value.status, e.pending.value.exclusions, g);
      e := e.(lastNotified := push.status, sending := e.sending + {g}, pushes := e.pushes + [push]);
      state := state[k := e];
      sent := Some(push);
    }

    /** The end of the last lookup of a send: the live set decides who is left out. */
    method Submit(k: BridgeKey, i: nat) returns (excluded: set<DeviceId>)
      requires k in state && i < |state[k].pushes| && state[k].pushes[i].generation in state[k].sending && i !in state[k].submitted
      modifies `state
      ensures View() == Next(old(View()), Submits(k, i))
      ensures excluded == Excluded(old(state)[k], old(state)[k].pushes[i].exclusions)
    {
      var e := state[k];
      excluded := Excluded(e, e.pushes[i].exclusions);
      state := state[k := e.(submitted := e.submitted[i := excluded])];
    }

    method SendFinished(k: BridgeKey, g: nat)
      requires k in state && g in state[k].sending
      modifies `state
      ensures View() == Next(old(View()), SendEnds(k, g))
    {
      var e := state[k];
      e := e.(sending := e.sending - {g});
      if e.pending.Some? && e.pending.value.generation == g {
        e := e.(pending := None);
      }
      state := state[k := e];
    }

    method DisposeOnce()
      modifies this
      ensures View() == Next(old(View()), Dispose)
    {
      hide Cancel;
      accepting := false;
      var rest := state.Keys;
      while rest != {}
        invariant !accepting && gone == old(gone) && created == old(created)
        invariant rest <= state.Keys == old(state).Keys
        invariant forall k <- state :: state[k] == if k in rest then old(state)[k] else Cancel(old(state)[k])
        decreases |rest|
      {
        var k :| k in rest;
        state := state[k := Cancel(state[k])];
        rest := rest - {k};
      }
      assert (set k | k in state :: state[k]) == CancelAll(old(state));
      gone := gone + set k | k in state :: state[k];
      state := map[];
    }
  }
}
