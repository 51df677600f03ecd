/**
 * The dispute state machine, its audit trail in the changelog, and its
 * metrics (apps/backend/src/services/dispute.service.ts).  Every call is atomic.
 */
module Disputes {
  import opened Prelude
  import Calendar
  import Changelog
  import Keyed
  import Paging

  // ---------------------------------------------------------------- the state machine

  datatype State = Open | Escalated | Resolved | Withdrawn
  {
    function Name(): string {
      match this
      case Open => "OPEN"
      case Escalated => "ESCALATED"
      case Resolved => "RESOLVED"
      case Withdrawn => "WITHDRAWN"
    }

    predicate Final() { Resolved? || Withdrawn? }
  }

  datatype Trigger = Escalate | Resolve | Withdraw
  {
    /** `DISPUTE_EVENT_ENTRY_TYPES` */
    function EntryType(): string {
      match this
      case Escalate => "dispute.escalated"
      case Resolve => "dispute.resolved"
      case Withdraw => "dispute.withdrawn"
    }
  }

  /** `DISPUTE_TRANSITIONS` */
  function Next(from: State, trigger: Trigger): Option<State> {
    match (from, trigger)
    case (Open, Escalate) => Some(Escalated)
    case (Open, Resolve) => Some(Resolved)
    case (Open, Withdraw) => Some(Withdrawn)
    case (Escalated, Resolve) => Some(Resolved)
    case (Escalated, Withdraw) => Some(Withdrawn)
    case _ => None
  }

  // ---------------------------------------------------------------- data

  datatype Dispute = Dispute(
    disputeId: string,
    escrowId: string,
    raisedBy: string,
    reason: string,
    state: State,
    openedAt: nat,
    updatedAt: nat,
    escalatedAt: Option<nat>,
    resolvedAt: Option<nat>,
    resolution: Option<string>)

  datatype Error =
    | InvalidPayload
    | AlreadyExists(disputeId: string, state: State)
    | NotFound(disputeId: string)
    | AlreadyFinal(disputeId: string, state: State)
    | InvalidTransition(from: State, trigger: Trigger)

  type Reply = Result<Dispute, Error>

  /** The dispute store in insertion order, and the changelog. */
  datatype System = System(disputes: seq<Dispute>, log: Changelog.Log)

  const EMPTY: System := System([], Changelog.EMPTY_LOG)

  function Key(): Dispute -> string {
    (d: Dispute) => d.disputeId
  }

  function Find(disputes: seq<Dispute>, id: string): Option<Dispute> {
    Keyed.Find(disputes, Key(), id)
  }

  // ---------------------------------------------------------------- the calls, on values

  datatype Op =
    | OpenDispute(disputeId: string, escrowId: string, raisedBy: string, reason: string, now: nat)
    | Transition(disputeId: string, trigger: Trigger, resolution: Option<string>, requestId: Option<string>, now: nat)

  function Opening(s: System, op: Op): (System, Reply)
    requires op.OpenDispute?
  {
    if op.disputeId == "" || op.escrowId == "" || op.raisedBy == "" || op.reason == "" then (s, Failure(InvalidPayload))
    else
      match Find(s.disputes, op.disputeId)
      case Some(existing) => (s, Failure(AlreadyExists(op.disputeId, existing.state)))
      case None =>
        var d := Dispute(op.disputeId, op.escrowId, op.raisedBy, op.reason, Open, op.now, op.now, None, None, None);
        (s.(disputes := Keyed.Put(s.disputes, Key(), d)), Success(d))
  }

  function Truthy(t: Option<string>): bool {
    t.Some? && t.value != ""
  }

  function Updated(d: Dispute, next: State, resolution: Option<string>, now: nat): Dispute {
    var moved := d.(state := next, updatedAt := now);
    match next
    case Escalated => moved.(escalatedAt := Some(now))
    case Resolved => moved.(resolvedAt := Some(now), resolution := if Truthy(resolution) then resolution else d.resolution)
    case _ => moved
  }

  function AuditId(trigger: Trigger, disputeId: string, now: nat): string {
    trigger.EntryType() + ":" + disputeId + ":" + Calendar.Iso(now)
  }

  function AuditPayload(d: Dispute, op: Op, next: State): Changelog.Payload
    requires op.Transition?
  {
    var base := map["escrowId" := d.escrowId, "fromState" := d.state.Name(), "toState" := next.Name()];
    var traced := if Truthy(op.requestId) then base["requestId" := op.requestId.value] else base;
    var metadata := if Truthy(op.resolution) then traced["resolution" := op.resolution.value] else traced;
    Changelog.Payload(AuditId(op.trigger, d.disputeId, op.now), op.trigger.EntryType(), d.raisedBy, d.disputeId, Some(metadata), None)
  }

  function Moving(s: System, op: Op): (System, Reply)
    requires op.Transition?
  {
    if op.disputeId == "" then (s, Failure(InvalidPayload))
    else
      match Find(s.disputes, op.disputeId)
      case None => (s, Failure(NotFound(op.disputeId)))
      case Some(d) =>
        if d.state.Final() then (s, Failure(AlreadyFinal(op.disputeId, d.state)))
        else
          match Next(d.state, op.trigger)
          case None => (s, Failure(InvalidTransition(d.state, op.trigger)))
          case Some(next) =>
            var updated := Updated(d, next, op.resolution, op.now);
            var audited := Changelog.Append(s.log, AuditPayload(d, op, next), Changelog.Context(op.now, op.requestId)).0;
            (System(Keyed.Put(s.disputes, Key(), updated), audited), Success(updated))
  }

  function Apply(s: System, op: Op): (System, Reply) {
    if op.OpenDispute? then Opening(s, op) else Moving(s, op)
  }

  function Run(ops: seq<Op>): System {
    if ops == [] then EMPTY else Apply(Run(ops[..|ops| - 1]), ops[|ops| - 1]).0
  }

  predicate ClockMoves(ops: seq<Op>) {
    forall i, j :: 0 <= i < j < |ops| ==> ops[i].now <= ops[j].now
  }

  // ---------------------------------------------------------------- the audit trail

  function About(id: string): Changelog.Entry -> bool {
    (e: Changelog.Entry) => e.resourceId == id
  }

  /** The audit entries of a dispute, in the order they were written. */
  function Trail(log: Changelog.Log, id: string): seq<Changelog.Entry> {
    Paging.Filter(log.store, About(id))
  }

  function ParseTrigger(action: string): Option<Trigger> {
    if action == "dispute.escalated" then Some(Escalate)
    else if action == "dispute.resolved" then Some(Resolve)
    else if action == "dispute.withdrawn" then Some(Withdraw)
    else None
  }

  /** An audit entry moves `from` where the transition table does, and says so. */
  function ReplayEntry(from: State, e: Changelog.Entry): Option<State> {
    match ParseTrigger(e.action)
    case None => None
    case Some(trigger) =>
      var to := Next(from, trigger);
      if to.Some? && e.metadata.Some?
         && Lookup(e.metadata.value, "fromState") == Some(from.Name())
         && Lookup(e.metadata.value, "toState") == Some(to.value.Name())
      then to else None
  }

  /** Replays a trail through the transition table, starting from OPEN. */
  function ReplayTrail(trail: seq<Changelog.Entry>): Option<State> {
    if trail == [] then Some(Open)
    else
      match ReplayTrail(trail[..|trail| - 1])
      case None => None
      case Some(from) => ReplayEntry(from, trail[|trail| - 1])
  }

  lemma {:induction false} MiddleIsDetermined(head: string, x: string, a: string, y: string, b: string)
    requires |a| == |b| && head + ":" + x + ":" + a == head + ":" + y + ":" + b
    ensures x == y
  {
    var p := head + ":" + x + ":" + a;
    assert x == p[|head| + 1..|p| - |a| - 1];
    assert y == p[|head| + 1..|p| - |b| - 1];
  }

  lemma {:induction false} AuditIdsDiffer(a: Trigger, x: string, t: nat, b: Trigger, y: string, u: nat)
    requires AuditId(a, x, t) == AuditId(b, y, u)
    ensures a == b && x == y
  {
    assert AuditId(a, x, t)[8] == a.EntryType()[8];
    assert AuditId(b, y, u)[8] == b.EntryType()[8];
    assert a == b;
    MiddleIsDetermined(a.EntryType(), x, Calendar.Iso(t), y, Calendar.Iso(u));
  }

  /** Every changelog entry was written by a dispute transition. */
  ghost predicate Audits(log: Changelog.Log) {
    forall i :: 0 <= i < |log.store| ==> IsAudit(log.store[i])
  }

  ghost predicate IsAudit(e: Changelog.Entry) {
    exists trigger: Trigger, t: nat :: e.action == trigger.EntryType() && e.entryId == AuditId(trigger, e.resourceId, t)
  }

  predicate TrailOk(d: Option<Dispute>, trail: seq<Changelog.Entry>) {
    match d
    case None => trail == []
    case Some(d) =>
      && ReplayTrail(trail) == Some(d.state)
      && (d.state == Open ==> trail == [])
      && (d.state == Escalated ==> |trail| == 1 && trail[0].action == Escalate.EntryType())
      && |trail| <= 2
      && d.raisedBy != ""
  }

  /** What every dispute's timestamps satisfy. */
  predicate TimesOk(d: Dispute, now: nat) {
    && d.openedAt <= d.updatedAt <= now
    && (d.escalatedAt.Some? ==> d.openedAt <= d.escalatedAt.value <= d.updatedAt)
    && (match d.state
        case Open => d.escalatedAt.None? && d.resolvedAt.None? && d.updatedAt == d.openedAt
        case Escalated => d.escalatedAt == Some(d.updatedAt) && d.resolvedAt.None?
        case Resolved => d.resolvedAt == Some(d.updatedAt)
        case Withdrawn => d.resolvedAt.None?)
  }

  ghost predicate AllTrailsOk(disputes: seq<Dispute>, log: Changelog.Log) {
    forall id :: TrailOk(Find(disputes, id), Trail(log, id))
  }

  predicate AllTimesOk(disputes: seq<Dispute>, now: nat) {
    forall i :: 0 <= i < |disputes| ==> TimesOk(disputes[i], now)
  }

  ghost predicate Sound(s: System, now: nat) {
    && Keyed.Unique(s.disputes, Key())
    && Keyed.Unique(s.log.store, Changelog.Key())
    && Audits(s.log)
    && AllTrailsOk(s.disputes, s.log)
    && AllTimesOk(s.disputes, now)
  }

  /** No entry of the dispute's own trail has the id of its next audit entry. */
  lemma {:induction false} TrailLacksNext(d: Dispute, trail: seq<Changelog.Entry>, trigger: Trigger, at: nat, e: Changelog.Entry)
    requires TrailOk(Some(d), trail) && Next(d.state, trigger).Some? && e in trail && IsAudit(e)
    ensures e.entryId != AuditId(trigger, d.disputeId, at)
  {
    EscalatedTrail(d, trail, trigger, e);
    OtherEventLacks(e, trigger, d.disputeId, at);
  }

  /** A dispute that can still move has at most the entry of its escalation, and cannot be escalated again. */
  lemma {:induction false} EscalatedTrail(d: Dispute, trail: seq<Changelog.Entry>, trigger: Trigger, e: Changelog.Entry)
    requires TrailOk(Some(d), trail) && Next(d.state, trigger).Some? && e in trail
    ensures e.action == Escalate.EntryType() && trigger != Escalate
  {}

  lemma {:induction false} OtherEventLacks(e: Changelog.Entry, trigger: Trigger, id: string, at: nat)
    requires IsAudit(e) && e.action == Escalate.EntryType() && trigger != Escalate
    ensures e.entryId != AuditId(trigger, id, at)
  {
    var other: Trigger, t: nat :| e.action == other.EntryType() && e.entryId == AuditId(other, e.resourceId, t);
    EntryTypesDiffer(other, Escalate);
    if AuditId(other, e.resourceId, t) == AuditId(trigger, id, at) {
      AuditIdsDiffer(other, e.resourceId, t, trigger, id, at);
    }
  }

  lemma {:induction false} EntryTypesDiffer(a: Trigger, b: Trigger)
    requires a.EntryType() == b.EntryType()
    ensures a == b
  {
    assert a.EntryType()[8] == b.EntryType()[8];
  }

  lemma {:induction false} OtherResourceLacks(e: Changelog.Entry, trigger: Trigger, id: string, at: nat)
    requires IsAudit(e) && e.resourceId != id
    ensures e.entryId != AuditId(trigger, id, at)
  {
    var other: Trigger, t: nat :| e.action == other.EntryType() && e.entryId == AuditId(other, e.resourceId, t);
    if e.entryId == AuditId(trigger, id, at) {
      AuditIdsDiffer(other, e.resourceId, t, trigger, id, at);
    }
  }

  lemma {:induction false} AuditIdIsNew(s: System, now: nat, d: Dispute, trigger: Trigger, at: nat)
    requires Sound(s, now) && Find(s.disputes, d.disputeId) == Some(d) && Next(d.state, trigger).Some?
    ensures Changelog.Find(s.log.store, AuditId(trigger, d.disputeId, at)).None?
  {
    var trail := Trail(s.log, d.disputeId);
    assert TrailOk(Some(d), trail);
    Keyed.FindIs(s.log.store, Changelog.Key(), AuditId(trigger, d.disputeId, at));
    forall i | 0 <= i < |s.log.store| ensures s.log.store[i].entryId != AuditId(trigger, d.disputeId, at) {
      var e := s.log.store[i];
      if e.resourceId == d.disputeId {
        InFilter(s.log.store, About(d.disputeId), i);
        TrailLacksNext(d, trail, trigger, at, e);
      } else {
        OtherResourceLacks(e, trigger, d.disputeId, at);
      }
    }
  }

  /** In a sound state the audit entry of a transition is never refused. */
  lemma {:induction false} AuditIsWritten(s: System, now: nat, d: Dispute, op: Op, next: State)
    requires Sound(s, now) && op.Transition? && op.disputeId != "" && op.disputeId == d.disputeId
    requires Find(s.disputes, op.disputeId) == Some(d) && Next(d.state, op.trigger) == Some(next)
    ensures var p := AuditPayload(d, op, next);
      var (log', reply) := Changelog.Append(s.log, p, Changelog.Context(op.now, op.requestId));
      && reply.Success? && reply.value.action == p.action && reply.value.metadata == p.metadata
      && reply.value.resourceId == d.disputeId && reply.value.entryId == p.entryId
      && log'.store == s.log.store + [reply.value]
  {
    AuditIdIsNew(s, now, d, op.trigger, op.now);
    assert TrailOk(Some(d), Trail(s.log, d.disputeId));
  }

  /** The audit entry says where the dispute went, in the words of the table. */
  lemma {:induction false} AuditReplays(d: Dispute, op: Op, next: State, e: Changelog.Entry)
    requires op.Transition? && Next(d.state, op.trigger) == Some(next)
    requires e.action == AuditPayload(d, op, next).action && e.metadata == AuditPayload(d, op, next).metadata
    ensures ReplayEntry(d.state, e) == Some(next)
  {}

  lemma {:induction false} InFilter<T>(xs: seq<T>, p: T -> bool, i: nat)
    requires i < |xs| && p(xs[i])
    ensures xs[i] in Paging.Filter(xs, p)
  {
    if i < |xs| - 1 { InFilter(xs[..|xs| - 1], p, i); }
  }

  lemma {:induction false} StepSound(s: System, op: Op)
    requires Sound(s, op.now)
    ensures Sound(Apply(s, op).0, op.now)
  {
    if Apply(s, op).1.Success? {
      if op.OpenDispute? { OpeningSound(s, op); } else { MovingSound(s, op); }
    }
  }

  lemma {:induction false} PutTimes(disputes: seq<Dispute>, d: Dispute, now: nat)
    requires Keyed.Unique(disputes, Key()) && TimesOk(d, now) && AllTimesOk(disputes, now)
    ensures AllTimesOk(Keyed.Put(disputes, Key(), d), now)
  {
    Keyed.ReplaceIs(disputes, Key(), d);
  }

  lemma {:induction false} OpeningSound(s: System, op: Op)
    requires Sound(s, op.now) && op.OpenDispute? && Opening(s, op).1.Success?
    ensures Sound(Opening(s, op).0, op.now)
  {
    var (s', reply) := Opening(s, op);
    PutTimes(s.disputes, reply.value, op.now);
    forall id ensures TrailOk(Find(s'.disputes, id), Trail(s'.log, id)) {
      assert TrailOk(Find(s.disputes, id), Trail(s.log, id));
      Keyed.PutFind(s.disputes, Key(), reply.value, id);
    }
    Keyed.PutFind(s.disputes, Key(), reply.value, "");
  }

  lemma {:induction false} AuditKeepsTrails(s: System, now: nat, d: Dispute, op: Op, next: State, e: Changelog.Entry, log': Changelog.Log, moved: Dispute)
    requires Sound(s, now) && op.Transition? && op.disputeId == d.disputeId
    requires Find(s.disputes, d.disputeId) == Some(d) && Next(d.state, op.trigger) == Some(next)
    requires e.action == op.trigger.EntryType() && e.resourceId == d.disputeId && ReplayEntry(d.state, e) == Some(next)
    requires log'.store == s.log.store + [e]
    requires moved.disputeId == d.disputeId && moved.state == next && moved.raisedBy == d.raisedBy
    ensures AllTrailsOk(Keyed.Put(s.disputes, Key(), moved), log')
  {
    forall id ensures TrailOk(Find(Keyed.Put(s.disputes, Key(), moved), id), Trail(log', id)) {
      assert TrailOk(Find(s.disputes, id), Trail(s.log, id));
      Keyed.PutFind(s.disputes, Key(), moved, id);
      TrailAppend(s.log, e, log', id);
      if id == d.disputeId {
        assert TrailOk(Some(d), Trail(s.log, id));
        TrailGrows(d, Trail(s.log, id), op, next, e, moved);
      }
    }
  }

  lemma {:induction false} TrailAppend(log: Changelog.Log, e: Changelog.Entry, log': Changelog.Log, id: string)
    requires log'.store == log.store + [e]
    ensures Trail(log', id) == if e.resourceId == id then Trail(log, id) + [e] else Trail(log, id)
  {
    assert log'.store[..|log.store|] == log.store;
  }

  lemma {:induction false} TrailGrows(d: Dispute, trail: seq<Changelog.Entry>, op: Op, next: State, e: Changelog.Entry, moved: Dispute)
    requires TrailOk(Some(d), trail) && op.Transition? && Next(d.state, op.trigger) == Some(next)
    requires e.action == op.trigger.EntryType() && ReplayEntry(d.state, e) == Some(next)
    requires moved.state == next && moved.raisedBy == d.raisedBy
    ensures TrailOk(Some(moved), trail + [e])
  {
    ReplayAppend(trail, e, d.state);
    NextIs(d.state, op.trigger, next);
    assert d.state == Open || d.state == Escalated;
    if next == Escalated {
      assert trail == [] && (trail + [e])[0] == e;
    }
  }

  lemma {:induction false} NextIs(from: State, trigger: Trigger, next: State)
    requires Next(from, trigger) == Some(next)
    ensures (from == Open || from == Escalated) && next != Open
    ensures next == Escalated ==> from == Open && trigger == Escalate
  {}

  lemma {:induction false} ReplayAppend(trail: seq<Changelog.Entry>, e: Changelog.Entry, from: State)
    requires ReplayTrail(trail) == Some(from)
    ensures ReplayTrail(trail + [e]) == ReplayEntry(from, e)
  {
    assert (trail + [e])[..|trail|] == trail;
  }

  lemma {:induction false} AuditKeepsLog(log: Changelog.Log, e: Changelog.Entry, trigger: Trigger, t: nat)
    requires Keyed.Unique(log.store, Changelog.Key()) && Audits(log) && Changelog.Find(log.store, e.entryId).None?
    requires e.action == trigger.EntryType() && e.entryId == AuditId(trigger, e.resourceId, t)
    ensures Keyed.Unique(log.store + [e], Changelog.Key())
    ensures forall emitted :: Audits(Changelog.Log(log.store + [e], emitted))
  {
    Keyed.PutNew(log.store, Changelog.Key(), e, "");
    assert IsAudit(e);
  }

  /** What a successful transition has done: `d` has become `moved`, and `e` is its audit entry. */
  ghost predicate HasMoved(s: System, op: Op, s': System, d: Dispute, next: State, e: Changelog.Entry, moved: Dispute) {
    && op.Transition? && op.disputeId == d.disputeId && Find(s.disputes, d.disputeId) == Some(d) && Next(d.state, op.trigger) == Some(next)
    && s'.disputes == Keyed.Put(s.disputes, Key(), moved) && s'.log.store == s.log.store + [e]
    && IsMoved(d, op, next, moved) && IsAuditOf(s.log, d, op, next, e)
  }

  predicate IsMoved(d: Dispute, op: Op, next: State, moved: Dispute)
    requires op.Transition?
  {
    moved.disputeId == d.disputeId && moved.state == next && moved.raisedBy == d.raisedBy && TimesOk(moved, op.now)
  }

  predicate IsAuditOf(log: Changelog.Log, d: Dispute, op: Op, next: State, e: Changelog.Entry)
    requires op.Transition?
  {
    && Changelog.Find(log.store, e.entryId).None? && e.resourceId == d.disputeId && e.actorId == d.raisedBy
    && e.action == op.trigger.EntryType() && e.entryId == AuditId(op.trigger, e.resourceId, op.now)
    && ReplayEntry(d.state, e) == Some(next)
  }

  lemma {:induction false} MovingDoes(s: System, op: Op) returns (d: Dispute, next: State, e: Changelog.Entry)
    requires Sound(s, op.now) && op.Transition? && Moving(s, op).1.Success?
    ensures HasMoved(s, op, Moving(s, op).0, d, next, e, Moving(s, op).1.value)
  {
    d := Find(s.disputes, op.disputeId).value;
    next := Next(d.state, op.trigger).value;
    Keyed.FindIs(s.disputes, Key(), op.disputeId);
    e := AuditOf(s, op, d, next);
    UpdatedIs(d, op, next);
  }

  lemma {:induction false} UpdatedIs(d: Dispute, op: Op, next: State)
    requires op.Transition? && Next(d.state, op.trigger) == Some(next) && TimesOk(d, op.now)
    ensures IsMoved(d, op, next, Updated(d, next, op.resolution, op.now))
  {}

  lemma {:induction false} AuditOf(s: System, op: Op, d: Dispute, next: State) returns (e: Changelog.Entry)
    requires Sound(s, op.now) && op.Transition? && op.disputeId == d.disputeId && op.disputeId != ""
    requires Find(s.disputes, d.disputeId) == Some(d) && Next(d.state, op.trigger) == Some(next)
    ensures IsAuditOf(s.log, d, op, next, e)
    ensures Changelog.Append(s.log, AuditPayload(d, op, next), Changelog.Context(op.now, op.requestId)).0.store == s.log.store + [e]
  {
    AuditIdIsNew(s, op.now, d, op.trigger, op.now);
    AuditIsWritten(s, op.now, d, op, next);
    e := Changelog.Append(s.log, AuditPayload(d, op, next), Changelog.Context(op.now, op.requestId)).1.value;
    AuditReplays(d, op, next, e);
  }

  lemma {:induction false} MovingSound(s: System, op: Op)
    requires Sound(s, op.now) && op.Transition? && Moving(s, op).1.Success?
    ensures Sound(Moving(s, op).0, op.now)
  {
    var d, next, e := MovingDoes(s, op);
    MovedSound(s, op, Moving(s, op).0, d, next, e, Moving(s, op).1.value);
  }

  lemma {:induction false} MovedSound(s: System, op: Op, s': System, d: Dispute, next: State, e: Changelog.Entry, moved: Dispute)
    requires Sound(s, op.now) && HasMoved(s, op, s', d, next, e, moved)
    ensures Sound(s', op.now)
  {
    AuditKeepsLog(s.log, e, op.trigger, op.now);
    assert AllTrailsOk(s'.disputes, s'.log) by { AuditKeepsTrails(s, op.now, d, op, next, e, s'.log, moved); }
    assert AllTimesOk(s'.disputes, op.now) by { PutTimes(s.disputes, moved, op.now); }
    Keyed.PutFind(s.disputes, Key(), moved, "");
    assert s'.log == Changelog.Log(s.log.store + [e], s'.log.emitted);
  }

  lemma {:induction false} SoundLater(s: System, before: nat, now: nat)
    requires Sound(s, before) && before <= now
    ensures Sound(s, now)
  {}

  lemma {:induction false} RunSound(ops: seq<Op>, now: nat)
    requires ClockMoves(ops) && forall i :: 0 <= i < |ops| ==> ops[i].now <= now
    ensures Sound(Run(ops), now)
  {
    if ops != [] {
      var n := |ops| - 1;
      RunSound(ops[..n], ops[n].now);
      StepSound(Run(ops[..n]), ops[n]);
      SoundLater(Run(ops), ops[n].now, now);
    }
  }

  function LastNow(ops: seq<Op>): nat {
    if ops == [] then 0 else ops[|ops| - 1].now
  }

  /**
   * After any sequence of calls, replaying a dispute's audit entries through
   * the transition table from OPEN gives its stored state; a dispute has at
   * most two entries, and what was never opened has none.
   */
  lemma {:induction false} TrailReplaysToState(ops: seq<Op>, id: string)
    requires ClockMoves(ops)
    ensures var s := Run(ops); var trail := Trail(s.log, id);
      match Find(s.disputes, id)
      case Some(d) => ReplayTrail(trail) == Some(d.state) && |trail| <= 2
      case None => trail == []
  {
    RunSound(ops, LastNow(ops));
    assert TrailOk(Find(Run(ops).disputes, id), Trail(Run(ops).log, id));
  }

  /** Every stored dispute's timestamps are in order and match its state. */
  lemma {:induction false} TimestampsMatchState(ops: seq<Op>, i: nat)
    requires ClockMoves(ops) && i < |Run(ops).disputes|
    ensures TimesOk(Run(ops).disputes[i], LastNow(ops))
  {
    RunSound(ops, LastNow(ops));
  }

  /** Each entry of a trail starts where the one before it ended. */
  lemma {:induction false} TrailChains(trail: seq<Changelog.Entry>, i: nat)
    requires ReplayTrail(trail).Some? && i < |trail|
    ensures trail[i].metadata.Some?
    ensures Lookup(trail[i].metadata.value, "fromState") ==
      if i == 0 then Some("OPEN")
      else if trail[i - 1].metadata.Some? then Lookup(trail[i - 1].metadata.value, "toState")
      else None
  {
    var n := |trail| - 1;
    if i < n {
      TrailChains(trail[..n], i);
    } else if i > 0 {
      assert trail[..n][..n - 1] == trail[..n - 1];
    }
  }

  /** A successful transition always leaves exactly one new audit entry, which replays it. */
  lemma {:induction false} EveryTransitionIsAudited(ops: seq<Op>, op: Op)
    requires ClockMoves(ops) && op.Transition? && LastNow(ops) <= op.now
    ensures var s := Run(ops); var (s', reply) := Apply(s, op);
      reply.Success? ==>
        && |s'.log.store| == |s.log.store| + 1
        && s'.log.store[..|s.log.store|] == s.log.store
        && s'.log.store[|s.log.store|].resourceId == op.disputeId
        && s'.log.store[|s.log.store|].actorId == reply.value.raisedBy
        && ReplayEntry(Find(s.disputes, op.disputeId).value.state, s'.log.store[|s.log.store|]) == Some(reply.value.state)
  {
    var s := Run(ops);
    RunSound(ops, op.now);
    if Moving(s, op).1.Success? { var _, _, _ := MovingDoes(s, op); }
  }

  // ---------------------------------------------------------------- escalation SLA

  /** `escalatedAgeDays` */
  function EscalatedAgeDays(d: Dispute, now: int): Option<int> {
    if d.state != Escalated || d.escalatedAt.None? then None
    else Some((now - d.escalatedAt.value) / 86_400_000)
  }

  const ESCALATED_SLA_DAYS: int := 30

  /** `isEscalatedOverdue` */
  predicate IsOverdue(d: Dispute, now: int, slaDays: int) {
    var age := EscalatedAgeDays(d, now);
    age.Some? && age.value >= slaDays
  }

  datatype Severity = Warning | Critical

  datatype Alert = Alert(disputeId: string, escalatedAt: nat, daysEscalated: int, slaDays: int, severity: Severity)

  function AlertFor(d: Dispute, now: int, slaDays: int): Alert
    requires d.escalatedAt.Some?
  {
    var age := EscalatedAgeDays(d, now);
    var days := if age.Some? then age.value else slaDays;
    Alert(d.disputeId, d.escalatedAt.value, days, slaDays, if days >= slaDays * 2 then Critical else Warning)
  }

  /** Whole days are counted exactly: overdue means the full SLA has elapsed in ESCALATED. */
  lemma {:induction false} OverdueIff(d: Dispute, now: int, slaDays: int)
    ensures IsOverdue(d, now, slaDays) <==>
      d.state == Escalated && d.escalatedAt.Some? && now - d.escalatedAt.value >= slaDays * 86_400_000
    ensures IsOverdue(d, now, slaDays) ==>
      (AlertFor(d, now, slaDays).severity == Critical <==> now - d.escalatedAt.value >= 2 * slaDays * 86_400_000)
  {}

  // ---------------------------------------------------------------- metrics

  predicate InRange(d: Dispute, from: Option<int>, to: Option<int>) {
    (from.Some? ==> d.openedAt >= from.value) && (to.Some? ==> d.openedAt <= to.value)
  }

  function Ranged(from: Option<int>, to: Option<int>): Dispute -> bool {
    (d: Dispute) => InRange(d, from, to)
  }

  function HasState(state: State): Dispute -> bool {
    (d: Dispute) => d.state == state
  }

  function EverEscalated(): Dispute -> bool {
    (d: Dispute) => d.escalatedAt.Some?
  }

  function OverdueNow(now: int): Dispute -> bool {
    (d: Dispute) => IsOverdue(d, now, ESCALATED_SLA_DAYS)
  }

  /** Hours from opening to the final transition, when that is a usable figure. */
  function ResolutionHours(d: Dispute): Option<real> {
    if !d.state.Final() then None
    else
      var closedAt := if d.state == Resolved && d.resolvedAt.Some? then d.resolvedAt.value else d.updatedAt;
      var hours := (closedAt - d.openedAt) as real / 3_600_000.0;
      if hours >= 0.0 then Some(hours) else None
  }

  function AllHours(ds: seq<Dispute>): seq<real> {
    if ds == [] then []
    else
      var hours := ResolutionHours(ds[|ds| - 1]);
      AllHours(ds[..|ds| - 1]) + (if hours.Some? then [hours.value] else [])
  }

  function Sum(rs: seq<real>): real {
    if rs == [] then 0.0 else Sum(rs[..|rs| - 1]) + rs[|rs| - 1]
  }

  /** Disputes in each state. */
  datatype Tally = Tally(open: nat, escalated: nat, resolved: nat, withdrawn: nat)

  datatype Metrics = Metrics(
    total: nat,
    byState: Tally,
    active: nat,
    closed: nat,
    escalatedCount: nat,
    escalationRate: real,
    resolutionRate: real,
    avgResolutionHours: Option<real>,
    overdueEscalated: nat)

  /** `Math.round(x * 10) / 10` */
  function RoundTenth(x: real): real {
    (x * 10.0 + 0.5).Floor as real / 10.0
  }

  function StateCounts(ds: seq<Dispute>): Tally {
    Tally(Paging.Count(ds, HasState(Open)), Paging.Count(ds, HasState(Escalated)),
      Paging.Count(ds, HasState(Resolved)), Paging.Count(ds, HasState(Withdrawn)))
  }

  function MetricsOf(ds: seq<Dispute>, now: int): Metrics {
    var byState := StateCounts(ds);
    var escalated := Paging.Count(ds, EverEscalated());
    var hours := AllHours(ds);
    Metrics(|ds|, byState, byState.open + byState.escalated, byState.resolved + byState.withdrawn, escalated,
      if ds == [] then 0.0 else escalated as real / |ds| as real,
      if ds == [] then 0.0 else byState.resolved as real / |ds| as real,
      if hours == [] then None else Some(RoundTenth(Sum(hours) / |hours| as real)),
      Paging.Count(ds, OverdueNow(now)))
  }

  /** `getMetrics` */
  function GetMetrics(disputes: seq<Dispute>, from: Option<int>, to: Option<int>, now: int): Metrics {
    MetricsOf(Paging.Filter(disputes, Ranged(from, to)), now)
  }

  lemma {:induction false} CountsAddUp(ds: seq<Dispute>, clock: nat, now: int)
    requires forall i :: 0 <= i < |ds| ==> TimesOk(ds[i], clock)
    ensures var m := MetricsOf(ds, now);
      && m.total == m.byState.open + m.byState.escalated + m.byState.resolved + m.byState.withdrawn
      && m.overdueEscalated <= m.byState.escalated <= m.escalatedCount <= m.total
      && |AllHours(ds)| == m.closed
      && forall i :: 0 <= i < |AllHours(ds)| ==> AllHours(ds)[i] >= 0.0
  {
    if ds != [] {
      var n := |ds| - 1;
      CountsAddUp(ds[..n], clock, now);
      assert TimesOk(ds[n], clock);
    }
  }

  /**
   * In every reachable store and for every range: the total is the sum over
   * the states and is active + closed; overdue <= escalated now <= escalated
   * ever <= total; the average is over exactly one non-negative duration per
   * closed dispute; both rates lie between 0 and 1.
   */
  lemma {:induction false} MetricsAreConsistent(ops: seq<Op>, from: Option<int>, to: Option<int>, now: int)
    requires ClockMoves(ops)
    ensures var ds := Run(ops).disputes; var m := GetMetrics(ds, from, to, now);
      && m.total == m.byState.open + m.byState.escalated + m.byState.resolved + m.byState.withdrawn == m.active + m.closed
      && m.overdueEscalated <= m.byState.escalated <= m.escalatedCount <= m.total
      && |AllHours(Paging.Filter(ds, Ranged(from, to)))| == m.closed
      && (m.avgResolutionHours.Some? <==> m.closed > 0)
      && (m.avgResolutionHours.Some? ==> m.avgResolutionHours.value >= 0.0)
      && 0.0 <= m.escalationRate <= 1.0 && 0.0 <= m.resolutionRate <= 1.0
  {
    RunSound(ops, LastNow(ops));
    var ds := Run(ops).disputes;
    var inRange := Paging.Filter(ds, Ranged(from, to));
    Paging.FilterMembers(ds, Ranged(from, to));
    forall i | 0 <= i < |inRange| ensures TimesOk(inRange[i], LastNow(ops)) {
      assert inRange[i] in ds;
    }
    CountsAddUp(inRange, LastNow(ops), now);
    AverageAndRates(inRange, now);
  }

  lemma {:induction false} AverageAndRates(ds: seq<Dispute>, now: int)
    requires var m := MetricsOf(ds, now); m.escalatedCount <= m.total && m.byState.resolved <= m.total
    requires forall i :: 0 <= i < |AllHours(ds)| ==> AllHours(ds)[i] >= 0.0
    ensures var m := MetricsOf(ds, now);
      && (m.avgResolutionHours.Some? <==> |AllHours(ds)| > 0)
      && (m.avgResolutionHours.Some? ==> m.avgResolutionHours.value >= 0.0)
      && 0.0 <= m.escalationRate <= 1.0 && 0.0 <= m.resolutionRate <= 1.0
  {
    var m := MetricsOf(ds, now);
    var hours := AllHours(ds);
    SumNonNegative(hours);
    if hours != [] { QuotientBetween(Sum(hours), |hours| as real); }
    if ds != [] {
      RateBetween(m.escalatedCount, m.total);
      RateBetween(m.byState.resolved, m.total);
    }
  }

  lemma {:induction false} SumNonNegative(rs: seq<real>)
    requires forall i :: 0 <= i < |rs| ==> rs[i] >= 0.0
    ensures Sum(rs) >= 0.0
  {
    if rs != [] { SumNonNegative(rs[..|rs| - 1]); }
  }

  lemma {:induction false} QuotientBetween(a: real, b: real)
    requires a >= 0.0 && b > 0.0
    ensures a / b >= 0.0
  {}

  lemma {:induction false} RateBetween(a: nat, b: nat)
    requires a <= b && b > 0
    ensures 0.0 <= a as real / b as real <= 1.0
  {}

  /** Every counter of `m` is the sum of those of `a` and `b`. */
  predicate SumsTo(m: Metrics, a: Metrics, b: Metrics) {
    && m.total == a.total + b.total && m.active == a.active + b.active && m.closed == a.closed + b.closed
    && m.byState.open == a.byState.open + b.byState.open && m.byState.escalated == a.byState.escalated + b.byState.escalated
    && m.byState.resolved == a.byState.resolved + b.byState.resolved && m.byState.withdrawn == a.byState.withdrawn + b.byState.withdrawn
    && m.escalatedCount == a.escalatedCount + b.escalatedCount
    && m.overdueEscalated == a.overdueEscalated + b.overdueEscalated
  }

  /** `m'` is `m` with `counted` (0 or 1) times dispute `d` added. */
  predicate OneMore(m: Metrics, m': Metrics, d: Dispute, now: int, counted: nat) {
    && m'.total == m.total + counted
    && m'.byState.open == m.byState.open + (if d.state == Open then counted else 0)
    && m'.byState.escalated == m.byState.escalated + (if d.state == Escalated then counted else 0)
    && m'.byState.resolved == m.byState.resolved + (if d.state == Resolved then counted else 0)
    && m'.byState.withdrawn == m.byState.withdrawn + (if d.state == Withdrawn then counted else 0)
    && m'.active == m.active + (if d.state.Final() then 0 else counted)
    && m'.closed == m.closed + (if d.state.Final() then counted else 0)
    && m'.escalatedCount == m.escalatedCount + (if d.escalatedAt.Some? then counted else 0)
    && m'.overdueEscalated == m.overdueEscalated + (if IsOverdue(d, now, ESCALATED_SLA_DAYS) then counted else 0)
  }

  /** Every counter of a range is the sum of the counters of two adjacent parts of it. */
  lemma {:induction false} RangesAddUp(ds: seq<Dispute>, from: Option<int>, middle: int, to: Option<int>, now: int)
    requires (from.Some? ==> from.value <= middle + 1) && (to.Some? ==> middle <= to.value)
    ensures SumsTo(GetMetrics(ds, from, to, now), GetMetrics(ds, from, Some(middle), now), GetMetrics(ds, Some(middle + 1), to, now))
  {
    if ds != [] {
      RangesAddUp(ds[..|ds| - 1], from, middle, to, now);
      OneMoreInParts(ds, from, middle, to, now);
    }
  }

  lemma {:induction false} OneMoreInParts(ds: seq<Dispute>, from: Option<int>, middle: int, to: Option<int>, now: int)
    requires (from.Some? ==> from.value <= middle + 1) && (to.Some? ==> middle <= to.value) && ds != []
    requires var init := ds[..|ds| - 1];
      SumsTo(GetMetrics(init, from, to, now), GetMetrics(init, from, Some(middle), now), GetMetrics(init, Some(middle + 1), to, now))
    ensures SumsTo(GetMetrics(ds, from, to, now), GetMetrics(ds, from, Some(middle), now), GetMetrics(ds, Some(middle + 1), to, now))
  {
    var init, d := ds[..|ds| - 1], ds[|ds| - 1];
    CountOneMore(ds, from, Some(middle), now);
    CountOneMore(ds, Some(middle + 1), to, now);
    CountOneMore(ds, from, to, now);
    SumsAfterOneMore(d, now,
      GetMetrics(init, from, to, now), GetMetrics(init, from, Some(middle), now), GetMetrics(init, Some(middle + 1), to, now),
      GetMetrics(ds, from, to, now), GetMetrics(ds, from, Some(middle), now), GetMetrics(ds, Some(middle + 1), to, now),
      if InRange(d, from, Some(middle)) then 1 else 0, if InRange(d, Some(middle + 1), to) then 1 else 0);
  }

  lemma {:induction false} SumsAfterOneMore(d: Dispute, now: int, m: Metrics, a: Metrics, b: Metrics, m': Metrics, a': Metrics, b': Metrics, i: nat, j: nat)
    requires SumsTo(m, a, b) && OneMore(m, m', d, now, i + j) && OneMore(a, a', d, now, i) && OneMore(b, b', d, now, j)
    requires i + j <= 1
    ensures SumsTo(m', a', b')
  {}

  /** What the last dispute contributes to each counter. */
  lemma {:induction false} CountOneMore(ds: seq<Dispute>, from: Option<int>, to: Option<int>, now: int)
    requires ds != []
    ensures OneMore(GetMetrics(ds[..|ds| - 1], from, to, now), GetMetrics(ds, from, to, now), ds[|ds| - 1], now,
      if InRange(ds[|ds| - 1], from, to) then 1 else 0)
  {
    var n := |ds| - 1;
    var before := Paging.Filter(ds[..n], Ranged(from, to));
    var after := Paging.Filter(ds, Ranged(from, to));
    if InRange(ds[n], from, to) {
      assert after[..|after| - 1] == before;
    } else {
      assert after == before;
    }
  }

  // ---------------------------------------------------------------- history pages

  const DEFAULT_PAGE_SIZE: int := 10
  const MAX_PAGE_SIZE: int := 50

  function RaisedBy(user: string): Dispute -> bool {
    (d: Dispute) => d.raisedBy == user
  }

  function NewestFirst(): Dispute -> int {
    (d: Dispute) => 0 - d.openedAt
  }

  /** The user's disputes, newest first. */
  function History(disputes: seq<Dispute>, user: string): seq<Dispute> {
    Paging.SortBy(Paging.Filter(disputes, RaisedBy(user)), NewestFirst())
  }

  /** `listDisputesByUserPaginated` */
  function HistoryPage(disputes: seq<Dispute>, user: string, limit: Paging.Num, offset: Paging.Num): Paging.Page<Dispute> {
    Paging.PageOf(History(disputes, user), ClampedLimit(limit), Paging.ClampOffset(offset))
  }

  /**
   * Paging through a user's history shows all the user's disputes, newest
   * first, those opened at the same instant in the order they were stored.
   */
  lemma {:induction false} HistoryPagesCover(disputes: seq<Dispute>, user: string, requested: Paging.Num, at: nat)
    ensures var shown := Paging.Concat(Paging.FollowPages(History(disputes, user), ClampedLimit(requested), 0));
      var mine := Paging.Filter(disputes, RaisedBy(user));
      && |shown| == |mine| && NewestComesFirst(shown)
      && Paging.Filter(shown, Paging.HasKey(NewestFirst(), 0 - at)) == Paging.Filter(mine, Paging.HasKey(NewestFirst(), 0 - at))
  {
    var mine := Paging.Filter(disputes, RaisedBy(user));
    Paging.FollowingPagesShowsAll(History(disputes, user), requested, DEFAULT_PAGE_SIZE, MAX_PAGE_SIZE);
    Paging.SortIsStable(mine, NewestFirst(), 0 - at);
    SortedIsNewestFirst(History(disputes, user));
  }

  /** Every page followed is what is answered at its own offset. */
  lemma {:induction false} HistoryPageAt(disputes: seq<Dispute>, user: string, requested: Paging.Num, page: Paging.Page<Dispute>)
    requires page in Paging.FollowPages(History(disputes, user), ClampedLimit(requested), 0)
    ensures page == HistoryPage(disputes, user, requested, Paging.Finite(page.offset as real))
  {
    Paging.PagesAreThere(History(disputes, user), ClampedLimit(requested), 0, page);
    WholeOffset(page.offset);
  }

  lemma {:induction false} WholeOffset(n: nat)
    ensures Paging.ClampOffset(Paging.Finite(n as real)) == n
  {}

  function ClampedLimit(requested: Paging.Num): nat {
    Paging.ClampLimit(requested, DEFAULT_PAGE_SIZE, MAX_PAGE_SIZE)
  }

  predicate NewestComesFirst(shown: seq<Dispute>) {
    forall i, j :: 0 <= i < j < |shown| ==> shown[i].openedAt >= shown[j].openedAt
  }

  /** What a client can rely on in one page, whatever it asks for. */
  predicate IsPageOf(page: Paging.Page<Dispute>, disputes: seq<Dispute>, user: string) {
    && 1 <= page.limit <= 50
    && page.total == Paging.Count(disputes, RaisedBy(user))
    && |page.entries| <= page.limit && NewestComesFirst(page.entries)
    && (page.hasMore <==> page.total > page.offset + page.limit)
    && (page.hasMore ==> |page.entries| == page.limit)
    && forall i :: 0 <= i < |page.entries| ==> page.entries[i] in disputes && page.entries[i].raisedBy == user
  }

  /** Ten to a page unless asked otherwise, fifty at most. */
  lemma {:induction false} HistoryLimitIs(requested: Paging.Num, n: int)
    ensures Paging.IsFloorOf(n, requested) && 1 <= n <= 50 ==> ClampedLimit(requested) == n
    ensures Paging.IsFloorOf(n, requested) && n > 50 ==> ClampedLimit(requested) == 50
    ensures !requested.Finite? || (Paging.IsFloorOf(n, requested) && n < 1) ==> ClampedLimit(requested) == 10
  {
    Paging.LimitIs(requested, DEFAULT_PAGE_SIZE, MAX_PAGE_SIZE, n);
  }

  lemma {:induction false} HistoryPageIs(disputes: seq<Dispute>, user: string, limit: Paging.Num, offset: Paging.Num)
    ensures IsPageOf(HistoryPage(disputes, user, limit, offset), disputes, user)
  {
    var mine := Paging.Filter(disputes, RaisedBy(user));
    var all, from := History(disputes, user), Paging.ClampOffset(offset);
    Paging.PageSize(all, ClampedLimit(limit), from);
    HistoryIs(disputes, user);
    var page := HistoryPage(disputes, user, limit, offset);
    forall i | 0 <= i < |page.entries| ensures page.entries[i] in disputes && page.entries[i].raisedBy == user {
      assert page.entries[i] == all[from + i];
    }
  }

  lemma {:induction false} HistoryIs(disputes: seq<Dispute>, user: string)
    ensures var all := History(disputes, user);
      && |all| == Paging.Count(disputes, RaisedBy(user)) && NewestComesFirst(all)
      && forall i :: 0 <= i < |all| ==> all[i] in disputes && all[i].raisedBy == user
  {
    var mine := Paging.Filter(disputes, RaisedBy(user));
    Paging.FilterMembers(disputes, RaisedBy(user));
    Paging.SortIsStable(mine, NewestFirst(), 0);
    Paging.SortMembers(mine, NewestFirst());
    Paging.FilterCount(disputes, RaisedBy(user));
    SortedIsNewestFirst(History(disputes, user));
    forall i | 0 <= i < |History(disputes, user)|
      ensures History(disputes, user)[i] in disputes && History(disputes, user)[i].raisedBy == user
    {
      assert History(disputes, user)[i] in mine;
    }
  }

  lemma {:induction false} SortedIsNewestFirst(shown: seq<Dispute>)
    requires Paging.Sorted(shown, NewestFirst())
    ensures NewestComesFirst(shown)
  {
    forall i, j | 0 <= i < j < |shown| ensures shown[i].openedAt >= shown[j].openedAt {
      assert NewestFirst()(shown[i]) <= NewestFirst()(shown[j]);
    }
  }
}
