/**
 * What each dispute call does, said of every reachable store in the words of
 * the calls (apps/backend/src/services/dispute.service.ts).
 */
module DisputeLaws {
  import opened Prelude
  import opened Disputes
  import Calendar
  import Changelog
  import Keyed
  import Paging

  // ---------------------------------------------------------------- the rules

  /** What may still happen to a dispute: anything while open; once escalated, anything but escalation. */
  predicate MayMove(state: State, trigger: Trigger) {
    state == Open || (state == Escalated && trigger != Escalate)
  }

  predicate Leads(trigger: Trigger, state: State) {
    match trigger
    case Escalate => state == Escalated
    case Resolve => state == Resolved
    case Withdraw => state == Withdrawn
  }

  predicate HasText(resolution: Option<string>) {
    resolution.Some? && resolution.value != ""
  }

  /** What a transition changes, and that it changes nothing else. */
  predicate MovedBy(d: Dispute, r: Dispute, op: Op)
    requires op.Transition?
  {
    && r.disputeId == d.disputeId && r.escrowId == d.escrowId && r.raisedBy == d.raisedBy && r.reason == d.reason
    && r.openedAt == d.openedAt && r.updatedAt == op.now && Leads(op.trigger, r.state)
    && r.escalatedAt == (if op.trigger == Escalate then Some(op.now) else d.escalatedAt)
    && r.resolvedAt == (if op.trigger == Resolve then Some(op.now) else d.resolvedAt)
    && r.resolution == (if op.trigger == Resolve && HasText(op.resolution) then op.resolution else d.resolution)
  }

  predicate OpenedBy(d: Dispute, op: Op) {
    && op.OpenDispute? && d.disputeId == op.disputeId && d.escrowId == op.escrowId
    && d.raisedBy == op.raisedBy && d.reason == op.reason && d.openedAt == op.now
  }

  /** The store holds `r` under `id` and is otherwise as before. */
  ghost predicate OnlyChanged(before: seq<Dispute>, after: seq<Dispute>, id: string, r: Dispute) {
    forall k :: Find(after, k) == if k == id then Some(r) else Find(before, k)
  }

  predicate StateText(state: State, text: string) {
    match state
    case Open => text == "OPEN"
    case Escalated => text == "ESCALATED"
    case Resolved => text == "RESOLVED"
    case Withdrawn => text == "WITHDRAWN"
  }

  predicate ActionText(trigger: Trigger, text: string) {
    match trigger
    case Escalate => text == "dispute.escalated"
    case Resolve => text == "dispute.resolved"
    case Withdraw => text == "dispute.withdrawn"
  }

  predicate TargetText(trigger: Trigger, text: string) {
    match trigger
    case Escalate => text == "ESCALATED"
    case Resolve => text == "RESOLVED"
    case Withdraw => text == "WITHDRAWN"
  }

  /** The audit entry of a transition, in literal text. */
  predicate Audits(e: Changelog.Entry, d: Dispute, op: Op)
    requires op.Transition?
  {
    && ActionText(op.trigger, e.action) && e.entryId == e.action + ":" + d.disputeId + ":" + Calendar.Iso(op.now)
    && e.actorId == d.raisedBy && e.resourceId == d.disputeId && e.timestamp == op.now && e.requestId == op.requestId
    && e.metadata.Some? && MetadataTells(e.metadata.value, d, op)
  }

  predicate MetadataTells(m: Changelog.Metadata, d: Dispute, op: Op)
    requires op.Transition?
  {
    && Lookup(m, "escrowId") == Some(d.escrowId)
    && (var from := Lookup(m, "fromState"); from.Some? && StateText(d.state, from.value))
    && (var to := Lookup(m, "toState"); to.Some? && TargetText(op.trigger, to.value))
    && Lookup(m, "requestId") == (if HasText(op.requestId) then op.requestId else None)
    && Lookup(m, "resolution") == (if HasText(op.resolution) then op.resolution else None)
  }

  // ---------------------------------------------------------------- opening

  /** What opening does in any sound store. */
  lemma {:induction false} OpeningIs(s: System, op: Op)
    requires Sound(s, op.now) && op.OpenDispute?
    ensures var (s', reply) := Apply(s, op); var found := Find(s.disputes, op.disputeId);
      if op.disputeId == "" || op.escrowId == "" || op.raisedBy == "" || op.reason == "" then
        s' == s && reply == Failure(InvalidPayload)
      else if found.Some? then s' == s && reply == Failure(AlreadyExists(op.disputeId, found.value.state))
      else
        && reply.Success? && OpenedBy(reply.value, op) && reply.value.state == Open && reply.value.updatedAt == op.now
        && reply.value.escalatedAt == None && reply.value.resolvedAt == None && reply.value.resolution == None
        && OnlyChanged(s.disputes, s'.disputes, op.disputeId, reply.value) && s'.log == s.log
  {
    if Apply(s, op).1.Success? { OnlyPut(s.disputes, Apply(s, op).1.value); }
  }

  // ---------------------------------------------------------------- moving

  /** What a transition does in any sound store: exactly when it succeeds, where it leads and why it fails. */
  lemma {:induction false} MovingIs(s: System, op: Op)
    requires Sound(s, op.now) && op.Transition?
    ensures var (s', reply) := Apply(s, op); var found := Find(s.disputes, op.disputeId);
      if op.disputeId == "" then s' == s && reply == Failure(InvalidPayload)
      else if found.None? then s' == s && reply == Failure(NotFound(op.disputeId))
      else if MayMove(found.value.state, op.trigger) then
        && reply.Success? && MovedBy(found.value, reply.value, op)
        && OnlyChanged(s.disputes, s'.disputes, op.disputeId, reply.value)
      else
        && s' == s
        && reply == Failure(if found.value.state == Escalated then InvalidTransition(Escalated, Escalate)
                            else AlreadyFinal(op.disputeId, found.value.state))
  {
    Keyed.FindIs(s.disputes, Key(), op.disputeId);
    var found := Find(s.disputes, op.disputeId);
    if op.disputeId != "" && found.Some? && MayMove(found.value.state, op.trigger) {
      MoveSucceeds(s, op, found.value);
    }
  }

  lemma {:induction false} MoveSucceeds(s: System, op: Op, d: Dispute)
    requires Sound(s, op.now) && op.Transition? && op.disputeId != "" && d.disputeId == op.disputeId
    requires Find(s.disputes, op.disputeId) == Some(d) && MayMove(d.state, op.trigger)
    ensures var (s', reply) := Apply(s, op);
      reply.Success? && MovedBy(d, reply.value, op) && OnlyChanged(s.disputes, s'.disputes, op.disputeId, reply.value)
  {
    var next := Next(d.state, op.trigger).value;
    var r := Updated(d, next, op.resolution, op.now);
    assert MovedBy(d, r, op) by { UpdateMoves(d, op); }
    assert OnlyChanged(s.disputes, Keyed.Put(s.disputes, Key(), r), op.disputeId, r) by { OnlyPut(s.disputes, r); }
    MoveReplies(s, op, d, next);
  }

  lemma {:induction false} MoveReplies(s: System, op: Op, d: Dispute, next: State)
    requires op.Transition? && op.disputeId != "" && Find(s.disputes, op.disputeId) == Some(d)
    requires MayMove(d.state, op.trigger) && Next(d.state, op.trigger) == Some(next)
    ensures var r := Updated(d, next, op.resolution, op.now);
      Apply(s, op).1 == Success(r) && Apply(s, op).0.disputes == Keyed.Put(s.disputes, Key(), r)
  {}

  lemma {:induction false} UpdateMoves(d: Dispute, op: Op)
    requires op.Transition? && MayMove(d.state, op.trigger)
    ensures Next(d.state, op.trigger).Some? && MovedBy(d, Updated(d, Next(d.state, op.trigger).value, op.resolution, op.now), op)
  {}

  lemma {:induction false} OnlyPut(disputes: seq<Dispute>, r: Dispute)
    requires Keyed.Unique(disputes, Key())
    ensures OnlyChanged(disputes, Keyed.Put(disputes, Key(), r), r.disputeId, r)
  {
    forall k ensures Find(Keyed.Put(disputes, Key(), r), k) == if k == r.disputeId then Some(r) else Find(disputes, k) {
      Keyed.PutFind(disputes, Key(), r, k);
    }
  }

  /** The payload of the audit entry, in literal text. */
  lemma {:induction false} PayloadTells(d: Dispute, op: Op, next: State)
    requires op.Transition? && Leads(op.trigger, next)
    ensures var p := AuditPayload(d, op, next);
      && ActionText(op.trigger, p.action) && p.entryId == p.action + ":" + d.disputeId + ":" + Calendar.Iso(op.now)
      && p.actorId == d.raisedBy && p.resourceId == d.disputeId && p.requestId == None
      && p.metadata.Some? && MetadataTells(p.metadata.value, d, op)
  {}

  lemma {:induction false} AuditIs(s: System, op: Op)
    requires Sound(s, op.now) && op.Transition? && Apply(s, op).1.Success?
    ensures var d := Find(s.disputes, op.disputeId); var after := Apply(s, op).0.log.store;
      && d.Some? && |after| == |s.log.store| + 1 && after[..|s.log.store|] == s.log.store
      && Audits(after[|s.log.store|], d.value, op)
  {
    MovingIs(s, op);
    var d := Find(s.disputes, op.disputeId).value;
    var next := Apply(s, op).1.value.state;
    Keyed.FindIs(s.disputes, Key(), op.disputeId);
    PayloadTells(d, op, next);
    NextLeads(d.state, op.trigger, next);
    AppendTells(s, op, d, next);
  }

  lemma {:induction false} NextLeads(state: State, trigger: Trigger, next: State)
    requires MayMove(state, trigger) && Leads(trigger, next)
    ensures Next(state, trigger) == Some(next)
  {}

  lemma {:induction false} AppendTells(s: System, op: Op, d: Dispute, next: State)
    requires Sound(s, op.now) && op.Transition? && op.disputeId != "" && op.disputeId == d.disputeId
    requires Find(s.disputes, op.disputeId) == Some(d) && Next(d.state, op.trigger) == Some(next)
    ensures var p := AuditPayload(d, op, next); var after := Moving(s, op).0.log.store;
      && |after| == |s.log.store| + 1 && after[..|s.log.store|] == s.log.store
      && var e := after[|s.log.store|];
         && e.action == p.action && e.entryId == p.entryId && e.actorId == p.actorId && e.resourceId == p.resourceId
         && e.metadata == p.metadata && e.timestamp == op.now && e.requestId == op.requestId
  {
    AuditIsWritten(s, op.now, d, op, next);
  }

  // ---------------------------------------------------------------- runs

  /**
   * In every reachable store: a transition of a stored dispute succeeds
   * exactly if the dispute is open, or escalated and not to be escalated
   * again; it leaves the state its trigger names, the times and the
   * resolution of that step and everything else as it was; every failure
   * names its reason and changes nothing.
   */
  lemma {:induction false} TransitionsFollowTheRules(ops: seq<Op>, op: Op)
    requires ClockMoves(ops) && LastNow(ops) <= op.now && op.Transition?
    ensures var s := Run(ops); var (s', reply) := Apply(s, op); var found := Find(s.disputes, op.disputeId);
      if op.disputeId == "" then s' == s && reply == Failure(InvalidPayload)
      else if found.None? then s' == s && reply == Failure(NotFound(op.disputeId))
      else if MayMove(found.value.state, op.trigger) then
        && reply.Success? && MovedBy(found.value, reply.value, op)
        && OnlyChanged(s.disputes, s'.disputes, op.disputeId, reply.value)
      else
        && s' == s
        && reply == Failure(if found.value.state == Escalated then InvalidTransition(Escalated, Escalate)
                            else AlreadyFinal(op.disputeId, found.value.state))
  {
    RunSound(ops, op.now);
    MovingIs(Run(ops), op);
  }

  /** In every reachable store a successful transition appends one audit entry, whose action and states are this literal text. */
  lemma {:induction false} AuditsSayWhatHappened(ops: seq<Op>, op: Op)
    requires ClockMoves(ops) && LastNow(ops) <= op.now && op.Transition? && Apply(Run(ops), op).1.Success?
    ensures var s := Run(ops); var d := Find(s.disputes, op.disputeId); var after := Apply(s, op).0.log.store;
      && d.Some? && |after| == |s.log.store| + 1 && after[..|s.log.store|] == s.log.store
      && Audits(after[|s.log.store|], d.value, op)
  {
    RunSound(ops, op.now);
    AuditIs(Run(ops), op);
  }

  /** Call `i` succeeded on dispute `id`. */
  ghost predicate Did(ops: seq<Op>, i: nat, id: string) {
    i < |ops| && ops[i].disputeId == id && Apply(Run(ops[..i]), ops[i]).1.Success?
  }

  ghost predicate WasOpened(ops: seq<Op>, d: Dispute) {
    exists i: nat :: Did(ops, i, d.disputeId) && OpenedBy(d, ops[i])
  }

  ghost predicate WasMoved(ops: seq<Op>, id: string, trigger: Trigger, at: nat) {
    exists i: nat :: Did(ops, i, id) && ops[i].Transition? && ops[i].trigger == trigger && ops[i].now == at
  }

  ghost predicate WasSaid(ops: seq<Op>, id: string, resolution: Option<string>) {
    exists i: nat :: Did(ops, i, id) && ops[i].Transition? && ops[i].resolution == resolution
  }

  /** Every mark a dispute carries was left by a successful call: its fields, its state and its times. */
  ghost predicate Biography(ops: seq<Op>, d: Dispute) {
    && WasOpened(ops, d)
    && (d.escalatedAt.Some? ==> WasMoved(ops, d.disputeId, Escalate, d.escalatedAt.value))
    && (d.resolvedAt.Some? ==> WasMoved(ops, d.disputeId, Resolve, d.resolvedAt.value))
    && (d.resolution.Some? ==> WasSaid(ops, d.disputeId, d.resolution))
    && (match d.state
        case Open => d.updatedAt == d.openedAt && d.escalatedAt == None && d.resolvedAt == None && d.resolution == None
        case Escalated => WasMoved(ops, d.disputeId, Escalate, d.updatedAt)
        case Resolved => WasMoved(ops, d.disputeId, Resolve, d.updatedAt)
        case Withdrawn => WasMoved(ops, d.disputeId, Withdraw, d.updatedAt))
  }

  lemma {:induction false} DidMore(ops: seq<Op>, i: nat, id: string)
    requires ops != [] && Did(ops[..|ops| - 1], i, id)
    ensures Did(ops, i, id) && ops[i] == ops[..|ops| - 1][i]
  {
    assert ops[..|ops| - 1][..i] == ops[..i];
  }

  lemma {:induction false} OpenedMore(ops: seq<Op>, d: Dispute)
    requires ops != [] && WasOpened(ops[..|ops| - 1], d)
    ensures WasOpened(ops, d)
  {
    var i: nat :| Did(ops[..|ops| - 1], i, d.disputeId) && OpenedBy(d, ops[..|ops| - 1][i]);
    DidMore(ops, i, d.disputeId);
  }

  lemma {:induction false} MovedMore(ops: seq<Op>, id: string, trigger: Trigger, at: nat)
    requires ops != []
    ensures WasMoved(ops[..|ops| - 1], id, trigger, at) ==> WasMoved(ops, id, trigger, at)
  {
    var init := ops[..|ops| - 1];
    if WasMoved(init, id, trigger, at) {
      var i: nat :| Did(init, i, id) && init[i].Transition? && init[i].trigger == trigger && init[i].now == at;
      DidMore(ops, i, id);
    }
  }

  lemma {:induction false} SaidMore(ops: seq<Op>, id: string, resolution: Option<string>)
    requires ops != []
    ensures WasSaid(ops[..|ops| - 1], id, resolution) ==> WasSaid(ops, id, resolution)
  {
    var init := ops[..|ops| - 1];
    if WasSaid(init, id, resolution) {
      var i: nat :| Did(init, i, id) && init[i].Transition? && init[i].resolution == resolution;
      DidMore(ops, i, id);
    }
  }

  lemma {:induction false} BiographyMore(ops: seq<Op>, d: Dispute)
    requires ops != [] && Biography(ops[..|ops| - 1], d)
    ensures Biography(ops, d)
  {
    OpenedMore(ops, d);
    MovedMore(ops, d.disputeId, Escalate, d.updatedAt);
    MovedMore(ops, d.disputeId, Resolve, d.updatedAt);
    MovedMore(ops, d.disputeId, Withdraw, d.updatedAt);
    if d.escalatedAt.Some? { MovedMore(ops, d.disputeId, Escalate, d.escalatedAt.value); }
    if d.resolvedAt.Some? { MovedMore(ops, d.disputeId, Resolve, d.resolvedAt.value); }
    SaidMore(ops, d.disputeId, d.resolution);
  }

  lemma {:induction false} BiographyMoved(ops: seq<Op>, d: Dispute, r: Dispute)
    requires ops != [] && var op := ops[|ops| - 1]; op.Transition? && op.disputeId == d.disputeId && MovedBy(d, r, op)
    requires Biography(ops, d) && Did(ops, |ops| - 1, d.disputeId)
    ensures Biography(ops, r)
  {
    var op := ops[|ops| - 1];
    assert WasMoved(ops, r.disputeId, op.trigger, op.now);
    assert WasSaid(ops, r.disputeId, op.resolution);
    var i: nat :| Did(ops, i, d.disputeId) && OpenedBy(d, ops[i]);
    assert OpenedBy(r, ops[i]);
  }

  /** After any calls, every stored dispute is what its own successful calls have made of it. */
  lemma {:induction false} DisputesAreTheirHistory(ops: seq<Op>, id: string)
    requires ClockMoves(ops)
    ensures var found := Find(Run(ops).disputes, id); found.Some? ==> found.value.disputeId == id && Biography(ops, found.value)
  {
    if ops != [] {
      var n := |ops| - 1;
      var op := ops[n];
      var s := Run(ops[..n]);
      DisputesAreTheirHistory(ops[..n], id);
      RunSound(ops[..n], op.now);
      var found := Find(s.disputes, id);
      if found.Some? { BiographyMore(ops, found.value); }
      if op.OpenDispute? { OpeningIs(s, op); } else { MovingIs(s, op); }
      if op.disputeId == id && Apply(s, op).1.Success? {
        assert Did(ops, n, id);
        if op.OpenDispute? {
          assert OpenedBy(Apply(s, op).1.value, ops[n]);
        } else {
          BiographyMoved(ops, found.value, Apply(s, op).1.value);
        }
      }
    }
  }

  // ---------------------------------------------------------------- metrics

  /** Opened no earlier than `from` and no later than `to`, where these are given. */
  function OpenedWithin(from: Option<int>, to: Option<int>): Dispute -> bool {
    (d: Dispute) => (from.None? || from.value <= d.openedAt) && (to.None? || d.openedAt <= to.value)
  }

  function InState(state: State): Dispute -> bool {
    (d: Dispute) => d.state == state
  }

  function IsClosed(): Dispute -> bool {
    (d: Dispute) => d.state == Resolved || d.state == Withdrawn
  }

  function WasEscalated(): Dispute -> bool {
    (d: Dispute) => d.escalatedAt.Some?
  }

  /** Escalated for thirty days or more. */
  function TooLong(now: int): Dispute -> bool {
    (d: Dispute) => d.state == Escalated && d.escalatedAt.Some? && now - d.escalatedAt.value >= 2_592_000_000
  }

  lemma {:induction false} CountIs(ds: seq<Dispute>, p: Dispute -> bool, q: Dispute -> bool)
    requires forall d :: d in ds ==> p(d) == q(d)
    ensures Paging.Count(ds, p) == |Paging.Filter(ds, q)|
  {
    if ds != [] {
      var n := |ds| - 1;
      assert ds[n] in ds;
      CountIs(ds[..n], p, q);
    }
  }

  lemma {:induction false} SameFilter(ds: seq<Dispute>, p: Dispute -> bool, q: Dispute -> bool)
    requires forall d :: d in ds ==> p(d) == q(d)
    ensures Paging.Filter(ds, p) == Paging.Filter(ds, q)
  {
    if ds != [] {
      assert ds[|ds| - 1] in ds;
      SameFilter(ds[..|ds| - 1], p, q);
    }
  }

  /** The counters of the metrics, by definition: how many disputes of the range meet each test. */
  lemma {:induction false} MetricsCount(ds: seq<Dispute>, from: Option<int>, to: Option<int>, now: int)
    ensures var m := GetMetrics(ds, from, to, now); var inRange := Paging.Filter(ds, OpenedWithin(from, to));
      && m.total == |inRange|
      && m.byState.open == |Paging.Filter(inRange, InState(Open))|
      && m.byState.escalated == |Paging.Filter(inRange, InState(Escalated))|
      && m.byState.resolved == |Paging.Filter(inRange, InState(Resolved))|
      && m.byState.withdrawn == |Paging.Filter(inRange, InState(Withdrawn))|
      && m.escalatedCount == |Paging.Filter(inRange, WasEscalated())|
      && m.overdueEscalated == |Paging.Filter(inRange, TooLong(now))|
  {
    SameFilter(ds, Ranged(from, to), OpenedWithin(from, to));
    var inRange := Paging.Filter(ds, OpenedWithin(from, to));
    CountIs(inRange, HasState(Open), InState(Open));
    CountIs(inRange, HasState(Escalated), InState(Escalated));
    CountIs(inRange, HasState(Resolved), InState(Resolved));
    CountIs(inRange, HasState(Withdrawn), InState(Withdrawn));
    CountIs(inRange, EverEscalated(), WasEscalated());
    forall d | d in inRange ensures OverdueNow(now)(d) == TooLong(now)(d) {
      OverdueIff(d, now, ESCALATED_SLA_DAYS);
    }
    CountIs(inRange, OverdueNow(now), TooLong(now));
  }

  /** From opening to the last change, in hours. */
  function Span(d: Dispute): real {
    (d.updatedAt - d.openedAt) as real / 3_600_000.0
  }

  function SumOfSpans(ds: seq<Dispute>): real {
    if ds == [] then 0.0 else SumOfSpans(ds[..|ds| - 1]) + Span(ds[|ds| - 1])
  }

  lemma {:induction false} HoursAreSpans(ds: seq<Dispute>, clock: nat)
    requires AllTimesOk(ds, clock)
    ensures |AllHours(ds)| == |Paging.Filter(ds, IsClosed())| && Sum(AllHours(ds)) == SumOfSpans(Paging.Filter(ds, IsClosed()))
  {
    if ds != [] {
      var n := |ds| - 1;
      HoursAreSpans(ds[..n], clock);
      assert TimesOk(ds[n], clock);
      HoursOfOne(ds[n], clock);
      SumMore(AllHours(ds[..n]), Span(ds[n]));
      SpansMore(Paging.Filter(ds[..n], IsClosed()), ds[n]);
      if IsClosed()(ds[n]) {
        assert AllHours(ds) == AllHours(ds[..n]) + [Span(ds[n])];
        assert Paging.Filter(ds, IsClosed()) == Paging.Filter(ds[..n], IsClosed()) + [ds[n]];
      } else {
        assert AllHours(ds) == AllHours(ds[..n]);
        assert Paging.Filter(ds, IsClosed()) == Paging.Filter(ds[..n], IsClosed());
      }
    }
  }

  lemma {:induction false} HoursOfOne(d: Dispute, clock: nat)
    requires TimesOk(d, clock)
    ensures ResolutionHours(d) == if IsClosed()(d) then Some(Span(d)) else None
  {}

  lemma {:induction false} SumMore(rs: seq<real>, r: real)
    ensures Sum(rs + [r]) == Sum(rs) + r
  {
    assert (rs + [r])[..|rs|] == rs;
  }

  lemma {:induction false} SpansMore(ds: seq<Dispute>, d: Dispute)
    ensures SumOfSpans(ds + [d]) == SumOfSpans(ds) + Span(d)
  {
    assert (ds + [d])[..|ds|] == ds;
  }

  /** `x` to the nearest tenth, upwards in the middle. */
  predicate IsTenthOf(value: real, x: real) {
    var n := (value * 10.0).Floor;
    value * 10.0 == n as real && n as real - 0.5 <= x * 10.0 < n as real + 0.5
  }

  lemma {:induction false} RoundsToTenth(x: real)
    ensures IsTenthOf(RoundTenth(x), x)
  {
    var n := (x * 10.0 + 0.5).Floor;
    assert RoundTenth(x) * 10.0 == n as real;
  }

  lemma {:induction false} Quotient(a: nat, b: nat)
    requires b > 0
    ensures a as real / b as real * b as real == a as real
  {}

  lemma {:induction false} AverageIs(ds: seq<Dispute>, clock: nat, now: int)
    requires AllTimesOk(ds, clock)
    ensures var avg := MetricsOf(ds, now).avgResolutionHours; var closed := Paging.Filter(ds, IsClosed());
      && (closed == [] ==> avg == None)
      && (closed != [] ==> avg.Some? && IsTenthOf(avg.value, SumOfSpans(closed) / |closed| as real))
  {
    HoursAreSpans(ds, clock);
    var hours := AllHours(ds);
    if hours != [] { RoundsToTenth(Sum(hours) / |hours| as real); }
  }

  /**
   * In every reachable store: the average is that of the time from opening to
   * closing over the closed disputes of the range, to a tenth of an hour, and
   * there is none without any; the rates are the shares of the total.
   */
  lemma {:induction false} MetricsAverage(ops: seq<Op>, from: Option<int>, to: Option<int>, now: int)
    requires ClockMoves(ops)
    ensures var ds := Run(ops).disputes; var m := GetMetrics(ds, from, to, now);
      var closed := Paging.Filter(Paging.Filter(ds, OpenedWithin(from, to)), IsClosed());
      && (closed == [] ==> m.avgResolutionHours == None)
      && (closed != [] ==> m.avgResolutionHours.Some? && IsTenthOf(m.avgResolutionHours.value, SumOfSpans(closed) / |closed| as real))
  {
    RunSound(ops, LastNow(ops));
    var ds := Run(ops).disputes;
    SameFilter(ds, Ranged(from, to), OpenedWithin(from, to));
    var inRange := Paging.Filter(ds, OpenedWithin(from, to));
    Paging.FilterMembers(ds, OpenedWithin(from, to));
    forall i | 0 <= i < |inRange| ensures TimesOk(inRange[i], LastNow(ops)) {
      assert inRange[i] in ds;
    }
    AverageIs(inRange, LastNow(ops), now);
  }

  /** The rates are the shares of the escalated and of the resolved in the total; without disputes they are 0. */
  lemma {:induction false} RatesAreShares(ds: seq<Dispute>, from: Option<int>, to: Option<int>, now: int)
    ensures var m := GetMetrics(ds, from, to, now);
      && (m.total == 0 ==> m.escalationRate == 0.0 && m.resolutionRate == 0.0)
      && (m.total > 0 ==> m.escalationRate * m.total as real == m.escalatedCount as real)
      && (m.total > 0 ==> m.resolutionRate * m.total as real == m.byState.resolved as real)
  {
    var m := GetMetrics(ds, from, to, now);
    if m.total > 0 {
      Quotient(m.escalatedCount, m.total);
      Quotient(m.byState.resolved, m.total);
    }
  }
}
