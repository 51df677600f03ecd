/**
 * The service object of apps/backend/src/services/dispute.service.ts, updated
 * in place and proved against Disputes.
 */
module DisputeServiceModel {
  import opened Prelude
  import opened Disputes
  import Changelog
  import ChangelogServiceModel
  import Keyed
  import Paging

  class DisputeService {
    /** The disputes, in insertion order. */
    var store: seq<Dispute>
    const changelog: ChangelogServiceModel.ChangelogService

    ghost function Abs(): System
      reads this, changelog
    {
      System(store, changelog.Abs())
    }

    constructor ()
      ensures fresh(changelog) && Abs() == EMPTY
    {
      store := [];
      changelog := new ChangelogServiceModel.ChangelogService();
    }

    method OpenDispute(disputeId: string, escrowId: string, raisedBy: string, reason: string, now: nat) returns (reply: Reply)
      modifies this
      ensures (Abs(), reply) == Apply(old(Abs()), Op.OpenDispute(disputeId, escrowId, raisedBy, reason, now))
    {
      if disputeId == "" || escrowId == "" || raisedBy == "" || reason == "" {
        return Failure(InvalidPayload);
      }
      var existing := Find(store, disputeId);
      if existing.Some? {
        return Failure(AlreadyExists(disputeId, existing.value.state));
      }
      var dispute := Dispute(disputeId, escrowId, raisedBy, reason, Open, now, now, None, None, None);
      store := Keyed.Put(store, Key(), dispute);
      return Success(dispute);
    }

    method Transition(disputeId: string, trigger: Trigger, resolution: Option<string>, requestId: Option<string>, now: nat)
      returns (reply: Reply)
      modifies this, changelog
      ensures (Abs(), reply) == Apply(old(Abs()), Op.Transition(disputeId, trigger, resolution, requestId, now))
    {
      ghost var op := Op.Transition(disputeId, trigger, resolution, requestId, now);
      if disputeId == "" {
        return Failure(InvalidPayload);
      }
      var found := Find(store, disputeId);
      if found.None? {
        return Failure(NotFound(disputeId));
      }
      var dispute := found.value;
      if dispute.state.Final() {
        return Failure(AlreadyFinal(disputeId, dispute.state));
      }
      var next := Next(dispute.state, trigger);
      if next.None? {
        return Failure(InvalidTransition(dispute.state, trigger));
      }
      var updated := dispute.(state := next.value, updatedAt := now);
      if next.value == Escalated {
        updated := updated.(escalatedAt := Some(now));
      }
      if next.value == Resolved {
        updated := updated.(resolvedAt := Some(now));
        if Truthy(resolution) {
          updated := updated.(resolution := resolution);
        }
      }
      store := Keyed.Put(store, Key(), updated);
      // A refused audit entry is swallowed: the transition stands.
      var _ := changelog.AppendEntry(AuditPayload(dispute, Op.Transition(disputeId, trigger, resolution, requestId, now), next.value),
        Changelog.Context(now, requestId));
      return Success(updated);
    }

    /** One pass over the disputes of the range, with a counter per state. */
    method GetMetrics(from: Option<int>, to: Option<int>, now: int) returns (m: Metrics)
      ensures m == Disputes.GetMetrics(store, from, to, now)
    {
      var inRange := Paging.Filter(store, Ranged(from, to));
      var open, escalated, resolved, withdrawn := 0, 0, 0, 0;
      var escalatedEver, overdue := 0, 0;
      var hours: seq<real> := [];
      for i := 0 to |inRange|
        invariant Tally(open, escalated, resolved, withdrawn) == StateCounts(inRange[..i])
        invariant escalatedEver == Paging.Count(inRange[..i], EverEscalated())
        invariant overdue == Paging.Count(inRange[..i], OverdueNow(now))
        invariant hours == AllHours(inRange[..i])
      {
        assert inRange[..i + 1][..i] == inRange[..i];
        var d := inRange[i];
        match d.state {
          case Open => open := open + 1;
          case Escalated => escalated := escalated + 1;
          case Resolved => resolved := resolved + 1;
          case Withdrawn => withdrawn := withdrawn + 1;
        }
        if d.escalatedAt.Some? {
          escalatedEver := escalatedEver + 1;
        }
        if d.state.Final() {
          var closedAt := if d.state == Resolved && d.resolvedAt.Some? then d.resolvedAt.value else d.updatedAt;
          var h := (closedAt - d.openedAt) as real / 3_600_000.0;
          if h >= 0.0 {
            hours := hours + [h];
          }
        }
        if IsOverdue(d, now, ESCALATED_SLA_DAYS) {
          overdue := overdue + 1;
        }
      }
      assert inRange[..|inRange|] == inRange;
      m := Metrics(|inRange|, Tally(open, escalated, resolved, withdrawn), open + escalated, resolved + withdrawn, escalatedEver,
        if inRange == [] then 0.0 else escalatedEver as real / |inRange| as real,
        if inRange == [] then 0.0 else resolved as real / |inRange| as real,
        if hours == [] then None else Some(RoundTenth(Sum(hours) / |hours| as real)),
        overdue);
    }

    method ListDisputesByUserPaginated(user: string, limit: Paging.Num, offset: Paging.Num) returns (page: Paging.Page<Dispute>)
      ensures IsPageOf(page, store, user)
      ensures page == HistoryPage(store, user, limit, offset)
    {
      var mine := Paging.SortBy(Paging.Filter(store, RaisedBy(user)), NewestFirst());
      page := Paging.PageOf(mine, ClampedLimit(limit), Paging.ClampOffset(offset));
      HistoryPageIs(store, user, limit, offset);
    }
  }
}
