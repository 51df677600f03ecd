/**
 * Sending a notification once per event, with retries and a dead letter
 * (apps/backend/src/services/notification.service.ts).  The repository and the
 * error monitor are not part of this model: what they answer is a script, and
 * what they are told is recorded.
 */
module Notification {
  import opened Prelude
  import Paging
  import Retry
  import Text

  datatype Notification = Notification(eventId: Option<string>, kind: string)

  /** A thrown error, with the status properties it may carry and its message. */
  datatype Fault = Fault(status: HttpStatus, statusCode: HttpStatus, responseStatus: HttpStatus, message: string)

  datatype DeadLetter = DeadLetter(notification: Notification, reason: string, attempts: nat, isFinancial: bool)

  /** What the outside is told, in order. */
  datatype Effect =
    | Recorded(notification: Notification)
    | Delivered(notification: Notification)
    | Refused(notification: Notification, fault: Fault)       // a delivery attempt that failed
    | DeadLettered(letter: DeadLetter)                  // the dead letter was stored
    | Alerted(notification: Notification, isFinancial: bool)
  {
    function About(): Notification {
      if DeadLettered? then letter.notification else notification
    }
  }

  /** How the repository answers during one call; `deliver` says how the k-th delivery fails, if it does. */
  datatype Script = Script(lookupOk: bool, createOk: bool, deliver: nat -> Option<Fault>, letterOk: bool)

  datatype System = System(rows: seq<Notification>, effects: seq<Effect>)

  datatype Reply = Done | Skipped | Rejected

  const MAX_ATTEMPTS: nat := 5
  const BASE_BACKOFF_MS: int := 200
  const MAX_BACKOFF_MS: int := 10_000

  const NETWORK_PHRASES: seq<string> := ["timeout", "timed out", "econnreset", "econnrefused", "etimedout", "enotfound", "socket hang up", "network"]

  // ---------------------------------------------------------------- the code, on values

  /** `extractStatusCode` */
  function StatusOf(e: Fault): HttpStatus {
    if !e.status.Missing? then e.status
    else if !e.statusCode.Missing? then e.statusCode
    else e.responseStatus
  }

  /** `classifyError` */
  predicate IsTransient(e: Fault) {
    var status := StatusOf(e);
    if status.Code? && status.value >= 500 then true
    else if status.Code? && status.value >= 400 then false
    else if Text.ContainsAny(Text.Lower(e.message), NETWORK_PHRASES) then true
    else true
  }

  /** The first status property an error carries, in the order they are looked at. */
  predicate CarriesStatus(e: Fault, code: int) {
    || e.status == Code(code)
    || (e.status == Missing && e.statusCode == Code(code))
    || (e.status == Missing && e.statusCode == Missing && e.responseStatus == Code(code))
  }

  /** Only client errors, 400 to 499, are final; everything else is tried again. */
  lemma {:induction false} FinalIff(e: Fault)
    ensures !IsTransient(e) <==> exists code :: 400 <= code <= 499 && CarriesStatus(e, code)
  {
    if StatusOf(e).Code? { assert CarriesStatus(e, StatusOf(e).value); }
  }

  predicate IsFinancial(n: Notification) {
    n.kind == "escrow_funded" || n.kind == "escrow_released" || n.kind == "escrow_disputed"
  }

  /** `handleDeliveryFailure` */
  function GiveUp(n: Notification, e: Fault, letterOk: bool): seq<Effect> {
    (if letterOk then [DeadLettered(DeadLetter(n, e.message, MAX_ATTEMPTS, IsFinancial(n)))] else []) + [Alerted(n, IsFinancial(n))]
  }

  /** `dispatchWithRetry` from its `attempt`-th delivery on. */
  function Dispatch(n: Notification, script: Script, attempt: nat): seq<Effect>
    requires 1 <= attempt <= MAX_ATTEMPTS
    decreases MAX_ATTEMPTS - attempt
  {
    match script.deliver(attempt)
    case None => [Delivered(n)]
    case Some(e) =>
      [Refused(n, e)] +
      if IsTransient(e) && attempt < MAX_ATTEMPTS then Dispatch(n, script, attempt + 1) else GiveUp(n, e, script.letterOk)
  }

  /** `existsByEventId` */
  predicate Exists(rows: seq<Notification>, eventId: string) {
    exists i :: 0 <= i < |rows| && rows[i].eventId == Some(eventId)
  }

  predicate HasEventId(n: Notification) {
    n.eventId.Some? && n.eventId.value != ""
  }

  /** `sendNotification` */
  function Send(s: System, n: Notification, script: Script): (System, Reply) {
    if HasEventId(n) && !script.lookupOk then (s, Rejected)
    else if HasEventId(n) && Exists(s.rows, n.eventId.value) then (s, Skipped)
    else if !script.createOk then (s, Rejected)
    else (System(s.rows + [n], s.effects + [Recorded(n)] + Dispatch(n, script, 1)), Done)
  }

  // ---------------------------------------------------------------- the code, in place

  function Least(a: int, b: int): int {
    if a < b then a else b
  }

  /** `computeBackoffDelay`; `random` is what `Math.random` answers. */
  function BackoffDelay(attempt: nat, random: real): int
    requires attempt >= 1
  {
    (Least(BASE_BACKOFF_MS * Retry.Pow2(attempt - 1), MAX_BACKOFF_MS) as real + random * BASE_BACKOFF_MS as real + 0.5).Floor
  }

  /** The time between the deliveries is the sum of the doubling delays, each with less than one base delay of jitter. */
  predicate InTime(deliveries: nat, waited: int)
    requires deliveries >= 1
  {
    var base := BASE_BACKOFF_MS * (Retry.Pow2(deliveries - 1) - 1);
    base <= waited <= base + BASE_BACKOFF_MS * (deliveries - 1)
  }

  /** Before an attempt: with what it leads to, the effects will be `all`. */
  ghost predicate Trying(n: Notification, script: Script, attempt: nat, effects: seq<Effect>, all: seq<Effect>) {
    && 1 <= attempt <= MAX_ATTEMPTS
    && effects + Dispatch(n, script, attempt) == all
    && Expected(script, 1, Attempt) == attempt - 1 + Expected(script, attempt, Attempt)
  }

  lemma {:induction false} TryDelivered(n: Notification, script: Script, attempt: nat, effects: seq<Effect>, all: seq<Effect>)
    requires Trying(n, script, attempt, effects, all) && script.deliver(attempt).None?
    ensures effects + [Delivered(n)] == all && Expected(script, 1, Attempt) == attempt
  {}

  lemma {:induction false} TryAgain(n: Notification, script: Script, attempt: nat, effects: seq<Effect>, all: seq<Effect>, e: Fault)
    requires Trying(n, script, attempt, effects, all) && script.deliver(attempt) == Some(e)
    requires IsTransient(e) && attempt < MAX_ATTEMPTS
    ensures Trying(n, script, attempt + 1, effects + [Refused(n, e)], all)
  {
    var rest := Dispatch(n, script, attempt + 1);
    assert effects + [Refused(n, e)] + rest == effects + ([Refused(n, e)] + rest);
  }

  lemma {:induction false} TryNoMore(n: Notification, script: Script, attempt: nat, effects: seq<Effect>, all: seq<Effect>, e: Fault)
    requires Trying(n, script, attempt, effects, all) && script.deliver(attempt) == Some(e)
    requires !IsTransient(e) || attempt == MAX_ATTEMPTS
    ensures effects + [Refused(n, e)] + GiveUp(n, e, script.letterOk) == all && Expected(script, 1, Attempt) == attempt
  {
    var rest := GiveUp(n, e, script.letterOk);
    assert effects + [Refused(n, e)] + rest == effects + ([Refused(n, e)] + rest);
  }

  lemma {:induction false} WaitNext(attempt: nat, waited: int, random: real)
    requires 1 <= attempt < MAX_ATTEMPTS && InTime(attempt, waited) && 0.0 <= random < 1.0
    ensures InTime(attempt + 1, waited + BackoffDelay(attempt, random))
  {
    DelayBounds(attempt, random);
  }

  class NotificationService {
    var rows: seq<Notification>
    var effects: seq<Effect>

    function State(): System
      reads this
    {
      System(rows, effects)
    }

    constructor ()
      ensures State() == System([], [])
    {
      rows, effects := [], [];
    }

    /** Also gives the number of deliveries and the time spent between them. */
    method DispatchWithRetry(n: Notification, script: Script, random: nat -> real) returns (deliveries: nat, waited: int)
      requires forall k :: 0.0 <= random(k) < 1.0
      modifies this`effects
      ensures effects == old(effects) + Dispatch(n, script, 1)
      ensures 1 <= deliveries <= MAX_ATTEMPTS && deliveries == Expected(script, 1, Attempt)
      ensures InTime(deliveries, waited)
    {
      var attempt := 1;
      waited := 0;
      ghost var all := effects + Dispatch(n, script, 1);
      while true
        invariant Trying(n, script, attempt, effects, all)
        invariant InTime(attempt, waited)
        decreases MAX_ATTEMPTS - attempt
      {
        var failure := script.deliver(attempt);
        if failure.None? {
          TryDelivered(n, script, attempt, effects, all);
          effects := effects + [Delivered(n)];
          return attempt, waited;
        }
        var e := failure.value;
        if !IsTransient(e) || attempt == MAX_ATTEMPTS {
          TryNoMore(n, script, attempt, effects, all, e);
          effects := effects + [Refused(n, e)];
          HandleDeliveryFailure(n, e, script.letterOk);
          return attempt, waited;
        }
        TryAgain(n, script, attempt, effects, all, e);
        effects := effects + [Refused(n, e)];
        WaitNext(attempt, waited, random(attempt));
        waited := waited + BackoffDelay(attempt, random(attempt));
        attempt := attempt + 1;
      }
    }

    method HandleDeliveryFailure(n: Notification, e: Fault, letterOk: bool)
      modifies this`effects
      ensures effects == old(effects) + GiveUp(n, e, letterOk)
    {
      var financial := IsFinancial(n);
      if letterOk {
        effects := effects + [DeadLettered(DeadLetter(n, e.message, MAX_ATTEMPTS, financial))];
      }
      effects := effects + [Alerted(n, financial)];
    }

    method SendNotification(n: Notification, script: Script, random: nat -> real) returns (reply: Reply)
      requires forall k :: 0.0 <= random(k) < 1.0
      modifies this
      ensures (State(), reply) == Send(old(State()), n, script)
    {
      if HasEventId(n) {
        if !script.lookupOk { return Rejected; }
        if Exists(rows, n.eventId.value) { return Skipped; }
      }
      if !script.createOk { return Rejected; }
      rows, effects := rows + [n], effects + [Recorded(n)];
      var _, _ := DispatchWithRetry(n, script, random);
      return Done;
    }
  }

  // ---------------------------------------------------------------- one dispatch

  function Any(): Notification -> bool {
    (n: Notification) => true
  }

  datatype Kind = Record | Delivery | Attempt | Alert | Letter

  predicate Is(e: Effect, kind: Kind) {
    match kind
    case Record => e.Recorded?
    case Delivery => e.Delivered?
    case Attempt => e.Delivered? || e.Refused?
    case Alert => e.Alerted?
    case Letter => e.DeadLettered?
  }

  function One(e: Effect, kind: Kind, p: Notification -> bool): nat {
    if Is(e, kind) && p(e.About()) then 1 else 0
  }

  /** How many effects of a kind are about the notifications in `p`. */
  function Count(es: seq<Effect>, kind: Kind, p: Notification -> bool): nat {
    if es == [] then 0 else One(es[0], kind, p) + Count(es[1..], kind, p)
  }

  lemma {:induction false} CountConcat(xs: seq<Effect>, ys: seq<Effect>, kind: Kind, p: Notification -> bool)
    ensures Count(xs + ys, kind, p) == Count(xs, kind, p) + Count(ys, kind, p)
  {
    if xs == [] {
      assert xs + ys == ys;
    } else {
      CountConcat(xs[1..], ys, kind, p);
      assert (xs + ys)[1..] == xs[1..] + ys;
    }
  }

  lemma {:induction false} CountOne(e: Effect, kind: Kind, p: Notification -> bool)
    ensures Count([e], kind, p) == One(e, kind, p)
  {
    assert [e][1..] == [];
  }

  lemma {:induction false} CountFirst(e: Effect, es: seq<Effect>, kind: Kind, p: Notification -> bool)
    ensures Count([e] + es, kind, p) == One(e, kind, p) + Count(es, kind, p)
  {
    assert ([e] + es)[1..] == es;
  }

  lemma {:induction false} GiveUpCount(n: Notification, e: Fault, letterOk: bool, kind: Kind, p: Notification -> bool)
    ensures Count(GiveUp(n, e, letterOk), kind, p) == if p(n) && (kind == Alert || (kind == Letter && letterOk)) then 1 else 0
  {
    var alert := Alerted(n, IsFinancial(n));
    CountOne(alert, kind, p);
    if letterOk {
      CountFirst(DeadLettered(DeadLetter(n, e.message, MAX_ATTEMPTS, IsFinancial(n))), [alert], kind, p);
    } else {
      assert GiveUp(n, e, letterOk) == [alert];
    }
  }

  /** The delay before the next attempt: the cap of ten seconds is never reached. */
  lemma {:induction false} DelayBounds(attempt: nat, random: real)
    requires 1 <= attempt < MAX_ATTEMPTS && 0.0 <= random < 1.0
    ensures var step := 200 * Retry.Pow2(attempt - 1);
      step <= BackoffDelay(attempt, random) <= step + 200
    ensures Retry.Pow2(attempt) == 2 * Retry.Pow2(attempt - 1)
  {
    assert Retry.Pow2(0) == 1 && Retry.Pow2(1) == 2 && Retry.Pow2(2) == 4 && Retry.Pow2(3) == 8;
  }

  /** The first attempts up to `k` fail and may be retried. */
  predicate AllTransient(script: Script, k: nat) {
    forall i :: 1 <= i <= k ==> script.deliver(i).Some? && IsTransient(script.deliver(i).value)
  }

  /** How many effects of each kind a dispatch has from an attempt on. */
  function Expected(script: Script, attempt: nat, kind: Kind): nat
    requires 1 <= attempt <= MAX_ATTEMPTS
    decreases MAX_ATTEMPTS - attempt
  {
    match script.deliver(attempt)
    case None => if kind == Delivery || kind == Attempt then 1 else 0
    case Some(e) =>
      (if kind == Attempt then 1 else 0) +
      if IsTransient(e) && attempt < MAX_ATTEMPTS then Expected(script, attempt + 1, kind)
      else if kind == Alert || (kind == Letter && script.letterOk) then 1 else 0
  }

  lemma {:induction false} DispatchCount(n: Notification, script: Script, attempt: nat, kind: Kind, p: Notification -> bool)
    requires 1 <= attempt <= MAX_ATTEMPTS
    ensures Count(Dispatch(n, script, attempt), kind, p) == if p(n) then Expected(script, attempt, kind) else 0
    decreases MAX_ATTEMPTS - attempt
  {
    match script.deliver(attempt)
    case None => CountOne(Delivered(n), kind, p);
    case Some(e) =>
      var more := IsTransient(e) && attempt < MAX_ATTEMPTS;
      var rest := if more then Dispatch(n, script, attempt + 1) else GiveUp(n, e, script.letterOk);
      RefusedCount(n, e, rest, kind, p);
      if more { DispatchCount(n, script, attempt + 1, kind, p); } else { GiveUpCount(n, e, script.letterOk, kind, p); }
  }

  lemma {:induction false} RefusedCount(n: Notification, e: Fault, rest: seq<Effect>, kind: Kind, p: Notification -> bool)
    ensures Count([Refused(n, e)] + rest, kind, p) == Count(rest, kind, p) + if p(n) && kind == Attempt then 1 else 0
  {
    CountFirst(Refused(n, e), rest, kind, p);
  }

  /** Delivered or alerted about, never both; at most the attempts left; a letter only with an alert. */
  lemma {:induction false} ExpectedIs(script: Script, attempt: nat)
    requires 1 <= attempt <= MAX_ATTEMPTS
    ensures Expected(script, attempt, Record) == 0
    ensures Expected(script, attempt, Delivery) + Expected(script, attempt, Alert) == 1
    ensures 1 <= Expected(script, attempt, Attempt) <= MAX_ATTEMPTS + 1 - attempt
    ensures Expected(script, attempt, Letter) == if script.letterOk then Expected(script, attempt, Alert) else 0
    decreases MAX_ATTEMPTS - attempt
  {
    if attempt < MAX_ATTEMPTS { ExpectedIs(script, attempt + 1); }
  }

  /** The delivery that decides: the first that works or fails for good, or the last. */
  predicate Decides(script: Script, k: nat) {
    1 <= k <= MAX_ATTEMPTS && AllTransient(script, k - 1) && (k == MAX_ATTEMPTS || !AllTransient(script, k))
  }

  /**
   * Up to the deciding delivery every attempt is made, none after it, and
   * what follows is its answer: delivered if it works, given up if it fails.
   */
  lemma {:induction false} DispatchIs(n: Notification, script: Script, attempt: nat, k: nat)
    requires 1 <= attempt <= k && Decides(script, k)
    ensures Dispatch(n, script, attempt) == Refusals(n, script, attempt, k)
      + match script.deliver(k)
        case None => [Delivered(n)]
        case Some(e) => [Refused(n, e)] + GiveUp(n, e, script.letterOk)
    decreases k - attempt
  {
    if attempt < k {
      DispatchIs(n, script, attempt + 1, k);
    } else if script.deliver(k).Some? {
      StopsAt(script, k);
    }
  }

  /** Some delivery decides, whatever the provider answers. */
  lemma {:induction false} SomeDeliveryDecides(script: Script, from: nat) returns (k: nat)
    requires 1 <= from <= 5 && AllTransient(script, from - 1)
    ensures from <= k && Decides(script, k)
    decreases 5 - from
  {
    k := from;
    if from < 5 && AllTransient(script, from) { k := SomeDeliveryDecides(script, from + 1); }
  }

  /** The failed attempts from one on, up to the deciding one. */
  function Refusals(n: Notification, script: Script, attempt: nat, k: nat): (es: seq<Effect>)
    requires 1 <= attempt <= k && AllTransient(script, k - 1)
    ensures |es| == k - attempt
    decreases k - attempt
  {
    if attempt == k then []
    else [Refused(n, script.deliver(attempt).value)] + Refusals(n, script, attempt + 1, k)
  }

  lemma {:induction false} StopsAt(script: Script, k: nat)
    requires Decides(script, k) && script.deliver(k).Some?
    ensures !(IsTransient(script.deliver(k).value) && k < MAX_ATTEMPTS)
  {
    assert IsTransient(script.deliver(k).value) ==> AllTransient(script, k);
  }

  /**
   * The number of attempts a dead letter reports is right if and only if the
   * first four deliveries failed transiently.
   */
  lemma {:induction false} LetterAttempts(n: Notification, script: Script)
    ensures LettersSay(Dispatch(n, script, 1), n, Count(Dispatch(n, script, 1), Attempt, Any()), AllTransient(script, MAX_ATTEMPTS - 1))
  {
    LettersAre(n, script, 1);
    DispatchCount(n, script, 1, Attempt, Any());
    AttemptsFrom(script, 1);
  }

  /** Every dead letter is about `n`, and its number of attempts is `made` exactly if it is `right`. */
  predicate LettersSay(es: seq<Effect>, n: Notification, made: nat, right: bool) {
    forall i :: 0 <= i < |es| && es[i].DeadLettered? ==>
      && (es[i].letter.attempts == made <==> right)
      && es[i].letter.notification == n && es[i].letter.isFinancial == IsFinancial(n)
  }

  predicate LettersOf(es: seq<Effect>, n: Notification) {
    forall i :: 0 <= i < |es| && es[i].DeadLettered? ==>
      es[i].letter.attempts == MAX_ATTEMPTS && es[i].letter.notification == n && es[i].letter.isFinancial == IsFinancial(n)
  }

  lemma {:induction false} LettersAre(n: Notification, script: Script, attempt: nat)
    requires 1 <= attempt <= MAX_ATTEMPTS
    ensures LettersOf(Dispatch(n, script, attempt), n)
    decreases MAX_ATTEMPTS - attempt
  {
    if attempt < MAX_ATTEMPTS { LettersAre(n, script, attempt + 1); }
  }

  /** A permanent failure at the first attempt: one delivery, and a letter that says five. */
  lemma {:induction false} PermanentFailureAtOnce(n: Notification, script: Script, e: Fault)
    requires script.deliver(1) == Some(e) && !IsTransient(e) && script.letterOk
    ensures Dispatch(n, script, 1)
      == [Refused(n, e), DeadLettered(DeadLetter(n, e.message, 5, IsFinancial(n))), Alerted(n, IsFinancial(n))]
    ensures Count(Dispatch(n, script, 1), Attempt, Any()) == 1
  {
    DispatchCount(n, script, 1, Attempt, Any());
  }

  lemma {:induction false} AttemptsFrom(script: Script, attempt: nat)
    requires 1 <= attempt <= MAX_ATTEMPTS && AllTransient(script, attempt - 1)
    ensures Expected(script, attempt, Attempt) == MAX_ATTEMPTS + 1 - attempt <==> AllTransient(script, MAX_ATTEMPTS - 1)
    decreases MAX_ATTEMPTS - attempt
  {
    if attempt < MAX_ATTEMPTS && script.deliver(attempt).Some? && IsTransient(script.deliver(attempt).value) {
      AttemptsFrom(script, attempt + 1);
    } else if attempt < MAX_ATTEMPTS {
      assert !AllTransient(script, MAX_ATTEMPTS - 1);
    }
  }

  // ---------------------------------------------------------------- runs

  datatype Sending = Sending(notification: Notification, script: Script)

  function Run(sends: seq<Sending>): System {
    if sends == [] then System([], [])
    else Send(Run(sends[..|sends| - 1]), sends[|sends| - 1].notification, sends[|sends| - 1].script).0
  }


  /**
   * Every recorded notification is either delivered or alerted about, never
   * both and never neither, after at most five attempts, whatever the
   * repository answers; dead letters are stored only for those given up.
   */
  lemma {:induction false} OneOutcomePerRecord(sends: seq<Sending>, p: Notification -> bool)
    ensures Balanced(Paging.Count(Run(sends).rows, p), Run(sends).effects, p)
  {
    if sends != [] {
      var k := |sends| - 1;
      var before := Run(sends[..k]);
      OneOutcomePerRecord(sends[..k], p);
      SendKeepsBalance(before, sends[k].notification, sends[k].script, p);
    }
  }

  lemma {:induction false} SendKeepsBalance(s: System, n: Notification, script: Script, p: Notification -> bool)
    requires Balanced(Paging.Count(s.rows, p), s.effects, p)
    ensures var s' := Send(s, n, script).0; Balanced(Paging.Count(s'.rows, p), s'.effects, p)
  {
    if Send(s, n, script).1 == Done {
      RowCount(s.rows, n, p);
      SendBalanced(Paging.Count(s.rows, p), s.effects, n, script, p);
    }
  }

  lemma {:induction false} RowCount(rows: seq<Notification>, n: Notification, p: Notification -> bool)
    ensures Paging.Count(rows + [n], p) == if p(n) then Paging.Count(rows, p) + 1 else Paging.Count(rows, p)
  {
    assert (rows + [n])[..|rows|] == rows;
  }

  /** As many outcomes as records, each after one to five attempts; letters only with alerts. */
  predicate Balanced(recorded: nat, effects: seq<Effect>, p: Notification -> bool) {
    && Count(effects, Record, p) == recorded
    && Count(effects, Delivery, p) + Count(effects, Alert, p) == recorded
    && recorded <= Count(effects, Attempt, p) <= MAX_ATTEMPTS * recorded
    && Count(effects, Letter, p) <= Count(effects, Alert, p)
  }

  lemma {:induction false} SendBalanced(recorded: nat, effects: seq<Effect>, n: Notification, script: Script, p: Notification -> bool)
    requires Balanced(recorded, effects, p)
    ensures Balanced(if p(n) then recorded + 1 else recorded, effects + [Recorded(n)] + Dispatch(n, script, 1), p)
  {
    ExpectedIs(script, 1);
    SendCount(effects, n, script, Record, p);
    SendCount(effects, n, script, Delivery, p);
    SendCount(effects, n, script, Attempt, p);
    SendCount(effects, n, script, Alert, p);
    SendCount(effects, n, script, Letter, p);
  }

  lemma {:induction false} SendCount(effects: seq<Effect>, n: Notification, script: Script, kind: Kind, p: Notification -> bool)
    ensures Count(effects + [Recorded(n)] + Dispatch(n, script, 1), kind, p)
      == Count(effects, kind, p) + if p(n) then (if kind == Record then 1 else 0) + Expected(script, 1, kind) else 0
  {
    CountConcat(effects, [Recorded(n)], kind, p);
    CountOne(Recorded(n), kind, p);
    CountConcat(effects + [Recorded(n)], Dispatch(n, script, 1), kind, p);
    DispatchCount(n, script, 1, kind, p);
  }

  /** Send `i` of the run was accepted. */
  ghost predicate Accepted(sends: seq<Sending>, i: nat) {
    i < |sends| && Send(Run(sends[..i]), sends[i].notification, sends[i].script).1 == Done
  }

  /** An earlier notification for this event was accepted. */
  ghost predicate SentBefore(sends: seq<Sending>, id: string) {
    exists i: nat :: Accepted(sends, i) && sends[i].notification.eventId == Some(id)
  }

  lemma {:induction false} AcceptedEarlier(sends: seq<Sending>, i: nat)
    requires i < |sends| - 1
    ensures Accepted(sends, i) <==> Accepted(sends[..|sends| - 1], i)
  {
    assert sends[..|sends| - 1][..i] == sends[..i];
  }

  lemma {:induction false} SentMore(sends: seq<Sending>, id: string)
    requires sends != []
    ensures var k := |sends| - 1;
      SentBefore(sends, id) <==> SentBefore(sends[..k], id) || (Accepted(sends, k) && sends[k].notification.eventId == Some(id))
  {
    var k := |sends| - 1;
    if SentBefore(sends[..k], id) {
      var i: nat :| Accepted(sends[..k], i) && sends[..k][i].notification.eventId == Some(id);
      AcceptedEarlier(sends, i);
      assert sends[i] == sends[..k][i];
    }
    if SentBefore(sends, id) {
      var i: nat :| Accepted(sends, i) && sends[i].notification.eventId == Some(id);
      if i < k {
        AcceptedEarlier(sends, i);
        assert sends[i] == sends[..k][i];
      }
    }
  }

  lemma {:induction false} ExistsIff(sends: seq<Sending>, id: string)
    ensures Exists(Run(sends).rows, id) <==> SentBefore(sends, id)
  {
    if sends != [] {
      var k := |sends| - 1;
      ExistsIff(sends[..k], id);
      SentMore(sends, id);
      ExistsMore(Run(sends[..k]).rows, sends[k].notification, id);
    }
  }

  lemma {:induction false} ExistsMore(rows: seq<Notification>, n: Notification, id: string)
    ensures Exists(rows + [n], id) <==> Exists(rows, id) || n.eventId == Some(id)
  {
    assert (rows + [n])[|rows|] == n;
    if Exists(rows, id) {
      var i :| 0 <= i < |rows| && rows[i].eventId == Some(id);
      assert (rows + [n])[i] == rows[i];
    }
  }

  /**
   * What a send is answered after any others: one for an event that was
   * accepted before is skipped; otherwise it is accepted, recorded and
   * dispatched if the repository works, and refused if it does not; an answer
   * other than accepted changes nothing.
   */
  lemma {:induction false} SendIff(sends: seq<Sending>, n: Notification, script: Script)
    ensures var s := Run(sends); var (s', reply) := Send(s, n, script);
      var hasEvent := n.eventId.Some? && n.eventId.value != "";
      var known := hasEvent && SentBefore(sends, n.eventId.value);
      && (reply == Skipped <==> known && script.lookupOk)
      && (reply == Done <==> (hasEvent ==> script.lookupOk) && !known && script.createOk)
      && (reply != Done ==> s' == s)
      && (reply == Done ==> s'.rows == s.rows + [n] && s'.effects == s.effects + [Recorded(n)] + Dispatch(n, script, 1))
  {
    if n.eventId.Some? { ExistsIff(sends, n.eventId.value); }
  }

  predicate IsEscrowStatus(n: Notification) {
    n.kind in {"escrow_funded", "escrow_released", "escrow_disputed"}
  }

  /** What is told of `n` when it is given up for this failure. */
  predicate SaysGivenUp(e: Effect, n: Notification, failure: Fault) {
    match e
    case Alerted(m, isFinancial) => m == n && isFinancial == IsEscrowStatus(n)
    case DeadLettered(letter) =>
      letter.notification == n && letter.reason == failure.message && letter.attempts == 5 && letter.isFinancial == IsEscrowStatus(n)
    case _ => false
  }

  /** Giving up stores a letter if that works, and raises an alert in any case, both about this notification and failure. */
  lemma {:induction false} GiveUpSays(n: Notification, failure: Fault, letterOk: bool)
    ensures var es := GiveUp(n, failure, letterOk);
      && |es| == (if letterOk then 2 else 1) && es[|es| - 1].Alerted? && (letterOk ==> es[0].DeadLettered?)
      && forall i :: 0 <= i < |es| ==> SaysGivenUp(es[i], n, failure)
  {}

  function WithEventId(id: string): Notification -> bool {
    (n: Notification) => n.eventId == Some(id)
  }

  lemma {:induction false} NotExists(rows: seq<Notification>, id: string)
    requires !Exists(rows, id)
    ensures Paging.Count(rows, WithEventId(id)) == 0
  {
    if rows != [] {
      assert !Exists(rows[..|rows| - 1], id);
      NotExists(rows[..|rows| - 1], id);
    }
  }

  lemma {:induction false} RecordedOnce(sends: seq<Sending>, id: string)
    requires id != ""
    ensures Paging.Count(Run(sends).rows, WithEventId(id)) <= 1
  {
    if sends != [] {
      var k := |sends| - 1;
      var before := Run(sends[..k]);
      var n, script := sends[k].notification, sends[k].script;
      RecordedOnce(sends[..k], id);
      if Send(before, n, script).1 == Done {
        assert (before.rows + [n])[..|before.rows|] == before.rows;
        if n.eventId == Some(id) { NotExists(before.rows, id); }
      }
    }
  }

  /**
   * However often an event is sent, it is recorded at most once, attempted at
   * most five times, and delivered or alerted about at most once in all.
   */
  lemma {:induction false} OncePerEvent(sends: seq<Sending>, id: string)
    requires id != ""
    ensures var effects := Run(sends).effects; var p := WithEventId(id);
      && Count(effects, Record, p) <= 1
      && Count(effects, Delivery, p) + Count(effects, Alert, p) == Count(effects, Record, p)
      && Count(effects, Attempt, p) <= MAX_ATTEMPTS
  {
    RecordedOnce(sends, id);
    OneOutcomePerRecord(sends, WithEventId(id));
  }
}
