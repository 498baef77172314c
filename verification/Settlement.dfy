/**
 Requests and the expiry settler over one budget service: a request reserves once, its stream
 settles it once, and the settler expires stale reservations at any moment in between.
 */
module Settlement {
  import opened Budget
  import opened Common
  import Config
  import Cost
  import SseFrames
  import StreamAccounting

  const ESTIMATE := 100

  datatype Request = Request(reservation: Id, settled: bool)

  datatype System = System(books: Books, requests: map<nat, Request>)

  const START := System(EMPTY, map[])

  datatype Action =
    | Admit(request: nat, id: Id, team: string, now: int)
    | Settle(request: nat, how: StreamAccounting.Settlement)
    | Lose(request: nat)        // the settlement's statement fails in the database; nobody tries again
    | Tick(cutoff: int)

  predicate Allowed(s: System, a: Action) {
    match a
    case Admit(request, id, _, _) => request !in s.requests && id !in s.books.rows
    case Settle(request, _) => request in s.requests && !s.requests[request].settled
    case Lose(request) => request in s.requests && !s.requests[request].settled
    case Tick(_) => true
  }

  /** The budget operation an action performs; its error result is ignored by the pipeline. */
  function Operation(s: System, a: Action): Op
    requires Allowed(s, a) && !a.Lose?
  {
    match a
    case Admit(_, id, team, now) => Reserve(id, team, ESTIMATE, now)
    case Settle(request, how) =>
      if how.ReleaseIt? then Release(s.requests[request].reservation)
      else Commit(s.requests[request].reservation, how.cents)
    case Tick(cutoff) => Expire(cutoff)
  }

  function Requests(s: System, a: Action): map<nat, Request>
    requires Allowed(s, a)
  {
    match a
    case Admit(request, id, _, _) => s.requests[request := Request(id, false)]
    case Settle(request, _) => s.requests[request := s.requests[request].(settled := true)]
    case Lose(request) => s.requests[request := s.requests[request].(settled := true)]
    case Tick(_) => s.requests
  }

  ghost function Next(s: System, a: Action): System
    requires Allowed(s, a)
  {
    System(if a.Lose? then s.books else Apply(s.books, Operation(s, a)), Requests(s, a))
  }

  // ------------------------------------------------------------------- invariants

  ghost predicate Owned(s: System) {
    && (forall q | q in s.requests :: s.requests[q].reservation in s.books.rows)
    && (forall p, q | p in s.requests && q in s.requests && s.requests[p].reservation == s.requests[q].reservation :: p == q)
  }

  /** An unsettled request's reservation is reserved or expired. */
  ghost predicate Tracked(s: System)
    requires Owned(s)
  {
    forall q | q in s.requests && !s.requests[q].settled ::
      var r := s.books.rows[s.requests[q].reservation];
      (r.state == Reserved || r.state == Expired) && r.actual.None?
  }

  predicate RowClean(r: Reservation) {
    && r.estimated == ESTIMATE
    && (r.state == Committed <==> r.actual.Some?)
  }

  ghost predicate Safe(s: System) {
    && Conserved(s.books)
    && Owned(s) && Tracked(s)
    && forall id | id in s.books.rows :: RowClean(s.books.rows[id])
  }

  lemma {:induction false} OperationEnabled(s: System, a: Action)
    requires Safe(s) && Allowed(s, a) && !a.Lose?
    ensures Enabled(s.books, Operation(s, a)) && Conserved(Next(s, a).books)
  {
    StepConserves(s.books, Operation(s, a));
  }

  /** A row no longer reserved is never touched again by any action: it left `reserved` for good. */
  lemma {:induction false} SettledRowsFrozen(s: System, a: Action, id: Id)
    requires Safe(s) && Allowed(s, a)
    requires id in s.books.rows && s.books.rows[id].state != Reserved
    ensures id in Next(s, a).books.rows && Next(s, a).books.rows[id] == s.books.rows[id]
  {
    if a.Settle? && s.requests[a.request].reservation == id {
      assert !Open(s.books.rows[id]);
    }
  }

  /** Settling after the settler expired the reservation changes no row and no counter. */
  lemma {:induction false} LateSettlementIsNoOp(s: System, a: Action)
    requires Safe(s) && Allowed(s, a) && a.Settle?
    requires s.books.rows[s.requests[a.request].reservation].state == Expired
    ensures Next(s, a).books == s.books
  {
  }

  lemma {:induction false} SafeStart()
    ensures Safe(START)
  {
    RunConserves([]);
  }

  lemma {:induction false} AdmitSafe(s: System, a: Action)
    requires Safe(s) && Allowed(s, a) && a.Admit?
    ensures Safe(Next(s, a))
  {
    OperationEnabled(s, a);
  }

  lemma {:induction false} SettleSafe(s: System, a: Action)
    requires Safe(s) && Allowed(s, a) && a.Settle?
    ensures Safe(Next(s, a))
  {
    OperationEnabled(s, a);
  }

  lemma {:induction false} TickRows(s: System, a: Action)
    requires a.Tick?
    ensures Next(s, a).books.rows.Keys == s.books.rows.Keys
    ensures forall id | id in s.books.rows :: Next(s, a).books.rows[id] == Aged(s.books.rows[id], a.cutoff)
  {
  }

  lemma {:induction false} TickSafe(s: System, a: Action)
    requires Safe(s) && Allowed(s, a) && a.Tick?
    ensures Safe(Next(s, a))
  {
    OperationEnabled(s, a);
    TickRows(s, a);
    var t := Next(s, a);
    assert t.requests == s.requests;
    forall id | id in t.books.rows ensures RowClean(t.books.rows[id]) { assert RowClean(s.books.rows[id]); }
  }

  lemma {:induction false} SafeStep(s: System, a: Action)
    requires Safe(s) && Allowed(s, a)
    ensures Safe(Next(s, a))
  {
    match a
    case Admit(_, _, _, _) => AdmitSafe(s, a);
    case Settle(_, _) => SettleSafe(s, a);
    case Lose(_) =>
    case Tick(_) => TickSafe(s, a);
  }

  // ------------------------------------------------------------------------- runs

  /** States reached one action after another. */
  ghost predicate IsRun(states: seq<System>, actions: seq<Action>) {
    && |states| == |actions| + 1
    && states[0] == START
    && forall i | 0 <= i < |actions| :: Allowed(states[i], actions[i]) && states[i + 1] == Next(states[i], actions[i])
  }

  lemma {:induction false} RunSafe(states: seq<System>, actions: seq<Action>, i: nat)
    requires IsRun(states, actions) && i < |states|
    ensures Safe(states[i])
  {
    if i == 0 {
      SafeStart();
    } else {
      RunSafe(states, actions, i - 1);
      SafeStep(states[i - 1], actions[i - 1]);
    }
  }

  /** In every interleaving a reservation, once settled or expired, keeps that row to the end. */
  lemma {:induction false} LeavesReservedOnce(states: seq<System>, actions: seq<Action>, i: nat, j: nat, id: Id)
    requires IsRun(states, actions) && i <= j < |states|
    requires id in states[i].books.rows && states[i].books.rows[id].state != Reserved
    ensures id in states[j].books.rows && states[j].books.rows[id] == states[i].books.rows[id]
    decreases j - i
  {
    if i < j {
      LeavesReservedOnce(states, actions, i, j - 1, id);
      RunSafe(states, actions, j - 1);
      FrozenAt(states, actions, j - 1, id);
    }
  }

  lemma {:induction false} FrozenAt(states: seq<System>, actions: seq<Action>, k: nat, id: Id)
    requires IsRun(states, actions) && k < |actions| && Safe(states[k])
    requires id in states[k].books.rows && states[k].books.rows[id].state != Reserved
    ensures id in states[k + 1].books.rows && states[k + 1].books.rows[id] == states[k].books.rows[id]
  {
    SettledRowsFrozen(states[k], actions[k], id);
  }

  // ------------------------------------------------------ the life of one reservation

  /** The action settles this request, or loses its settlement. */
  predicate Ends(a: Action, request: nat) { (a.Settle? || a.Lose?) && a.request == request }

  /** Between actions i and j a tick came whose cutoff lies after this moment. */
  ghost predicate TickedPast(actions: seq<Action>, i: nat, j: nat, now: int) {
    exists k :: i < k < j && k < |actions| && actions[k].Tick? && now < actions[k].cutoff
  }

  /** What one action does to the reservation of a request that it does not end. */
  lemma {:induction false} OthersLeave(s: System, a: Action, request: nat, id: Id)
    requires Safe(s) && Allowed(s, a) && !Ends(a, request)
    requires request in s.requests && s.requests[request] == Request(id, false)
    ensures var n := Next(s, a); var r := s.books.rows[id];
            && request in n.requests && n.requests[request] == Request(id, false) && id in n.books.rows
            && n.books.rows[id] ==
               if a.Tick? && r.state == Reserved && r.createdAt < a.cutoff then r.(state := Expired) else r
  {
    if a.Tick? { TickRows(s, a); }
  }

  /** Until its request ends, a reservation is as admitted, expired iff a tick came with a later cutoff. */
  lemma {:induction false} AsAdmitted(states: seq<System>, actions: seq<Action>, i: nat, j: nat, request: nat, id: Id, team: string, now: int)
    requires IsRun(states, actions) && i < j <= |actions| && actions[i] == Admit(request, id, team, now)
    requires forall k | i < k < j :: !Ends(actions[k], request)
    ensures var s := states[j];
            && request in s.requests && s.requests[request] == Request(id, false) && id in s.books.rows
            && s.books.rows[id] ==
               Reservation(team, ESTIMATE, None, if TickedPast(actions, i, j, now) then Expired else Reserved, now)
    decreases j
  {
    if j == i + 1 {
      assert Allowed(states[i], actions[i]) && states[i + 1] == Next(states[i], actions[i]);
    } else {
      AsAdmitted(states, actions, i, j - 1, request, id, team, now);
      RunSafe(states, actions, j - 1);
      OthersLeave(states[j - 1], actions[j - 1], request, id);
      TickedNext(actions, i, j - 1, now);
    }
  }

  lemma {:induction false} TickedNext(actions: seq<Action>, i: nat, j: nat, now: int)
    requires i < j < |actions|
    ensures TickedPast(actions, i, j + 1, now) <==>
            TickedPast(actions, i, j, now) || (actions[j].Tick? && now < actions[j].cutoff)
  {
    if k :| i < k < j && actions[k].Tick? && now < actions[k].cutoff { assert TickedPast(actions, i, j + 1, now); }
  }

  /** What settling a reservation that is still as admitted makes of it. */
  function Outcome(team: string, now: int, late: bool, how: StreamAccounting.Settlement): Reservation {
    if late then Reservation(team, ESTIMATE, None, Expired, now)
    else match how
      case CommitIt(cents) => Reservation(team, ESTIMATE, Some(cents), Committed, now)
      case ReleaseIt => Reservation(team, ESTIMATE, None, Released, now)
  }

  /**
   In every interleaving, from its settlement to the end, a request's reservation is committed with
   the cents settled or released, as the stream decided, unless a tick had come before with a cutoff
   after its admission; then it is expired and the settlement did nothing.
   */
  lemma {:induction false} SettledAs(states: seq<System>, actions: seq<Action>, i: nat, j: nat, m: nat,
                                     request: nat, id: Id, team: string, now: int)
    requires IsRun(states, actions) && i < j < m < |states| && actions[i] == Admit(request, id, team, now)
    requires actions[j].Settle? && actions[j].request == request && forall k | i < k < j :: !Ends(actions[k], request)
    ensures id in states[m].books.rows
    ensures states[m].books.rows[id] == Outcome(team, now, TickedPast(actions, i, j, now), actions[j].how)
  {
    AsAdmitted(states, actions, i, j, request, id, team, now);
    SettleStep(states[j], actions[j], id);
    LeavesReservedOnce(states, actions, j + 1, m, id);
  }

  lemma {:induction false} SettleStep(s: System, a: Action, id: Id)
    requires Allowed(s, a) && a.Settle? && s.requests[a.request].reservation == id && id in s.books.rows
    requires s.books.rows[id].state == Reserved || s.books.rows[id].state == Expired
    ensures var r, n := s.books.rows[id], Next(s, a).books.rows;
            id in n && n[id] ==
              if r.state == Expired then r
              else if a.how.CommitIt? then r.(actual := Some(a.how.cents), state := Committed)
              else r.(state := Released)
  {
  }

  /**
   From provider bytes to the table: in every interleaving a streamed request that no tick overtook
   ends committed for what the usage on all its lines costs iff every line was taken and the stream
   did not fail, and otherwise released.
   */
  lemma {:induction false} StreamAccounted(states: seq<System>, actions: seq<Action>, i: nat, j: nat, m: nat,
                                           request: nat, id: Id, team: string, now: int,
                                           body: SseFrames.Bytes, last: SseFrames.Status, accepts: Option<nat>,
                                           cfg: StreamAccounting.StreamConfig)
    requires IsRun(states, actions) && i < j < m < |states| && actions[i] == Admit(request, id, team, now)
    requires actions[j].Settle? && actions[j].request == request && forall k | i < k < j :: !Ends(actions[k], request)
    requires StreamAccounting.Settles(body, last, accepts, cfg, actions[j].how)
    requires !TickedPast(actions, i, j, now)
    ensures var lines := StreamAccounting.RawLines(body);
            var usage := StreamAccounting.Folded(StreamAccounting.Observations(lines), cfg.wire, cfg.decoder).usage;
            var whole := (accepts.Some? ==> |lines| <= accepts.value) && last != SseFrames.Failed;
            && id in states[m].books.rows
            && states[m].books.rows[id].state == (if whole then Committed else Released)
            && states[m].books.rows[id].actual ==
               (if whole then Some(Cost.Calculate(cfg.pricing, cfg.vendorId, cfg.model, usage).total) else None)
  {
    SettledAs(states, actions, i, j, m, request, id, team, now);
  }

  /**
   A lost settlement is made good by the settler: it changes no row, and a tick with a later cutoff
   then expires the row and gives back its estimate.
   */
  lemma {:induction false} LostIsExpired(s: System, request: nat, cutoff: int)
    requires Safe(s) && Allowed(s, Lose(request))
    ensures var id := s.requests[request].reservation; var lost := Next(s, Lose(request));
            var r := s.books.rows[id];
            && lost.books == s.books
            && (forall how :: !Allowed(lost, Settle(request, how))) && !Allowed(lost, Lose(request))
            && (r.state == Reserved && r.createdAt < cutoff ==>
                  && Next(lost, Tick(cutoff)).books.rows[id].state == Expired
                  && Cents(Sql(r.team), r) == ESTIMATE
                  && Cents(Sql(r.team), Next(lost, Tick(cutoff)).books.rows[id]) == 0)
  {
    var id := s.requests[request].reservation;
    assert RowClean(s.books.rows[id]);
  }

  /** In every interleaving the cached counter is the SQL sum: the drift is zero. */
  lemma {:induction false} CounterIsSql(states: seq<System>, actions: seq<Action>, i: nat, team: string)
    requires IsRun(states, actions) && i < |states|
    ensures Used(states[i].books, team) == SqlUsed(states[i].books.rows, team)
    ensures Drift(states[i].books.rows, team) == 0
  {
    RunSafe(states, actions, i);
    var rows := states[i].books.rows;
    TotalSum(rows, Counter(team), Sql(team), Leftover(team));
    forall id | id in rows ensures Cents(Leftover(team), rows[id]) == 0 { assert RowClean(rows[id]); }
    TotalZero(rows, Leftover(team));
  }

  // ---------------------------------------------------------------------- charges

  /** Action k commits these cents to this reservation. */
  ghost predicate CommitsAt(states: seq<System>, actions: seq<Action>, k: int, id: Id, cents: int) {
    && 0 <= k < |actions| && k < |states|
    && actions[k].Settle? && actions[k].how == StreamAccounting.CommitIt(cents)
    && actions[k].request in states[k].requests && states[k].requests[actions[k].request].reservation == id
  }

  lemma {:induction false} ActualStep(s: System, a: Action, id: Id)
    requires Safe(s) && Allowed(s, a) && id in Next(s, a).books.rows && Next(s, a).books.rows[id].actual.Some?
    ensures if id in s.books.rows && s.books.rows[id].actual.Some? then Next(s, a).books.rows[id] == s.books.rows[id]
            else && a.Settle? && s.requests[a.request].reservation == id
                 && a.how == StreamAccounting.CommitIt(Next(s, a).books.rows[id].actual.value)
  {
    if id in s.books.rows && s.books.rows[id].actual.Some? {
      assert RowClean(s.books.rows[id]);
      SettledRowsFrozen(s, a, id);
    }
  }

  /** Every actual amount in the table was committed by an earlier action. */
  lemma {:induction false} ActualOrigin(states: seq<System>, actions: seq<Action>, i: nat, id: Id) returns (k: nat)
    requires IsRun(states, actions) && i < |states|
    requires id in states[i].books.rows && states[i].books.rows[id].actual.Some?
    ensures k < i && CommitsAt(states, actions, k, id, states[i].books.rows[id].actual.value)
  {
    var s, a := states[i - 1], actions[i - 1];
    RunSafe(states, actions, i - 1);
    ActualStep(s, a, id);
    if id in s.books.rows && s.books.rows[id].actual.Some? {
      k := ActualOrigin(states, actions, i - 1, id);
    } else {
      k := i - 1;
    }
  }

  /** Every committed charge satisfies p. */
  ghost predicate ChargesSatisfy(actions: seq<Action>, p: int -> bool) {
    forall i | 0 <= i < |actions| :: actions[i].Settle? && actions[i].how.CommitIt? ==> p(actions[i].how.cents)
  }

  ghost predicate NeverNegative(states: seq<System>) {
    forall i, team | 0 <= i < |states| :: Used(states[i].books, team) >= 0
  }

  /** With non-negative charges no counter goes negative, in any interleaving. */
  lemma {:induction false} CounterNonNegative(states: seq<System>, actions: seq<Action>, i: nat, team: string)
    requires IsRun(states, actions) && i < |states| && ChargesSatisfy(actions, c => c >= 0)
    ensures Used(states[i].books, team) >= 0
  {
    CounterIsSql(states, actions, i, team);
    RunSafe(states, actions, i);
    var rows := states[i].books.rows;
    forall id | id in rows ensures Cents(Sql(team), rows[id]) >= 0 {
      assert RowClean(rows[id]);
      if rows[id].actual.Some? { var k := ActualOrigin(states, actions, i, id); }
    }
    TotalNonNegative(rows, Sql(team));
  }

  /** A negative charge does reach the counter: one request, one commit. */
  lemma {:induction false} NegativeChargeShows(c: int) returns (states: seq<System>, actions: seq<Action>)
    requires c < 0
    ensures IsRun(states, actions) && ChargesSatisfy(actions, x => x == c) && !NeverNegative(states)
  {
    var a, b := Admit(0, 0, "t", 0), Settle(0, StreamAccounting.CommitIt(c));
    var s1 := Next(START, a);
    var s2 := Next(s1, b);
    states, actions := [START, s1, s2], [a, b];
    assert states[2] == s2 && Used(s2.books, "t") == c;
  }

  /**
   Whatever charges are possible: no counter is ever negative, in any interleaving, iff no
   possible charge is negative.
   */
  lemma {:induction false} CounterNonNegativeIff(p: int -> bool)
    ensures (forall states, actions | IsRun(states, actions) && ChargesSatisfy(actions, p) :: NeverNegative(states))
            <==> forall c | p(c) :: c >= 0
  {
    if forall c | p(c) :: c >= 0 {
      forall states: seq<System>, actions: seq<Action> | IsRun(states, actions) && ChargesSatisfy(actions, p)
        ensures NeverNegative(states)
      {
        forall i: nat, team: string | i < |states| ensures Used(states[i].books, team) >= 0 {
          CounterNonNegative(states, actions, i, team);
        }
      }
    } else {
      var c :| p(c) && c < 0;
      var states, actions := NegativeChargeShows(c);
      assert ChargesSatisfy(actions, p);
    }
  }

  /**
   From provider bytes to counters: with an accepted pricing table no counter is ever negative, in
   any interleaving of any streams, iff no count on a data line decodes to a negative number.
   */
  lemma {:induction false} StreamsKeepCountersNonNegativeIff(wire: string, d: StreamAccounting.Decoder)
    ensures (forall states, actions | IsRun(states, actions) && ChargesSatisfy(actions, StreamCharge(wire, d)) ::
               NeverNegative(states))
            <==> StreamAccounting.DecodesNonNegative(wire, d)
  {
    CounterNonNegativeIff(StreamCharge(wire, d));
    StreamAccounting.ChargesNonNegativeIff(wire, d);
    assert forall c :: StreamCharge(wire, d)(c) <==> StreamAccounting.Charges(wire, d, c);
  }

  ghost function StreamCharge(wire: string, d: StreamAccounting.Decoder): int -> bool {
    c => StreamAccounting.Charges(wire, d, c)
  }

  // ------------------------------------------------------------- counters and exact cost

  ghost predicate BillOk(bills: map<Id, Cost.Billed>, id: Id, cents: int) {
    && id in bills
    && Config.RowValid(bills[id].row) && Cost.NonNegativeUsage(bills[id].usage)
    && cents == Cost.Priced(bills[id].row, bills[id].usage).total
  }

  /** Every commit charges what its reservation's bill comes to. */
  ghost predicate ChargesBills(states: seq<System>, actions: seq<Action>, bills: map<Id, Cost.Billed>) {
    forall k, id, cents | CommitsAt(states, actions, k, id, cents) :: BillOk(bills, id, cents)
  }

  /** What a team's open rows cost exactly, committed ones by their bill, and how many are committed. */
  ghost function ExactUsed(rows: Rows, team: string, bills: map<Id, Cost.Billed>): (real, nat) {
    if rows == map[] then (0.0, 0)
    else
      var id :| id in rows;
      WithRow(ExactUsed(rows - {id}, team, bills), id, rows[id], team, bills)
  }

  ghost function WithRow(acc: (real, nat), id: Id, r: Reservation, team: string, bills: map<Id, Cost.Billed>): (real, nat) {
    if r.team == team && r.state == Committed && id in bills
    then (acc.0 + Cost.Exact(bills[id].row, bills[id].usage), acc.1 + 1)
    else (acc.0 + Cents(Sql(team), r) as real, acc.1)
  }

  /** The cost is at least this many cents, and more by less than one cent per committed row. */
  ghost predicate WithinCents(acc: (real, nat), cents: int) {
    cents as real <= acc.0 && (if acc.1 == 0 then acc.0 == cents as real else acc.0 < (cents + acc.1) as real)
  }

  lemma {:induction false} WithRowBound(acc: (real, nat), cents: int, id: Id, r: Reservation, team: string, bills: map<Id, Cost.Billed>)
    requires WithinCents(acc, cents)
    requires r.state == Committed ==> r.actual.Some? && BillOk(bills, id, r.actual.value)
    ensures WithinCents(WithRow(acc, id, r, team, bills), Cents(Sql(team), r) + cents)
  {
    if r.state == Committed {
      var b := bills[id];
      Cost.ExactNonNegative(b.row, b.usage);
      Cost.TruncFacts(Cost.Exact(b.row, b.usage));
      assert Cost.Priced(b.row, b.usage).total == Cost.Trunc(Cost.Exact(b.row, b.usage));
    }
  }

  lemma {:induction false} ExactUsedBound(rows: Rows, team: string, bills: map<Id, Cost.Billed>)
    requires forall id | id in rows && rows[id].state == Committed :: rows[id].actual.Some? && BillOk(bills, id, rows[id].actual.value)
    ensures WithinCents(ExactUsed(rows, team, bills), SqlUsed(rows, team))
    decreases |rows|
  {
    if rows != map[] {
      var id :| id in rows &&
        ExactUsed(rows, team, bills) == WithRow(ExactUsed(rows - {id}, team, bills), id, rows[id], team, bills);
      ExactUsedBound(rows - {id}, team, bills);
      TotalRemove(rows, id, Sql(team));
      WithRowBound(ExactUsed(rows - {id}, team, bills), SqlUsed(rows - {id}, team), id, rows[id], team, bills);
    }
  }

  /**
   In every interleaving whose commits charge priced usage, a team's counter never exceeds the
   exact cost of its open rows and falls short of it by less than one cent per committed request.
   */
  lemma {:induction false} CounterTracksExactCost(states: seq<System>, actions: seq<Action>, bills: map<Id, Cost.Billed>, i: nat, team: string)
    requires IsRun(states, actions) && i < |states| && ChargesBills(states, actions, bills)
    ensures WithinCents(ExactUsed(states[i].books.rows, team, bills), Used(states[i].books, team))
  {
    CounterIsSql(states, actions, i, team);
    RunSafe(states, actions, i);
    var rows := states[i].books.rows;
    forall id | id in rows && rows[id].state == Committed
      ensures rows[id].actual.Some? && BillOk(bills, id, rows[id].actual.value)
    {
      assert RowClean(rows[id]);
      var k := ActualOrigin(states, actions, i, id);
    }
    ExactUsedBound(rows, team, bills);
  }
}
