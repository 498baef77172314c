/** Budget reservations: the in-memory service with its cached counters, and the SQL service it mirrors. */
module Budget {
  import opened Common

  type Id = nat

  datatype State = Reserved | Committed | Released | Expired

  datatype Reservation = Reservation(
    team: string, estimated: int, actual: Option<int>, state: State, createdAt: int)

  type Rows = map<Id, Reservation>

  /** `used` is the cached counter per team. */
  datatype Books = Books(rows: Rows, used: map<string, int>)

  const EMPTY := Books(map[], map[])

  function Used(b: Books, team: string): int { if team in b.used then b.used[team] else 0 }

  function Add(used: map<string, int>, team: string, cents: int): map<string, int> {
    used[team := (if team in used then used[team] else 0) + cents]
  }

  // ------------------------------------------------------------------ operations

  datatype Op =
    | Reserve(id: Id, team: string, cents: int, now: int)
    | Commit(id: Id, cents: int)
    | Release(id: Id)
    | Expire(cutoff: int)

  /** Reservation ids are fresh UUIDs. */
  predicate Enabled(b: Books, op: Op) { op.Reserve? ==> op.id !in b.rows }

  predicate Stale(r: Reservation, cutoff: int) { r.state == Reserved && r.createdAt < cutoff }

  function Aged(r: Reservation, cutoff: int): Reservation {
    if Stale(r, cutoff) then r.(state := Expired) else r
  }

  function AgedRows(rows: Rows, cutoff: int): Rows { map id | id in rows :: Aged(rows[id], cutoff) }

  predicate Open(r: Reservation) { r.state == Reserved || r.state == Committed }

  /** One operation of the in-memory service. */
  ghost function Apply(b: Books, op: Op): Books {
    match op
    case Reserve(id, team, cents, now) =>
      Books(b.rows[id := Reservation(team, cents, None, Reserved, now)], Add(b.used, team, cents))
    case Commit(id, cents) =>
      if id in b.rows && b.rows[id].state == Reserved then
        var r := b.rows[id];
        Books(b.rows[id := r.(actual := Some(cents), state := Committed)],
              Add(Add(b.used, r.team, -r.estimated), r.team, cents))
      else b
    case Release(id) =>
      if id in b.rows && Open(b.rows[id]) then
        var r := b.rows[id];
        Books(b.rows[id := r.(state := Released)], Add(b.used, r.team, -r.estimated))
      else b
    case Expire(cutoff) =>
      Books(AgedRows(b.rows, cutoff),
            map t | t in b.used :: b.used[t] - Total(b.rows, Aging(t, cutoff)))
  }

  // --------------------------------------------------------------- sums over rows

  /** What a sum over the table adds up, for one team. */
  datatype Measure =
    | Sql(team: string)                    // actual cents, else the estimate, while reserved or committed
    | Leftover(team: string)               // what releasing a committed row leaves in the counter
    | Counter(team: string)                // both together
    | Aging(team: string, cutoff: int)     // estimates about to expire
    | AfterExpiry(team: string, cutoff: int)

  function SqlCents(r: Reservation): int {
    if !Open(r) then 0 else if r.actual.Some? then r.actual.value else r.estimated
  }

  function LeftoverCents(r: Reservation): int {
    if r.state == Released && r.actual.Some? then r.actual.value - r.estimated else 0
  }

  function Cents(m: Measure, r: Reservation): int {
    if r.team != m.team then 0
    else match m
      case Sql(_) => SqlCents(r)
      case Leftover(_) => LeftoverCents(r)
      case Counter(_) => SqlCents(r) + LeftoverCents(r)
      case Aging(_, cutoff) => if Stale(r, cutoff) then r.estimated else 0
      case AfterExpiry(_, cutoff) => SqlCents(Aged(r, cutoff)) + LeftoverCents(Aged(r, cutoff))
  }

  ghost function Total(rows: Rows, f: Measure): int {
    if rows == map[] then 0
    else
      var id :| id in rows;
      Cents(f, rows[id]) + Total(rows - {id}, f)
  }

  lemma {:induction false} TotalRemove(rows: Rows, id: Id, f: Measure)
    requires id in rows
    ensures Total(rows, f) == Cents(f, rows[id]) + Total(rows - {id}, f)
    decreases |rows|
  {
    var k :| k in rows && Total(rows, f) == Cents(f, rows[k]) + Total(rows - {k}, f);
    if k != id {
      TotalRemove(rows - {k}, id, f);
      TotalRemove(rows - {id}, k, f);
      assert rows - {k} - {id} == rows - {id} - {k};
    }
  }

  lemma {:induction false} TotalPut(rows: Rows, id: Id, r: Reservation, f: Measure)
    ensures Total(rows[id := r], f) ==
            Total(rows, f) - (if id in rows then Cents(f, rows[id]) else 0) + Cents(f, r)
  {
    var more := rows[id := r];
    TotalRemove(more, id, f);
    assert more - {id} == rows - {id};
    if id in rows { TotalRemove(rows, id, f); } else { assert rows - {id} == rows; }
  }

  lemma {:induction false} TotalSum(rows: Rows, f: Measure, g: Measure, h: Measure)
    requires forall id | id in rows :: Cents(f, rows[id]) == Cents(g, rows[id]) + Cents(h, rows[id])
    ensures Total(rows, f) == Total(rows, g) + Total(rows, h)
    decreases |rows|
  {
    if rows != map[] {
      var id :| id in rows;
      TotalRemove(rows, id, f);
      TotalRemove(rows, id, g);
      TotalRemove(rows, id, h);
      TotalSum(rows - {id}, f, g, h);
    }
  }

  lemma {:induction false} TotalAged(rows: Rows, cutoff: int, f: Measure, g: Measure)
    requires forall id | id in rows :: Cents(f, Aged(rows[id], cutoff)) == Cents(g, rows[id])
    ensures Total(AgedRows(rows, cutoff), f) == Total(rows, g)
    decreases |rows|
  {
    if rows != map[] {
      var id :| id in rows;
      TotalAged(rows - {id}, cutoff, f, g);
      AgedWithout(rows, id, cutoff);
      TotalRemove(AgedRows(rows, cutoff), id, f);
      TotalRemove(rows, id, g);
    } else {
      assert AgedRows(rows, cutoff) == map[];
    }
  }

  lemma {:induction false} AgedWithout(rows: Rows, id: Id, cutoff: int)
    requires id in rows
    ensures AgedRows(rows, cutoff) - {id} == AgedRows(rows - {id}, cutoff)
    ensures id in AgedRows(rows, cutoff) && AgedRows(rows, cutoff)[id] == Aged(rows[id], cutoff)
  {
  }

  lemma {:induction false} TotalZero(rows: Rows, f: Measure)
    requires forall id | id in rows :: Cents(f, rows[id]) == 0
    ensures Total(rows, f) == 0
    decreases |rows|
  {
    if rows != map[] {
      var id :| id in rows;
      TotalRemove(rows, id, f);
      TotalZero(rows - {id}, f);
    }
  }

  lemma {:induction false} TotalNonNegative(rows: Rows, f: Measure)
    requires forall id | id in rows :: Cents(f, rows[id]) >= 0
    ensures Total(rows, f) >= 0
    decreases |rows|
  {
    if rows != map[] {
      var id :| id in rows;
      TotalRemove(rows, id, f);
      TotalNonNegative(rows - {id}, f);
    }
  }

  // ------------------------------------------------------------------ conservation

  /** What the SQL service sums: actual cents, else the estimate, over reserved and committed rows. */
  ghost function SqlUsed(rows: Rows, team: string): int { Total(rows, Sql(team)) }

  ghost function Drift(rows: Rows, team: string): int { Total(rows, Leftover(team)) }

  predicate WellFormed(r: Reservation) {
    match r.state
    case Reserved => r.actual.None?
    case Committed => r.actual.Some?
    case Released => true
    case Expired => r.actual.None?
  }

  ghost predicate RowsOk(b: Books) {
    && (forall id | id in b.rows :: WellFormed(b.rows[id]))
    && (forall id | id in b.rows :: b.rows[id].team in b.used)
  }

  ghost predicate Conserved(b: Books) {
    RowsOk(b) && forall t :: Used(b, t) == Total(b.rows, Counter(t))
  }

  lemma {:induction false} UsedAdd(b: Books, rows: Rows, team: string, cents: int, t: string)
    ensures Used(Books(rows, Add(b.used, team, cents)), t) == Used(b, t) + (if t == team then cents else 0)
  {
  }

  lemma {:induction false} ReserveConserves(b: Books, op: Op)
    requires op.Reserve? && Conserved(b) && Enabled(b, op)
    ensures Conserved(Apply(b, op))
  {
    var r := Reservation(op.team, op.cents, None, Reserved, op.now);
    forall t ensures Used(Apply(b, op), t) == Total(Apply(b, op).rows, Counter(t)) {
      TotalPut(b.rows, op.id, r, Counter(t));
      UsedAdd(b, Apply(b, op).rows, op.team, op.cents, t);
    }
  }

  lemma {:induction false} CommitConserves(b: Books, op: Op)
    requires op.Commit? && Conserved(b)
    ensures Conserved(Apply(b, op))
  {
    if op.id in b.rows && b.rows[op.id].state == Reserved {
      var r := b.rows[op.id];
      forall t ensures Used(Apply(b, op), t) == Total(Apply(b, op).rows, Counter(t)) {
        TotalPut(b.rows, op.id, r.(actual := Some(op.cents), state := Committed), Counter(t));
      }
    }
  }

  lemma {:induction false} ReleaseConserves(b: Books, op: Op)
    requires op.Release? && Conserved(b)
    ensures Conserved(Apply(b, op))
  {
    if op.id in b.rows && Open(b.rows[op.id]) {
      var r := b.rows[op.id];
      forall t ensures Used(Apply(b, op), t) == Total(Apply(b, op).rows, Counter(t)) {
        TotalPut(b.rows, op.id, r.(state := Released), Counter(t));
      }
    }
  }

  lemma {:induction false} ExpireTotal(rows: Rows, cutoff: int, t: string)
    requires forall id | id in rows :: WellFormed(rows[id])
    ensures Total(AgedRows(rows, cutoff), Counter(t)) ==
            Total(rows, Counter(t)) - Total(rows, Aging(t, cutoff))
  {
    var g := AfterExpiry(t, cutoff);
    forall id | id in rows ensures Cents(Counter(t), rows[id]) == Cents(g, rows[id]) + Cents(Aging(t, cutoff), rows[id]) {
      assert WellFormed(rows[id]);
    }
    TotalAged(rows, cutoff, Counter(t), g);
    TotalSum(rows, Counter(t), g, Aging(t, cutoff));
  }

  lemma {:induction false} ExpireConserves(b: Books, op: Op)
    requires op.Expire? && Conserved(b)
    ensures Conserved(Apply(b, op))
  {
    forall t ensures Used(Apply(b, op), t) == Total(Apply(b, op).rows, Counter(t)) {
      ExpireTotal(b.rows, op.cutoff, t);
      if t !in b.used { TotalZero(b.rows, Aging(t, op.cutoff)); }
    }
  }

  lemma {:induction false} StepConserves(b: Books, op: Op)
    requires Conserved(b) && Enabled(b, op)
    ensures Conserved(Apply(b, op))
  {
    match op
    case Reserve(_, _, _, _) => ReserveConserves(b, op);
    case Commit(_, _) => CommitConserves(b, op);
    case Release(_) => ReleaseConserves(b, op);
    case Expire(_) => ExpireConserves(b, op);
  }

  /** The books after a run of operations on a new service. */
  ghost function Run(ops: seq<Op>): Books {
    if ops == [] then EMPTY else Apply(Run(ops[..|ops| - 1]), ops[|ops| - 1])
  }

  ghost predicate Runnable(ops: seq<Op>) {
    forall i | 0 <= i < |ops| :: Enabled(Run(ops[..i]), ops[i])
  }

  lemma {:induction false} RunConserves(ops: seq<Op>)
    requires Runnable(ops)
    ensures Conserved(Run(ops))
    decreases |ops|
  {
    if ops == [] {
      forall t ensures Used(EMPTY, t) == Total(EMPTY.rows, Counter(t)) {}
    } else {
      var n := |ops| - 1;
      assert forall i | 0 <= i < n :: ops[..n][..i] == ops[..i] && ops[..n][i] == ops[i];
      RunConserves(ops[..n]);
      StepConserves(Run(ops[..n]), ops[n]);
    }
  }

  /**
   After every run of operations the cached counter of every team is the SQL sum plus the drift
   of the rows released after they were committed.
   */
  lemma {:induction false} UsedIsSqlPlusDrift(ops: seq<Op>, team: string)
    requires Runnable(ops)
    ensures Used(Run(ops), team) == SqlUsed(Run(ops).rows, team) + Drift(Run(ops).rows, team)
  {
    RunConserves(ops);
    TotalSum(Run(ops).rows, Counter(team), Sql(team), Leftover(team));
  }

  /** What an operation adds to a team's drift: actual minus estimate of a committed row it releases. */
  function Skew(b: Books, op: Op, team: string): int {
    if op.Release? && op.id in b.rows && b.rows[op.id].state == Committed && b.rows[op.id].team == team
       && b.rows[op.id].actual.Some?
    then b.rows[op.id].actual.value - b.rows[op.id].estimated else 0
  }

  lemma {:induction false} DriftStep(b: Books, op: Op, team: string)
    requires RowsOk(b) && Enabled(b, op)
    ensures Drift(Apply(b, op).rows, team) == Drift(b.rows, team) + Skew(b, op, team)
  {
    match op
    case Reserve(id, t, cents, now) => TotalPut(b.rows, id, Reservation(t, cents, None, Reserved, now), Leftover(team));
    case Commit(id, cents) =>
      if id in b.rows && b.rows[id].state == Reserved {
        TotalPut(b.rows, id, b.rows[id].(actual := Some(cents), state := Committed), Leftover(team));
      }
    case Release(id) =>
      if id in b.rows && Open(b.rows[id]) {
        assert WellFormed(b.rows[id]);
        TotalPut(b.rows, id, b.rows[id].(state := Released), Leftover(team));
      }
    case Expire(cutoff) => TotalAged(b.rows, cutoff, Leftover(team), Leftover(team));
  }

  /** The counter of every team is the SQL sum. */
  ghost predicate Agrees(b: Books) { forall t :: Used(b, t) == SqlUsed(b.rows, t) }

  /** The operation releases a committed row whose actual cost was not its estimate. */
  predicate Skews(b: Books, op: Op) {
    op.Release? && op.id in b.rows && b.rows[op.id].state == Committed
    && b.rows[op.id].actual != Some(b.rows[op.id].estimated)
  }

  lemma {:induction false} DriftIs(b: Books, team: string)
    requires Conserved(b)
    ensures Used(b, team) == SqlUsed(b.rows, team) + Drift(b.rows, team)
  {
    TotalSum(b.rows, Counter(team), Sql(team), Leftover(team));
  }

  /** An operation keeps counter and SQL sum equal iff it is not such a release. */
  lemma {:induction false} AgreementStepIff(b: Books, op: Op)
    requires Conserved(b) && Enabled(b, op) && Agrees(b)
    ensures Agrees(Apply(b, op)) <==> !Skews(b, op)
  {
    StepConserves(b, op);
    forall t ensures Used(Apply(b, op), t) == SqlUsed(Apply(b, op).rows, t) + Skew(b, op, t) {
      DriftIs(b, t);
      DriftIs(Apply(b, op), t);
      DriftStep(b, op, t);
    }
    if Skews(b, op) {
      assert WellFormed(b.rows[op.id]);
      assert Skew(b, op, b.rows[op.id].team) != 0;
    }
  }

  lemma {:induction false} PrefixRun(ops: seq<Op>, i: nat)
    requires Runnable(ops) && i < |ops|
    ensures Conserved(Run(ops[..i])) && Enabled(Run(ops[..i]), ops[i])
    ensures Run(ops[..i + 1]) == Apply(Run(ops[..i]), ops[i])
  {
    PrefixRunnable(ops, i);
    RunConserves(ops[..i]);
    assert ops[..i + 1][..i] == ops[..i];
  }

  lemma {:induction false} PrefixRunnable(ops: seq<Op>, i: nat)
    requires Runnable(ops) && i <= |ops|
    ensures Runnable(ops[..i])
  {
    forall k | 0 <= k < i ensures Enabled(Run(ops[..i][..k]), ops[..i][k]) {
      assert ops[..i][..k] == ops[..k] && ops[..i][k] == ops[k];
    }
  }

  lemma {:induction false} AgreesAlong(ops: seq<Op>, i: nat)
    requires Runnable(ops) && i <= |ops|
    requires forall k | 0 <= k < |ops| :: !Skews(Run(ops[..k]), ops[k])
    ensures Agrees(Run(ops[..i]))
  {
    if i > 0 {
      AgreesAlong(ops, i - 1);
      PrefixRun(ops, i - 1);
      AgreementStepIff(Run(ops[..i - 1]), ops[i - 1]);
    }
  }

  /** Over every run: counter and SQL sum agree all along iff no operation of it is such a release. */
  lemma {:induction false} AgreementIff(ops: seq<Op>)
    requires Runnable(ops)
    ensures (forall i | 0 <= i <= |ops| :: Agrees(Run(ops[..i]))) <==>
            (forall i | 0 <= i < |ops| :: !Skews(Run(ops[..i]), ops[i]))
  {
    if forall i | 0 <= i <= |ops| :: Agrees(Run(ops[..i])) {
      forall i | 0 <= i < |ops| ensures !Skews(Run(ops[..i]), ops[i]) {
        PrefixRun(ops, i);
        AgreementStepIff(Run(ops[..i]), ops[i]);
      }
    }
    if forall i | 0 <= i < |ops| :: !Skews(Run(ops[..i]), ops[i]) {
      forall i | 0 <= i <= |ops| ensures Agrees(Run(ops[..i])) { AgreesAlong(ops, i); }
    }
  }

  /** Reserve 100, commit 60, release: the counter is -40 and the SQL sum 0. */
  lemma {:induction false} DriftShows()
    ensures var ops := [Reserve(0, "t", 100, 0), Commit(0, 60), Release(0)];
            Runnable(ops) && Used(Run(ops), "t") == -40 && SqlUsed(Run(ops).rows, "t") == 0
  {
    var a, b, c := Reserve(0, "t", 100, 0), Commit(0, 60), Release(0);
    var ops := [a, b, c];
    assert ops[..0] == [] && ops[..1] == [a] && ops[..2] == [a, b];
    assert [a, b][..1] == [a] && [a][..0] == [];
    assert Run([a]) == Apply(EMPTY, a) && Run([a, b]) == Apply(Run([a]), b) && Run(ops) == Apply(Run([a, b]), c);
    var r := Reservation("t", 100, Some(60), Released, 0);
    assert Run(ops).rows == map[0 := r];
    TotalPut(map[], 0, r, Sql("t"));
    assert map[][0 := r] == map[0 := r];
  }

  // ------------------------------------------------------------------- SQL service

  /** The table after the statement the SQL service issues for the operation. */
  function SqlRows(rows: Rows, op: Op): Rows {
    match op
    case Reserve(id, team, cents, now) => rows + map[id := Reservation(team, cents, None, Reserved, now)]
    case Commit(id, cents) =>
      map k | k in rows ::
        (if k == id && rows[k].state == Reserved then rows[k].(state := Committed, actual := Some(cents)) else rows[k])
    case Release(id) =>
      map k | k in rows ::
        (if k == id && rows[k].state != Released && rows[k].state != Expired then rows[k].(state := Released) else rows[k])
    case Expire(cutoff) =>
      map k | k in rows ::
        (if rows[k].state == Reserved && rows[k].createdAt < cutoff then rows[k].(state := Expired) else rows[k])
  }

  /** The in-memory service reports success. */
  predicate MemoryOk(rows: Rows, op: Op) {
    match op
    case Commit(id, _) => id in rows && rows[id].state == Reserved
    case Release(id) => id in rows
    case _ => true
  }

  /** The SQL service does: a commit counts the rows its statement changed, a release does not. */
  predicate SqlOk(rows: Rows, op: Op) {
    op.Commit? ==> exists id :: id in rows && id == op.id && rows[id].state == Reserved
  }

  /** Both services keep the same rows; their answers differ only on releasing an unknown id. */
  lemma {:induction false} ServicesAgree(b: Books, op: Op)
    ensures Apply(b, op).rows == SqlRows(b.rows, op)
    ensures (MemoryOk(b.rows, op) <==> SqlOk(b.rows, op)) <==> !(op.Release? && op.id !in b.rows)
  {
  }

  // ------------------------------------------------------------- in-memory service

  class Service {
    var rows: Rows
    var teams: map<string, int>
    var used: map<string, int>

    ghost function Now(): Books
      reads this
    {
      Books(rows, used)
    }

    constructor ()
      ensures Now() == EMPTY && teams == map[] && Conserved(Now())
    {
      rows, teams, used := map[], map[], map[];
      new;
      RunConserves([]);
    }

    method SetTeamCap(team: string, cap: int)
      modifies this`teams
      ensures teams == old(teams)[team := cap]
    {
      teams := teams[team := cap];
    }

    /** Never refuses; alerts when the team has used at least 80% of a positive cap. */
    method Reserve(id: Id, team: string, cents: int, now: int) returns (alert: bool)
      requires id !in rows && Conserved(Now())
      modifies this`rows, this`used
      ensures Now() == Apply(old(Now()), Op.Reserve(id, team, cents, now)) && Conserved(Now())
      ensures alert <==> team in teams && teams[team] > 0 && Used(Now(), team) * 100 >= teams[team] * 80
    {
      ReserveConserves(Now(), Op.Reserve(id, team, cents, now));
      rows := rows[id := Reservation(team, cents, None, Reserved, now)];
      used := Add(used, team, cents);
      alert := false;
      if team in teams && teams[team] > 0 {
        PercentOfCap(used[team] * 100, teams[team]);
        alert := TruncDiv(used[team] * 100, teams[team]) >= 80;
      }
    }

    method Commit(id: Id, cents: int) returns (ok: bool)
      requires Conserved(Now())
      modifies this`rows, this`used
      ensures Now() == Apply(old(Now()), Op.Commit(id, cents)) && Conserved(Now())
      ensures ok <==> id in old(rows) && old(rows)[id].state == Reserved
    {
      CommitConserves(Now(), Op.Commit(id, cents));
      if id !in rows { return false; }
      var r := rows[id];
      if r.state != Reserved { return false; }
      used := Add(used, r.team, -r.estimated);
      used := Add(used, r.team, cents);
      rows := rows[id := r.(actual := Some(cents), state := Committed)];
      return true;
    }

    method Release(id: Id) returns (ok: bool)
      requires Conserved(Now())
      modifies this`rows, this`used
      ensures Now() == Apply(old(Now()), Op.Release(id)) && Conserved(Now())
      ensures ok <==> id in old(rows)
    {
      ReleaseConserves(Now(), Op.Release(id));
      if id !in rows { return false; }
      var r := rows[id];
      if r.state == Released || r.state == Expired { return true; }
      used := Add(used, r.team, -r.estimated);
      rows := rows[id := r.(state := Released)];
      return true;
    }

    /** One iteration of the expiry scan. */
    method ExpireRow(id: Id, cutoff: int, ghost start: Books, ghost pending: set<Id>) returns (stale: bool)
      requires RowsOk(start) && id in pending && id in start.rows
      requires rows == PartlyRows(start, pending, cutoff) && used == PartlyUsed(start, pending, cutoff)
      modifies this`rows, this`used
      ensures rows == PartlyRows(start, pending - {id}, cutoff) && used == PartlyUsed(start, pending - {id}, cutoff)
      ensures stale <==> Stale(start.rows[id], cutoff)
    {
      AgeOneRows(start, pending, id, cutoff);
      AgeOneUsed(start, pending, id, cutoff);
      var r := rows[id];
      stale := r.state == Reserved && r.createdAt < cutoff;
      if stale {
        used := Add(used, r.team, -r.estimated);
        rows := rows[id := r.(state := Expired)];
      }
    }

    /** Visits the rows in whatever order the map yields them. */
    method ReleaseExpired(cutoff: int) returns (released: set<Id>)
      requires Conserved(Now())
      modifies this`rows, this`used
      ensures Now() == Apply(old(Now()), Op.Expire(cutoff)) && Conserved(Now())
      ensures ExpiresExactly(old(rows), rows, released, cutoff)
    {
      ExpireConserves(Now(), Op.Expire(cutoff));
      released := {};
      var pending := rows.Keys;
      ghost var start := Now();
      NoneAged(start, cutoff);
      while pending != {}
        invariant pending <= start.rows.Keys
        invariant rows == PartlyRows(start, pending, cutoff) && used == PartlyUsed(start, pending, cutoff)
        invariant forall id :: id in released <==> id in start.rows && id !in pending && Stale(start.rows[id], cutoff)
        decreases pending
      {
        var id :| id in pending;
        var stale := ExpireRow(id, cutoff, start, pending);
        if stale { released := released + {id}; }
        pending := pending - {id};
      }
      AllAged(start, cutoff);
      AgedExactly(start.rows, released, cutoff);
    }

    method TeamUsed(team: string) returns (cents: int)
      requires Conserved(Now())
      ensures cents == SqlUsed(rows, team) + Drift(rows, team)
    {
      TotalSum(rows, Counter(team), Sql(team), Leftover(team));
      assert Used(Now(), team) == Total(rows, Counter(team));
      cents := if team in used then used[team] else 0;
    }
  }

  /** Exactly the reserved rows created before the cutoff expire; every other row is unchanged. */
  ghost predicate ExpiresExactly(before: Rows, after: Rows, released: set<Id>, cutoff: int) {
    && (forall id :: id in released <==> id in before && before[id].state == Reserved && before[id].createdAt < cutoff)
    && after.Keys == before.Keys
    && forall id | id in before :: after[id] == if id in released then before[id].(state := Expired) else before[id]
  }

  lemma {:induction false} AgedExactly(rows: Rows, released: set<Id>, cutoff: int)
    requires forall id :: id in released <==> id in rows && Stale(rows[id], cutoff)
    ensures ExpiresExactly(rows, AgedRows(rows, cutoff), released, cutoff)
  {
  }

  ghost function Only(rows: Rows, ids: set<Id>): Rows { map id | id in rows && id in ids :: rows[id] }

  /** The rows when the scan has still to visit the pending ones, */
  ghost function PartlyRows(b: Books, pending: set<Id>, cutoff: int): Rows {
    map id | id in b.rows :: if id in pending then b.rows[id] else Aged(b.rows[id], cutoff)
  }

  /** ... and the counters. */
  ghost function PartlyUsed(b: Books, pending: set<Id>, cutoff: int): map<string, int> {
    map t | t in b.used :: b.used[t] - Total(b.rows, Aging(t, cutoff)) + Total(Only(b.rows, pending), Aging(t, cutoff))
  }

  lemma {:induction false} NoneAged(b: Books, cutoff: int)
    ensures PartlyRows(b, b.rows.Keys, cutoff) == b.rows && PartlyUsed(b, b.rows.Keys, cutoff) == b.used
  {
    assert Only(b.rows, b.rows.Keys) == b.rows;
  }

  lemma {:induction false} AllAged(b: Books, cutoff: int)
    ensures Books(PartlyRows(b, {}, cutoff), PartlyUsed(b, {}, cutoff)) == Apply(b, Op.Expire(cutoff))
  {
    assert Only(b.rows, {}) == map[];
    assert PartlyRows(b, {}, cutoff) == AgedRows(b.rows, cutoff);
  }

  lemma {:induction false} AgeOneRows(b: Books, pending: set<Id>, id: Id, cutoff: int)
    requires id in pending && id in b.rows
    ensures var r := b.rows[id]; var now := PartlyRows(b, pending, cutoff);
            now[id] == r &&
            PartlyRows(b, pending - {id}, cutoff) == if Stale(r, cutoff) then now[id := r.(state := Expired)] else now
  {
  }

  lemma {:induction false} OnlyOneLess(rows: Rows, pending: set<Id>, id: Id, f: Measure)
    requires id in pending && id in rows
    ensures Total(Only(rows, pending), f) == Cents(f, rows[id]) + Total(Only(rows, pending - {id}), f)
  {
    TotalRemove(Only(rows, pending), id, f);
    assert Only(rows, pending) - {id} == Only(rows, pending - {id});
  }

  lemma {:induction false} AgeOneUsed(b: Books, pending: set<Id>, id: Id, cutoff: int)
    requires id in pending && id in b.rows && b.rows[id].team in b.used
    ensures var r := b.rows[id]; var now := PartlyUsed(b, pending, cutoff);
            PartlyUsed(b, pending - {id}, cutoff) == if Stale(r, cutoff) then Add(now, r.team, -r.estimated) else now
  {
    var r := b.rows[id];
    var now, next := PartlyUsed(b, pending, cutoff), PartlyUsed(b, pending - {id}, cutoff);
    forall t | t in b.used ensures now[t] == Cents(Aging(t, cutoff), r) + next[t] {
      OnlyOneLess(b.rows, pending, id, Aging(t, cutoff));
    }
  }

  /** Integer division as the code does it, truncating toward zero. */
  function TruncDiv(x: int, y: int): int
    requires y > 0
  {
    if x >= 0 then x / y else -((-x) / y)
  }

  lemma {:induction false} PercentOfCap(x: int, cap: int)
    requires cap > 0
    ensures TruncDiv(x, cap) >= 80 <==> x >= cap * 80
  {
    if x >= 0 { QuotientAtLeast(x / cap, x % cap, cap, x); }
  }

  lemma {:induction false} QuotientAtLeast(q: int, r: int, cap: int, x: int)
    requires 0 <= r < cap && x == q * cap + r
    ensures q >= 80 <==> x >= cap * 80
  {
    if q >= 80 { TimesMonotone(80, q, cap); } else { TimesMonotone(q, 79, cap); }
  }

  lemma {:induction false} TimesMonotone(a: int, b: int, c: int)
    requires a <= b && c > 0
    ensures a * c <= b * c
  {
    assert b * c - a * c == (b - a) * c;
  }
}
