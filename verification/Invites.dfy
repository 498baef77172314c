/**
 One-shot invite redemption: the SQL transaction (update, insert, commit) of any number of concurrent
 redemptions under row locks, against the store that redeems atomically under one mutex.
 */
module Invites {
  import opened Common

  type Token = string
  type KeyHash = string
  type TxId = nat

  datatype Use = Use(at: int, user: string, machine: string)

  datatype Invite = Invite(role: string, team: string, user: string, expiresAt: int, used: Option<Use>)

  datatype ApiKey = ApiKey(user: string, team: string, role: string)

  /** The two tables as every other transaction sees them. */
  datatype Tables = Tables(invites: map<Token, Invite>, keys: map<KeyHash, ApiKey>)

  datatype Fault = NotFound | Consumed | Expired | Database

  // ------------------------------------------------------------------- atomic redemption

  function KeyOf(i: Invite): ApiKey { ApiKey(i.user, i.team, i.role) }

  function InsertKey(keys: map<KeyHash, ApiKey>, hash: KeyHash, key: ApiKey): map<KeyHash, ApiKey> {
    if hash in keys then keys else keys[hash := key]
  }

  function Redeemed(i: Invite, machine: string, now: int): Invite { i.(used := Some(Use(now, i.user, machine))) }

  /** Redemption in one step: the invite is validated, its key issued and its use recorded. */
  function Redeem(db: Tables, token: Token, machine: string, hash: KeyHash, now: int): (Tables, Result<Invite, Fault>) {
    if token !in db.invites then (db, Err(NotFound))
    else
      var i := db.invites[token];
      if i.used.Some? then (db, Err(Consumed))
      else if i.expiresAt <= now then (db, Err(Expired))
      else
        var r := Redeemed(i, machine, now);
        (Tables(db.invites[token := r], InsertKey(db.keys, hash, KeyOf(i))), Ok(r))
  }

  /** The in-memory store: one mutex around the whole redemption, and a key insert that may fail. */
  class MemoryStore {
    var byHash: map<Token, Invite>
    var keys: map<KeyHash, ApiKey>

    constructor ()
      ensures Now() == Tables(map[], map[])
    {
      byHash, keys := map[], map[];
    }

    ghost function Now(): Tables
      reads this
    {
      Tables(byHash, keys)
    }

    method ConsumeAndIssueKey(token: Token, machine: string, hash: KeyHash, now: int, insertFails: bool)
      returns (r: Result<Invite, Fault>)
      modifies this
      ensures r != Err(Database) ==> r == Redeem(old(Now()), token, machine, hash, now).1
      ensures r.Ok? ==> byHash == Redeem(old(Now()), token, machine, hash, now).0.invites && keys == old(keys)[hash := KeyOf(r.value)]
      ensures r.Ok? && hash !in old(keys) ==> Now() == Redeem(old(Now()), token, machine, hash, now).0
      ensures r.Ok? <==> token in old(byHash) && old(byHash)[token].used.None? && now < old(byHash)[token].expiresAt && !insertFails
      ensures r.Ok? ==>
                var inv := old(byHash)[token]; var key := keys[hash];
                && key.user == inv.user && key.team == inv.team && key.role == inv.role
                && r.value == inv.(used := Some(Use(now, inv.user, machine)))
                && byHash == old(byHash)[token := r.value] && keys.Keys == old(keys).Keys + {hash}
                && forall h | h in old(keys) && h != hash :: keys[h] == old(keys)[h]
      ensures r.Err? ==> Now() == old(Now())
      ensures r == Err(Database) <==> insertFails && Redeem(old(Now()), token, machine, hash, now).1.Ok?
    {
      if token !in byHash { return Err(NotFound); }
      var inv := byHash[token];
      if inv.used.Some? { return Err(Consumed); }
      if inv.expiresAt <= now { return Err(Expired); }
      if insertFails { return Err(Database); }
      keys := keys[hash := KeyOf(inv)];
      inv := inv.(used := Some(Use(now, inv.user, machine)));
      byHash := byHash[token := inv];
      return Ok(inv);
    }
  }

  // ------------------------------------------------------------------------ transactions

  /**
   Where a redemption stands. `Missed` is an UPDATE that matched no row (`absent`: there was no such
   token); `Inserted` and `Done` remember whether the key insert was new or hit an existing hash.
   */
  datatype Phase =
    | Begun | Missed(absent: bool) | Updated | Inserted(isNew: bool)
    | Done(isNew: bool) | Failed(fault: Fault)

  /** `now` is the transaction's start time, which is also the SQL now(). */
  datatype Tx = Tx(token: Token, machine: string, hash: KeyHash, now: int, phase: Phase)

  datatype State = State(db: Tables, txs: map<TxId, Tx>)

  datatype Step =
    | Create(token: Token, invite: Invite)
    | Begin(t: TxId, token: Token, machine: string, hash: KeyHash, now: int)
    | Update(t: TxId)
    | Diagnose(t: TxId, clock: int)
    | Insert(t: TxId)
    | Commit(t: TxId)
    | Rollback(t: TxId)

  predicate Holds(x: Tx) { x.phase.Updated? || x.phase.Inserted? }

  /** No other transaction holds the lock on this invite row. */
  predicate RowFree(s: State, t: TxId, token: Token) {
    forall u | u in s.txs && u != t :: !(Holds(s.txs[u]) && s.txs[u].token == token)
  }

  /** No other transaction has this key hash inserted and uncommitted. */
  predicate HashFree(s: State, t: TxId, hash: KeyHash) {
    forall u | u in s.txs && u != t :: !(s.txs[u].phase == Inserted(true) && s.txs[u].hash == hash)
  }

  predicate Running(s: State, t: TxId) {
    t in s.txs && !s.txs[t].phase.Done? && !s.txs[t].phase.Failed?
  }

  predicate Enabled(s: State, a: Step) {
    match a
    case Create(token, invite) => token !in s.db.invites && invite.used.None?
    case Begin(t, _, _, _, _) => t !in s.txs
    case Update(t) => t in s.txs && s.txs[t].phase == Begun && RowFree(s, t, s.txs[t].token)
    case Diagnose(t, _) => t in s.txs && s.txs[t].phase.Missed?
    case Insert(t) => t in s.txs && s.txs[t].phase == Updated && HashFree(s, t, s.txs[t].hash)
    case Commit(t) => t in s.txs && s.txs[t].phase.Inserted? && s.txs[t].token in s.db.invites
    case Rollback(t) => Running(s, t)
  }

  predicate Redeemable(db: Tables, token: Token, now: int) {
    token in db.invites && db.invites[token].used.None? && now < db.invites[token].expiresAt
  }

  /** The error the follow-up SELECT chooses after an UPDATE that matched nothing. */
  function Diagnosis(db: Tables, token: Token, clock: int): Fault {
    if token !in db.invites then NotFound
    else if db.invites[token].used.Some? then Consumed
    else if db.invites[token].expiresAt <= clock then Expired
    else Consumed
  }

  function SetPhase(s: State, t: TxId, p: Phase): State
    requires t in s.txs
  {
    s.(txs := s.txs[t := s.txs[t].(phase := p)])
  }

  /** Both writes of a transaction become visible. */
  function Written(db: Tables, x: Tx): Tables
    requires x.token in db.invites && x.phase.Inserted?
  {
    Tables(db.invites[x.token := Redeemed(db.invites[x.token], x.machine, x.now)],
           if x.phase.isNew then db.keys[x.hash := KeyOf(db.invites[x.token])] else db.keys)
  }

  function Next(s: State, a: Step): State
    requires Enabled(s, a)
  {
    match a
    case Create(token, invite) => s.(db := s.db.(invites := s.db.invites[token := invite]))
    case Begin(t, token, machine, hash, now) => s.(txs := s.txs[t := Tx(token, machine, hash, now, Begun)])
    case Update(t) =>
      var x := s.txs[t];
      SetPhase(s, t, if Redeemable(s.db, x.token, x.now) then Updated else Missed(x.token !in s.db.invites))
    case Diagnose(t, clock) => SetPhase(s, t, Failed(Diagnosis(s.db, s.txs[t].token, clock)))
    case Insert(t) => SetPhase(s, t, Inserted(s.txs[t].hash !in s.db.keys))
    case Commit(t) =>
      var x := s.txs[t];
      SetPhase(s, t, Done(x.phase.isNew)).(db := Written(s.db, x))
    case Rollback(t) => SetPhase(s, t, Failed(Database))
  }

  // --------------------------------------------------------------------------- invariant

  /** A lock holder's invite is still redeemable, and its new hash still unused. */
  predicate HolderOk(db: Tables, x: Tx) {
    && (Holds(x) ==> Redeemable(db, x.token, x.now))
    && (x.phase.Inserted? ==> (x.phase.isNew <==> x.hash !in db.keys))
    && (x.phase == Missed(false) ==> x.token in db.invites && !Redeemable(db, x.token, x.now))
  }

  /** A committed redemption is recorded in the invite, and its key hash is in the key table. */
  predicate DoneOk(db: Tables, x: Tx) {
    x.phase.Done? ==>
      && x.token in db.invites && x.hash in db.keys
      && x.now < db.invites[x.token].expiresAt
      && db.invites[x.token].used == Some(Use(x.now, db.invites[x.token].user, x.machine))
      && (x.phase.isNew ==> db.keys[x.hash] == KeyOf(db.invites[x.token]))
  }

  predicate AllOk(s: State) { forall t | t in s.txs :: HolderOk(s.db, s.txs[t]) && DoneOk(s.db, s.txs[t]) }

  /** At most one redemption per invite holds its lock or has committed. */
  predicate Exclusive(s: State) {
    forall t, u | t in s.txs && u in s.txs && t != u && s.txs[t].token == s.txs[u].token ::
      !((Holds(s.txs[t]) || s.txs[t].phase.Done?) && (Holds(s.txs[u]) || s.txs[u].phase.Done?))
  }

  /** At most one uncommitted insert per new key hash. */
  predicate HashExclusive(s: State) {
    forall t, u | t in s.txs && u in s.txs && t != u && s.txs[t].hash == s.txs[u].hash ::
      !(s.txs[t].phase == Inserted(true) && s.txs[u].phase == Inserted(true))
  }

  ghost predicate Redeemer(s: State, token: Token, t: TxId) {
    t in s.txs && s.txs[t].token == token && s.txs[t].phase.Done?
  }

  /** A used invite has a committed redemption. */
  ghost predicate UsedHasRedeemer(s: State) {
    forall token | token in s.db.invites && s.db.invites[token].used.Some? :: exists t :: Redeemer(s, token, t)
  }

  predicate Inv(s: State) { AllOk(s) && Exclusive(s) && HashExclusive(s) }

  ghost predicate Init(s: State) {
    s.txs == map[] && forall token | token in s.db.invites :: s.db.invites[token].used.None?
  }

  /** Changing one transaction's phase without touching the tables. */
  lemma {:induction false} PhaseStep(s: State, t: TxId, p: Phase)
    requires Inv(s) && t in s.txs && !p.Done? && !s.txs[t].phase.Done?
    requires HolderOk(s.db, s.txs[t].(phase := p))
    requires (p.Updated? || p.Inserted?) ==> Holds(s.txs[t]) || NobodyElse(s, t)
    requires p == Inserted(true) ==> HashFree(s, t, s.txs[t].hash)
    ensures Inv(SetPhase(s, t, p))
    ensures forall token, u :: Redeemer(SetPhase(s, t, p), token, u) <==> Redeemer(s, token, u)
  {
  }

  /** No other transaction holds or has committed this transaction's invite. */
  predicate NobodyElse(s: State, t: TxId)
    requires t in s.txs
  {
    forall u | u in s.txs && u != t && s.txs[u].token == s.txs[t].token :: !Holds(s.txs[u]) && !s.txs[u].phase.Done?
  }

  lemma {:induction false} UpdateStep(s: State, t: TxId)
    requires Inv(s) && Enabled(s, Update(t))
    ensures Inv(Next(s, Update(t)))
    ensures forall token, u :: Redeemer(Next(s, Update(t)), token, u) <==> Redeemer(s, token, u)
  {
    var x := s.txs[t];
    if Redeemable(s.db, x.token, x.now) {
      forall u | u in s.txs && u != t && s.txs[u].token == x.token ensures !Holds(s.txs[u]) && !s.txs[u].phase.Done? {
        assert DoneOk(s.db, s.txs[u]);
      }
      PhaseStep(s, t, Updated);
    } else {
      PhaseStep(s, t, Missed(x.token !in s.db.invites));
    }
  }

  lemma {:induction false} CommitOthers(s: State, t: TxId, u: TxId)
    requires Inv(s) && Enabled(s, Commit(t)) && u in s.txs && u != t
    ensures HolderOk(Next(s, Commit(t)).db, s.txs[u]) && DoneOk(Next(s, Commit(t)).db, s.txs[u])
  {
    assert HolderOk(s.db, s.txs[u]) && DoneOk(s.db, s.txs[u]) && HolderOk(s.db, s.txs[t]);
    if s.txs[u].token == s.txs[t].token {
      assert !Holds(s.txs[u]) && !s.txs[u].phase.Done?;
    }
  }

  lemma {:induction false} CommitStep(s: State, t: TxId)
    requires Inv(s) && Enabled(s, Commit(t))
    ensures Inv(Next(s, Commit(t)))
  {
    var n := Next(s, Commit(t));
    assert HolderOk(s.db, s.txs[t]);
    forall u | u in n.txs ensures HolderOk(n.db, n.txs[u]) && DoneOk(n.db, n.txs[u]) {
      if u != t { CommitOthers(s, t, u); }
    }
  }

  lemma {:induction false} InvStep(s: State, a: Step)
    requires Inv(s) && Enabled(s, a)
    ensures Inv(Next(s, a))
  {
    match a
    case Create(_, _) => CreateStep(s, a);
    case Begin(_, _, _, _, _) =>
    case Update(t) => UpdateStep(s, t);
    case Diagnose(t, clock) => PhaseStep(s, t, Failed(Diagnosis(s.db, s.txs[t].token, clock)));
    case Insert(t) => PhaseStep(s, t, Inserted(s.txs[t].hash !in s.db.keys));
    case Commit(t) => CommitStep(s, t);
    case Rollback(t) => PhaseStep(s, t, Failed(Database));
  }

  lemma {:induction false} CreateStep(s: State, a: Step)
    requires Inv(s) && Enabled(s, a) && a.Create?
    ensures Inv(Next(s, a))
  {
    forall t | t in s.txs ensures HolderOk(Next(s, a).db, s.txs[t]) && DoneOk(Next(s, a).db, s.txs[t]) {
      assert HolderOk(s.db, s.txs[t]) && DoneOk(s.db, s.txs[t]);
    }
  }

  lemma {:induction false} RedeemerStep(s: State, a: Step)
    requires Inv(s) && UsedHasRedeemer(s) && Enabled(s, a)
    ensures UsedHasRedeemer(Next(s, a))
  {
    var n := Next(s, a);
    forall token | token in n.db.invites && n.db.invites[token].used.Some? ensures exists t :: Redeemer(n, token, t) {
      if a.Commit? && s.txs[a.t].token == token {
        assert Redeemer(n, token, a.t);
      } else {
        assert token in s.db.invites && s.db.invites[token].used.Some?;
        var t :| Redeemer(s, token, t);
        assert Redeemer(n, token, t);
      }
    }
  }

  // -------------------------------------------------------------------------------- runs

  ghost predicate IsRun(states: seq<State>, steps: seq<Step>) {
    && |states| == |steps| + 1
    && Init(states[0])
    && forall i | 0 <= i < |steps| :: Enabled(states[i], steps[i]) && states[i + 1] == Next(states[i], steps[i])
  }

  lemma {:induction false} RunInv(states: seq<State>, steps: seq<Step>, i: nat)
    requires IsRun(states, steps) && i < |states|
    ensures Inv(states[i]) && UsedHasRedeemer(states[i])
  {
    if i > 0 {
      RunInv(states, steps, i - 1);
      InvStep(states[i - 1], steps[i - 1]);
      RedeemerStep(states[i - 1], steps[i - 1]);
    }
  }

  /**
   In every interleaving an invite is marked used iff a transaction that redeemed it committed;
   that transaction is the only one, it started before the invite expired, the use it recorded is
   its own, and its key row exists, with the invite's user, team and role whenever the hash was new.
   */
  lemma {:induction false} OneShot(states: seq<State>, steps: seq<Step>, i: nat, token: Token)
    requires IsRun(states, steps) && i < |states| && token in states[i].db.invites
    ensures var s := states[i]; var inv := s.db.invites[token];
            && (inv.used.Some? <==> exists t :: Redeemer(s, token, t))
            && (forall t, u | Redeemer(s, token, t) && Redeemer(s, token, u) :: t == u)
            && (forall t | Redeemer(s, token, t) ::
                  && s.txs[t].hash in s.db.keys && s.txs[t].now < inv.expiresAt
                  && inv.used == Some(Use(s.txs[t].now, inv.user, s.txs[t].machine))
                  && (s.txs[t].phase.isNew ==>
                        var key := s.db.keys[s.txs[t].hash];
                        key.user == inv.user && key.team == inv.team && key.role == inv.role))
  {
    RunInv(states, steps, i);
    var s := states[i];
    forall t | Redeemer(s, token, t) ensures DoneOk(s.db, s.txs[t]) {}
  }

  /** A redemption that got as far as its insert can always commit: nobody took its invite meanwhile. */
  lemma {:induction false} InsertedCanCommit(s: State, t: TxId)
    requires Inv(s) && t in s.txs && s.txs[t].phase.Inserted?
    ensures Enabled(s, Commit(t)) && Redeemable(s.db, s.txs[t].token, s.txs[t].now)
  {
    assert HolderOk(s.db, s.txs[t]);
  }

  // -------------------------------------------------------------------------- refinement

  /**
   Every step refines the atomic store: it leaves the tables alone, creates an invite, or is the
   commit of one redemption, which does what one atomic redemption would do to the same tables
   with the transaction's start time as its clock.
   */
  lemma {:induction false} StepRefinesAtomic(s: State, a: Step)
    requires Inv(s) && Enabled(s, a)
    ensures !a.Create? && !a.Commit? ==> Next(s, a).db == s.db
    ensures a.Commit? ==>
              var x := s.txs[a.t]; var (db, r) := Redeem(s.db, x.token, x.machine, x.hash, x.now);
              Next(s, a).db == db && r == Ok(db.invites[x.token])
  {
    if a.Commit? { assert HolderOk(s.db, s.txs[a.t]); }
  }

  datatype AtomicOp =
    | CreateInvite(token: Token, invite: Invite)
    | RedeemInvite(token: Token, machine: string, hash: KeyHash, now: int)

  function Perform(db: Tables, op: AtomicOp): Tables {
    match op
    case CreateInvite(token, invite) => db.(invites := db.invites[token := invite])
    case RedeemInvite(token, machine, hash, now) => Redeem(db, token, machine, hash, now).0
  }

  predicate Succeeds(db: Tables, op: AtomicOp) {
    match op
    case CreateInvite(token, _) => token !in db.invites
    case RedeemInvite(token, machine, hash, now) => Redeem(db, token, machine, hash, now).1.Ok?
  }

  /** The tables after these operations, one at a time and each successful. */
  ghost predicate Serially(db: Tables, ops: seq<AtomicOp>, after: Tables) {
    if ops == [] then after == db
    else
      var n := |ops| - 1;
      exists mid :: Serially(db, ops[..n], mid) && Succeeds(mid, ops[n]) && after == Perform(mid, ops[n])
  }

  /** The operation a step stands for, if it changes the tables. */
  function Visible(s: State, a: Step): seq<AtomicOp>
    requires Enabled(s, a)
  {
    match a
    case Create(token, invite) => [CreateInvite(token, invite)]
    case Commit(t) => [RedeemInvite(s.txs[t].token, s.txs[t].machine, s.txs[t].hash, s.txs[t].now)]
    case _ => []
  }

  /** The creates and commits of the first i steps, in order. */
  ghost function Serial(states: seq<State>, steps: seq<Step>, i: nat): seq<AtomicOp>
    requires IsRun(states, steps) && i <= |steps|
  {
    if i == 0 then [] else Serial(states, steps, i - 1) + Visible(states[i - 1], steps[i - 1])
  }

  lemma {:induction false} SeriallyThen(db: Tables, ops: seq<AtomicOp>, mid: Tables, op: AtomicOp)
    requires Serially(db, ops, mid) && Succeeds(mid, op)
    ensures Serially(db, ops + [op], Perform(mid, op))
  {
    assert (ops + [op])[..|ops|] == ops;
  }

  lemma {:induction false} VisibleStep(s: State, a: Step)
    requires Inv(s) && Enabled(s, a)
    ensures var op := Visible(s, a);
            if op == [] then Next(s, a).db == s.db
            else |op| == 1 && Succeeds(s.db, op[0]) && Next(s, a).db == Perform(s.db, op[0])
  {
    StepRefinesAtomic(s, a);
  }

  /**
   Every interleaving refines the atomic store: its tables are at every moment those of the creates
   and commits so far, performed one at a time in commit order, each of them successful.
   */
  lemma {:induction false} RunRefinesAtomic(states: seq<State>, steps: seq<Step>, i: nat)
    requires IsRun(states, steps) && i <= |steps|
    ensures Serially(states[0].db, Serial(states, steps, i), states[i].db)
  {
    if i > 0 {
      RunRefinesAtomic(states, steps, i - 1);
      RunInv(states, steps, i - 1);
      var before, op := Serial(states, steps, i - 1), Visible(states[i - 1], steps[i - 1]);
      VisibleStep(states[i - 1], steps[i - 1]);
      if op == [] {
        assert before + op == before;
      } else {
        assert op == [op[0]];
        SeriallyThen(states[0].db, before, states[i - 1].db, op[0]);
      }
    }
  }

  /** After any failure the invite is as redeemable as before, and the next redemption gets through. */
  lemma {:induction false} FailureLeavesRedeemable(s: State, a: Step, u: TxId)
    requires Inv(s) && Enabled(s, a) && (a.Rollback? || a.Diagnose?)
    requires u in s.txs && u != a.t && s.txs[u].phase == Begun && s.txs[u].token == s.txs[a.t].token
    requires Redeemable(s.db, s.txs[u].token, s.txs[u].now)
    requires forall v | v in s.txs && v != a.t && s.txs[v].token == s.txs[u].token :: !Holds(s.txs[v])
    ensures var n := Next(s, a);
            n.db == s.db && Inv(n) && Enabled(n, Update(u)) && Next(n, Update(u)).txs[u].phase == Updated
  {
    InvStep(s, a);
  }

  /**
   A redemption that missed reports what the atomic store reports at that moment iff the invite is
   not redeemable then; it is not, when its row was there at the update and the clock is not behind
   the transaction's start.
   */
  lemma {:induction false} DiagnosisIsPreciseIff(s: State, t: TxId, clock: int)
    requires Inv(s) && Enabled(s, Diagnose(t, clock))
    ensures var x := s.txs[t];
            && (Redeem(s.db, x.token, x.machine, x.hash, clock).1 == Err(Next(s, Diagnose(t, clock)).txs[t].phase.fault)
                <==> !Redeemable(s.db, x.token, clock))
            && (x.phase == Missed(false) && x.now <= clock ==> !Redeemable(s.db, x.token, clock))
  {
    assert HolderOk(s.db, s.txs[t]);
  }

  /** With a hash already in the table the redemption still commits, and the key row stays as it was. */
  lemma {:induction false} ReusedHashKeepsOldKey(s: State, t: TxId)
    requires Inv(s) && Enabled(s, Commit(t)) && !s.txs[t].phase.isNew
    ensures var x := s.txs[t]; var n := Next(s, Commit(t)).db;
            && n.invites[x.token].used.Some?
            && n.keys == s.db.keys
            && (n.keys[x.hash] == KeyOf(n.invites[x.token]) <==> s.db.keys[x.hash] == KeyOf(s.db.invites[x.token]))
  {
    assert HolderOk(s.db, s.txs[t]);
  }

  // --------------------------------------------------------------------------- witnesses

  lemma {:induction false} Extend(states: seq<State>, steps: seq<Step>, a: Step)
    requires IsRun(states, steps) && Enabled(states[|steps|], a)
    ensures IsRun(states + [Next(states[|steps|], a)], steps + [a])
  {
  }

  /** A redemption carried through while no other transaction is running. */
  lemma {:induction false} RedeemAlone(states: seq<State>, steps: seq<Step>, t: TxId, token: Token, hash: KeyHash, now: int)
    returns (states': seq<State>, steps': seq<Step>)
    requires IsRun(states, steps)
    requires var s := states[|steps|];
             t !in s.txs && Redeemable(s.db, token, now) && forall u | u in s.txs :: s.txs[u].phase.Done?
    ensures IsRun(states', steps')
    ensures var s, n := states[|steps|], states'[|steps'|]; var inv := s.db.invites[token];
            && n.db.invites == s.db.invites[token := Redeemed(inv, "m", now)]
            && n.db.keys == (if hash in s.db.keys then s.db.keys else s.db.keys[hash := KeyOf(inv)])
            && n.txs == s.txs[t := Tx(token, "m", hash, now, Done(hash !in s.db.keys))]
  {
    states', steps' := states, steps;
    var path := [Begin(t, token, "m", hash, now), Update(t), Insert(t), Commit(t)];
    Extend(states', steps', path[0]);
    states', steps' := states' + [Next(states'[|steps'|], path[0])], steps' + [path[0]];
    Extend(states', steps', path[1]);
    states', steps' := states' + [Next(states'[|steps'|], path[1])], steps' + [path[1]];
    Extend(states', steps', path[2]);
    states', steps' := states' + [Next(states'[|steps'|], path[2])], steps' + [path[2]];
    Extend(states', steps', path[3]);
    states', steps' := states' + [Next(states'[|steps'|], path[3])], steps' + [path[3]];
  }

  /** Two invites redeemed with the same hash: the second is used up and its user has no key. */
  lemma {:induction false} ReusedHashShows() returns (states: seq<State>, steps: seq<Step>)
    ensures IsRun(states, steps)
    ensures var db := states[|steps|].db;
            && "b" in db.invites && db.invites["b"].used.Some? && db.invites["b"].user == "v"
            && "h" in db.keys && db.keys["h"].user == "u"
  {
    var first, second := Invite("r", "t", "u", 10, None), Invite("r", "t", "v", 10, None);
    var s0 := State(Tables(map["a" := first, "b" := second], map[]), map[]);
    states, steps := RedeemAlone([s0], [], 0, "a", "h", 0);
    states, steps := RedeemAlone(states, steps, 1, "b", "h", 0);
  }

  /** An invite created between the update and the diagnosis is reported as consumed. */
  lemma {:induction false} LateInviteMisdiagnosed() returns (states: seq<State>, steps: seq<Step>)
    ensures IsRun(states, steps)
    ensures var s := states[|steps|];
            0 in s.txs && s.txs[0].phase == Failed(Consumed) && Redeemable(s.db, "a", 0)
  {
    var s0 := State(Tables(map[], map[]), map[]);
    var s1 := Next(s0, Begin(0, "a", "m", "h", 0));
    var s2 := Next(s1, Update(0));
    var c := Create("a", Invite("r", "t", "u", 10, None));
    var s3 := Next(s2, c);
    var s4 := Next(s3, Diagnose(0, 0));
    states, steps := [s0, s1, s2, s3, s4], [Begin(0, "a", "m", "h", 0), Update(0), c, Diagnose(0, 0)];
  }
}
