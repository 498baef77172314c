/**
 Configuration hot reload as a transition system: the watch loop, the debounce timer, the one-slot
 trigger channel, callers of TriggerReload and any number of overlapping reload goroutines.
 */
module HotReload {

  /** Where the watch loop is between two of its steps. */
  datatype Loop = Waiting | Stopping | Arming | Exited

  /** A reload goroutine after it took its batch: before and after it read and validated the files. */
  datatype Reload = Loading(batch: set<nat>) | Loaded(batch: set<nat>, version: nat, accepted: bool)

  /**
   Notifications are numbered; `noted[n]` is the version of the files when n was noted. `pending`
   are the notifications whose names are in the pending-files map; `batches` are the ones handed
   to reloads so far. `starting` counts reload goroutines that have not taken a batch yet and
   `sending` callers of TriggerReload that have noted but not yet sent. `current` is the version
   the installed configuration was read at.
   */
  datatype State = State(
    loop: Loop, armed: bool, token: bool, sending: nat, starting: nat,
    reloads: seq<Reload>, pending: set<nat>, noted: seq<nat>, batches: seq<set<nat>>,
    disk: nat, current: nat)

  ghost predicate Init(s: State) {
    s == State(Waiting, false, false, 0, 0, [], {}, [], [], s.disk, s.current)
  }

  datatype Step =
    | Edit                    // someone writes the files
    | FileEvent               // the loop receives a wanted event and notes it
    | Trigger                 // TriggerReload notes the sentinel
    | Send                    // ... and offers the token
    | TakeToken               // the loop receives the token
    | StopTimer               // the loop stops the previous timer
    | ArmTimer                // ... and arms a new one
    | Fire                    // the timer starts a reload goroutine
    | TakeBatch               // a reload takes the pending files
    | ReadFiles(k: nat, accepted: bool) // reload k reads the files and accepts them or not
    | Install(k: nat)         // reload k succeeded
    | Reject(k: nat)          // reload k failed; the old configuration stays
    | Stop                    // the loop exits, stopping its timer
    | Close                   // the loop exits because the watcher closed; its timer runs on

  predicate Enabled(s: State, a: Step) {
    match a
    case Edit => true
    case FileEvent => s.loop == Waiting
    case Trigger => true
    case Send => s.sending > 0
    case TakeToken => s.loop == Waiting && s.token
    case StopTimer => s.loop == Stopping
    case ArmTimer => s.loop == Arming
    case Fire => s.armed
    case TakeBatch => s.starting > 0
    case ReadFiles(k, _) => k < |s.reloads| && s.reloads[k].Loading?
    case Install(k) => k < |s.reloads| && s.reloads[k].Loaded? && s.reloads[k].accepted
    case Reject(k) => k < |s.reloads| && s.reloads[k].Loaded? && !s.reloads[k].accepted
    case Stop => s.loop == Waiting
    case Close => s.loop == Waiting
  }

  function Note(s: State): State {
    s.(pending := s.pending + {|s.noted|}, noted := s.noted + [s.disk])
  }

  function Drop<T>(xs: seq<T>, k: nat): seq<T>
    requires k < |xs|
  {
    xs[..k] + xs[k + 1..]
  }

  function Next(s: State, a: Step): State
    requires Enabled(s, a)
  {
    match a
    case Edit => s.(disk := s.disk + 1)
    case FileEvent => Note(s).(loop := Stopping)
    case Trigger => Note(s).(sending := s.sending + 1)
    case Send => s.(sending := s.sending - 1, token := true)
    case TakeToken => s.(token := false, loop := Stopping)
    case StopTimer => s.(armed := false, loop := Arming)
    case ArmTimer => s.(armed := true, loop := Waiting)
    case Fire => s.(armed := false, starting := s.starting + 1)
    case TakeBatch =>
      s.(starting := s.starting - 1, pending := {}, batches := s.batches + [s.pending],
         reloads := s.reloads + [Loading(s.pending)])
    case ReadFiles(k, ok) => s.(reloads := s.reloads[k := Loaded(s.reloads[k].batch, s.disk, ok)])
    case Install(k) => s.(current := s.reloads[k].version, reloads := Drop(s.reloads, k))
    case Reject(k) => s.(reloads := Drop(s.reloads, k))
    case Stop => s.(loop := Exited, armed := false)
    case Close => s.(loop := Exited)
  }

  // ----------------------------------------------------------------- safety invariant

  /** A reload is still to take a batch, or someone is bound to bring one about. */
  predicate Due(s: State) {
    s.armed || s.token || s.starting > 0 || s.sending > 0 || s.loop == Stopping || s.loop == Arming
  }

  predicate NoneLost(s: State) { s.loop != Exited && s.pending != {} ==> Due(s) }

  ghost predicate InBatch(s: State, b: int, n: int) { 0 <= b < |s.batches| && n in s.batches[b] }

  ghost predicate HandedOver(s: State, n: int) { exists b :: InBatch(s, b, n) }

  /** Every notification is pending or in a batch, never in two places. */
  ghost predicate Partitioned(s: State) {
    && (forall n | n in s.pending :: n < |s.noted|)
    && (forall b, n | InBatch(s, b, n) :: n < |s.noted| && n !in s.pending)
    && (forall b, c, n | InBatch(s, b, n) && InBatch(s, c, n) :: b == c)
    && (forall n | 0 <= n < |s.noted| && n !in s.pending :: HandedOver(s, n))
  }

  /** A reload that has read the files saw every change its batch was noted for. */
  ghost predicate Current(s: State) {
    && (forall n | 0 <= n < |s.noted| :: s.noted[n] <= s.disk)
    && (forall r | r in s.reloads :: forall n | n in r.batch :: n < |s.noted|)
    && (forall r | r in s.reloads && r.Loaded? :: r.version <= s.disk)
    && (forall r | r in s.reloads && r.Loaded? :: forall n | n in r.batch && n < |s.noted| :: s.noted[n] <= r.version)
  }

  ghost predicate Inv(s: State) { NoneLost(s) && Partitioned(s) && Current(s) }

  lemma {:induction false} InitInv(s: State)
    requires Init(s)
    ensures Inv(s)
  {
  }

  lemma {:induction false} NoneLostStep(s: State, a: Step)
    requires NoneLost(s) && Enabled(s, a)
    ensures NoneLost(Next(s, a))
  {
  }

  lemma {:induction false} NotePartitioned(s: State)
    requires Partitioned(s)
    ensures Partitioned(Note(s))
  {
    var t := Note(s);
    forall b, n ensures InBatch(t, b, n) <==> InBatch(s, b, n) {}
    forall n ensures HandedOver(t, n) <==> HandedOver(s, n) {}
  }

  lemma {:induction false} TakePartitioned(s: State)
    requires Partitioned(s) && Enabled(s, TakeBatch)
    ensures Partitioned(Next(s, TakeBatch))
  {
    var t := Next(s, TakeBatch);
    var last := |s.batches|;
    forall b, n ensures InBatch(t, b, n) <==> InBatch(s, b, n) || (b == last && n in s.pending) {}
    forall n | 0 <= n < |t.noted| ensures HandedOver(t, n) {
      if n in s.pending {
        assert InBatch(t, last, n);
      } else {
        var b :| InBatch(s, b, n);
        assert InBatch(t, b, n);
      }
    }
  }

  lemma {:induction false} SamePartition(s: State, t: State)
    requires Partitioned(s) && t.pending == s.pending && t.noted == s.noted && t.batches == s.batches
    ensures Partitioned(t)
  {
    forall b, n ensures InBatch(t, b, n) <==> InBatch(s, b, n) {}
    forall n ensures HandedOver(t, n) <==> HandedOver(s, n) {}
  }

  lemma {:induction false} PartitionedStep(s: State, a: Step)
    requires Partitioned(s) && Enabled(s, a)
    ensures Partitioned(Next(s, a))
  {
    match a
    case FileEvent =>
      NotePartitioned(s);
      SamePartition(Note(s), Next(s, a));
    case Trigger =>
      NotePartitioned(s);
      SamePartition(Note(s), Next(s, a));
    case TakeBatch => TakePartitioned(s);
    case _ => SamePartition(s, Next(s, a));
  }

  lemma {:induction false} CurrentStep(s: State, a: Step)
    requires Partitioned(s) && Current(s) && Enabled(s, a)
    ensures Current(Next(s, a))
  {
    var t := Next(s, a);
    match a
    case ReadFiles(k, ok) =>
      assert s.reloads[k] in s.reloads;
      forall r | r in t.reloads ensures r in s.reloads || r == Loaded(s.reloads[k].batch, s.disk, ok) {}
    case Install(k) => forall r | r in t.reloads ensures r in s.reloads {}
    case Reject(k) => forall r | r in t.reloads ensures r in s.reloads {}
    case _ =>
  }

  lemma {:induction false} InvStep(s: State, a: Step)
    requires Inv(s) && Enabled(s, a)
    ensures Inv(Next(s, a))
  {
    NoneLostStep(s, a);
    PartitionedStep(s, a);
    CurrentStep(s, a);
  }

  // ------------------------------------------------------------------------------ runs

  ghost predicate IsRun(states: seq<State>, steps: seq<Step>) {
    && |states| == |steps| + 1
    && Init(states[0])
    && forall i | 0 <= i < |steps| :: Enabled(states[i], steps[i]) && states[i + 1] == Next(states[i], steps[i])
  }

  /**
   In every interleaving: while the loop runs, pending notifications have a reload still due; each
   notification is pending or in exactly one batch; and a reload's files are at least as new as
   every change its batch was noted for.
   */
  lemma {:induction false} RunInv(states: seq<State>, steps: seq<Step>, i: nat)
    requires IsRun(states, steps) && i < |states|
    ensures Inv(states[i])
  {
    if i == 0 {
      InitInv(states[0]);
    } else {
      RunInv(states, steps, i - 1);
      InvStep(states[i - 1], steps[i - 1]);
    }
  }

  // -------------------------------------------------------------------------- progress

  /**
   A notification the loop has taken up gets its timer: once the loop is on the way to arm it, it
   neither waits again nor exits before it has armed one.
   */
  lemma {:induction false} ArmsBeforeMovingOn(states: seq<State>, steps: seq<Step>, i: nat, j: nat) returns (k: nat)
    requires IsRun(states, steps) && i < j <= |steps|
    requires states[i].loop == Stopping || states[i].loop == Arming
    requires states[j].loop == Waiting || states[j].loop == Exited
    ensures i <= k < j && steps[k] == ArmTimer && states[k + 1].armed
    decreases j - i
  {
    assert Enabled(states[i], steps[i]) && states[i + 1] == Next(states[i], steps[i]);
    if steps[i] == ArmTimer {
      k := i;
    } else {
      k := ArmsBeforeMovingOn(states, steps, i + 1, j);
    }
  }

  /** Steps the program takes by itself, with no new event, trigger, edit or stop. */
  predicate Internal(a: Step) { !a.Edit? && !a.FileEvent? && !a.Trigger? && !a.Stop? && !a.Close? }

  function ReloadWork(rs: seq<Reload>): nat {
    if rs == [] then 0 else (if rs[0].Loading? then 2 else 1) + ReloadWork(rs[1..])
  }

  /** Work left before the program comes to rest. */
  function Work(s: State): nat {
    8 * s.sending + (if s.token then 7 else 0)
    + (match s.loop case Stopping => 6 case Arming => 5 case _ => 0)
    + (if s.armed then 4 else 0) + 3 * s.starting + ReloadWork(s.reloads)
  }

  lemma {:induction false} WorkConcat(a: seq<Reload>, b: seq<Reload>)
    ensures ReloadWork(a + b) == ReloadWork(a) + ReloadWork(b)
    decreases |a|
  {
    if a == [] {
      assert a + b == b;
    } else {
      WorkConcat(a[1..], b);
      assert (a + b)[1..] == a[1..] + b;
    }
  }

  lemma {:induction false} WorkAt(rs: seq<Reload>, k: nat)
    requires k < |rs|
    ensures ReloadWork(rs) == ReloadWork(Drop(rs, k)) + (if rs[k].Loading? then 2 else 1)
  {
    assert rs == rs[..k] + ([rs[k]] + rs[k + 1..]);
    WorkConcat(rs[..k], [rs[k]] + rs[k + 1..]);
    WorkConcat(rs[..k], rs[k + 1..]);
    assert ([rs[k]] + rs[k + 1..])[1..] == rs[k + 1..];
  }

  lemma {:induction false} WorkUpdate(rs: seq<Reload>, k: nat, r: Reload)
    requires k < |rs|
    ensures ReloadWork(rs[k := r]) ==
            ReloadWork(rs) - (if rs[k].Loading? then 2 else 1) + (if r.Loading? then 2 else 1)
  {
    WorkAt(rs, k);
    WorkAt(rs[k := r], k);
    assert Drop(rs[k := r], k) == Drop(rs, k);
  }

  /** Every internal step brings the program closer to rest, so it cannot run on by itself forever. */
  lemma {:induction false} InternalStepsEnd(s: State, a: Step)
    requires Enabled(s, a) && Internal(a)
    ensures Work(Next(s, a)) < Work(s)
  {
    match a
    case TakeBatch =>
      var one: seq<Reload> := [Loading(s.pending)];
      WorkConcat(s.reloads, one);
      assert one[1..] == [] && ReloadWork(one) == 2;
    case ReadFiles(k, ok) => WorkUpdate(s.reloads, k, Loaded(s.reloads[k].batch, s.disk, ok));
    case Install(k) => WorkAt(s.reloads, k);
    case Reject(k) => WorkAt(s.reloads, k);
    case _ =>
  }

  ghost predicate AtRest(s: State) { forall a | Internal(a) :: !Enabled(s, a) }

  /**
   When the program is at rest with its loop running, nothing is pending: every notification ever
   noted went to exactly one batch, and every batch has been loaded.
   */
  lemma {:induction false} RestMeansReloaded(s: State)
    requires Inv(s) && AtRest(s) && s.loop != Exited
    ensures s.pending == {} && s.reloads == []
    ensures forall n | 0 <= n < |s.noted| :: HandedOver(s, n)
  {
    assert !Enabled(s, Send) && !Enabled(s, TakeToken) && !Enabled(s, StopTimer) && !Enabled(s, ArmTimer);
    assert !Enabled(s, Fire) && !Enabled(s, TakeBatch);
    assert !Enabled(s, ReadFiles(0, true)) && !Enabled(s, Install(0)) && !Enabled(s, Reject(0));
  }

  /** Stopping the loop does strand a notification: trigger, stop, then send the token nobody takes. */
  lemma {:induction false} StopStrandsPending(s0: State)
    requires Init(s0)
    ensures exists states: seq<State>, steps: seq<Step> ::
              IsRun(states, steps) && |steps| == 3 && states[3].pending == {0} && AtRest(states[3])
  {
    var s1 := Next(s0, Trigger);
    var s2 := Next(s1, Stop);
    var s3 := Next(s2, Send);
    var states, steps := [s0, s1, s2, s3], [Trigger, Stop, Send];
    assert IsRun(states, steps);
    assert s3.loop == Exited && s3.sending == 0 && !s3.armed && s3.starting == 0 && s3.reloads == [];
  }

  // ---------------------------------------------------------------- after the loop exits

  /** The guard that decides at exit: a timer still set or a reload that has not taken its batch. */
  predicate ReloadComing(s: State) { s.armed || s.starting > 0 }

  lemma {:induction false} ExitedForGood(states: seq<State>, steps: seq<Step>, i: nat, j: nat)
    requires IsRun(states, steps) && i <= j < |states| && states[i].loop == Exited
    ensures states[j].loop == Exited
    decreases j
  {
    if i < j { ExitedForGood(states, steps, i, j - 1); }
  }

  lemma {:induction false} NothingTaken(states: seq<State>, steps: seq<Step>, i: nat, j: nat)
    requires IsRun(states, steps) && i <= j < |states| && states[i].loop == Exited && !ReloadComing(states[i])
    ensures states[i].pending <= states[j].pending && !ReloadComing(states[j])
    decreases j
  {
    if i < j {
      NothingTaken(states, steps, i, j - 1);
      ExitedForGood(states, steps, i, j - 1);
    }
  }

  lemma {:induction false} TakenOrComing(states: seq<State>, steps: seq<Step>, i: nat, j: nat)
    requires IsRun(states, steps) && i <= j < |states| && states[i].loop == Exited && ReloadComing(states[i])
    ensures ReloadComing(states[j]) || states[i].pending !! states[j].pending
    decreases j
  {
    if i < j {
      TakenOrComing(states, steps, i, j - 1);
      ExitedForGood(states, steps, i, j - 1);
      RunInv(states, steps, i);
      NotedGrows(states, steps, i, j - 1);
      TakenStep(states[j - 1], steps[j - 1], states[i].pending);
    }
  }

  lemma {:induction false} TakenStep(s: State, a: Step, waiting: set<nat>)
    requires s.loop == Exited && Enabled(s, a) && forall n | n in waiting :: n < |s.noted|
    requires ReloadComing(s) || waiting !! s.pending
    ensures ReloadComing(Next(s, a)) || waiting !! Next(s, a).pending
  {
  }

  lemma {:induction false} NotedGrows(states: seq<State>, steps: seq<Step>, i: nat, j: nat)
    requires IsRun(states, steps) && i <= j < |states|
    ensures |states[i].noted| <= |states[j].noted|
    decreases j
  {
    if i < j { NotedGrows(states, steps, i, j - 1); }
  }

  /**
   For every run and every state of it after the loop exited: a notification pending there is
   stranded for good iff no timer was set and no reload was about to take its batch.
   */
  lemma {:induction false} StrandedIff(states: seq<State>, steps: seq<Step>, i: nat, j: nat, n: nat)
    requires IsRun(states, steps) && i <= j < |states| && states[i].loop == Exited
    requires n in states[i].pending && AtRest(states[j])
    ensures n in states[j].pending <==> !ReloadComing(states[i])
  {
    assert !Enabled(states[j], Fire) && !Enabled(states[j], TakeBatch);
    if ReloadComing(states[i]) {
      TakenOrComing(states, steps, i, j);
    } else {
      NothingTaken(states, steps, i, j);
    }
  }

  // ----------------------------------------------------------------- overlapping reloads

  /** At most b reloads are between taking their batch and finishing, in every state. */
  ghost predicate Within(states: seq<State>, b: nat) { forall n | 0 <= n < |states| :: |states[n].reloads| <= b }

  /** The installed configuration never goes back to files read earlier. */
  ghost predicate NeverGoesBack(states: seq<State>) {
    forall i, j | 0 <= i <= j < |states| :: states[i].current <= states[j].current
  }

  /** A run that ends in s with at most two reloads at a time. */
  ghost predicate Ends(states: seq<State>, steps: seq<Step>, s: State) {
    IsRun(states, steps) && Within(states, 2) && states[|steps|] == s
  }

  lemma {:induction false} Extend(states: seq<State>, steps: seq<Step>, s: State, a: Step)
    requires Ends(states, steps, s) && Enabled(s, a) && |Next(s, a).reloads| <= 2
    ensures Ends(states + [Next(s, a)], steps + [a], Next(s, a))
  {
  }

  /** One file event followed through to a reload that has taken its batch. */
  lemma {:induction false} StartReload(states: seq<State>, steps: seq<Step>, s: State)
    returns (states': seq<State>, steps': seq<Step>, t: State)
    requires Ends(states, steps, s) && |s.reloads| <= 1
    requires s.loop == Waiting && !s.armed && s.starting == 0 && s.pending == {}
    ensures Ends(states', steps', t) && states <= states'
    ensures t == s.(noted := s.noted + [s.disk], batches := s.batches + [{|s.noted|}],
                    reloads := s.reloads + [Loading({|s.noted|})])
  {
    var s1 := Next(s, FileEvent);
    Extend(states, steps, s, FileEvent);
    var s2 := Next(s1, StopTimer);
    Extend(states + [s1], steps + [FileEvent], s1, StopTimer);
    var s3 := Next(s2, ArmTimer);
    Extend(states + [s1] + [s2], steps + [FileEvent] + [StopTimer], s2, ArmTimer);
    states', steps' := states + [s1] + [s2] + [s3], steps + [FileEvent] + [StopTimer] + [ArmTimer];
    states', steps', t := FireAndTake(states', steps', s3);
    assert {} + {|s.noted|} == {|s.noted|};
  }

  lemma {:induction false} FireAndTake(states: seq<State>, steps: seq<Step>, s: State)
    returns (states': seq<State>, steps': seq<Step>, t: State)
    requires Ends(states, steps, s) && |s.reloads| <= 1 && s.armed && s.starting == 0
    ensures Ends(states', steps', t) && states <= states'
    ensures t == s.(armed := false, batches := s.batches + [s.pending], pending := {},
                    reloads := s.reloads + [Loading(s.pending)])
  {
    var s1 := Next(s, Fire);
    Extend(states, steps, s, Fire);
    t := Next(s1, TakeBatch);
    Extend(states + [s1], steps + [Fire], s1, TakeBatch);
    states', steps' := states + [s1] + [t], steps + [Fire] + [TakeBatch];
  }

  /** One reload has read the files, which are then edited, and a second one has read them again. */
  lemma {:induction false} TwoReads(s0: State) returns (states: seq<State>, steps: seq<Step>, s: State)
    requires Init(s0)
    ensures Ends(states, steps, s) && states[0] == s0
    ensures s.pending == {} && s.loop == Waiting && s.disk == s0.disk + 1 && s.current == s0.current
    ensures s.reloads == [Loaded({0}, s0.disk, true), Loaded({1}, s0.disk + 1, true)]
    ensures !s.armed && !s.token && s.starting == 0 && s.sending == 0
  {
    assert Ends([s0], [], s0);
    states, steps, s := StartReload([s0], [], s0);
    var a := ReadFiles(0, true);
    Extend(states, steps, s, a);
    states, steps, s := states + [Next(s, a)], steps + [a], Next(s, a);
    Extend(states, steps, s, Edit);
    states, steps, s := states + [Next(s, Edit)], steps + [Edit], Next(s, Edit);
    states, steps, s := StartReload(states, steps, s);
    var b := ReadFiles(1, true);
    Extend(states, steps, s, b);
    states, steps, s := states + [Next(s, b)], steps + [b], Next(s, b);
  }

  /**
   The installed configuration is not always the newest one read: two overlapping reloads can
   finish in the opposite order, leaving the older files in use with nothing left to do.
   */
  lemma {:induction false} OlderReadCanWin(s0: State) returns (states: seq<State>, steps: seq<Step>)
    requires Init(s0)
    ensures IsRun(states, steps) && states[0] == s0 && Within(states, 2) && !NeverGoesBack(states)
    ensures var s := states[|steps|];
            AtRest(s) && s.loop == Waiting && s.pending == {} && s.disk == s0.disk + 1 && s.current == s0.disk
  {
    var s;
    states, steps, s := TwoReads(s0);
    var t := Next(s, Install(1));
    Extend(states, steps, s, Install(1));
    var u := Next(t, Install(0));
    Extend(states + [t], steps + [Install(1)], t, Install(0));
    states, steps := states + [t] + [u], steps + [Install(1)] + [Install(0)];
    assert u.reloads == [] && states[|steps|] == u && states[|steps| - 1] == t;
  }

  /** The installed version trails the files, and a finished read is no older than it. */
  ghost predicate Ahead(s: State) {
    && s.current <= s.disk
    && forall r | r in s.reloads && r.Loaded? :: s.current <= r.version <= s.disk
  }

  lemma {:induction false} AheadStep(s: State, a: Step)
    requires Ahead(s) && Enabled(s, a) && |s.reloads| <= 1 && |Next(s, a).reloads| <= 1
    ensures Ahead(Next(s, a)) && s.current <= Next(s, a).current
  {
    var t := Next(s, a);
    match a
    case ReadFiles(k, ok) =>
      forall r | r in t.reloads ensures r in s.reloads || r == Loaded(s.reloads[k].batch, s.disk, ok) {}
    case Install(k) =>
      assert s.reloads[k] in s.reloads;
      assert t.reloads == [];
    case Reject(k) => forall r | r in t.reloads ensures r in s.reloads {}
    case _ =>
  }

  /** Without overlapping reloads the installed configuration never goes back to older files. */
  lemma {:induction false} NoOverlapNeverGoesBack(states: seq<State>, steps: seq<Step>, i: nat, j: nat)
    requires IsRun(states, steps) && i <= j < |states| && states[0].current <= states[0].disk && Within(states, 1)
    ensures Ahead(states[j]) && states[i].current <= states[j].current
    decreases j
  {
    if j > 0 {
      NoOverlapNeverGoesBack(states, steps, if i == j then j - 1 else i, j - 1);
      AheadStep(states[j - 1], steps[j - 1]);
    }
  }

  /** Every run with at most b reloads at a time never goes back iff b is at most one. */
  lemma {:induction false} NeverGoesBackIff(b: nat)
    ensures (forall states: seq<State>, steps: seq<Step>
               | IsRun(states, steps) && states[0].current <= states[0].disk && Within(states, b) :: NeverGoesBack(states))
            <==> b <= 1
  {
    if b <= 1 {
      forall states: seq<State>, steps: seq<Step>
        | IsRun(states, steps) && states[0].current <= states[0].disk && Within(states, b)
        ensures NeverGoesBack(states)
      {
        forall i: nat, j: nat | i <= j < |states| ensures states[i].current <= states[j].current {
          NoOverlapNeverGoesBack(states, steps, i, j);
        }
      }
    } else {
      var s0 := State(Waiting, false, false, 0, 0, [], {}, [], [], 0, 0);
      var states, steps := OlderReadCanWin(s0);
      assert Within(states, b);
    }
  }

  // ------------------------------------------------------ changes reach the configuration

  /** Notification n waits, is being reloaded, or its change is in the installed configuration. */
  ghost predicate Served(s: State, n: nat)
    requires n < |s.noted|
  {
    n in s.pending || s.noted[n] <= s.current || exists r :: r in s.reloads && n in r.batch
  }

  ghost predicate AllServed(s: State) { forall n: nat | n < |s.noted| :: Served(s, n) }

  lemma {:induction false} ServedStep(s: State, a: Step, n: nat)
    requires Inv(s) && Ahead(s) && AllServed(s) && |s.reloads| <= 1
    requires Enabled(s, a) && !a.Reject? && n < |Next(s, a).noted|
    ensures Served(Next(s, a), n)
  {
    var t := Next(s, a);
    if n < |s.noted| {
      assert Served(s, n);
      match a
      case TakeBatch =>
        assert Loading(s.pending) == t.reloads[|s.reloads|];
        forall r | r in s.reloads ensures r in t.reloads {}
      case ReadFiles(k, ok) => assert t.reloads == [Loaded(s.reloads[0].batch, s.disk, ok)] && s.reloads == [s.reloads[0]];
      case Install(k) => assert s.reloads == [s.reloads[0]] && s.reloads[0] in s.reloads;
      case _ =>
    }
  }

  lemma {:induction false} RunServed(states: seq<State>, steps: seq<Step>, i: nat)
    requires IsRun(states, steps) && i < |states| && states[0].current <= states[0].disk && Within(states, 1)
    requires forall k | 0 <= k < |steps| :: !steps[k].Reject?
    ensures AllServed(states[i])
  {
    if i > 0 {
      RunServed(states, steps, i - 1);
      RunInv(states, steps, i - 1);
      NoOverlapNeverGoesBack(states, steps, i - 1, i - 1);
      forall n: nat | n < |states[i].noted| ensures Served(states[i], n) {
        ServedStep(states[i - 1], steps[i - 1], n);
      }
    }
  }

  /**
   In every run without overlapping and without rejected reloads: at rest with the loop running,
   every change ever notified is in the installed configuration.
   */
  lemma {:induction false} ChangesInstalled(states: seq<State>, steps: seq<Step>, i: nat, n: nat)
    requires IsRun(states, steps) && i < |states| && states[0].current <= states[0].disk && Within(states, 1)
    requires forall k | 0 <= k < |steps| :: !steps[k].Reject?
    requires AtRest(states[i]) && states[i].loop != Exited && n < |states[i].noted|
    ensures states[i].noted[n] <= states[i].current
  {
    RunInv(states, steps, i);
    RestMeansReloaded(states[i]);
    RunServed(states, steps, i);
    assert Served(states[i], n);
  }

  // ------------------------------------------------------- what the configuration can be

  /** Step k read the files at this version and accepted them. */
  ghost predicate ReadAt(states: seq<State>, steps: seq<Step>, k: int, version: nat) {
    0 <= k < |steps| && k < |states| && steps[k].ReadFiles? && steps[k].accepted && states[k].disk == version
  }

  lemma {:induction false} AcceptedStep(s: State, a: Step, r: Reload)
    requires Enabled(s, a) && r in Next(s, a).reloads && r.Loaded? && r.accepted
    ensures r in s.reloads || (a.ReadFiles? && a.accepted && r.version == s.disk)
  {
  }

  lemma {:induction false} AcceptedOrigin(states: seq<State>, steps: seq<Step>, i: nat, r: Reload) returns (k: nat)
    requires IsRun(states, steps) && i < |states| && r in states[i].reloads && r.Loaded? && r.accepted
    ensures k < i && ReadAt(states, steps, k, r.version)
  {
    AcceptedStep(states[i - 1], steps[i - 1], r);
    if r in states[i - 1].reloads {
      k := AcceptedOrigin(states, steps, i - 1, r);
    } else {
      k := i - 1;
    }
  }

  lemma {:induction false} CurrentStays(s: State, a: Step)
    requires Enabled(s, a)
    ensures if a.Install? then s.reloads[a.k] in s.reloads && Next(s, a).current == s.reloads[a.k].version
            else Next(s, a).current == s.current
  {
  }

  /** In every run the configuration in use is the initial one or one that an earlier reload read and accepted. */
  lemma {:induction false} CurrentOrigin(states: seq<State>, steps: seq<Step>, i: nat)
    requires IsRun(states, steps) && i < |states|
    ensures states[i].current == states[0].current || exists k :: k < i && ReadAt(states, steps, k, states[i].current)
  {
    if i > 0 {
      CurrentOrigin(states, steps, i - 1);
      CurrentStays(states[i - 1], steps[i - 1]);
      if steps[i - 1].Install? {
        var k := AcceptedOrigin(states, steps, i - 1, states[i - 1].reloads[steps[i - 1].k]);
        assert ReadAt(states, steps, k, states[i].current);
      }
    }
  }
}
