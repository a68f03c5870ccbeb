/**
 The life of one cloud worker: one row, one machine, one provisioning job, and any
 number of delete requests and health checks that race with it (rqueue/worker_jobs.go,
 admin/handlers_workers.go).

 Each SQL statement is one atomic step; its WHERE clause is the only synchronisation.
 The admin handler reads the row and marks it in two statements, as the code does.
 Provider and SQL calls succeed, except that creating the machine may fail, waiting may
 time out, a delete job may not be queued, and an attempt of it may fail and be retried.
 */
module WorkerLifecycle {
  import opened Wrappers

  datatype Status = Provisioning | Active | Failed | Deleting | Deleted

  /** `realId` is false while the row holds a "pending-" id; `hasIp` says that the address is not empty. */
  datatype Row = Row(status: Status, realId: bool, hasIp: bool, deleted: bool)

  datatype Machine = NotCreated | Up | Destroyed

  /** How the provisioning job ended. The last two have executed the finalising update. */
  datatype Ending = NoMachine | NoAddress | NoSsh | Finalised | CleanedUp

  datatype Provision =
    | Waiting            // the job has not called the provider yet
    | Created            // the machine exists and has no address yet
    | Addressed          // the address is known and not yet persisted
    | Persisted          // waiting for SSH
    | Failing(e: Ending) // about to mark the row failed
    | Cleaning           // the finalising update hit no row: about to destroy the machine
    | Ended(e: Ending)

  /** A delete request: the handler's two statements, then the job's two effects. */
  datatype Stage = Read | Marked | Rejected | JobQueued | CloudDone | Completed

  /** `sawRealId` and `sawIp` are what the handler read; `current` and `afterFinal` record the moment of its mark. */
  datatype Request = Request(stage: Stage, sawRealId: bool, sawIp: bool, current: bool, afterFinal: bool)

  /** `heals` holds the status that each health check read, until it has written its finding. */
  datatype State = State(row: Row, machine: Machine, prov: Provision, requests: seq<Request>,
                         heals: map<nat, Option<Status>>, touched: bool)

  const INITIAL := State(Row(Provisioning, false, false, false), NotCreated, Waiting, [], map[], false)

  datatype Label =
    | CreateWorker(ok: bool)
    | AddressArrives
    | AddressTimesOut
    | Persist
    | SshTimesOut
    | MarkFailed
    | Finalise
    | CleanUp
    | ReadRow
    | MarkDeleting(i: nat)
    | QueueJob(i: nat, ok: bool)
    | DeleteMachine(i: nat)
    | AttemptFails(i: nat)
    | SoftDelete(i: nat)
    | HealthRead(h: nat)
    | HealthWrite(h: nat, reachable: bool)

  // ---------- The statements ----------

  function PersistRow(row: Row): Row {
    if row.deleted then row else row.(realId := true, hasIp := true)
  }

  predicate FinaliseHits(row: Row) {
    row.status.Provisioning? && !row.deleted
  }

  function FinaliseRow(row: Row): Row {
    if FinaliseHits(row) then row.(realId := true, status := Active, hasIp := true) else row
  }

  /** Writes back the address that the handler read. */
  function MarkDeletingRow(row: Row, ip: bool): Row {
    if row.deleted then row else row.(status := Deleting, hasIp := ip)
  }

  function SoftDeleteRow(row: Row): Row {
    if row.deleted then row else row.(deleted := true, status := Deleted)
  }

  /** Has no guard on `deleted_at`, like the health check's write. */
  function FailRow(row: Row): Row {
    row.(status := Failed)
  }

  predicate HealthSelects(row: Row) {
    !row.status.Failed? && !row.status.Deleted? && !row.status.Deleting? && row.hasIp && !row.deleted
  }

  // ---------- Steps ----------

  predicate At(s: State, i: nat, stage: Stage) {
    i < |s.requests| && s.requests[i].stage == stage
  }

  predicate Enabled(s: State, l: Label) {
    match l
    case CreateWorker(_) => s.prov.Waiting?
    case AddressArrives => s.prov.Created?
    case AddressTimesOut => s.prov.Created?
    case Persist => s.prov.Addressed?
    case SshTimesOut => s.prov.Persisted?
    case MarkFailed => s.prov.Failing?
    case Finalise => s.prov.Persisted?
    case CleanUp => s.prov.Cleaning?
    case ReadRow => true
    case MarkDeleting(i) => At(s, i, Read)
    case QueueJob(i, _) => At(s, i, Marked)
    case DeleteMachine(i) => At(s, i, JobQueued)
    case AttemptFails(i) => At(s, i, CloudDone)
    case SoftDelete(i) => At(s, i, CloudDone)
    case HealthRead(h) => h !in s.heals && HealthSelects(s.row)
    case HealthWrite(h, _) => h in s.heals && s.heals[h].Some?
  }

  /** Whether the finalising update has been executed. */
  predicate PastFinal(prov: Provision) {
    prov.Cleaning? || (prov.Ended? && (prov.e.Finalised? || prov.e.CleanedUp?))
  }

  function Destroy(m: Machine): Machine {
    if m.Up? then Destroyed else m
  }

  function SetRequest(s: State, i: nat, stage: Stage): State
    requires i < |s.requests|
  {
    s.(requests := s.requests[i := s.requests[i].(stage := stage)])
  }

  /** `touched` records that a statement other than the finalising update has written the status. */
  function Step(s: State, l: Label): State
    requires Enabled(s, l)
  {
    match l
    case CreateWorker(ok) => if ok then s.(machine := Up, prov := Created) else s.(prov := Failing(NoMachine))
    case AddressArrives => s.(prov := Addressed)
    case AddressTimesOut => s.(prov := Failing(NoAddress))
    case Persist => s.(row := PersistRow(s.row), prov := Persisted)
    case SshTimesOut => s.(prov := Failing(NoSsh))
    case MarkFailed => s.(row := FailRow(s.row), prov := Ended(s.prov.e), touched := true)
    case Finalise => s.(row := FinaliseRow(s.row), prov := if FinaliseHits(s.row) then Ended(Finalised) else Cleaning)
    case CleanUp => s.(machine := Destroy(s.machine), prov := Ended(CleanedUp))
    case ReadRow => s.(requests := s.requests + [Request(Read, s.row.realId, s.row.hasIp, false, false)])
    case MarkDeleting(i) =>
      var r := s.requests[i];
      if s.row.deleted then SetRequest(s, i, Rejected)
      else s.(row := MarkDeletingRow(s.row, r.sawIp), touched := true,
              requests := s.requests[i := r.(stage := Marked, current := r.sawRealId == s.row.realId,
                                             afterFinal := PastFinal(s.prov))])
    case QueueJob(i, ok) => SetRequest(s, i, if ok then JobQueued else Rejected)
    case DeleteMachine(i) =>
      SetRequest(s, i, CloudDone).(machine := if s.requests[i].sawRealId then Destroy(s.machine) else s.machine)
    case AttemptFails(i) => SetRequest(s, i, JobQueued)
    case SoftDelete(i) => SetRequest(s, i, Completed).(row := SoftDeleteRow(s.row))
    case HealthRead(h) => s.(heals := s.heals[h := Some(s.row.status)])
    case HealthWrite(h, reachable) =>
      var heals := s.heals[h := None];
      if !s.heals[h].value.Active? && reachable
      then s.(row := s.row.(status := Active), heals := heals, touched := true)
      else s.(heals := heals)
  }

  function Execute(s: State, run: seq<Label>): Option<State>
    decreases |run|
  {
    if run == [] then Some(s)
    else if Enabled(s, run[0]) then Execute(Step(s, run[0]), run[1..])
    else None
  }

  // ---------- The invariant ----------

  /** The mark has been executed, so that the job may be queued or run. */
  predicate WasMarked(r: Request) {
    r.stage.Marked? || r.stage.JobQueued? || r.stage.CloudDone? || r.stage.Completed?
  }

  /** A delete job that reaches the provider: the others skip the cloud deletion. */
  predicate Reaches(r: Request) {
    r.sawRealId && (r.stage.JobQueued? || r.stage.CloudDone? || r.stage.Completed?)
  }

  /** Past persisting the id, whichever way the job went on. */
  predicate PastPersist(prov: Provision) {
    prov.Persisted? || PastFinal(prov) || ((prov.Failing? || prov.Ended?) && prov.e.NoSsh?)
  }

  predicate MachineExists(prov: Provision) {
    prov.Created? || prov.Addressed? || prov.Persisted? || prov.Cleaning?
        || ((prov.Failing? || prov.Ended?) && !prov.e.NoMachine?)
  }

  predicate EndedWith(s: State, e: Ending) {
    s.prov == Ended(e)
  }

  ghost predicate RequestOk(s: State, r: Request) {
    && (r.sawRealId ==> PastPersist(s.prov))
    && (WasMarked(r) ==> s.touched)
    && (r.afterFinal ==> PastFinal(s.prov))
    // an id that was still pending when the row was marked had not been persisted, so nothing was finalised yet
    && (WasMarked(r) && r.current && !r.sawRealId ==> !r.afterFinal)
    // a mark before the finalising update makes it miss
    && (WasMarked(r) && !r.afterFinal ==> !EndedWith(s, Finalised))
  }

  ghost predicate Inv(s: State) {
    && (s.row.status.Provisioning? <==> !s.touched && !EndedWith(s, Finalised))
    && (s.row.deleted ==> s.touched)
    && (s.row.realId ==> PastPersist(s.prov))
    && (PastPersist(s.prov) && !s.row.realId ==> s.row.deleted)
    && (s.machine.NotCreated? <==> !MachineExists(s.prov))
    && (s.machine.Destroyed? ==> EndedWith(s, CleanedUp) || exists r :: r in s.requests && Reaches(r))
    && (EndedWith(s, CleanedUp) ==> !s.machine.Up?)
    && (forall r :: r in s.requests && Reaches(r) && !r.stage.JobQueued? ==> !s.machine.Up?)
    && (s.prov.Failing? ==> s.prov.e.NoMachine? || s.prov.e.NoAddress? || s.prov.e.NoSsh?)
    && (s.prov.Cleaning? || EndedWith(s, CleanedUp) ==> s.touched)
    && forall r :: r in s.requests ==> RequestOk(s, r)
  }

  lemma ReplacedRequests(requests: seq<Request>, i: nat, r: Request, x: Request)
    requires i < |requests| && x in requests[i := r]
    ensures x == r || x in requests
  {
  }

  /** One request moves on, together with whatever its step does to the row and the machine. */
  lemma RequestStepKeepsInv(s: State, l: Label)
    requires Inv(s) && Enabled(s, l)
    requires l.MarkDeleting? || l.QueueJob? || l.DeleteMachine? || l.AttemptFails? || l.SoftDelete?
    ensures Inv(Step(s, l))
  {
    var s' := Step(s, l);
    var r, r' := s.requests[l.i], s'.requests[l.i];
    assert s'.requests == s.requests[l.i := r'];
    assert r in s.requests && RequestOk(s, r);
    forall x | x in s'.requests ensures RequestOk(s', x) {
      ReplacedRequests(s.requests, l.i, r', x);
    }
    forall x | x in s'.requests && Reaches(x) && !x.stage.JobQueued? ensures !s'.machine.Up? {
      ReplacedRequests(s.requests, l.i, r', x);
    }
    if s'.machine.Destroyed? && !EndedWith(s', CleanedUp) {
      ReachingRequestRemains(s, s', l.i);
    }
  }

  lemma ReachingRequestRemains(s: State, s': State, i: nat)
    requires i < |s.requests| && i < |s'.requests| && s'.requests == s.requests[i := s'.requests[i]]
    requires (exists r :: r in s.requests && Reaches(r)) || Reaches(s'.requests[i])
    requires Reaches(s.requests[i]) ==> Reaches(s'.requests[i])
    ensures exists r :: r in s'.requests && Reaches(r)
  {
    if Reaches(s'.requests[i]) {
      assert s'.requests[i] in s'.requests;
    } else {
      var r :| r in s.requests && Reaches(r);
      var k :| 0 <= k < |s.requests| && s.requests[k] == r;
      assert s'.requests[k] in s'.requests;
    }
  }

  lemma OtherStepKeepsInv(s: State, l: Label)
    requires Inv(s) && Enabled(s, l)
    requires !(l.MarkDeleting? || l.QueueJob? || l.DeleteMachine? || l.AttemptFails? || l.SoftDelete?)
    ensures Inv(Step(s, l))
  {
    var s' := Step(s, l);
    forall x | x in s'.requests ensures RequestOk(s', x) {
      if x in s.requests {
        assert RequestOk(s, x);
      }
    }
    if s'.machine.Destroyed? && s.machine.Destroyed? && !EndedWith(s', CleanedUp) {
      var r :| r in s.requests && Reaches(r);
      assert r in s'.requests;
    }
  }

  lemma StepKeepsInv(s: State, l: Label)
    requires Inv(s) && Enabled(s, l)
    ensures Inv(Step(s, l))
  {
    if l.MarkDeleting? || l.QueueJob? || l.DeleteMachine? || l.AttemptFails? || l.SoftDelete? {
      RequestStepKeepsInv(s, l);
    } else {
      OtherStepKeepsInv(s, l);
    }
  }

  lemma {:induction false} ExecuteKeepsInv(s: State, run: seq<Label>)
    requires Inv(s) && Execute(s, run).Some?
    ensures Inv(Execute(s, run).value)
    decreases |run|
  {
    if run != [] {
      StepKeepsInv(s, run[0]);
      ExecuteKeepsInv(Step(s, run[0]), run[1..]);
    }
  }

  // ---------- Main results ----------

  /** The status 'provisioning' is never restored, by any statement: the finalising guard relies on it. */
  lemma {:induction false} NothingRestoresProvisioning(s: State, run: seq<Label>)
    requires Execute(s, run).Some? && Execute(s, run).value.row.status.Provisioning?
    ensures s.row.status.Provisioning?
    decreases |run|
  {
    if run != [] {
      NothingRestoresProvisioning(Step(s, run[0]), run[1..]);
    }
  }

  predicate ReachedFinal(s: State) {
    EndedWith(s, Finalised) || EndedWith(s, CleanedUp)
  }

  /**
   No orphan: provisioning has gone through its finalising update, and some delete job has completed whose
   request marked the row while the id it had read was still the row's. Then no machine is left.
   */
  lemma NoOrphanMachine(run: seq<Label>, i: nat)
    requires Execute(INITIAL, run).Some?
    requires var s := Execute(INITIAL, run).value; ReachedFinal(s) && At(s, i, Completed) && s.requests[i].current
    ensures Execute(INITIAL, run).value.machine == Destroyed
  {
    ExecuteKeepsInv(INITIAL, run);
    var s := Execute(INITIAL, run).value;
    assert s.requests[i] in s.requests && RequestOk(s, s.requests[i]);
  }

  /** No statement of the handler or of a delete job is still to come, and at least one delete job has completed. */
  ghost predicate DeletesSettled(s: State) {
    && (forall r :: r in s.requests ==> !r.stage.Marked? && !r.stage.JobQueued? && !r.stage.CloudDone?)
    && (exists r :: r in s.requests && r.stage.Completed?)
  }

  /** The handler read the id before it was persisted and marked the row after it was finalised. */
  predicate Overtaken(r: Request) {
    !r.sawRealId && r.afterFinal
  }

  /**
   Exactly when a machine is left behind although a delete job has completed: every completed request was
   overtaken by the whole of provisioning, or provisioning timed out and no completed request read a real id.
   */
  lemma OrphanExactly(run: seq<Label>)
    requires Execute(INITIAL, run).Some?
    requires var s := Execute(INITIAL, run).value; s.prov.Ended? && DeletesSettled(s)
    ensures var s := Execute(INITIAL, run).value;
            && (ReachedFinal(s) ==>
                  (s.machine.Up? <==>
                     && EndedWith(s, Finalised)
                     && forall r :: r in s.requests && r.stage.Completed? ==> Overtaken(r)))
            && (EndedWith(s, NoAddress) || EndedWith(s, NoSsh) ==>
                  (s.machine.Up? <==> forall r :: r in s.requests && r.stage.Completed? ==> !r.sawRealId))
            && (EndedWith(s, NoMachine) ==> s.machine.NotCreated?)
  {
    ExecuteKeepsInv(INITIAL, run);
    var s := Execute(INITIAL, run).value;
    forall r | r in s.requests ensures RequestOk(s, r) {}
  }

  // ---------- When a live machine is destroyed ----------

  /** The state after the first `i` labels. */
  function StateAt(run: seq<Label>, i: nat): State
    requires i <= |run| && Execute(INITIAL, run).Some?
  {
    PrefixRuns(INITIAL, run, i);
    Execute(INITIAL, run[..i]).value
  }

  lemma {:induction false} PrefixRuns(s: State, run: seq<Label>, i: nat)
    requires i <= |run| && Execute(s, run).Some?
    ensures Execute(s, run[..i]).Some?
    ensures Execute(Execute(s, run[..i]).value, run[i..]) == Execute(s, run)
    decreases |run|
  {
    if i == 0 {
      assert run[0..] == run;
    } else {
      assert run[..i][1..] == run[1..][..i - 1] && run[1..][i - 1..] == run[i..];
      PrefixRuns(Step(s, run[0]), run[1..], i - 1);
    }
  }

  lemma StartsAtInitial(run: seq<Label>)
    requires Execute(INITIAL, run).Some?
    ensures StateAt(run, 0) == INITIAL
  {
    assert run[..0] == [];
  }

  lemma EnabledThere(run: seq<Label>, i: nat)
    requires i < |run| && Execute(INITIAL, run).Some?
    ensures Enabled(StateAt(run, i), run[i])
  {
    PrefixRuns(INITIAL, run, i);
    assert run[i..][0] == run[i];
  }

  lemma StepsThere(run: seq<Label>, i: nat)
    requires i < |run| && Execute(INITIAL, run).Some? && Enabled(StateAt(run, i), run[i])
    ensures StateAt(run, i + 1) == Step(StateAt(run, i), run[i])
  {
    PrefixRuns(INITIAL, run, i);
    ExecuteSnoc(INITIAL, run[..i], run[i]);
    assert run[..i] + [run[i]] == run[..i + 1];
  }

  lemma StateAtNext(run: seq<Label>, i: nat)
    requires i < |run| && Execute(INITIAL, run).Some?
    ensures Enabled(StateAt(run, i), run[i]) && StateAt(run, i + 1) == Step(StateAt(run, i), run[i])
    ensures Inv(StateAt(run, i))
  {
    PrefixRuns(INITIAL, run, i);
    EnabledThere(run, i);
    StepsThere(run, i);
    ExecuteKeepsInv(INITIAL, run[..i]);
  }

  /**
   A statement that takes the status away from the finalising update: a mark, or the healing of a row that was
   not active.
   */
  predicate Interferes(s: State, l: Label) {
    || (l.MarkDeleting? && !s.row.deleted)
    || (l.HealthWrite? && l.reachable && l.h in s.heals && s.heals[l.h].Some? && !s.heals[l.h].value.Active?)
  }

  ghost predicate InterferedBefore(run: seq<Label>, i: nat)
    requires i <= |run| && Execute(INITIAL, run).Some?
  {
    exists k :: 0 <= k < i && Interferes(StateAt(run, k), run[k])
  }

  predicate GaveUp(prov: Provision) {
    (prov.Failing? || prov.Ended?) && (prov.e.NoMachine? || prov.e.NoAddress? || prov.e.NoSsh?)
  }

  lemma StepTouches(s: State, l: Label)
    requires Enabled(s, l)
    ensures Step(s, l).touched <==> s.touched || Interferes(s, l) || l.MarkFailed?
    ensures GaveUp(s.prov) || l.MarkFailed? ==> GaveUp(Step(s, l).prov) || !Inv(s)
  {
  }

  /** The status has been written exactly if something has interfered, as long as provisioning has not given up. */
  lemma {:induction false} TouchedExactly(run: seq<Label>, i: nat)
    requires i <= |run| && Execute(INITIAL, run).Some?
    ensures !GaveUp(StateAt(run, i).prov) ==> (StateAt(run, i).touched <==> InterferedBefore(run, i))
  {
    if i > 0 {
      TouchedExactly(run, i - 1);
      StateAtNext(run, i - 1);
      StepTouches(StateAt(run, i - 1), run[i - 1]);
      assert InterferedBefore(run, i) <==> InterferedBefore(run, i - 1) || Interferes(StateAt(run, i - 1), run[i - 1]);
    }
  }

  /** The finalising update has run and has hit no row: the machine is about to be destroyed, or it has been. */
  predicate Missed(s: State) {
    s.prov.Cleaning? || EndedWith(s, CleanedUp)
  }

  lemma {:induction false} FinalisedWhere(run: seq<Label>, i: nat) returns (f: nat)
    requires i <= |run| && Execute(INITIAL, run).Some? && PastFinal(StateAt(run, i).prov)
    ensures f < i && run[f] == Finalise && (Missed(StateAt(run, i)) <==> !FinaliseHits(StateAt(run, f).row))
  {
    StartsAtInitial(run);
    StateAtNext(run, i - 1);
    if run[i - 1] == Finalise {
      f := i - 1;
    } else {
      f := FinalisedWhere(run, i - 1);
    }
  }

  lemma {:induction false} FinaliseIsFinal(run: seq<Label>, f: nat, i: nat)
    requires f < i <= |run| && Execute(INITIAL, run).Some? && run[f] == Finalise
    ensures PastFinal(StateAt(run, i).prov)
    ensures Missed(StateAt(run, i)) <==> !FinaliseHits(StateAt(run, f).row)
  {
    StateAtNext(run, i - 1);
    if f < i - 1 {
      FinaliseIsFinal(run, f, i - 1);
    }
  }

  /** The finalising update misses exactly if a mark or a healing write came before it. */
  lemma FinaliseMissesExactly(run: seq<Label>, f: nat)
    requires f < |run| && Execute(INITIAL, run).Some? && run[f] == Finalise
    ensures FinaliseHits(StateAt(run, f).row) <==> !InterferedBefore(run, f)
  {
    StateAtNext(run, f);
    TouchedExactly(run, f);
  }

  /**
   Provisioning destroys its own, ready machine exactly if a mark or a healing write ran before the finalising
   update.
   */
  lemma CleansUpExactly(run: seq<Label>)
    requires Execute(INITIAL, run).Some?
    ensures Missed(Execute(INITIAL, run).value)
            <==> exists f :: 0 <= f < |run| && run[f] == Finalise && InterferedBefore(run, f)
  {
    assert run[..|run|] == run;
    if Missed(Execute(INITIAL, run).value) {
      var f := FinalisedWhere(run, |run|);
      FinaliseMissesExactly(run, f);
    }
    forall f | 0 <= f < |run| && run[f] == Finalise && InterferedBefore(run, f) ensures Missed(StateAt(run, |run|)) {
      FinaliseMissesExactly(run, f);
      FinaliseIsFinal(run, f, |run|);
    }
  }

  ghost predicate NoMarks(run: seq<Label>) {
    forall i :: 0 <= i < |run| ==> !run[i].MarkDeleting?
  }

  /**
   A health check that reads after the id was stored and writes before the finalising update, having reached
   the worker.
   */
  ghost predicate HealedInBetween(run: seq<Label>, p: nat, q: nat, w: nat, f: nat, h: nat) {
    && p < q < w < f < |run| && run[p] == Persist && run[f] == Finalise
    && run[q] == HealthRead(h) && run[w] == HealthWrite(h, true)
  }

  /** The read that a health check's status comes from. */
  lemma {:induction false} ReadWhere(run: seq<Label>, i: nat, h: nat) returns (q: nat)
    requires i <= |run| && Execute(INITIAL, run).Some? && h in StateAt(run, i).heals
    ensures q < i && run[q] == HealthRead(h)
    ensures StateAt(run, i).heals[h].Some? ==> StateAt(run, i).heals[h].value == StateAt(run, q).row.status
  {
    StartsAtInitial(run);
    StateAtNext(run, i - 1);
    if run[i - 1] == HealthRead(h) {
      q := i - 1;
    } else {
      q := ReadWhere(run, i - 1, h);
    }
  }

  /** A health check reads once. */
  lemma {:induction false} ReadOnce(run: seq<Label>, q: nat, i: nat, h: nat)
    requires q < i <= |run| && Execute(INITIAL, run).Some? && run[q] == HealthRead(h)
    ensures h in StateAt(run, i).heals
    ensures StateAt(run, i).heals[h].Some? ==> StateAt(run, i).heals[h].value == StateAt(run, q).row.status
  {
    StateAtNext(run, i - 1);
    if q < i - 1 {
      ReadOnce(run, q, i - 1, h);
    }
  }

  /** An address is in the row only once it has been persisted. */
  lemma {:induction false} PersistedWhere(run: seq<Label>, i: nat) returns (p: nat)
    requires i <= |run| && Execute(INITIAL, run).Some? && NoMarks(run)
    requires StateAt(run, i).row.hasIp || StateAt(run, i).prov.Persisted?
    ensures p < i && run[p] == Persist
  {
    StartsAtInitial(run);
    StateAtNext(run, i - 1);
    if run[i - 1] == Persist {
      p := i - 1;
    } else {
      p := PersistedWhere(run, i - 1);
    }
  }

  lemma HealingNeedsARead(run: seq<Label>, w: nat, f: nat) returns (p: nat, q: nat)
    requires w < f < |run| && Execute(INITIAL, run).Some? && NoMarks(run)
    requires run[f] == Finalise && Interferes(StateAt(run, w), run[w])
    ensures HealedInBetween(run, p, q, w, f, run[w].h)
  {
    q := ReadWhere(run, w, run[w].h);
    StateAtNext(run, q);
    p := PersistedWhere(run, q);
  }

  lemma ReadAndWriteInterfere(run: seq<Label>, p: nat, q: nat, w: nat, f: nat, h: nat)
    requires Execute(INITIAL, run).Some? && HealedInBetween(run, p, q, w, f, h)
    ensures InterferedBefore(run, f)
  {
    StateAtNext(run, w);
    ReadOnce(run, q, w, h);
    if StateAt(run, q).row.status.Active? {
      StateAtNext(run, q);
      NotPastFinalBefore(run, q, f);
      TouchedExactly(run, q);
      assert InterferedBefore(run, q);
    } else {
      assert Interferes(StateAt(run, w), run[w]);
    }
  }

  /** Before the finalising update provisioning is neither over nor given up. */
  lemma {:induction false} NotPastFinalBefore(run: seq<Label>, i: nat, f: nat)
    requires i <= f < |run| && Execute(INITIAL, run).Some? && run[f] == Finalise
    ensures !PastFinal(StateAt(run, i).prov) && !GaveUp(StateAt(run, i).prov)
    decreases f - i
  {
    StateAtNext(run, i);
    if i < f {
      NotPastFinalBefore(run, i + 1, f);
    }
  }

  /**
   Without any delete request the machine is destroyed exactly if a health check reads the row after the address
   was stored, reaches the worker, and writes before the finalising update, and the clean-up has run.
   */
  lemma HealedWorkerIsDestroyedExactly(run: seq<Label>)
    requires Execute(INITIAL, run).Some? && NoMarks(run)
    ensures Missed(Execute(INITIAL, run).value) <==> exists p, q, w, f, h :: HealedInBetween(run, p, q, w, f, h)
    ensures Execute(INITIAL, run).value.machine.Destroyed? <==> EndedWith(Execute(INITIAL, run).value, CleanedUp)
  {
    assert run[..|run|] == run;
    NobodyReaches(run, |run|);
    if Missed(Execute(INITIAL, run).value) {
      var p, q, w, f, h := WhereHealed(run);
    }
    forall p, q, w, f, h | HealedInBetween(run, p, q, w, f, h) ensures Missed(Execute(INITIAL, run).value) {
      ReadAndWriteInterfere(run, p, q, w, f, h);
      CleansUpExactly(run);
    }
  }

  lemma WhereHealed(run: seq<Label>) returns (p: nat, q: nat, w: nat, f: nat, h: nat)
    requires Execute(INITIAL, run).Some? && NoMarks(run) && Missed(Execute(INITIAL, run).value)
    ensures HealedInBetween(run, p, q, w, f, h)
  {
    CleansUpExactly(run);
    f :| 0 <= f < |run| && run[f] == Finalise && InterferedBefore(run, f);
    w :| 0 <= w < f && Interferes(StateAt(run, w), run[w]);
    h := run[w].h;
    p, q := HealingNeedsARead(run, w, f);
  }

  lemma {:induction false} NobodyReaches(run: seq<Label>, i: nat)
    requires i <= |run| && Execute(INITIAL, run).Some? && NoMarks(run)
    ensures forall r :: r in StateAt(run, i).requests ==> r.stage.Read?
    ensures StateAt(run, i).machine.Destroyed? <==> EndedWith(StateAt(run, i), CleanedUp)
  {
    if i == 0 {
      assert run[..0] == [];
    } else {
      NobodyReaches(run, i - 1);
      StateAtNext(run, i - 1);
    }
  }

  // ---------- Atomic handlers ----------

  /** A statement of another participant, or a delete request whose read and mark have nothing in between. */
  datatype Action = Other(l: Label) | RequestDelete

  predicate ActionEnabled(s: State, a: Action) {
    a.Other? ==> !a.l.ReadRow? && !a.l.MarkDeleting? && Enabled(s, a.l)
  }

  function ActionLabels(s: State, a: Action): seq<Label> {
    match a
    case Other(l) => [l]
    case RequestDelete => [ReadRow, MarkDeleting(|s.requests|)]
  }

  function Act(s: State, a: Action): State
    requires ActionEnabled(s, a)
  {
    match a
    case Other(l) => Step(s, l)
    case RequestDelete => Step(Step(s, ReadRow), MarkDeleting(|s.requests|))
  }

  function ExecuteActions(s: State, actions: seq<Action>): Option<State>
    decreases |actions|
  {
    if actions == [] then Some(s)
    else if ActionEnabled(s, actions[0]) then ExecuteActions(Act(s, actions[0]), actions[1..])
    else None
  }

  /** Runs of actions are runs. */
  lemma {:induction false} ActionsAreRuns(s: State, actions: seq<Action>) returns (run: seq<Label>)
    requires ExecuteActions(s, actions).Some?
    ensures Execute(s, run) == ExecuteActions(s, actions)
    decreases |actions|
  {
    if actions == [] {
      run := [];
    } else {
      var rest := ActionsAreRuns(Act(s, actions[0]), actions[1..]);
      var labels := ActionLabels(s, actions[0]);
      run := labels + rest;
      assert run[1..] == labels[1..] + rest;
      assert labels[1..] == [] ==> run[1..] == rest;
      assert actions[0].RequestDelete? ==> run[1..][1..] == rest;
    }
  }

  ghost predicate AllCurrent(s: State) {
    Inv(s) && forall r :: r in s.requests && WasMarked(r) ==> r.current
  }

  lemma {:induction false} ActionsKeepCurrent(s: State, actions: seq<Action>)
    requires AllCurrent(s) && ExecuteActions(s, actions).Some?
    ensures AllCurrent(ExecuteActions(s, actions).value)
    decreases |actions|
  {
    if actions != [] {
      var s' := Act(s, actions[0]);
      match actions[0] {
        case Other(l) => StepKeepsInv(s, l);
        case RequestDelete =>
          StepKeepsInv(s, ReadRow);
          StepKeepsInv(Step(s, ReadRow), MarkDeleting(|s.requests|));
      }
      ActionKeepsCurrent(s, actions[0]);
      ActionsKeepCurrent(s', actions[1..]);
    }
  }

  lemma ActionKeepsCurrent(s: State, a: Action)
    requires AllCurrent(s) && ActionEnabled(s, a)
    ensures forall r :: r in Act(s, a).requests && WasMarked(r) ==> r.current
  {
    match a
    case Other(l) => StepKeepsCurrent(s, l);
    case RequestDelete => RequestIsCurrent(s);
  }

  /** Only the mark writes `current`. */
  lemma StepKeepsCurrent(s: State, l: Label)
    requires AllCurrent(s) && Enabled(s, l) && !l.ReadRow? && !l.MarkDeleting?
    ensures forall r :: r in Step(s, l).requests && WasMarked(r) ==> r.current
  {
    var s' := Step(s, l);
    forall k | 0 <= k < |s'.requests| && WasMarked(s'.requests[k]) ensures s'.requests[k].current {
      assert s.requests[k] in s.requests;
    }
  }

  lemma RequestIsCurrent(s: State)
    requires AllCurrent(s)
    ensures forall r :: r in Act(s, RequestDelete).requests && WasMarked(r) ==> r.current
  {
    var s' := Act(s, RequestDelete);
    forall k | 0 <= k < |s'.requests| && WasMarked(s'.requests[k]) ensures s'.requests[k].current {
      if k < |s.requests| {
        assert s.requests[k] in s.requests;
      }
    }
  }

  /** With the handler's read and mark taken as one step, a completed delete job leaves no machine. */
  lemma AtomicHandlersLeaveNoOrphan(actions: seq<Action>, i: nat)
    requires ExecuteActions(INITIAL, actions).Some?
    requires var s := ExecuteActions(INITIAL, actions).value; ReachedFinal(s) && At(s, i, Completed)
    ensures ExecuteActions(INITIAL, actions).value.machine == Destroyed
  {
    ActionsKeepCurrent(INITIAL, actions);
    var s := ExecuteActions(INITIAL, actions).value;
    assert s.requests[i] in s.requests && RequestOk(s, s.requests[i]);
  }

  // ---------- Runs that show the conditions are needed ----------

  /** Extends a run by one enabled label. */
  lemma Then(run: seq<Label>, s: State, l: Label) returns (run': seq<Label>, s': State)
    requires Execute(INITIAL, run) == Some(s) && Enabled(s, l)
    ensures run' == run + [l] && s' == Step(s, l) && Execute(INITIAL, run') == Some(s')
  {
    run', s' := run + [l], Step(s, l);
    ExecuteSnoc(INITIAL, run, l);
  }

  lemma {:induction false} ExecuteSnoc(s: State, run: seq<Label>, l: Label)
    requires Execute(s, run).Some? && Enabled(Execute(s, run).value, l)
    ensures Execute(s, run + [l]) == Some(Step(Execute(s, run).value, l))
    decreases |run|
  {
    if run == [] {
      assert [] + [l] == [l];
    } else {
      assert (run + [l])[1..] == run[1..] + [l];
      ExecuteSnoc(Step(s, run[0]), run[1..], l);
    }
  }

  /** The rest of the first delete request, once its handler has read the row. */
  lemma CompleteDelete(run: seq<Label>, s: State) returns (run': seq<Label>, s': State)
    requires Execute(INITIAL, run) == Some(s) && At(s, 0, Read) && !s.row.deleted
    ensures Execute(INITIAL, run') == Some(s') && At(s', 0, Completed) && s'.row.deleted && s'.prov == s.prov
    ensures s'.requests[0].current == (s.requests[0].sawRealId == s.row.realId)
    ensures s'.machine == if s.requests[0].sawRealId then Destroy(s.machine) else s.machine
  {
    run', s' := Then(run, s, MarkDeleting(0));
    run', s' := Then(run', s', QueueJob(0, true));
    run', s' := Then(run', s', DeleteMachine(0));
    run', s' := Then(run', s', SoftDelete(0));
  }

  /** A handler that is overtaken by provisioning deletes the row and leaves the machine. */
  lemma OvertakenHandlerLeavesMachine() returns (run: seq<Label>)
    ensures Execute(INITIAL, run).Some?
    ensures var s := Execute(INITIAL, run).value;
            ReachedFinal(s) && At(s, 0, Completed) && s.row.deleted && s.machine.Up?
  {
    var s := INITIAL;
    run := [];
    run, s := Then(run, s, ReadRow);
    run, s := Then(run, s, CreateWorker(true));
    run, s := Then(run, s, AddressArrives);
    run, s := Then(run, s, Persist);
    run, s := Then(run, s, Finalise);
    run, s := CompleteDelete(run, s);
  }

  /** Provisioning that times out before it has an address leaves its machine behind, even with an atomic handler. */
  lemma TimeoutLeavesMachine() returns (run: seq<Label>)
    ensures Execute(INITIAL, run).Some?
    ensures var s := Execute(INITIAL, run).value;
            EndedWith(s, NoAddress) && At(s, 0, Completed) && s.requests[0].current && s.row.deleted && s.machine.Up?
  {
    var s := INITIAL;
    run := [];
    run, s := Then(run, s, CreateWorker(true));
    run, s := Then(run, s, AddressTimesOut);
    run, s := Then(run, s, MarkFailed);
    run, s := Then(run, s, ReadRow);
    run, s := CompleteDelete(run, s);
  }

  /** A health check that heals the row first makes the finalising update miss, which destroys a live worker. */
  lemma HealedWorkerIsDestroyed() returns (run: seq<Label>)
    ensures Execute(INITIAL, run).Some?
    ensures var s := Execute(INITIAL, run).value;
            s.requests == [] && s.row == Row(Active, true, true, false) && s.machine.Destroyed?
  {
    var s := INITIAL;
    run := [];
    run, s := Then(run, s, CreateWorker(true));
    run, s := Then(run, s, AddressArrives);
    run, s := Then(run, s, Persist);
    run, s := Then(run, s, HealthRead(0));
    run, s := Then(run, s, HealthWrite(0, true));
    run, s := Then(run, s, Finalise);
    run, s := Then(run, s, CleanUp);
  }
}
