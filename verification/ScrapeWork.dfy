/**
 The completion protocol of scrape jobs across six files: the River worker's `Work`
 (rqueue/rqueue.go), the central writer, the exit monitor and the scrape jobs.

 One worker runs one job at a time, each under a fresh id. A run may time out, be
 cancelled or fail to submit while its pipeline and its monitor goroutine keep going,
 also after the next job has been registered. Every mutex section, channel operation,
 save call and return is a step of its own.
 */
module ScrapeWork {
  import opened Wrappers
  import opened Folds
  import opened ScrapeJobs
  import opened CentralWriter
  import P = ScrapePipeline

  /** A flush of one registration: untouched, between the mutex and the save, between the save and the send, sent. */
  datatype Flush =
    | NotTaken
    | Taken(job: Tracked, byMonitor: bool)
    | Saved(job: Tracked, byMonitor: bool, ok: bool)
    | Sent(job: Tracked, byMonitor: bool, ok: bool)

  datatype Reason = SubmitError | TimedOut | DeadlineExceeded | Cancelled

  /** Where `Work` stands. `Flushing` has passed the forced flush's mutex section. */
  datatype Phase =
    | Registered
    | Selecting
    | Forcing(reason: Reason)
    | Flushing(reason: Reason)
    | Awaiting(reason: Reason)

  datatype Outcome = ReturnedNil | ReturnedErr

  /**
   One registration. `received` and `saves` record the history of its channel and of its save calls,
   `leftFrom` where `Work` stood when it returned.
   */
  datatype Reg = Reg(
    riverJobID: int, keyword: string,
    pipe: P.Pipe, submitted: bool, exitCancelled: bool,
    flush: Flush, channel: Option<FlushResult>, received: seq<FlushResult>, saves: seq<Save>,
    outcome: Option<Outcome>, leftFrom: Option<Phase>)

  datatype Worker = Idle | Busy(id: string, phase: Phase)

  datatype Sys = Sys(slot: Option<Tracked>, worker: Worker, regs: map<string, Reg>)

  const INITIAL := Sys(None, Idle, map[])

  datatype Label =
    | Register(id: string, riverJobID: int, keyword: string, fast: bool, extractEmail: bool)
    | SubmitOk
    | SubmitFails
    | PipeStep(pid: string, l: P.Label)
    | MarkDone(pid: string)
    | SaveReturns(pid: string, ok: bool)
    | SendResult(pid: string)
    | ReceiveResult
    | ContextCloses
    | TimerFires
    | ContextEnds(deadline: bool)
    | ForceFlush
    | BeginWait
    | ReceiveForced
    | GraceExpires

  /** What `Work` returns for a result that it received after forcing a flush. */
  function Verdict(reason: Reason, result: FlushResult): Outcome {
    match reason
    case SubmitError => ReturnedErr
    case Cancelled => ReturnedErr
    case _ => if result.ok && result.count > 0 then ReturnedNil else ReturnedErr
  }

  function SaveOf(job: Tracked, ok: bool): Save {
    Save(job.riverJobID, job.keyword, job.entries, ok)
  }

  function ResultOf(job: Tracked, ok: bool): FlushResult {
    FlushResult(|job.entries|, ok)
  }

  predicate InPhase(s: Sys, p: Phase -> bool) {
    s.worker.Busy? && s.worker.id in s.regs && p(s.worker.phase)
  }

  /** The pipeline's own steps; the monitor's cancel function is `MarkDone`, a step of the protocol. */
  predicate PipeLabelAllowed(r: Reg, l: P.Label) {
    && !l.RunnerCancels? && !l.SetCancel?
    && (l.StopRunner? ==> r.exitCancelled)
  }

  predicate Enabled(s: Sys, l: Label) {
    match l
    case Register(id, _, _, _, _) => s.worker.Idle? && id != "" && id !in s.regs
    case SubmitOk => InPhase(s, (p: Phase) => p.Registered?)
    case SubmitFails => InPhase(s, (p: Phase) => p.Registered?)
    case PipeStep(id, pl) =>
      id in s.regs && s.regs[id].submitted && PipeLabelAllowed(s.regs[id], pl) && P.Enabled(s.regs[id].pipe, pl)
    case MarkDone(id) => id in s.regs && s.regs[id].pipe.runner.Cancelling?
    case SaveReturns(id, _) => id in s.regs && s.regs[id].flush.Taken?
    case SendResult(id) => id in s.regs && s.regs[id].flush.Saved? && s.regs[id].channel.None?
    case ReceiveResult => InPhase(s, (p: Phase) => p.Selecting?) && s.regs[s.worker.id].channel.Some?
    case ContextCloses => InPhase(s, (p: Phase) => true)
    case TimerFires => InPhase(s, (p: Phase) => p.Selecting?)
    case ContextEnds(_) => InPhase(s, (p: Phase) => p.Selecting?)
    case ForceFlush => InPhase(s, (p: Phase) => p.Forcing?)
    case BeginWait =>
      InPhase(s, (p: Phase) => p.Flushing?)
      && (var f := s.regs[s.worker.id].flush; f.NotTaken? || f.Sent? || f.byMonitor)
    case ReceiveForced => InPhase(s, (p: Phase) => p.Awaiting?) && s.regs[s.worker.id].channel.Some?
    case GraceExpires => InPhase(s, (p: Phase) => p.Awaiting?)
  }

  function NewReg(id: string, riverJobID: int, keyword: string, fast: bool, extractEmail: bool): Reg {
    Reg(riverJobID, keyword, P.NewPipe(id, fast, true, extractEmail, 0, true, 1), false, false,
        NotTaken, None, [], [], None, None)
  }

  /** The mutex section of a flush of `id`. */
  function TakeSection(s: Sys, id: string, byMonitor: bool): Sys
    requires id in s.regs
  {
    if Tracks(s.slot, id)
    then s.(slot := None, regs := s.regs[id := s.regs[id].(flush := Taken(s.slot.value, byMonitor))])
    else s
  }

  function Return(s: Sys, outcome: Outcome): Sys
    requires s.worker.Busy? && s.worker.id in s.regs
  {
    var id := s.worker.id;
    s.(worker := Idle,
       regs := s.regs[id := s.regs[id].(outcome := Some(outcome), leftFrom := Some(s.worker.phase),
                                        exitCancelled := true)])
  }

  function Receive(s: Sys): Sys
    requires s.worker.Busy? && s.worker.id in s.regs && s.regs[s.worker.id].channel.Some?
  {
    var id, r := s.worker.id, s.regs[s.worker.id];
    s.(regs := s.regs[id := r.(channel := None, received := r.received + [r.channel.value])])
  }

  function Step(s: Sys, l: Label): Sys
    requires Enabled(s, l)
  {
    match l
    case Register(id, river, keyword, fast, extractEmail) =>
      Sys(Some(Tracked(id, river, keyword, [])), Busy(id, Registered),
          s.regs[id := NewReg(id, river, keyword, fast, extractEmail)])
    case SubmitOk =>
      var id := s.worker.id;
      s.(worker := Busy(id, Selecting), regs := s.regs[id := s.regs[id].(submitted := true)])
    case SubmitFails => s.(worker := Busy(s.worker.id, Forcing(SubmitError)))
    case PipeStep(id, pl) =>
      var r := s.regs[id];
      var slot := if pl.UnitStep? && pl.move.WriterAdds? then
                    var entry := P.NextEntry(r.pipe, r.pipe.units[pl.u].stage);
                    Add(s.slot, if r.pipe.fast then id else EntryTarget(entry, pl.move.carrier), entry)
                  else s.slot;
      s.(slot := slot, regs := s.regs[id := r.(pipe := P.Step(r.pipe, pl))])
    case MarkDone(id) =>
      var r := s.regs[id];
      TakeSection(s.(regs := s.regs[id := r.(pipe := P.Step(r.pipe, P.RunnerCancels))]), id, true)
    case SaveReturns(id, ok) =>
      var r := s.regs[id];
      s.(regs := s.regs[id := r.(flush := Saved(r.flush.job, r.flush.byMonitor, ok),
                                 saves := r.saves + [SaveOf(r.flush.job, ok)])])
    case SendResult(id) =>
      var r := s.regs[id];
      s.(regs := s.regs[id := r.(flush := Sent(r.flush.job, r.flush.byMonitor, r.flush.ok),
                                 channel := Some(ResultOf(r.flush.job, r.flush.ok)))])
    case ReceiveResult =>
      Return(Receive(s), if s.regs[s.worker.id].channel.value.ok then ReturnedNil else ReturnedErr)
    case ContextCloses => s.(regs := s.regs[s.worker.id := s.regs[s.worker.id].(exitCancelled := true)])
    case TimerFires => Force(s, TimedOut)
    case ContextEnds(deadline) => Force(s, if deadline then DeadlineExceeded else Cancelled)
    case ForceFlush => TakeSection(s.(worker := Busy(s.worker.id, Flushing(s.worker.phase.reason))), s.worker.id, false)
    case BeginWait => s.(worker := Busy(s.worker.id, Awaiting(s.worker.phase.reason)))
    case ReceiveForced => Return(Receive(s), Verdict(s.worker.phase.reason, s.regs[s.worker.id].channel.value))
    case GraceExpires => Return(s, ReturnedErr)
  }

  function Force(s: Sys, reason: Reason): Sys
    requires s.worker.Busy? && s.worker.id in s.regs
  {
    var id := s.worker.id;
    s.(worker := Busy(id, Forcing(reason)), regs := s.regs[id := s.regs[id].(exitCancelled := true)])
  }

  function Execute(s: Sys, run: seq<Label>): Option<Sys>
    decreases |run|
  {
    if run == [] then Some(s)
    else if Enabled(s, run[0]) then Execute(Step(s, run[0]), run[1..])
    else None
  }

  // ---------- The invariant ----------

  /** One seed, counted by the writer, no place limit, the cancel function set before anything runs. */
  ghost predicate PipeOk(id: string, p: P.Pipe) {
    && P.Inv(p) && p.jobId == id && id != "" && p.managed && |p.seeds| == 1
    && p.counters.maximumPlaces == 0 && p.counters.cancelSet
  }

  ghost predicate EntriesOf(id: string, entries: seq<Entry>) {
    forall e :: e in entries ==> e.id == id
  }

  /** The tracked job is this registration's, and it holds exactly what the writer has buffered for it. */
  ghost predicate Buffering(id: string, r: Reg, slot: Option<Tracked>) {
    && Tracks(slot, id)
    && slot.value.riverJobID == r.riverJobID && slot.value.keyword == r.keyword
    && multiset(slot.value.entries) == Collect(r.pipe.units, P.WrittenOf)
    && EntriesOf(id, slot.value.entries)
  }

  /** The worker is with this registration and has not passed a forced flush yet. */
  predicate BeforeFlush(id: string, worker: Worker) {
    worker.Busy? && worker.id == id && (worker.phase.Registered? || worker.phase.Selecting? || worker.phase.Forcing?)
  }

  /** What a flush took: on the monitor's word, everything that the pipeline produced. */
  ghost predicate TookAll(r: Reg)
    requires !r.flush.NotTaken?
  {
    && P.AllComplete(r.pipe)
    && multiset(r.flush.job.entries) == Collect(r.pipe.units, P.StoredOf(r.pipe.jobId, r.pipe.fast))
    && |r.flush.job.entries| == r.pipe.counters.placesFound - Sum(r.pipe.units, P.FailedOf)
  }

  ghost predicate FlushOk(id: string, r: Reg) {
    match r.flush
    case NotTaken => r.saves == [] && r.channel == None && r.received == []
    case Taken(job, _) => JobOk(id, r) && r.saves == [] && r.channel == None && r.received == []
    case Saved(job, _, ok) => JobOk(id, r) && r.saves == [SaveOf(job, ok)] && r.channel == None && r.received == []
    case Sent(job, _, ok) =>
      && JobOk(id, r) && r.saves == [SaveOf(job, ok)]
      && ((r.channel == Some(ResultOf(job, ok)) && r.received == [])
          || (r.channel == None && r.received == [ResultOf(job, ok)]))
  }

  ghost predicate JobOk(id: string, r: Reg)
    requires !r.flush.NotTaken?
  {
    && r.flush.job.riverJobID == r.riverJobID && r.flush.job.keyword == r.keyword && EntriesOf(id, r.flush.job.entries)
    && (r.flush.byMonitor ==> TookAll(r))
  }

  /** When the place where `Work` stood and the result that it received, if any, call for nil. */
  predicate CallsForNil(phase: Phase, received: seq<FlushResult>) {
    && received != [] && received[0].ok
    && (phase.Selecting?
        || (phase.Awaiting? && (phase.reason.TimedOut? || phase.reason.DeadlineExceeded?) && received[0].count > 0))
  }

  /** A report is the one that the received result calls for, and the worker is gone exactly when it has reported. */
  ghost predicate OutcomeOk(id: string, r: Reg, worker: Worker) {
    && (r.outcome.None? <==> worker.Busy? && worker.id == id)
    && (r.outcome.None? ==> r.received == [])
    && (r.outcome.Some? <==> r.leftFrom.Some?)
    && (r.outcome.Some? ==> (r.outcome.value.ReturnedNil? <==> CallsForNil(r.leftFrom.value, r.received)))
  }

  /** A monitor that is done has flushed, or is about to. */
  ghost predicate MonitorOk(r: Reg) {
    && (r.pipe.runner.Stopped? && r.pipe.taken ==> !r.flush.NotTaken?)
    && (r.pipe.runner.Stopped? && !r.pipe.taken ==> r.exitCancelled)
    && (!r.submitted ==> r.pipe.units == [] && r.pipe.runner.NotStarted?)
  }

  ghost predicate RegInv(id: string, r: Reg, slot: Option<Tracked>, worker: Worker) {
    && PipeOk(id, r.pipe)
    && (r.flush.NotTaken? ==> Buffering(id, r, slot) && BeforeFlush(id, worker))
    && (!r.flush.NotTaken? ==> !Tracks(slot, id))
    && FlushOk(id, r)
    && OutcomeOk(id, r, worker)
    && MonitorOk(r)
  }

  ghost predicate RegInvAt(s: Sys, id: string) {
    id in s.regs && RegInv(id, s.regs[id], s.slot, s.worker)
  }

  ghost predicate Inv(s: Sys) {
    && (s.worker.Busy? ==> s.worker.id in s.regs)
    && (s.slot.Some? ==> s.slot.value.jobID in s.regs)
    && forall id :: id in s.regs ==> RegInvAt(s, id)
  }

  /** A registration notices a change of the slot and of the worker only as far as they concern itself. */
  lemma OthersUnaffected(id: string, r: Reg, slot: Option<Tracked>, worker: Worker, slot': Option<Tracked>,
      worker': Worker)
    requires RegInv(id, r, slot, worker)
    requires Tracks(slot, id) || Tracks(slot', id) ==> slot' == slot
    requires (worker.Busy? && worker.id == id) || (worker'.Busy? && worker'.id == id) ==> worker' == worker
    ensures RegInv(id, r, slot', worker')
  {
  }

  // ---------- Pipeline steps ----------

  /** The entry that a step makes the writer buffer. */
  function Buffered(p: P.Pipe, l: P.Label): multiset<Entry>
    requires P.Enabled(p, l)
  {
    if l.UnitStep? && l.move.WriterAdds? then multiset{P.NextEntry(p, p.units[l.u].stage)} else multiset{}
  }

  lemma WrittenGrows(p: P.Pipe, l: P.Label)
    requires P.Inv(p) && P.Enabled(p, l)
    ensures Collect(P.Step(p, l).units, P.WrittenOf) == Collect(p.units, P.WrittenOf) + Buffered(p, l)
  {
    match l
    case UnitStep(u, m) => WrittenGrowsByMove(p, u, m);
    case AnnouncePlaces(i, n) => WrittenUnchangedByArrival(p.units, P.NewPlaces(i, n));
    case AnnounceBatch(i, entries) =>
      WrittenUnchangedByArrival(p.units, [P.Unit(i, |entries|, P.BatchHeld(entries), 0, entries)]);
    case _ => assert P.Step(p, l).units == p.units;
  }

  lemma WrittenGrowsByMove(p: P.Pipe, u: nat, m: P.Move)
    requires P.Inv(p) && P.Enabled(p, P.UnitStep(u, m))
    ensures Collect(P.Step(p, P.UnitStep(u, m)).units, P.WrittenOf) ==
            Collect(p.units, P.WrittenOf) + Buffered(p, P.UnitStep(u, m))
  {
    var unit, more := p.units[u], Buffered(p, P.UnitStep(u, m));
    var unit' := P.Moved(p, unit, m);
    assert P.UnitOk(p, unit);
    P.MoveChangesOneUnit(p, u, m);
    CollectUpdate(p.units, u, unit', P.WrittenOf);
    WrittenChange(p, unit, m);
    Cancel(Collect(p.units[u := unit'], P.WrittenOf), P.WrittenOf(unit), Collect(p.units, P.WrittenOf), more);
  }

  lemma Cancel(a: multiset<Entry>, b: multiset<Entry>, c: multiset<Entry>, d: multiset<Entry>)
    requires a + b == c + (b + d)
    ensures a == c + d
  {
    assert (c + d) + b == c + (b + d);
    assert a == (a + b) - b && c + d == ((c + d) + b) - b;
  }

  lemma WrittenUnchangedByArrival(units: seq<P.Unit>, more: seq<P.Unit>)
    requires forall u :: u in more ==> P.WrittenOf(u) == multiset{}
    ensures Collect(units + more, P.WrittenOf) == Collect(units, P.WrittenOf)
  {
    CollectAppend(units, more, P.WrittenOf);
    NothingWritten(more);
  }

  lemma {:induction false} NothingWritten(units: seq<P.Unit>)
    requires forall u :: u in units ==> P.WrittenOf(u) == multiset{}
    ensures Collect(units, P.WrittenOf) == multiset{}
  {
    if units != [] {
      assert units[|units| - 1] in units;
      NothingWritten(units[..|units| - 1]);
    }
  }

  lemma WrittenChange(p: P.Pipe, unit: P.Unit, m: P.Move)
    requires P.UnitOk(p, unit) && P.CanMove(unit.stage, m)
    ensures P.WrittenOf(P.Moved(p, unit, m)) ==
            P.WrittenOf(unit) + if m.WriterAdds? then multiset{P.NextEntry(p, unit.stage)} else multiset{}
  {
    match m
    case WriterAdds(_) => WriterAddsOne(p, unit, P.Moved(p, unit, m), P.NextEntry(p, unit.stage));
    case WriterCounts => AllWritten(unit, P.Moved(p, unit, m));
    case ProcessPlace(_, _) => NothingWrittenYet(P.Moved(p, unit, m));
    case ProcessEmail(_) => NothingWrittenYet(P.Moved(p, unit, m));
    case ReturnBatch => NothingWrittenYet(P.Moved(p, unit, m));
  }

  lemma AllWritten(unit: P.Unit, unit': P.Unit)
    requires unit.stage.Returned? && unit.stage.written == |unit.stage.entries|
    requires unit'.stage == P.Recorded(unit.stage.entries)
    ensures P.WrittenOf(unit') == P.WrittenOf(unit)
  {
    assert unit.stage.entries[..unit.stage.written] == unit.stage.entries;
  }

  lemma NothingWrittenYet(unit: P.Unit)
    requires !unit.stage.Recorded? && (unit.stage.Returned? ==> unit.stage.written == 0)
    ensures P.WrittenOf(unit) == multiset{}
  {
    if unit.stage.Returned? {
      assert unit.stage.entries[..0] == [];
    }
  }

  lemma WriterAddsOne(p: P.Pipe, unit: P.Unit, unit': P.Unit, e: Entry)
    requires unit.stage.Returned? && unit.stage.written < |unit.stage.entries|
    requires unit'.stage == P.Returned(unit.stage.entries[unit.stage.written := e], unit.stage.written + 1)
    ensures P.WrittenOf(unit') == P.WrittenOf(unit) + multiset{e}
  {
    OneMoreWritten(unit.stage.entries, unit.stage.written, e);
  }

  lemma OneMoreWritten(es: seq<Entry>, k: nat, e: Entry)
    requires k < |es|
    ensures multiset(es[k := e][..k + 1]) == multiset(es[..k]) + multiset{e}
  {
    assert es[k := e][..k + 1] == es[..k] + [e];
  }

  /** Once everything is complete, a step leaves what was produced and the totals alone. */
  lemma CompleteIsFinal(p: P.Pipe, l: P.Label)
    requires P.Inv(p) && p.managed && P.AllComplete(p) && P.Enabled(p, l)
    ensures P.AllComplete(P.Step(p, l))
    ensures Collect(P.Step(p, l).units, P.StoredOf(p.jobId, p.fast)) == Collect(p.units, P.StoredOf(p.jobId, p.fast))
    ensures P.Step(p, l).counters.placesFound == p.counters.placesFound
    ensures Sum(P.Step(p, l).units, P.FailedOf) == Sum(p.units, P.FailedOf)
  {
    if l.UnitStep? {
      var unit, unit' := p.units[l.u], P.Moved(p, p.units[l.u], l.move);
      P.MoveChangesOneUnit(p, l.u, l.move);
      assert unit in p.units && P.UnitOk(p, unit);
      CompleteUnitMoves(p, unit, l.move);
      UnitReplaced(p.units, l.u, unit', P.StoredOf(p.jobId, p.fast));
    } else if l.SeedFails? || l.AnnouncePlaces? || l.AnnounceBatch? || l.CountSeed? {
      SeedIsCounted(p, l.i);
    }
  }

  /** Only the results of an empty batch can still be on their way. */
  lemma CompleteUnitMoves(p: P.Pipe, unit: P.Unit, m: P.Move)
    requires P.UnitOk(p, unit) && p.managed && unit.credited == unit.size && P.CanMove(unit.stage, m)
    ensures var unit' := P.Moved(p, unit, m);
            && unit'.produced == unit.produced && P.FailedOf(unit') == P.FailedOf(unit)
            && unit'.credited == unit.credited && unit'.size == unit.size
  {
  }

  lemma UnitReplaced(units: seq<P.Unit>, u: nat, unit: P.Unit, stored: P.Unit -> multiset<Entry>)
    requires u < |units| && stored(unit) == stored(units[u]) && P.FailedOf(unit) == P.FailedOf(units[u])
    ensures Collect(units[u := unit], stored) == Collect(units, stored)
    ensures Sum(units[u := unit], P.FailedOf) == Sum(units, P.FailedOf)
  {
    CollectUpdate(units, u, unit, stored);
    Cancel(Collect(units[u := unit], stored), stored(units[u]), Collect(units, stored), multiset{});
    SumUpdate(units, u, unit, P.FailedOf);
  }

  lemma SeedIsCounted(p: P.Pipe, i: nat)
    requires P.AllComplete(p) && i < |p.seeds|
    ensures p.seeds[i].SeedCounted?
  {
    assert p.seeds[i] in p.seeds;
  }

  // ---------- The invariant is kept ----------

  /** The slot with entries added to the job `id`, if it is the tracked one. */
  function Extended(slot: Option<Tracked>, id: string, more: seq<Entry>): Option<Tracked> {
    if Tracks(slot, id) then Some(slot.value.(entries := slot.value.entries + more)) else slot
  }

  /** A registration whose pipeline moved from `r.pipe` to `p'`, while the writer buffered `more` for it. */
  lemma PipeChangeKeepsReg(id: string, r: Reg, p': P.Pipe, slot: Option<Tracked>, more: seq<Entry>, worker: Worker)
    requires RegInv(id, r, slot, worker)
    requires P.Inv(p') && P.SameRun(r.pipe, p') && EntriesOf(id, more)
    requires Collect(p'.units, P.WrittenOf) == Collect(r.pipe.units, P.WrittenOf) + multiset(more)
    requires P.AllComplete(r.pipe) ==>
               && P.AllComplete(p') && p'.counters.placesFound == r.pipe.counters.placesFound
               && Collect(p'.units, P.StoredOf(p'.jobId, p'.fast))
                  == Collect(r.pipe.units, P.StoredOf(p'.jobId, p'.fast))
               && Sum(p'.units, P.FailedOf) == Sum(r.pipe.units, P.FailedOf)
    requires p'.runner.Stopped? && p'.taken ==> r.pipe.runner.Stopped? && r.pipe.taken
    requires p'.runner.Stopped? && !p'.taken ==> r.exitCancelled
    requires r.submitted
    ensures RegInv(id, r.(pipe := p'), Extended(slot, id, more), worker)
  {
    var r' := r.(pipe := p');
    if r.flush.NotTaken? {
      var entries := slot.value.entries + more;
      assert multiset(entries) == multiset(slot.value.entries) + multiset(more);
    } else if r.flush.byMonitor {
      assert TookAll(r');
    }
  }

  /** How a step of the pipeline moves the monitor's goroutine. */
  lemma RunnerMoves(p: P.Pipe, l: P.Label)
    requires P.Inv(p) && P.Enabled(p, l) && !l.RunnerCancels? && !l.SetCancel? && p.counters.cancelSet
    ensures var p' := P.Step(p, l);
            && (p'.runner.Stopped? && p'.taken ==> p.runner.Stopped? && p.taken)
            && (p'.runner.Stopped? && !p'.taken ==> p.runner.Stopped? || l.StopRunner?)
  {
    if !(l.StartRunner? || l.TakeToken? || l.ReadCancel? || l.StopRunner?) {
      P.RunnerStays(p, l);
    }
  }

  /** The slot after a pipeline step, in terms of what the writer buffered. */
  lemma PipeStepSlot(s: Sys, id: string, pl: P.Label)
    requires Enabled(s, PipeStep(id, pl)) && PipeOk(id, s.regs[id].pipe)
    ensures var s', more := Step(s, PipeStep(id, pl)), WrittenBy(s.regs[id].pipe, pl);
            && EntriesOf(id, more)
            && s'.worker == s.worker && s'.regs[id] == s.regs[id].(pipe := P.Step(s.regs[id].pipe, pl))
            && s'.slot == Extended(s.slot, id, more)
  {
    if pl.UnitStep? && pl.move.WriterAdds? {
      NextEntryCarriesId(s.regs[id].pipe, pl.u);
    } else if Tracks(s.slot, id) {
      assert s.slot.value.entries + [] == s.slot.value.entries;
    }
  }

  /** What a pipeline step does to its own registration. */
  lemma PipeStepKeepsReg(s: Sys, id: string, pl: P.Label)
    requires Enabled(s, PipeStep(id, pl)) && RegInvAt(s, id)
    ensures RegInvAt(Step(s, PipeStep(id, pl)), id)
  {
    var r := s.regs[id];
    PipeStepSlot(s, id, pl);
    PipeMoves(id, r, pl, s.slot, s.worker);
  }

  lemma PipeMoves(id: string, r: Reg, pl: P.Label, slot: Option<Tracked>, worker: Worker)
    requires RegInv(id, r, slot, worker) && P.Enabled(r.pipe, pl) && PipeLabelAllowed(r, pl) && r.submitted
    requires EntriesOf(id, WrittenBy(r.pipe, pl))
    ensures RegInv(id, r.(pipe := P.Step(r.pipe, pl)), Extended(slot, id, WrittenBy(r.pipe, pl)), worker)
  {
    P.StepKeepsInv(r.pipe, pl);
    P.StepKeepsShape(r.pipe, pl);
    WrittenGrows(r.pipe, pl);
    RunnerMoves(r.pipe, pl);
    if P.AllComplete(r.pipe) {
      CompleteIsFinal(r.pipe, pl);
    }
    PipeChangeKeepsReg(id, r, P.Step(r.pipe, pl), slot, WrittenBy(r.pipe, pl), worker);
  }

  function WrittenBy(p: P.Pipe, l: P.Label): seq<Entry>
    requires P.Enabled(p, l)
    ensures multiset(WrittenBy(p, l)) == Buffered(p, l)
  {
    if l.UnitStep? && l.move.WriterAdds? then [P.NextEntry(p, p.units[l.u].stage)] else []
  }

  lemma NextEntryCarriesId(p: P.Pipe, u: nat)
    requires P.Inv(p) && u < |p.units| && p.units[u].stage.Returned?
    requires p.units[u].stage.written < |p.units[u].stage.entries|
    ensures P.NextEntry(p, p.units[u].stage).id == p.jobId
  {
    assert P.UnitOk(p, p.units[u]);
  }

  /** A flush on the monitor's word finds everything that was produced. */
  lemma MarkDoneKeepsReg(s: Sys, id: string)
    requires Enabled(s, MarkDone(id)) && RegInvAt(s, id)
    ensures RegInvAt(Step(s, MarkDone(id)), id)
  {
    var r := s.regs[id];
    P.StepKeepsInv(r.pipe, P.RunnerCancels);
    assert P.Signalled(r.pipe);
    P.CompleteMeansBuffered(r.pipe);
    var s' := Step(s, MarkDone(id));
    if r.flush.NotTaken? {
      MultisetSize(r.pipe, s.slot.value.entries);
      assert TookAll(s'.regs[id]);
    }
  }

  lemma MultisetSize(p: P.Pipe, entries: seq<Entry>)
    requires multiset(entries) == Collect(p.units, P.WrittenOf)
    ensures |entries| == |Collect(p.units, P.WrittenOf)|
  {
  }

  /** A new registration: its id is fresh, and the slot holds nothing but its empty job. */
  lemma RegisterKeepsReg(id: string, river: int, keyword: string, fast: bool, extractEmail: bool)
    requires id != ""
    ensures RegInv(id, NewReg(id, river, keyword, fast, extractEmail),
                   Some(Tracked(id, river, keyword, [])), Busy(id, Registered))
  {
    P.NewPipeInv(id, fast, true, extractEmail, 0, true, 1);
  }

  /** The worker moves on within `Work` before it has flushed. */
  lemma WorkerMoves(id: string, r: Reg, slot: Option<Tracked>, phase: Phase, phase': Phase, submitted: bool,
      exitCancelled: bool)
    requires RegInv(id, r, slot, Busy(id, phase))
    requires r.flush.NotTaken? ==> BeforeFlush(id, Busy(id, phase'))
    requires (r.submitted ==> submitted) && (r.exitCancelled ==> exitCancelled)
    ensures RegInv(id, r.(submitted := submitted, exitCancelled := exitCancelled), slot, Busy(id, phase'))
  {
  }

  lemma TakeKeepsReg(id: string, r: Reg, slot: Option<Tracked>, phase: Phase, phase': Phase)
    requires RegInv(id, r, slot, Busy(id, phase))
    ensures if Tracks(slot, id)
            then RegInv(id, r.(flush := Taken(slot.value, false)), None, Busy(id, phase'))
            else RegInv(id, r, slot, Busy(id, phase'))
  {
  }

  lemma SaveKeepsReg(id: string, r: Reg, slot: Option<Tracked>, worker: Worker, ok: bool)
    requires RegInv(id, r, slot, worker) && r.flush.Taken?
    ensures var saved := Saved(r.flush.job, r.flush.byMonitor, ok);
            RegInv(id, r.(flush := saved, saves := r.saves + [SaveOf(r.flush.job, ok)]), slot, worker)
  {
    assert r.saves + [SaveOf(r.flush.job, ok)] == [SaveOf(r.flush.job, ok)];
  }

  lemma SendKeepsReg(id: string, r: Reg, slot: Option<Tracked>, worker: Worker)
    requires RegInv(id, r, slot, worker) && r.flush.Saved?
    ensures RegInv(id, r.(flush := Sent(r.flush.job, r.flush.byMonitor, r.flush.ok),
                          channel := Some(ResultOf(r.flush.job, r.flush.ok))), slot, worker)
  {
  }

  /** `Work` returns with the result from its channel; it may only say nil if the save succeeded. */
  lemma ReceiveKeepsReg(id: string, r: Reg, slot: Option<Tracked>, phase: Phase, outcome: Outcome)
    requires RegInv(id, r, slot, Busy(id, phase)) && r.channel.Some?
    requires outcome.ReturnedNil? <==> CallsForNil(phase, [r.channel.value])
    ensures RegInv(id, r.(channel := None, received := r.received + [r.channel.value], outcome := Some(outcome),
                          leftFrom := Some(phase), exitCancelled := true), slot, Idle)
  {
    assert r.received + [r.channel.value] == [r.channel.value];
  }

  lemma GiveUpKeepsReg(id: string, r: Reg, slot: Option<Tracked>, phase: Phase)
    requires RegInv(id, r, slot, Busy(id, phase)) && !r.flush.NotTaken?
    ensures RegInv(id, r.(outcome := Some(ReturnedErr), leftFrom := Some(phase), exitCancelled := true), slot, Idle)
  {
  }

  /** The steps by which the worker moves on without taking or receiving anything. */
  lemma WorkerStepKeepsReg(s: Sys, l: Label)
    requires l.SubmitOk? || l.SubmitFails? || l.ContextCloses? || l.BeginWait?
    requires Enabled(s, l) && RegInvAt(s, s.worker.id)
    ensures RegInvAt(Step(s, l), s.worker.id)
  {
    var id := s.worker.id;
    var r, phase := s.regs[id], s.worker.phase;
    match l
    case SubmitOk => WorkerMoves(id, r, s.slot, phase, Selecting, true, r.exitCancelled);
    case SubmitFails => WorkerMoves(id, r, s.slot, phase, Forcing(SubmitError), r.submitted, r.exitCancelled);
    case ContextCloses => WorkerMoves(id, r, s.slot, phase, phase, r.submitted, true);
    case BeginWait => WorkerMoves(id, r, s.slot, phase, Awaiting(phase.reason), r.submitted, r.exitCancelled);
  }

  /** The worker stops waiting for the monitor. */
  lemma InterruptKeepsReg(s: Sys, l: Label)
    requires l.TimerFires? || l.ContextEnds?
    requires Enabled(s, l) && RegInvAt(s, s.worker.id)
    ensures RegInvAt(Step(s, l), s.worker.id)
  {
    var id := s.worker.id;
    var r, phase := s.regs[id], s.worker.phase;
    match l
    case TimerFires => WorkerMoves(id, r, s.slot, phase, Forcing(TimedOut), r.submitted, true);
    case ContextEnds(deadline) =>
      WorkerMoves(id, r, s.slot, phase, Forcing(if deadline then DeadlineExceeded else Cancelled), r.submitted, true);
  }

  /** The steps of a flush after its mutex section. */
  lemma FlushStepKeepsReg(s: Sys, l: Label)
    requires Enabled(s, l) && (l.SaveReturns? || l.SendResult?) && RegInvAt(s, l.pid)
    ensures RegInvAt(Step(s, l), l.pid)
  {
    var r := s.regs[l.pid];
    match l
    case SaveReturns(id, ok) => SaveKeepsReg(id, r, s.slot, s.worker, ok);
    case SendResult(id) => SendKeepsReg(id, r, s.slot, s.worker);
  }

  lemma ForceKeepsReg(s: Sys)
    requires Enabled(s, ForceFlush) && RegInvAt(s, s.worker.id)
    ensures RegInvAt(Step(s, ForceFlush), s.worker.id)
  {
    TakeKeepsReg(s.worker.id, s.regs[s.worker.id], s.slot, s.worker.phase, Flushing(s.worker.phase.reason));
  }

  /** The returns of `Work` with a result. */
  lemma ReturnKeepsReg(s: Sys, l: Label)
    requires Enabled(s, l) && (l.ReceiveResult? || l.ReceiveForced?) && RegInvAt(s, s.worker.id)
    ensures RegInvAt(Step(s, l), s.worker.id)
  {
    var id := s.worker.id;
    var r, phase := s.regs[id], s.worker.phase;
    match l
    case ReceiveResult =>
      ReceiveKeepsReg(id, r, s.slot, phase, if r.channel.value.ok then ReturnedNil else ReturnedErr);
    case ReceiveForced => ReceiveKeepsReg(id, r, s.slot, phase, Verdict(phase.reason, r.channel.value));
  }

  lemma GraceKeepsReg(s: Sys)
    requires Enabled(s, GraceExpires) && RegInvAt(s, s.worker.id)
    ensures RegInvAt(Step(s, GraceExpires), s.worker.id)
  {
    GiveUpKeepsReg(s.worker.id, s.regs[s.worker.id], s.slot, s.worker.phase);
  }

  /** The registration that a step belongs to. */
  function Subject(s: Sys, l: Label): string
    requires Enabled(s, l)
  {
    match l
    case Register(id, _, _, _, _) => id
    case PipeStep(id, _) => id
    case MarkDone(id) => id
    case SaveReturns(id, _) => id
    case SendResult(id) => id
    case _ => s.worker.id
  }

  /** Whatever the slot tracks, the worker is with it and has not flushed it. */
  lemma SlotBelongsToWorker(s: Sys)
    requires Inv(s) && s.slot.Some?
    ensures s.worker.Busy? && s.worker.id == s.slot.value.jobID && s.regs[s.worker.id].flush.NotTaken?
  {
    assert RegInv(s.slot.value.jobID, s.regs[s.slot.value.jobID], s.slot, s.worker);
  }

  lemma SubjectIsOk(s: Sys, l: Label)
    requires Inv(s) && Enabled(s, l) && !l.Register?
    ensures RegInvAt(s, Subject(s, l))
  {
  }

  lemma OwnRegKept(s: Sys, l: Label)
    requires Inv(s) && Enabled(s, l)
    ensures RegInvAt(Step(s, l), Subject(s, l))
  {
    if l.Register? {
      RegisterKeepsReg(l.id, l.riverJobID, l.keyword, l.fast, l.extractEmail);
    } else {
      SubjectIsOk(s, l);
      OwnStepKeepsReg(s, l);
    }
  }

  lemma OwnStepKeepsReg(s: Sys, l: Label)
    requires Enabled(s, l) && !l.Register? && RegInvAt(s, Subject(s, l))
    ensures RegInvAt(Step(s, l), Subject(s, l))
  {
    match l
    case PipeStep(id, pl) => PipeStepKeepsReg(s, id, pl);
    case MarkDone(id) => MarkDoneKeepsReg(s, id);
    case SaveReturns(_, _) => FlushStepKeepsReg(s, l);
    case SendResult(_) => FlushStepKeepsReg(s, l);
    case ForceFlush => ForceKeepsReg(s);
    case ReceiveResult => ReturnKeepsReg(s, l);
    case ReceiveForced => ReturnKeepsReg(s, l);
    case GraceExpires => GraceKeepsReg(s);
    case TimerFires => InterruptKeepsReg(s, l);
    case ContextEnds(_) => InterruptKeepsReg(s, l);
    case _ => WorkerStepKeepsReg(s, l);
  }

  /** A step leaves the other registrations, and what they can see of slot and worker, alone. */
  lemma StepIsLocal(s: Sys, l: Label, other: string)
    requires Inv(s) && Enabled(s, l) && other != Subject(s, l)
    ensures other in Step(s, l).regs <==> other in s.regs
    ensures other in s.regs ==>
              var s' := Step(s, l);
              && s'.regs[other] == s.regs[other]
              && (Tracks(s.slot, other) || Tracks(s'.slot, other) ==> s'.slot == s.slot)
              && ((s.worker.Busy? && s.worker.id == other) || (s'.worker.Busy? && s'.worker.id == other) ==>
                    s'.worker == s.worker)
  {
    OtherRegsStay(s, l, other);
    OtherWorkersStay(s, l, other);
    if s.slot.Some? {
      SlotBelongsToWorker(s);
    }
    if l.PipeStep? && Tracks(s.slot, other) {
      PipeStepTargetsItself(s, l.pid, l.l);
    }
    SlotOfOtherStays(s, l, other);
  }

  lemma OtherRegsStay(s: Sys, l: Label, other: string)
    requires Enabled(s, l) && other != Subject(s, l)
    ensures other in Step(s, l).regs <==> other in s.regs
    ensures other in s.regs ==> Step(s, l).regs[other] == s.regs[other]
  {
  }

  lemma OtherWorkersStay(s: Sys, l: Label, other: string)
    requires Enabled(s, l) && other != Subject(s, l)
    ensures var s' := Step(s, l);
            (s.worker.Busy? && s.worker.id == other) || (s'.worker.Busy? && s'.worker.id == other) ==>
              s'.worker == s.worker
  {
  }

  lemma SlotOfOtherStays(s: Sys, l: Label, other: string)
    requires Enabled(s, l) && other != Subject(s, l)
    requires Tracks(s.slot, other) ==> s.worker.Busy? && s.worker.id == other
    requires l.PipeStep? && Tracks(s.slot, other) ==> Step(s, l).slot == s.slot
    ensures Tracks(s.slot, other) || Tracks(Step(s, l).slot, other) ==> Step(s, l).slot == s.slot
  {
  }

  /** The writer files an entry under the job that it belongs to, whichever job is tracked at the time. */
  lemma PipeStepTargetsItself(s: Sys, id: string, pl: P.Label)
    requires Inv(s) && Enabled(s, PipeStep(id, pl))
    ensures !Tracks(s.slot, id) ==> Step(s, PipeStep(id, pl)).slot == s.slot
  {
    assert RegInv(id, s.regs[id], s.slot, s.worker);
    if pl.UnitStep? && pl.move.WriterAdds? {
      NextEntryCarriesId(s.regs[id].pipe, pl.u);
    }
  }

  lemma StepKeepsInv(s: Sys, l: Label)
    requires Inv(s) && Enabled(s, l)
    ensures Inv(Step(s, l))
  {
    var s', id := Step(s, l), Subject(s, l);
    OwnRegKept(s, l);
    forall other | other in s'.regs ensures RegInvAt(s', other) {
      if other != id {
        OtherRegKept(s, l, other);
      }
    }
    StepKeepsReferences(s, l);
  }

  lemma OtherRegKept(s: Sys, l: Label, other: string)
    requires Inv(s) && Enabled(s, l) && other != Subject(s, l) && other in Step(s, l).regs
    ensures RegInvAt(Step(s, l), other)
  {
    var s' := Step(s, l);
    StepIsLocal(s, l, other);
    assert RegInvAt(s, other);
    OthersUnaffected(other, s.regs[other], s.slot, s.worker, s'.slot, s'.worker);
  }

  lemma StepKeepsReferences(s: Sys, l: Label)
    requires Inv(s) && Enabled(s, l)
    ensures var s' := Step(s, l);
            (s'.worker.Busy? ==> s'.worker.id in s'.regs) && (s'.slot.Some? ==> s'.slot.value.jobID in s'.regs)
  {
    RegistrationsStay(s, l);
    SlotAndWorkerIds(s, l);
  }

  lemma RegistrationsStay(s: Sys, l: Label)
    requires Enabled(s, l)
    ensures s.regs.Keys <= Step(s, l).regs.Keys && Subject(s, l) in Step(s, l).regs
  {
  }

  lemma SlotAndWorkerIds(s: Sys, l: Label)
    requires Enabled(s, l)
    ensures var s' := Step(s, l);
            && (s'.worker.Busy? ==> s'.worker.id == Subject(s, l) || s'.worker == s.worker)
            && (s'.slot.Some? ==>
                  || s'.slot.value.jobID == Subject(s, l)
                  || (s.slot.Some? && s'.slot.value.jobID == s.slot.value.jobID))
  {
  }

  lemma {:induction false} ExecuteKeepsInv(s: Sys, run: seq<Label>)
    requires Inv(s) && Execute(s, run).Some?
    ensures Inv(Execute(s, run).value)
    decreases |run|
  {
    if run != [] {
      StepKeepsInv(s, run[0]);
      ExecuteKeepsInv(Step(s, run[0]), run[1..]);
    }
  }

  // ---------- Main results, for every run of any number of jobs ----------

  lemma InitialInv()
    ensures Inv(INITIAL)
  {
  }

  lemma RunInv(run: seq<Label>)
    requires Execute(INITIAL, run).Some?
    ensures Inv(Execute(INITIAL, run).value)
  {
    InitialInv();
    ExecuteKeepsInv(INITIAL, run);
  }

  /** Every return path of `Work` leaves the slot free, so registering never overwrites a job that is being tracked. */
  lemma SlotIsFreeBetweenJobs(run: seq<Label>)
    requires Execute(INITIAL, run).Some?
    ensures var s := Execute(INITIAL, run).value;
            && (s.worker.Idle? ==> s.slot.None?)
            && (forall l :: Enabled(s, l) && l.Register? ==> s.slot.None?)
            && (s.slot.Some? ==> s.worker.Busy? && s.worker.id == s.slot.value.jobID && s.worker.id in s.regs
                                 && s.regs[s.worker.id].flush.NotTaken?)
  {
    RunInv(run);
    var s := Execute(INITIAL, run).value;
    if s.slot.Some? {
      SlotBelongsToWorker(s);
    }
  }

  /**
   Whatever races for it, a registration is saved at most once and answered at most once, the answer's
   send always finds room, and the save is of this job's own entries under its own number.
   */
  lemma FlushedAtMostOnce(run: seq<Label>, id: string)
    requires Execute(INITIAL, run).Some? && id in Execute(INITIAL, run).value.regs
    ensures var r := Execute(INITIAL, run).value.regs[id];
            && |r.saves| <= 1
            && |r.received| + (if r.channel.Some? then 1 else 0) <= |r.saves|
            && (r.flush.Saved? ==> r.channel.None?)
            && (forall save :: save in r.saves ==>
                  save.riverJobID == r.riverJobID && save.keyword == r.keyword && EntriesOf(id, save.entries))
            && (forall x :: x in r.received || r.channel == Some(x) ==>
                  && r.saves == [Save(r.riverJobID, r.keyword, r.saves[0].entries, x.ok)]
                  && x.count == |r.saves[0].entries|)
  {
    RunInv(run);
    var s := Execute(INITIAL, run).value;
    assert RegInv(id, s.regs[id], s.slot, s.worker);
  }

  /**
   `Work` answers nil exactly for a job whose one save succeeded and whose result it received either
   before anything else happened or after a timeout, and then with at least one row. Once it has answered,
   the job has been flushed.
   */
  lemma SuccessMeansSaved(run: seq<Label>, id: string)
    requires Execute(INITIAL, run).Some? && id in Execute(INITIAL, run).value.regs
    requires Execute(INITIAL, run).value.regs[id].outcome.Some?
    ensures var r := Execute(INITIAL, run).value.regs[id];
            && !r.flush.NotTaken? && r.leftFrom.Some?
            && (r.outcome == Some(ReturnedNil) <==>
                  && |r.received| == 1 && |r.saves| == 1 && r.saves[0].ok
                  && (r.leftFrom == Some(Selecting)
                      || (r.leftFrom in {Some(Awaiting(TimedOut)), Some(Awaiting(DeadlineExceeded))}
                          && r.saves[0].entries != [])))
  {
    RunInv(run);
    var s := Execute(INITIAL, run).value;
    assert RegInv(id, s.regs[id], s.slot, s.worker);
  }

  /** The pipeline labels of one registration in a run of the whole system. */
  function PipeLabels(run: seq<Label>, id: string): seq<P.Label> {
    if run == [] then [] else PipeLabel(run[0], id) + PipeLabels(run[1..], id)
  }

  function PipeLabel(l: Label, id: string): seq<P.Label> {
    match l
    case PipeStep(pid, pl) => if pid == id then [pl] else []
    case MarkDone(pid) => if pid == id then [P.RunnerCancels] else []
    case _ => []
  }

  lemma PipeMovesByItsLabel(s: Sys, l: Label, id: string)
    requires Enabled(s, l)
    ensures id in s.regs ==>
              id in Step(s, l).regs && P.Execute(s.regs[id].pipe, PipeLabel(l, id)) == Some(Step(s, l).regs[id].pipe)
    ensures id !in s.regs ==> PipeLabel(l, id) == []
    ensures id !in s.regs && id in Step(s, l).regs ==>
              && l.Register? && l.id == id
              && Step(s, l).regs[id].pipe == P.NewPipe(id, l.fast, true, l.extractEmail, 0, true, 1)
  {
    if PipeLabel(l, id) != [] {
      assert PipeLabel(l, id)[1..] == [];
    }
  }

  /** What has happened in a registration's pipeline is what the run's labels for it say, from its registration on. */
  lemma {:induction false} PipeFollowsItsLabels(s: Sys, run: seq<Label>, id: string) returns (start: P.Pipe)
    requires Execute(s, run).Some? && id in Execute(s, run).value.regs
    ensures P.Execute(start, PipeLabels(run, id)) == Some(Execute(s, run).value.regs[id].pipe)
    ensures if id in s.regs then start == s.regs[id].pipe
            else exists fast, extractEmail :: start == P.NewPipe(id, fast, true, extractEmail, 0, true, 1)
    decreases |run|
  {
    if run == [] {
      start := s.regs[id].pipe;
    } else {
      var s1 := Step(s, run[0]);
      PipeMovesByItsLabel(s, run[0], id);
      start := PipeFollowsItsLabels(s1, run[1..], id);
      if id in s.regs {
        start := s.regs[id].pipe;
        P.Concatenates(start, PipeLabel(run[0], id), PipeLabels(run[1..], id));
      } else {
        assert PipeLabel(run[0], id) + PipeLabels(run[1..], id) == PipeLabels(run[1..], id);
      }
    }
  }

  /** The pipeline of a registration holds the harvest of the run's labels for it. */
  lemma PipeHoldsItsHarvest(run: seq<Label>, id: string)
    requires Execute(INITIAL, run).Some? && id in Execute(INITIAL, run).value.regs
    ensures var p := Execute(INITIAL, run).value.regs[id].pipe;
            P.Yields(p, P.Harvest(id, [], PipeLabels(run, id)))
  {
    var start := PipeFollowsItsLabels(INITIAL, run, id);
    var fast, extractEmail :| start == P.NewPipe(id, fast, true, extractEmail, 0, true, 1);
    P.NewPipeInv(id, fast, true, extractEmail, 0, true, 1);
    P.ExecuteKeepsShape(start, PipeLabels(run, id));
    P.HarvestIsRight(start, [], PipeLabels(run, id));
  }

  /**
   No result is lost on normal completion, and none is changed: what a flush on the done signal saves is the
   harvest of the run, that is, the entries of the job's own responses, batches under the job's id; one
   entry for every found place whose `Process` did not fail.
   */
  lemma NothingIsLost(run: seq<Label>, id: string)
    requires Execute(INITIAL, run).Some? && id in Execute(INITIAL, run).value.regs
    requires var r := Execute(INITIAL, run).value.regs[id]; !r.flush.NotTaken? && r.flush.byMonitor
    ensures var r := Execute(INITIAL, run).value.regs[id];
            var harvest := P.Harvest(id, [], PipeLabels(run, id));
            && P.AllComplete(r.pipe)
            && multiset(r.flush.job.entries) == Collect(harvest, P.StoredFrom(id, r.pipe.fast))
            && |r.flush.job.entries| == Sum(r.pipe.units, P.SizeOf) - Sum(r.pipe.units, P.FailedOf)
            && (r.saves != [] ==> r.saves[0].entries == r.flush.job.entries)
  {
    RunInv(run);
    PipeHoldsItsHarvest(run, id);
    var s := Execute(INITIAL, run).value;
    var p := s.regs[id].pipe;
    assert RegInv(id, s.regs[id], s.slot, s.worker);
    P.UnitsAndHarvestAgree(p.units, P.Harvest(id, [], PipeLabels(run, id)), id, p.fast);
  }

  /**
   Completion is not lost on its way either: it is owed, pending, with the monitor's goroutine, or already
   flushed.
   */
  lemma CompletionReachesTheWriter(run: seq<Label>, id: string)
    requires Execute(INITIAL, run).Some? && id in Execute(INITIAL, run).value.regs
    requires P.AllComplete(Execute(INITIAL, run).value.regs[id].pipe)
    ensures var r := Execute(INITIAL, run).value.regs[id];
            || r.pipe.offers > 0 || r.pipe.token || r.pipe.runner.HasToken? || r.pipe.runner.Cancelling?
            || !r.flush.NotTaken?
  {
    RunInv(run);
    var s := Execute(INITIAL, run).value;
    assert RegInv(id, s.regs[id], s.slot, s.worker);
  }

  // ---------- Progress ----------

  function PhaseRank(phase: Phase): nat {
    match phase
    case Registered => 4
    case Selecting => 4
    case Forcing(_) => 3
    case Flushing(_) => 2
    case Awaiting(_) => 1
  }

  function FlushRank(flush: Flush): nat {
    match flush
    case NotTaken => 3
    case Taken(_, _) => 2
    case Saved(_, _, _) => 1
    case Sent(_, _, _) => 0
  }

  /** The next label on the way of `Work` to its result: the flush first, whoever does it, then the worker. */
  function NextOfWork(s: Sys): Label
    requires s.worker.Busy? && s.worker.id in s.regs
  {
    var id := s.worker.id;
    var r := s.regs[id];
    if r.flush.Taken? then SaveReturns(id, true)
    else if r.flush.Saved? then SendResult(id)
    else match s.worker.phase
         case Registered => SubmitFails
         case Selecting => if r.channel.Some? then ReceiveResult else TimerFires
         case Forcing(_) => ForceFlush
         case Flushing(_) => BeginWait
         case Awaiting(_) => ReceiveForced
  }

  /** It is enabled, and it brings `Work` closer to its result or hands it over. */
  lemma WorkMovesOn(s: Sys)
    requires s.worker.Busy? && RegInvAt(s, s.worker.id)
    ensures var l, id := NextOfWork(s), s.worker.id;
            && Enabled(s, l) && id in Step(s, l).regs
            && if Step(s, l).worker.Idle?
               then |Step(s, l).regs[id].received| == 1 && Step(s, l).regs[id].outcome.Some?
               else
                 && Step(s, l).worker.id == id
                 && (PhaseRank(Step(s, l).worker.phase) < PhaseRank(s.worker.phase)
                     || (Step(s, l).worker.phase == s.worker.phase
                         && FlushRank(Step(s, l).regs[id].flush) < FlushRank(s.regs[id].flush)))
  {
  }

  /** From any state that the invariant allows, with no wait running out. */
  lemma {:induction false} WorkCanFinish(s: Sys) returns (more: seq<Label>)
    requires Inv(s) && s.worker.Busy?
    ensures Execute(s, more).Some? && GraceExpires !in more
    ensures var s', id := Execute(s, more).value, s.worker.id;
            s'.worker.Idle? && id in s'.regs && |s'.regs[id].received| == 1 && s'.regs[id].outcome.Some?
    decreases PhaseRank(s.worker.phase), FlushRank(s.regs[s.worker.id].flush)
  {
    var l := NextOfWork(s);
    WorkMovesOn(s);
    StepKeepsInv(s, l);
    var s1 := Step(s, l);
    var rest: seq<Label> := [];
    if s1.worker.Busy? {
      rest := WorkCanFinish(s1);
    }
    more := [l] + rest;
    assert more[1..] == rest;
  }

  /** `Work` never gets stuck: in every reachable state it can go on to receive its one result and return. */
  lemma WorkCanReturn(run: seq<Label>) returns (more: seq<Label>)
    requires Execute(INITIAL, run).Some? && Execute(INITIAL, run).value.worker.Busy?
    ensures Execute(Execute(INITIAL, run).value, more).Some? && GraceExpires !in more
    ensures var s := Execute(INITIAL, run).value;
            var s', id := Execute(s, more).value, s.worker.id;
            s'.worker.Idle? && id in s'.regs && |s'.regs[id].received| == 1 && s'.regs[id].outcome.Some?
  {
    RunInv(run);
    more := WorkCanFinish(Execute(INITIAL, run).value);
  }
}
