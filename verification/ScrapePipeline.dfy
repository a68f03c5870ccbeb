/**
 One run of the scrape pipeline under one exit monitor, as a step system.

 Every section under the monitor's mutex is one step. The action that a goroutine
 owes after releasing the mutex (offering the done token, calling the cancel function)
 is a later step of its own, so any number of them can be outstanding. The seeds'
 children and results travel through the scraper and the writer in any order.

 Sources: exiter/exiter.go, the `Process` methods of gmaps/, and the counting half of
 scraper/centralwriter.go.
 */
module ScrapePipeline {
  import opened Wrappers
  import opened Exiter
  import opened ScrapeJobs
  import opened Folds

  /** A seed reports the places it found before it is counted complete. */
  datatype SeedStage = SeedWaiting | SeedAnnounced | SeedCounted

  /**
   What became of found places that travel together: one place, or in fast mode the
   whole batch of a seed. `Returned` is the result on its way through the writer, which
   has buffered the first `written` entries.
   */
  datatype Stage =
    | Queued
    | EmailQueued(entry: Entry)
    | BatchHeld(entries: seq<Entry>)
    | Returned(entries: seq<Entry>, written: nat)
    | Recorded(entries: seq<Entry>)
    | Failed

  /**
   `credited` adds up what was reported completed on behalf of this unit. `produced` is history: the
   entries that the scraping yielded. Only `Process` methods write it; the writer works on `stage`.
   */
  datatype Unit = Unit(seed: nat, size: nat, stage: Stage, credited: nat, produced: seq<Entry>)

  datatype Runner = NotStarted | Listening | HasToken | Cancelling | Stopped

  /**
   `offers` and `calls` count goroutines that still owe an action; `taken` records that the runner received
   the token.
   */
  datatype Pipe = Pipe(
    jobId: string, fast: bool, managed: bool, extractEmail: bool,
    counters: Counters, token: bool, offers: nat, calls: nat, cancelCalls: nat,
    runner: Runner, taken: bool,
    seeds: seq<SeedStage>, units: seq<Unit>)

  /** What can happen to a unit: its `Process` methods, and the writer's two steps on its result. */
  datatype Move =
    | ProcessPlace(resp: PlaceResponse, url: string)
    | ProcessEmail(email: EmailResponse)
    | ReturnBatch
    | WriterAdds(carrier: string)
    | WriterCounts

  datatype Label =
    | SeedFails(i: nat)
    | AnnouncePlaces(i: nat, n: nat)
    | AnnounceBatch(i: nat, entries: seq<Entry>)
    | CountSeed(i: nat)
    | UnitStep(u: nat, move: Move)
    | SetCancel
    | Offer
    | CallCancelFunc
    | StartRunner
    | TakeToken
    | ReadCancel
    | RunnerCancels
    | StopRunner

  function NewPipe(jobId: string, fast: bool, managed: bool, extractEmail: bool, limit: int, cancelSet: bool,
      seedCount: nat): Pipe {
    Pipe(jobId, fast, managed, extractEmail, NewCounters(limit).(seedCount := seedCount, cancelSet := cancelSet),
         false, 0, 0, 0, NotStarted, false, seq(seedCount, _ => SeedWaiting), [])
  }

  // ---------- Steps ----------

  /** A goroutine leaves a section with an action to do. */
  function Owe(p: Pipe, section: (Counters, Signal)): Pipe {
    p.(counters := section.0,
       offers := if section.1.OfferToken? then p.offers + 1 else p.offers,
       calls := if section.1.CallCancel? then p.calls + 1 else p.calls)
  }

  function SetSeed(p: Pipe, i: nat, stage: SeedStage): Pipe
    requires i < |p.seeds|
  {
    p.(seeds := p.seeds[i := stage])
  }

  function SetStage(p: Pipe, u: nat, stage: Stage, produced: seq<Entry>): Pipe
    requires u < |p.units|
  {
    p.(units := p.units[u := p.units[u].(stage := stage, produced := produced)])
  }

  /** The unit moves on, and `amount` places are reported completed for it. */
  function Credit(p: Pipe, u: nat, stage: Stage, amount: nat, produced: seq<Entry>): Pipe
    requires u < |p.units|
  {
    var unit := p.units[u];
    Owe(p.(units := p.units[u := unit.(stage := stage, credited := unit.credited + amount, produced := produced)]),
        PlacesCompletedSection(p.counters, amount))
  }

  function CompleteSeed(p: Pipe, i: nat): Pipe
    requires i < |p.seeds|
  {
    Owe(SetSeed(p, i, SeedCounted), SeedCompletedSection(p.counters, 1))
  }

  function Announce(p: Pipe, i: nat, units: seq<Unit>, n: nat): Pipe
    requires i < |p.seeds|
  {
    SetSeed(p, i, SeedAnnounced).(counters := PlacesFoundSection(p.counters, n), units := p.units + units)
  }

  function NewPlaces(i: nat, n: nat): seq<Unit> {
    seq(n, _ => Unit(i, 1, Queued, 0, []))
  }

  /** The entry that the writer buffers next for a unit; it stamps the entries of a batch with the job's id. */
  function NextEntry(p: Pipe, stage: Stage): Entry
    requires stage.Returned? && stage.written < |stage.entries|
  {
    var entry := stage.entries[stage.written];
    if p.fast then entry.(id := p.jobId) else entry
  }

  predicate CanMove(stage: Stage, m: Move) {
    match m
    case ProcessPlace(_, _) => stage.Queued?
    case ProcessEmail(_) => stage.EmailQueued?
    case ReturnBatch => stage.BatchHeld?
    case WriterAdds(_) => stage.Returned? && stage.written < |stage.entries|
    case WriterCounts => stage.Returned? && stage.written == |stage.entries|
  }

  function NextStage(p: Pipe, stage: Stage, m: Move): Stage
    requires CanMove(stage, m)
  {
    match m
    case ProcessPlace(resp, url) =>
      (match PlaceOutcomeOf(resp, p.extractEmail, p.jobId, url)
       case PlaceFailed => Failed
       case PlaceReturned(e) => Returned([e], 0)
       case PlaceHandedOff(e) => EmailQueued(e))
    case ProcessEmail(email) => Returned([EmailResult(stage.entry, email)], 0)
    case ReturnBatch => Returned(stage.entries, 0)
    case WriterAdds(_) => Returned(stage.entries[stage.written := NextEntry(p, stage)], stage.written + 1)
    case WriterCounts => Recorded(stage.entries)
  }

  /** The completions that a move reports to the monitor, if it calls it at all. */
  function Reported(p: Pipe, stage: Stage, m: Move): Option<nat>
    requires CanMove(stage, m)
  {
    match m
    case ProcessPlace(resp, url) =>
      var credit := PlaceCredit(PlaceOutcomeOf(resp, p.extractEmail, p.jobId, url), p.managed);
      if credit > 0 then Some(credit) else None
    case ProcessEmail(_) => if p.managed then None else Some(1)
    case ReturnBatch => if p.managed then None else Some(|stage.entries|)
    case WriterAdds(_) => None
    case WriterCounts => if p.managed && |stage.entries| > 0 then Some(|stage.entries|) else None
  }

  function Moved(p: Pipe, unit: Unit, m: Move): Unit
    requires CanMove(unit.stage, m)
  {
    var amount := Reported(p, unit.stage, m);
    Unit(unit.seed, unit.size, NextStage(p, unit.stage, m), unit.credited + (if amount.Some? then amount.value else 0),
         Yielded(p.jobId, p.extractEmail, unit.produced, m))
  }

  /** What a unit has produced after a move, given what it had produced before. */
  function Yielded(jobId: string, extractEmail: bool, before: seq<Entry>, m: Move): seq<Entry> {
    match m
    case ProcessPlace(resp, url) => EntriesOfPlace(PlaceOutcomeOf(resp, extractEmail, jobId, url))
    case ProcessEmail(email) => seq(|before|, i requires 0 <= i < |before| => EmailResult(before[i], email))
    case _ => before
  }

  /** A child exists for the scraper only after its seed's `Process` has counted the seed. */
  predicate Live(p: Pipe, u: nat) {
    u < |p.units| && p.units[u].seed < |p.seeds| && p.seeds[p.units[u].seed].SeedCounted?
  }

  predicate Enabled(p: Pipe, l: Label) {
    match l
    case SeedFails(i) => i < |p.seeds| && p.seeds[i].SeedWaiting?
    case AnnouncePlaces(i, _) => !p.fast && i < |p.seeds| && p.seeds[i].SeedWaiting?
    case AnnounceBatch(i, _) => p.fast && i < |p.seeds| && p.seeds[i].SeedWaiting?
    case CountSeed(i) => i < |p.seeds| && p.seeds[i].SeedAnnounced?
    case UnitStep(u, m) => Live(p, u) && CanMove(p.units[u].stage, m)
    case SetCancel => true
    case Offer => p.offers > 0
    case CallCancelFunc => p.calls > 0
    case StartRunner => p.runner.NotStarted?
    case TakeToken => p.runner.Listening? && p.token
    case ReadCancel => p.runner.HasToken?
    case RunnerCancels => p.runner.Cancelling?
    case StopRunner => p.runner.Listening?
  }

  function Step(p: Pipe, l: Label): Pipe
    requires Enabled(p, l)
  {
    match l
    case SeedFails(i) => CompleteSeed(p, i)
    case AnnouncePlaces(i, n) => Announce(p, i, NewPlaces(i, n), n)
    case AnnounceBatch(i, entries) => Announce(p, i, [Unit(i, |entries|, BatchHeld(entries), 0, entries)], |entries|)
    case CountSeed(i) => CompleteSeed(p, i)
    case UnitStep(u, m) =>
      var stage := p.units[u].stage;
      var amount, produced := Reported(p, stage, m), Yielded(p.jobId, p.extractEmail, p.units[u].produced, m);
      if amount.Some? then Credit(p, u, NextStage(p, stage, m), amount.value, produced)
      else SetStage(p, u, NextStage(p, stage, m), produced)
    case SetCancel => Owe(p, SetCancelSection(p.counters, true))
    case Offer => p.(offers := p.offers - 1, token := true)
    case CallCancelFunc => p.(calls := p.calls - 1, cancelCalls := p.cancelCalls + 1)
    case StartRunner => p.(runner := Listening)
    case TakeToken => p.(runner := HasToken, token := false, taken := true)
    case ReadCancel => p.(runner := if p.counters.cancelSet then Cancelling else Stopped)
    case RunnerCancels => p.(runner := Stopped, cancelCalls := p.cancelCalls + 1)
    case StopRunner => p.(runner := Stopped)
  }

  function Execute(p: Pipe, run: seq<Label>): Option<Pipe>
    decreases |run|
  {
    if run == [] then Some(p)
    else if Enabled(p, run[0]) then Execute(Step(p, run[0]), run[1..])
    else None
  }

  // ---------- What the counters mean ----------

  function SizeOf(u: Unit): int { u.size }
  function CreditOf(u: Unit): int { u.credited }
  function CountOf(s: SeedStage): int { if s.SeedCounted? then 1 else 0 }
  function One(s: SeedStage): int { 1 }

  /** Whether the job or the writer that is responsible for this unit has passed the point where it counts. */
  predicate Finished(u: Unit) {
    u.stage.Failed? || u.stage.Recorded?
  }

  predicate Settled(managed: bool, u: Unit) {
    match u.stage
    case Failed => true
    case Recorded(_) => true
    case Returned(_, _) => !managed
    case _ => false
  }

  ghost predicate UnitOk(p: Pipe, u: Unit) {
    && u.seed < |p.seeds| && !p.seeds[u.seed].SeedWaiting?
    && u.credited == (if Settled(p.managed, u) then u.size else 0)
    && (!p.fast ==> Stamped(p, u.produced, |u.produced|))
    && match u.stage
       case BatchHeld(es) => u.size == |es| && p.fast && es == u.produced
       case Returned(es, k) => u.size == |es| && k <= |es| && Rewritten(p, u.produced, es, k)
       case Recorded(es) => u.size == |es| && Rewritten(p, u.produced, es, |es|)
       case EmailQueued(e) => u.size == 1 && u.produced == [e] && e.id == p.jobId
       case _ => u.size == 1 && u.produced == []
  }

  /**
   What the writer has made of the produced entries: of a batch it has stamped the first `k`, and it changes
   nothing else.
   */
  ghost predicate Rewritten(p: Pipe, produced: seq<Entry>, es: seq<Entry>, k: nat) {
    && |es| == |produced|
    && forall i :: 0 <= i < |es| ==> es[i] == if p.fast && i < k then produced[i].(id := p.jobId) else produced[i]
  }

  /** The first `k` entries carry the id of the run's job. */
  ghost predicate Stamped(p: Pipe, es: seq<Entry>, k: nat) {
    k <= |es| && forall i :: 0 <= i < k ==> es[i].id == p.jobId
  }

  ghost predicate Counted(p: Pipe) {
    && p.counters.seedCount == |p.seeds|
    && p.counters.seedCompleted == Sum(p.seeds, CountOf)
    && p.counters.placesFound == Sum(p.units, SizeOf)
    && p.counters.placesCompleted == Sum(p.units, CreditOf)
    && forall u :: u in p.units ==> UnitOk(p, u)
  }

  /** Every seed is complete, and every found place has been reported completed. */
  ghost predicate AllComplete(p: Pipe) {
    && (forall s :: s in p.seeds ==> s.SeedCounted?)
    && (forall u :: u in p.units ==> u.credited == u.size)
  }

  /** The done signal in any of its forms: owed, pending in the slot, or received. */
  predicate Signalled(p: Pipe) {
    p.offers > 0 || p.token || p.taken
  }

  predicate CancelledOrAboutTo(p: Pipe) {
    p.calls > 0 || p.cancelCalls > 0
  }

  predicate LimitHit(c: Counters) {
    c.maximumPlaces > 0 && c.placesCompleted >= c.maximumPlaces
  }

  ghost predicate Inv(p: Pipe) {
    && Counted(p)
    && (Signalled(p) ==> AllComplete(p))
    && (AllComplete(p) && |p.seeds| > 0 ==> Signalled(p) || (p.counters.limitReached && CancelledOrAboutTo(p)))
    && (p.counters.limitReached <==> LimitHit(p.counters))
    && (p.counters.limitReached && p.counters.cancelSet ==> CancelledOrAboutTo(p))
    && ((p.runner.NotStarted? || p.runner.Listening?) ==> !p.taken)
    && ((p.runner.HasToken? || p.runner.Cancelling?) ==> p.taken)
    && (CancelledOrAboutTo(p) ==> p.counters.limitReached || p.taken)
    && (|p.seeds| == 0 ==> p.units == [] && !Signalled(p))
  }

  /** The monitor's own test agrees with the pipeline: this is what makes it neither early nor late. */
  lemma DoneMeansAllComplete(p: Pipe)
    requires Counted(p)
    ensures Done(p.counters) <==> AllComplete(p)
  {
    SumBounded(p.seeds, CountOf, One);
    CountSeeds(p.seeds);
    SumBounded(p.units, CreditOf, SizeOf);
    assert (forall s :: s in p.seeds ==> CountOf(s) == One(s)) <==> (forall s :: s in p.seeds ==> s.SeedCounted?);
    assert (forall u :: u in p.units ==> CreditOf(u) == SizeOf(u))
      <==> (forall u :: u in p.units ==> u.credited == u.size);
  }

  lemma {:induction false} CountSeeds(seeds: seq<SeedStage>)
    ensures Sum(seeds, One) == |seeds|
  {
    if seeds != [] {
      CountSeeds(seeds[..|seeds| - 1]);
    }
  }

  // ---------- The invariant is kept ----------

  /** Replacing one unit by another of the same seed and size that is also in order. */
  lemma UnitMoves(p: Pipe, u: nat, unit: Unit, counters: Counters)
    requires Counted(p) && u < |p.units| && UnitOk(p, unit) && unit.size == p.units[u].size
    requires counters == p.counters.(
                           placesCompleted := p.counters.placesCompleted + unit.credited - p.units[u].credited,
                           limitReached := counters.limitReached, cancelSet := counters.cancelSet)
    ensures Counted(p.(units := p.units[u := unit], counters := counters))
  {
    SumUpdate(p.units, u, unit, SizeOf);
    SumUpdate(p.units, u, unit, CreditOf);
    var p' := p.(units := p.units[u := unit], counters := counters);
    forall v | v in p'.units ensures UnitOk(p', v) {
      assert v == unit || v in p.units;
    }
  }

  lemma SeedMoves(p: Pipe, i: nat, stage: SeedStage, counters: Counters)
    requires Counted(p) && i < |p.seeds| && !stage.SeedWaiting?
    requires counters == p.counters.(seedCompleted := p.counters.seedCompleted + CountOf(stage) - CountOf(p.seeds[i]))
    ensures Counted(SetSeed(p, i, stage).(counters := counters))
  {
    SumUpdate(p.seeds, i, stage, CountOf);
    var p' := SetSeed(p, i, stage).(counters := counters);
    forall v | v in p'.units ensures UnitOk(p', v) {
      assert UnitOk(p, v);
    }
  }

  lemma UnitsArrive(p: Pipe, i: nat, units: seq<Unit>, n: nat)
    requires Counted(p) && i < |p.seeds| && p.seeds[i].SeedWaiting?
    requires forall u :: u in units ==> u.seed == i && u.credited == 0 && UnitOk(SetSeed(p, i, SeedAnnounced), u)
    requires Sum(units, SizeOf) == n
    ensures Counted(Announce(p, i, units, n))
  {
    SumUpdate(p.seeds, i, SeedAnnounced, CountOf);
    SumAppend(p.units, units, SizeOf);
    SumAppend(p.units, units, CreditOf);
    NoCredit(units);
    var p' := Announce(p, i, units, n);
    forall v | v in p'.units ensures UnitOk(p', v) {
      if v in units {
        UnitOkSameSeeds(SetSeed(p, i, SeedAnnounced), p', v);
      } else {
        assert v in p.units;
        AnnouncedSeedsSuffice(p, p', i, v);
      }
    }
  }

  lemma UnitOkSameSeeds(p: Pipe, p': Pipe, u: Unit)
    requires p'.seeds == p.seeds && p'.managed == p.managed && p'.fast == p.fast && p'.jobId == p.jobId
    ensures UnitOk(p', u) <==> UnitOk(p, u)
  {
  }

  lemma AnnouncedSeedsSuffice(p: Pipe, p': Pipe, i: nat, u: Unit)
    requires i < |p.seeds| && p'.seeds == p.seeds[i := SeedAnnounced]
    requires p'.managed == p.managed && p'.fast == p.fast && p'.jobId == p.jobId
    requires UnitOk(p, u)
    ensures UnitOk(p', u)
  {
  }

  lemma {:induction false} NoCredit(units: seq<Unit>)
    requires forall u :: u in units ==> u.credited == 0
    ensures Sum(units, CreditOf) == 0
  {
    if units != [] {
      assert units[|units| - 1] in units;
      NoCredit(units[..|units| - 1]);
    }
  }

  lemma {:induction false} PlacesHaveSizeOne(i: nat, n: nat)
    ensures Sum(NewPlaces(i, n), SizeOf) == n
  {
    if n > 0 {
      assert NewPlaces(i, n)[..n - 1] == NewPlaces(i, n - 1);
      PlacesHaveSizeOne(i, n - 1);
    }
  }

  /** A section that evaluates the completion test, seen from before and after. */
  lemma SectionKeepsInv(p: Pipe, p': Pipe)
    requires Inv(p) && Counted(p')
    requires p'.token == p.token && p'.taken == p.taken && p'.runner == p.runner && p'.cancelCalls == p.cancelCalls
    requires p'.counters.maximumPlaces == p.counters.maximumPlaces && p'.counters.cancelSet == p.counters.cancelSet
    requires |p'.seeds| == |p.seeds| > 0
    requires AllComplete(p) ==> AllComplete(p')
    requires p'.counters.limitReached <==> LimitHit(p'.counters)
    requires p.counters.limitReached ==> p'.counters.limitReached
    requires var reached := p'.counters.limitReached && !p.counters.limitReached && p'.counters.cancelSet;
             || (p'.offers == p.offers + 1 && p'.calls == p.calls && AllComplete(p') && !reached)
             || (p'.offers == p.offers && p'.calls == p.calls + 1 && p'.counters.limitReached && p'.counters.cancelSet)
             || (p'.offers == p.offers && p'.calls == p.calls && !AllComplete(p') && !reached)
    ensures Inv(p')
  {
  }

  lemma CreditKeepsInv(p: Pipe, u: nat, stage: Stage, amount: nat, produced: seq<Entry>)
    requires Inv(p) && u < |p.units|
    requires UnitOk(p, p.units[u].(stage := stage, credited := p.units[u].credited + amount, produced := produced))
    ensures Inv(Credit(p, u, stage, amount, produced))
  {
    var unit := p.units[u].(stage := stage, credited := p.units[u].credited + amount, produced := produced);
    var p' := Credit(p, u, stage, amount, produced);
    CreditEffect(p, u, stage, amount, produced);
    UnitMoves(p, u, unit, p'.counters);
    SamePipelineCounts(p.(units := p.units[u := unit], counters := p'.counters), p');
    DoneMeansAllComplete(p');
    if AllComplete(p) {
      CompleteStaysComplete(p, u, unit, p');
    }
    assert |p.seeds| > 0 by { assert p.units[u] in p.units; }
    SectionKeepsInv(p, p');
  }

  /** The same seeds, units and totals, whatever the monitor is doing. */
  predicate SamePipeline(p: Pipe, p': Pipe) {
    && p'.jobId == p.jobId && p'.fast == p.fast && p'.managed == p.managed
    && p'.seeds == p.seeds && p'.units == p.units
    && p'.counters == p.counters.(limitReached := p'.counters.limitReached, cancelSet := p'.counters.cancelSet)
  }

  lemma SamePipelineCounts(p: Pipe, p': Pipe)
    requires Counted(p) && SamePipeline(p, p')
    ensures Counted(p') && (AllComplete(p') <==> AllComplete(p))
  {
    forall u | u in p'.units ensures UnitOk(p', u) {
      assert UnitOk(p, u);
    }
  }

  /** The counters and the owed action after a credit. */
  lemma CreditEffect(p: Pipe, u: nat, stage: Stage, amount: nat, produced: seq<Entry>)
    requires u < |p.units| && (p.counters.limitReached <==> LimitHit(p.counters))
    ensures var p' := Credit(p, u, stage, amount, produced);
            && p'.counters == p.counters.(placesCompleted := p.counters.placesCompleted + amount,
                                          limitReached := p'.counters.limitReached)
            && (p'.counters.limitReached <==> LimitHit(p'.counters))
            && (p.counters.limitReached ==> p'.counters.limitReached)
            && p'.calls == (if p'.counters.limitReached && p'.counters.cancelSet then p.calls + 1 else p.calls)
            && p'.offers == (if !(p'.counters.limitReached && p'.counters.cancelSet) && Done(p'.counters)
                             then p.offers + 1 else p.offers)
  {
  }

  /** No unit can be credited more than its size. */
  lemma CompleteStaysComplete(p: Pipe, u: nat, unit: Unit, p': Pipe)
    requires AllComplete(p) && u < |p.units| && p'.seeds == p.seeds && p'.units == p.units[u := unit]
    requires unit.size == p.units[u].size && unit.credited >= p.units[u].credited && unit.credited <= unit.size
    ensures AllComplete(p')
  {
    assert p.units[u] in p.units;
    forall v | v in p'.units ensures v.credited == v.size {
      assert v == unit || v in p.units;
    }
  }

  lemma StageKeepsInv(p: Pipe, u: nat, stage: Stage, produced: seq<Entry>)
    requires Inv(p) && u < |p.units| && UnitOk(p, p.units[u].(stage := stage, produced := produced))
    ensures Inv(SetStage(p, u, stage, produced))
  {
    var unit := p.units[u].(stage := stage, produced := produced);
    var p' := SetStage(p, u, stage, produced);
    UnitMoves(p, u, unit, p.counters);
    DoneMeansAllComplete(p);
    DoneMeansAllComplete(p');
  }

  lemma SeedKeepsInv(p: Pipe, i: nat)
    requires Inv(p) && i < |p.seeds| && !p.seeds[i].SeedCounted?
    ensures Inv(CompleteSeed(p, i))
  {
    var p' := CompleteSeed(p, i);
    SeedMoves(p, i, SeedCounted, p'.counters);
    assert Counted(p');
    DoneMeansAllComplete(p');
    assert p.seeds[i] in p.seeds;
    SectionKeepsInv(p, p');
  }

  lemma AnnounceKeepsInv(p: Pipe, i: nat, units: seq<Unit>, n: nat)
    requires Inv(p) && i < |p.seeds| && p.seeds[i].SeedWaiting?
    requires forall u :: u in units ==> u.seed == i && u.credited == 0 && UnitOk(SetSeed(p, i, SeedAnnounced), u)
    requires Sum(units, SizeOf) == n
    ensures Inv(Announce(p, i, units, n))
  {
    UnitsArrive(p, i, units, n);
    var p' := Announce(p, i, units, n);
    assert p.seeds[i] in p.seeds && p'.seeds[i] in p'.seeds;
    assert !AllComplete(p) && !AllComplete(p');
  }

  /** Each move keeps a unit in order, given that it reports what `Reported` says. */
  lemma MoveKeepsUnitOk(p: Pipe, unit: Unit, m: Move)
    requires UnitOk(p, unit) && CanMove(unit.stage, m)
    ensures UnitOk(p, Moved(p, unit, m))
  {
    match m
    case ProcessPlace(resp, url) => PlaceKeepsUnitOk(p, unit, resp, url);
    case ProcessEmail(email) => EmailKeepsUnitOk(p, unit, email);
    case WriterAdds(carrier) => AddKeepsUnitOk(p, unit, carrier);
    case _ =>
  }

  lemma PlaceKeepsUnitOk(p: Pipe, unit: Unit, resp: PlaceResponse, url: string)
    requires UnitOk(p, unit) && unit.stage.Queued?
    ensures UnitOk(p, Moved(p, unit, ProcessPlace(resp, url)))
  {
  }

  lemma EmailKeepsUnitOk(p: Pipe, unit: Unit, email: EmailResponse)
    requires UnitOk(p, unit) && unit.stage.EmailQueued?
    ensures UnitOk(p, Moved(p, unit, ProcessEmail(email)))
  {
    var entry := EmailResult(unit.stage.entry, email);
    assert entry.id == p.jobId;
    assert Yielded(p.jobId, p.extractEmail, unit.produced, ProcessEmail(email)) == [entry];
  }

  lemma AddKeepsUnitOk(p: Pipe, unit: Unit, carrier: string)
    requires UnitOk(p, unit) && unit.stage.Returned? && unit.stage.written < |unit.stage.entries|
    ensures UnitOk(p, Moved(p, unit, WriterAdds(carrier)))
  {
    var k := unit.stage.written;
    assert NextEntry(p, unit.stage) == if p.fast then unit.produced[k].(id := p.jobId) else unit.produced[k];
  }

  lemma MoveChangesOneUnit(p: Pipe, u: nat, m: Move)
    requires Enabled(p, UnitStep(u, m))
    ensures Step(p, UnitStep(u, m)).units == p.units[u := Moved(p, p.units[u], m)]
    ensures Step(p, UnitStep(u, m)).counters.placesFound == p.counters.placesFound
    ensures Step(p, UnitStep(u, m)).seeds == p.seeds
  {
  }

  lemma UnitStepKeepsInv(p: Pipe, u: nat, m: Move)
    requires Inv(p) && Enabled(p, UnitStep(u, m))
    ensures Inv(Step(p, UnitStep(u, m)))
  {
    var unit := p.units[u];
    assert unit in p.units;
    MoveKeepsUnitOk(p, unit, m);
    var amount, stage := Reported(p, unit.stage, m), NextStage(p, unit.stage, m);
    var produced := Yielded(p.jobId, p.extractEmail, unit.produced, m);
    if amount.Some? {
      CreditKeepsInv(p, u, stage, amount.value, produced);
    } else {
      assert unit.(stage := stage, credited := unit.credited + 0, produced := produced)
          == unit.(stage := stage, produced := produced);
      StageKeepsInv(p, u, stage, produced);
    }
  }

  lemma MonitorStepKeepsInv(p: Pipe, l: Label)
    requires Inv(p) && Enabled(p, l)
    requires MonitorLabel(l)
    ensures Inv(Step(p, l))
  {
    MonitorLeavesPipeline(p, l);
    SamePipelineCounts(p, Step(p, l));
    MonitorSignals(p, l);
  }

  /** The part of the invariant that is about the signal, over a step that leaves the pipeline alone. */
  lemma MonitorSignals(p: Pipe, l: Label)
    requires Inv(p) && Enabled(p, l) && MonitorLabel(l)
    requires Counted(Step(p, l)) && (AllComplete(Step(p, l)) <==> AllComplete(p))
    ensures Inv(Step(p, l))
  {
  }

  lemma MonitorLeavesPipeline(p: Pipe, l: Label)
    requires Enabled(p, l) && MonitorLabel(l)
    ensures SamePipeline(p, Step(p, l))
  {
  }

  lemma StepKeepsInv(p: Pipe, l: Label)
    requires Inv(p) && Enabled(p, l)
    ensures Inv(Step(p, l))
  {
    match l
    case SeedFails(i) => SeedKeepsInv(p, i);
    case CountSeed(i) => SeedKeepsInv(p, i);
    case AnnouncePlaces(i, n) =>
      PlacesHaveSizeOne(i, n);
      AnnounceKeepsInv(p, i, NewPlaces(i, n), n);
    case AnnounceBatch(i, entries) =>
      var batch := Unit(i, |entries|, BatchHeld(entries), 0, entries);
      assert [batch][..0] == [];
      assert Sum([batch], SizeOf) == |entries|;
      AnnounceKeepsInv(p, i, [batch], |entries|);
    case UnitStep(u, m) => UnitStepKeepsInv(p, u, m);
    case _ => MonitorStepKeepsInv(p, l);
  }

  lemma {:induction false} NoneCounted(n: nat)
    ensures Sum(seq(n, _ => SeedWaiting), CountOf) == 0
  {
    if n > 0 {
      assert seq(n, _ => SeedWaiting)[..n - 1] == seq(n - 1, _ => SeedWaiting);
      NoneCounted(n - 1);
    }
  }

  lemma NewPipeInv(jobId: string, fast: bool, managed: bool, extractEmail: bool, limit: int, cancelSet: bool,
      seedCount: nat)
    ensures Inv(NewPipe(jobId, fast, managed, extractEmail, limit, cancelSet, seedCount))
  {
    NoneCounted(seedCount);
    var p := NewPipe(jobId, fast, managed, extractEmail, limit, cancelSet, seedCount);
    if seedCount > 0 {
      assert p.seeds[0] in p.seeds;
    }
  }

  lemma {:induction false} ExecuteKeepsInv(p: Pipe, run: seq<Label>)
    requires Inv(p) && Execute(p, run).Some?
    ensures Inv(Execute(p, run).value)
    decreases |run|
  {
    if run != [] {
      StepKeepsInv(p, run[0]);
      ExecuteKeepsInv(Step(p, run[0]), run[1..]);
    }
  }

  // ---------- Main results ----------

  /** The signal exists in some form only once everything is complete, and that cannot change afterwards. */
  lemma SignalIsNeverEarly(jobId: string, fast: bool, managed: bool, extractEmail: bool, limit: int, cancelSet: bool,
                           seedCount: nat, run: seq<Label>, later: seq<Label>)
    requires var p := NewPipe(jobId, fast, managed, extractEmail, limit, cancelSet, seedCount);
             Execute(p, run).Some? && Execute(Execute(p, run).value, later).Some?
    ensures var p := Execute(NewPipe(jobId, fast, managed, extractEmail, limit, cancelSet, seedCount), run).value;
            Signalled(p) ==> AllComplete(p) && AllComplete(Execute(p, later).value)
  {
    var p0 := NewPipe(jobId, fast, managed, extractEmail, limit, cancelSet, seedCount);
    NewPipeInv(jobId, fast, managed, extractEmail, limit, cancelSet, seedCount);
    ExecuteKeepsInv(p0, run);
    if Signalled(Execute(p0, run).value) {
      SignalPersists(Execute(p0, run).value, later);
    }
  }

  lemma StepKeepsSignal(p: Pipe, l: Label)
    requires Enabled(p, l) && Signalled(p)
    ensures Signalled(Step(p, l))
  {
  }

  lemma {:induction false} SignalPersists(p: Pipe, run: seq<Label>)
    requires Inv(p) && Signalled(p) && Execute(p, run).Some?
    ensures Signalled(Execute(p, run).value) && Inv(Execute(p, run).value)
    decreases |run|
  {
    if run != [] {
      StepKeepsInv(p, run[0]);
      StepKeepsSignal(p, run[0]);
      SignalPersists(Step(p, run[0]), run[1..]);
    }
  }

  /** Without a place limit the signal exists exactly when there was a seed and everything is complete. */
  lemma SignalIsNeverLost(jobId: string, fast: bool, managed: bool, extractEmail: bool, limit: int, cancelSet: bool,
                          seedCount: nat, run: seq<Label>)
    requires Execute(NewPipe(jobId, fast, managed, extractEmail, limit, cancelSet, seedCount), run).Some?
    ensures var p := Execute(NewPipe(jobId, fast, managed, extractEmail, limit, cancelSet, seedCount), run).value;
            && (AllComplete(p) && seedCount > 0 ==> Signalled(p) || (LimitHit(p.counters) && CancelledOrAboutTo(p)))
            && (limit <= 0 ==> (Signalled(p) <==> AllComplete(p) && seedCount > 0))
  {
    var p0 := NewPipe(jobId, fast, managed, extractEmail, limit, cancelSet, seedCount);
    NewPipeInv(jobId, fast, managed, extractEmail, limit, cancelSet, seedCount);
    ExecuteKeepsInv(p0, run);
    ExecuteKeepsShape(p0, run);
  }

  /** What no step changes. */
  predicate SameRun(p: Pipe, p': Pipe) {
    && p'.jobId == p.jobId && p'.fast == p.fast && p'.managed == p.managed && p'.extractEmail == p.extractEmail
    && |p'.seeds| == |p.seeds| && p'.counters.maximumPlaces == p.counters.maximumPlaces
    && (p.counters.cancelSet ==> p'.counters.cancelSet)
  }

  lemma StepKeepsShape(p: Pipe, l: Label)
    requires Enabled(p, l)
    ensures SameRun(p, Step(p, l))
  {
    match l
    case UnitStep(u, m) => MoveKeepsShape(p, u, m);
    case SeedFails(i) =>
    case CountSeed(i) =>
    case AnnouncePlaces(i, n) =>
    case AnnounceBatch(i, entries) =>
    case _ => MonitorKeepsShape(p, l);
  }

  lemma MoveKeepsShape(p: Pipe, u: nat, m: Move)
    requires Enabled(p, UnitStep(u, m))
    ensures SameRun(p, Step(p, UnitStep(u, m)))
  {
    var stage, produced := p.units[u].stage, Yielded(p.jobId, p.extractEmail, p.units[u].produced, m);
    var amount := Reported(p, stage, m);
    if amount.Some? {
      CreditKeepsShape(p, u, NextStage(p, stage, m), amount.value, produced);
    } else {
      assert SameRun(p, SetStage(p, u, NextStage(p, stage, m), produced));
    }
  }

  lemma CreditKeepsShape(p: Pipe, u: nat, stage: Stage, amount: nat, produced: seq<Entry>)
    requires u < |p.units|
    ensures SameRun(p, Credit(p, u, stage, amount, produced))
  {
  }

  predicate MonitorLabel(l: Label) {
    l.SetCancel? || l.Offer? || l.CallCancelFunc? || l.StartRunner? || l.TakeToken? || l.ReadCancel?
    || l.RunnerCancels? || l.StopRunner?
  }

  lemma MonitorKeepsShape(p: Pipe, l: Label)
    requires Enabled(p, l) && MonitorLabel(l)
    ensures SameRun(p, Step(p, l))
  {
  }

  lemma {:induction false} Concatenates(p: Pipe, a: seq<Label>, b: seq<Label>)
    requires Execute(p, a).Some?
    ensures Execute(p, a + b) == Execute(Execute(p, a).value, b)
    decreases |a|
  {
    if a == [] {
      assert a + b == b;
    } else {
      assert (a + b)[1..] == a[1..] + b;
      Concatenates(Step(p, a[0]), a[1..], b);
    }
  }

  /** The steps of the scraper and of the writer leave the monitor's goroutine alone. */
  lemma RunnerStays(p: Pipe, l: Label)
    requires Enabled(p, l) && !(l.StartRunner? || l.TakeToken? || l.ReadCancel? || l.RunnerCancels? || l.StopRunner?)
    ensures Step(p, l).runner == p.runner && Step(p, l).taken == p.taken
  {
    match l
    case UnitStep(u, m) =>
    case SeedFails(i) =>
    case CountSeed(i) =>
    case AnnouncePlaces(i, n) =>
    case AnnounceBatch(i, entries) =>
    case _ =>
  }

  lemma {:induction false} ExecuteKeepsShape(p: Pipe, run: seq<Label>)
    requires Execute(p, run).Some?
    ensures SameRun(p, Execute(p, run).value)
    decreases |run|
  {
    if run != [] {
      StepKeepsShape(p, run[0]);
      ExecuteKeepsShape(Step(p, run[0]), run[1..]);
    }
  }

  /** The limit and the cancel function may come in either order; once both are there, cancelling is under way. */
  lemma LimitCancels(jobId: string, fast: bool, managed: bool, extractEmail: bool, limit: int, cancelSet: bool,
                     seedCount: nat, run: seq<Label>)
    requires Execute(NewPipe(jobId, fast, managed, extractEmail, limit, cancelSet, seedCount), run).Some?
    ensures var p := Execute(NewPipe(jobId, fast, managed, extractEmail, limit, cancelSet, seedCount), run).value;
            && (LimitHit(p.counters) && p.counters.cancelSet ==> CancelledOrAboutTo(p))
            && (CancelledOrAboutTo(p) ==> LimitHit(p.counters) || AllComplete(p))
  {
    NewPipeInv(jobId, fast, managed, extractEmail, limit, cancelSet, seedCount);
    ExecuteKeepsInv(NewPipe(jobId, fast, managed, extractEmail, limit, cancelSet, seedCount), run);
  }

  /**
   Each found place is reported completed at most once, and exactly once when its path ends, whichever
   path it took and whoever counts; the monitor's totals are the totals over the places.
   */
  lemma PlacesAreCountedOnce(jobId: string, fast: bool, managed: bool, extractEmail: bool, limit: int, cancelSet: bool,
                             seedCount: nat, run: seq<Label>)
    requires Execute(NewPipe(jobId, fast, managed, extractEmail, limit, cancelSet, seedCount), run).Some?
    ensures var p := Execute(NewPipe(jobId, fast, managed, extractEmail, limit, cancelSet, seedCount), run).value;
            && (forall u :: u in p.units ==> u.credited == if Settled(managed, u) then u.size else 0)
            && (forall u :: u in p.units && Finished(u) ==> u.credited == u.size)
            && p.counters.placesFound == Sum(p.units, SizeOf)
            && p.counters.placesCompleted == Sum(p.units, CreditOf)
            && p.counters.seedCompleted == Sum(p.seeds, CountOf)
  {
    var p0 := NewPipe(jobId, fast, managed, extractEmail, limit, cancelSet, seedCount);
    NewPipeInv(jobId, fast, managed, extractEmail, limit, cancelSet, seedCount);
    ExecuteKeepsInv(p0, run);
    ExecuteKeepsShape(p0, run);
    var p := Execute(p0, run).value;
    forall u | u in p.units ensures UnitOk(p, u) {}
  }

  // ---------- Entries ----------

  /** What the writer has buffered for a unit. */
  function WrittenOf(u: Unit): multiset<Entry> {
    match u.stage
    case Returned(es, k) => if k <= |es| then multiset(es[..k]) else multiset{}
    case Recorded(es) => multiset(es)
    case _ => multiset{}
  }

  /** What the produced entries look like in the result table: those of a batch carry the job's id. */
  function Stored(jobId: string, fast: bool, produced: seq<Entry>): seq<Entry> {
    if fast then Stamp(produced, jobId) else produced
  }

  function StoredOf(jobId: string, fast: bool): Unit -> multiset<Entry> {
    (u: Unit) => multiset(Stored(jobId, fast, u.produced))
  }

  function SucceededOf(u: Unit): int { if u.stage.Failed? then 0 else u.size }
  function FailedOf(u: Unit): int { if u.stage.Failed? then u.size else 0 }

  /** With writer-managed counting, complete means buffered: each produced entry, and nothing that was not produced. */
  lemma CompleteMeansBuffered(p: Pipe)
    requires Inv(p) && p.managed && AllComplete(p)
    ensures Collect(p.units, WrittenOf) == Collect(p.units, StoredOf(p.jobId, p.fast))
    ensures |Collect(p.units, WrittenOf)| == p.counters.placesFound - Sum(p.units, FailedOf)
  {
    forall u | u in p.units
      ensures WrittenOf(u) == StoredOf(p.jobId, p.fast)(u) && |WrittenOf(u)| == SucceededOf(u)
    {
      assert UnitOk(p, u);
      CompleteUnitIsWritten(p, u);
    }
    CollectCongruent(p.units, WrittenOf, StoredOf(p.jobId, p.fast));
    CollectSize(p.units, WrittenOf, SucceededOf);
    SplitSizes(p.units);
  }

  lemma CompleteUnitIsWritten(p: Pipe, u: Unit)
    requires UnitOk(p, u) && p.managed && u.credited == u.size
    ensures WrittenOf(u) == multiset(Stored(p.jobId, p.fast, u.produced))
    ensures |WrittenOf(u)| == SucceededOf(u)
  {
    assert Settled(p.managed, u) || u.size == 0;
    match u.stage
    case Returned(es, k) => assert es[..k] == es == Stored(p.jobId, p.fast, u.produced);
    case Recorded(es) => assert es == Stored(p.jobId, p.fast, u.produced);
    case BatchHeld(es) => assert Stored(p.jobId, p.fast, u.produced) == [];
    case _ =>
  }

  lemma {:induction false} SplitSizes(units: seq<Unit>)
    ensures Sum(units, SizeOf) == Sum(units, SucceededOf) + Sum(units, FailedOf)
  {
    if units != [] {
      SplitSizes(units[..|units| - 1]);
    }
  }

  // ---------- The harvest of a run ----------

  /**
   The entries that a run yields, unit by unit in the order of discovery, read from nothing but its labels:
   the responses to the places and to the email jobs, and the batches.
   */
  function Harvest(jobId: string, before: seq<seq<Entry>>, run: seq<Label>): seq<seq<Entry>>
    decreases |run|
  {
    if run == [] then before
    else Harvest(jobId, HarvestStep(jobId, before, run[0]), run[1..])
  }

  function HarvestStep(jobId: string, before: seq<seq<Entry>>, l: Label): seq<seq<Entry>> {
    match l
    case AnnouncePlaces(_, n) => before + seq(n, _ => [])
    case AnnounceBatch(_, entries) => before + [entries]
    case UnitStep(u, ProcessPlace(resp, url)) =>
      if u >= |before| then before
      else if !resp.PlaceParsed? then before[u := []]
      else before[u := [CompletePlaceEntry(resp.entry, jobId, url)]]
    case UnitStep(u, ProcessEmail(email)) =>
      if u >= |before| || |before[u]| != 1 then before
      else if email.EmailPage? then
        before[u := [before[u][0].(emails := FirstNonEmpty(email.fromLinks, email.fromBody))]]
      else before
    case _ => before
  }

  function FirstNonEmpty(a: seq<string>, b: seq<string>): seq<string> {
    if a == [] then b else a
  }

  ghost predicate Yields(p: Pipe, harvest: seq<seq<Entry>>) {
    |p.units| == |harvest| && forall u :: 0 <= u < |harvest| ==> p.units[u].produced == harvest[u]
  }

  lemma HarvestStepIsRight(p: Pipe, harvest: seq<seq<Entry>>, l: Label)
    requires Inv(p) && Yields(p, harvest) && Enabled(p, l)
    ensures Yields(Step(p, l), HarvestStep(p.jobId, harvest, l))
  {
    if l.UnitStep? {
      MoveChangesOneUnit(p, l.u, l.move);
      assert UnitOk(p, p.units[l.u]);
      HarvestOfMove(p, harvest, l.u, l.move);
    } else {
      HarvestElsewhere(p, harvest, l);
    }
  }

  lemma HarvestOfMove(p: Pipe, harvest: seq<seq<Entry>>, u: nat, m: Move)
    requires Yields(p, harvest) && u < |p.units| && UnitOk(p, p.units[u]) && CanMove(p.units[u].stage, m)
    ensures var harvest' := HarvestStep(p.jobId, harvest, UnitStep(u, m));
            harvest' == harvest[u := Moved(p, p.units[u], m).produced]
  {
    MoveYields(p, p.units[u], m);
  }

  /** Units are added by announcements only. */
  lemma HarvestElsewhere(p: Pipe, harvest: seq<seq<Entry>>, l: Label)
    requires Yields(p, harvest) && Enabled(p, l) && !l.UnitStep?
    ensures Yields(Step(p, l), HarvestStep(p.jobId, harvest, l))
  {
    if l.AnnouncePlaces? || l.AnnounceBatch? {
      HarvestOfArrival(p, harvest, l);
    } else {
      UnitsStay(p, l);
    }
  }

  lemma HarvestOfArrival(p: Pipe, harvest: seq<seq<Entry>>, l: Label)
    requires Yields(p, harvest) && Enabled(p, l) && (l.AnnouncePlaces? || l.AnnounceBatch?)
    ensures Yields(Step(p, l), HarvestStep(p.jobId, harvest, l))
  {
  }

  lemma UnitsStay(p: Pipe, l: Label)
    requires Enabled(p, l) && !l.UnitStep? && !l.AnnouncePlaces? && !l.AnnounceBatch?
    ensures Step(p, l).units == p.units
  {
    if MonitorLabel(l) {
      MonitorLeavesPipeline(p, l);
    } else {
      SeedLeavesUnits(p, l);
    }
  }

  lemma SeedLeavesUnits(p: Pipe, l: Label)
    requires Enabled(p, l) && (l.SeedFails? || l.CountSeed?)
    ensures Step(p, l).units == p.units
  {
  }

  lemma MoveYields(p: Pipe, unit: Unit, m: Move)
    requires UnitOk(p, unit) && CanMove(unit.stage, m)
    ensures m.ProcessPlace? ==>
              Moved(p, unit, m).produced
              == (if m.resp.PlaceParsed? then [CompletePlaceEntry(m.resp.entry, p.jobId, m.url)] else [])
    ensures m.ProcessEmail? ==>
              && |unit.produced| == 1
              && (!m.email.EmailPage? ==> Moved(p, unit, m).produced == unit.produced)
              && (m.email.EmailPage? ==>
                    Moved(p, unit, m).produced
                    == [unit.produced[0].(emails := FirstNonEmpty(m.email.fromLinks, m.email.fromBody))])
    ensures !m.ProcessPlace? && !m.ProcessEmail? ==> Moved(p, unit, m).produced == unit.produced
  {
  }

  lemma {:induction false} HarvestIsRight(p: Pipe, harvest: seq<seq<Entry>>, run: seq<Label>)
    requires Inv(p) && Yields(p, harvest) && Execute(p, run).Some?
    ensures Yields(Execute(p, run).value, Harvest(p.jobId, harvest, run))
    decreases |run|
  {
    if run != [] {
      StepKeepsInv(p, run[0]);
      StepKeepsShape(p, run[0]);
      HarvestStepIsRight(p, harvest, run[0]);
      HarvestIsRight(Step(p, run[0]), HarvestStep(p.jobId, harvest, run[0]), run[1..]);
    }
  }

  /** The entries of a harvest as they are stored. */
  function StoredFrom(jobId: string, fast: bool): seq<Entry> -> multiset<Entry> {
    (produced: seq<Entry>) => multiset(Stored(jobId, fast, produced))
  }

  lemma {:induction false} UnitsAndHarvestAgree(units: seq<Unit>, harvest: seq<seq<Entry>>, jobId: string, fast: bool)
    requires |units| == |harvest| && forall u :: 0 <= u < |harvest| ==> units[u].produced == harvest[u]
    ensures Collect(units, StoredOf(jobId, fast)) == Collect(harvest, StoredFrom(jobId, fast))
  {
    if units != [] {
      var n := |units| - 1;
      UnitsAndHarvestAgree(units[..n], harvest[..n], jobId, fast);
    }
  }
}
