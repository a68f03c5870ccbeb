/**
 The writer that tracks the one River job in flight (scraper/centralwriter.go).

 The sections under the writer's mutex are functions on the tracked slot; `ScrapeWork`
 interleaves them with the rest of the protocol. The class `Writer` is the object
 itself, with its one-slot completion channels.
 */
module CentralWriter {
  import opened Wrappers
  import opened Exiter
  import opened ScrapeJobs

  datatype FlushResult = FlushResult(count: nat, ok: bool)

  /** One call of the save function. */
  datatype Save = Save(riverJobID: int, keyword: string, entries: seq<Entry>, ok: bool)

  // ---------- The sections ----------

  datatype Tracked = Tracked(jobID: string, riverJobID: int, keyword: string, entries: seq<Entry>)

  predicate Tracks(slot: Option<Tracked>, jobID: string) {
    slot.Some? && slot.value.jobID == jobID
  }

  function Add(slot: Option<Tracked>, jobID: string, entry: Entry): Option<Tracked> {
    if Tracks(slot, jobID) then Some(slot.value.(entries := slot.value.entries + [entry])) else slot
  }

  function AddAll(slot: Option<Tracked>, jobID: string, entries: seq<Entry>): Option<Tracked> {
    if entries == [] then slot
    else Add(AddAll(slot, jobID, entries[..|entries| - 1]), jobID, entries[|entries| - 1])
  }

  lemma AddNext(slot: Option<Tracked>, jobID: string, entries: seq<Entry>, i: nat)
    requires i < |entries|
    ensures AddAll(slot, jobID, entries[..i + 1]) == Add(AddAll(slot, jobID, entries[..i]), jobID, entries[i])
  {
    assert entries[..i + 1][..i] == entries[..i];
  }

  /** The slot after a flush or a discard of `jobID`. */
  function Released(slot: Option<Tracked>, jobID: string): Option<Tracked> {
    if Tracks(slot, jobID) then None else slot
  }

  /** A whole batch is buffered in order behind what is there, or dropped if another job is tracked. */
  lemma {:induction false} AddAllAppends(slot: Option<Tracked>, jobID: string, entries: seq<Entry>)
    ensures AddAll(slot, jobID, entries) ==
            if Tracks(slot, jobID) then Some(slot.value.(entries := slot.value.entries + entries)) else slot
  {
    if entries == [] {
      assert Tracks(slot, jobID) ==> slot.value.entries + entries == slot.value.entries;
    } else {
      var init, last := entries[..|entries| - 1], entries[|entries| - 1];
      AddAllAppends(slot, jobID, init);
      assert Tracks(slot, jobID) ==> slot.value.entries + init + [last] == slot.value.entries + entries;
    }
  }

  /** The id under which a single result is buffered: its own, or that of the job that carries it. */
  function EntryTarget(entry: Entry, carrier: string): string {
    if entry.id == "" then carrier else entry.id
  }

  // ---------- Results ----------

  /** The job of a result, as far as the writer looks at it: a feed job is never counted by the writer. */
  datatype ResultJob =
    | NoJob
    | FeedResult(id: string)
    | CountedResult(id: string, managed: bool, monitor: ExitMonitor?)

  datatype ResultData = OneEntry(entry: Entry) | ManyEntries(entries: seq<Entry>) | OtherData

  datatype ScrapeResult = ScrapeResult(job: ResultJob, data: ResultData)

  function CarrierId(job: ResultJob): string {
    if job.NoJob? then "" else job.id
  }

  /** How many places the writer reports completed for a result. */
  function WriterCredit(result: ScrapeResult): nat {
    if !result.job.CountedResult? || !result.job.managed || result.job.monitor == null then 0
    else match result.data
         case OneEntry(_) => 1
         case ManyEntries(entries) => |entries|
         case OtherData => 0
  }

  /** What the writer does with a result, in order: it offers rows to the tracked job and counts places. */
  datatype WriterStep = Offers(jobID: string, entry: Entry) | Counts(amount: nat)

  function OffersOf(jobID: string, entries: seq<Entry>): seq<WriterStep> {
    seq(|entries|, i requires 0 <= i < |entries| => Offers(jobID, entries[i]))
  }

  /** All rows of a result under the ids that they go by, and behind them the count, if the writer counts. */
  function StepsOf(result: ScrapeResult): seq<WriterStep> {
    var carrier := CarrierId(result.job);
    var offers := match result.data
                  case OneEntry(entry) => [Offers(EntryTarget(entry, carrier), entry)]
                  case ManyEntries(entries) => OffersOf(carrier, Stamp(entries, carrier))
                  case OtherData => [];
    offers + if WriterCredit(result) > 0 then [Counts(WriterCredit(result))] else []
  }

  // ---------- The object ----------

  /** The one-slot channel that a registration hands to its worker. */
  class Completion {
    var slot: Option<FlushResult>

    constructor ()
      ensures slot == None
    {
      slot := None;
    }

    /** A send on the channel: it would block if the slot were taken. */
    method Send(result: FlushResult)
      requires slot == None
      modifies this
      ensures slot == Some(result)
    {
      slot := Some(result);
    }
  }

  class TrackedJob {
    const jobID: string
    const riverJobID: int
    const keyword: string
    const completion: Completion
    var entries: seq<Entry>

    constructor (jobID: string, riverJobID: int, keyword: string, completion: Completion)
      ensures this.jobID == jobID && this.riverJobID == riverJobID && this.keyword == keyword
      ensures this.completion == completion && entries == []
    {
      this.jobID, this.riverJobID, this.keyword, this.completion := jobID, riverJobID, keyword, completion;
      entries := [];
    }
  }

  class Writer {
    var current: TrackedJob?
    var saves: seq<Save>
    var notified: seq<nat>
    ghost var steps: seq<WriterStep>

    constructor ()
      ensures current == null && saves == [] && notified == [] && steps == []
    {
      current, saves, notified := null, [], [];
      steps := [];
    }

    ghost function Slot(): Option<Tracked>
      reads this, current
    {
      if current == null then None
      else Some(Tracked(current.jobID, current.riverJobID, current.keyword, current.entries))
    }

    /** The tracked job's channel has room, so that the send of a flush cannot block. */
    ghost predicate Valid()
      reads this, current
      reads if current == null then {} else {current.completion}
    {
      current != null ==> current.completion.slot == None
    }

    method RegisterJob(jobID: string, riverJobID: int, keyword: string) returns (ch: Completion)
      modifies this`current
      ensures Valid() && Slot() == Some(Tracked(jobID, riverJobID, keyword, []))
      ensures fresh(ch) && fresh(current) && current.completion == ch && ch.slot == None
    {
      ch := new Completion();
      current := new TrackedJob(jobID, riverJobID, keyword, ch);
    }

    method AddResult(jobID: string, entry: Entry)
      requires Valid()
      modifies current, this`steps
      ensures Valid() && Slot() == Add(old(Slot()), jobID, entry)
      ensures steps == old(steps) + [Offers(jobID, entry)]
    {
      steps := steps + [Offers(jobID, entry)];
      if current == null || current.jobID != jobID {
        return;
      }
      current.entries := current.entries + [entry];
    }

    /**
     `saveOk` is the outcome of the save call. A flush that finds its job saves once, answers once and frees
     the slot.
     */
    method Flush(jobID: string, saveOk: bool)
      requires Valid()
      modifies this
      modifies if current == null then {} else {current.completion}
      ensures Valid() && Slot() == Released(old(Slot()), jobID)
      ensures Tracks(old(Slot()), jobID) ==>
                var t := old(Slot()).value;
                && saves == old(saves) + [Save(t.riverJobID, t.keyword, t.entries, saveOk)]
                && old(current.completion).slot == Some(FlushResult(|t.entries|, saveOk))
                && notified == old(notified) + (if saveOk && |t.entries| > 0 then [|t.entries|] else [])
      ensures !Tracks(old(Slot()), jobID) ==>
                && saves == old(saves) && notified == old(notified) && current == old(current)
    {
      var j := current;
      if j == null || j.jobID != jobID {
        return;
      }
      current := null;
      saves := saves + [Save(j.riverJobID, j.keyword, j.entries, saveOk)];
      if saveOk && |j.entries| > 0 {
        notified := notified + [|j.entries|];
      }
      j.completion.Send(FlushResult(|j.entries|, saveOk));
    }

    method Discard(jobID: string)
      requires Valid()
      modifies this`current
      ensures Valid() && Slot() == Released(old(Slot()), jobID)
    {
      if current != null && current.jobID == jobID {
        current := null;
      }
    }

    method TrackedJobs() returns (n: nat)
      ensures n == if Slot().None? then 0 else 1
    {
      n := if current == null then 0 else 1;
    }

    /** Buffered first, counted afterwards: the order that makes the done signal safe. */
    method ProcessResult(result: ScrapeResult)
      requires Valid()
      modifies current, this`steps
      modifies if result.job.CountedResult? && result.job.monitor != null then {result.job.monitor} else {}
      ensures Valid()
      ensures result.data.OneEntry? ==>
                Slot() == Add(old(Slot()), EntryTarget(result.data.entry, CarrierId(result.job)), result.data.entry)
      ensures result.data.ManyEntries? ==>
                Slot() == AddAll(old(Slot()), CarrierId(result.job), Stamp(result.data.entries, CarrierId(result.job)))
      ensures result.data.OtherData? ==> Slot() == old(Slot())
      ensures steps == old(steps) + StepsOf(result)
      ensures result.job.CountedResult? && result.job.monitor != null ==>
                result.job.monitor.State() ==
                if WriterCredit(result) > 0 then CompletePlaces(old(result.job.monitor.State()), WriterCredit(result))
                else old(result.job.monitor.State())
    {
      var carrier := CarrierId(result.job);
      if result.data.OneEntry? {
        AddResult(EntryTarget(result.data.entry, carrier), result.data.entry);
        MarkCompleted(result.job, 1);
        return;
      }
      if result.data.ManyEntries? {
        AddBatch(carrier, result.data.entries);
        MarkCompleted(result.job, |result.data.entries|);
      }
    }

    /** The loop over a batch, which puts the carrier's id on every row. */
    method AddBatch(carrier: string, entries: seq<Entry>)
      requires Valid()
      modifies current, this`steps
      ensures Valid() && Slot() == AddAll(old(Slot()), carrier, Stamp(entries, carrier))
      ensures steps == old(steps) + OffersOf(carrier, Stamp(entries, carrier))
    {
      ghost var stamped := Stamp(entries, carrier);
      var i := 0;
      while i < |entries|
        invariant 0 <= i <= |entries| && Valid() && current == old(current)
        invariant Slot() == AddAll(old(Slot()), carrier, stamped[..i])
        invariant steps == old(steps) + OffersOf(carrier, stamped[..i])
      {
        AddResult(carrier, entries[i].(id := carrier));
        AddNext(old(Slot()), carrier, stamped, i);
        assert OffersOf(carrier, stamped[..i + 1]) == OffersOf(carrier, stamped[..i]) + [Offers(carrier, stamped[i])];
        i := i + 1;
      }
      assert stamped[..i] == stamped;
    }

    method MarkCompleted(job: ResultJob, count: nat)
      modifies this`steps
      modifies if job.CountedResult? && job.monitor != null then {job.monitor} else {}
      ensures job.CountedResult? && job.monitor != null ==>
                job.monitor.State() == if job.managed && count > 0 then CompletePlaces(old(job.monitor.State()), count)
                                       else old(job.monitor.State())
      ensures var counts := job.CountedResult? && job.monitor != null && job.managed && count > 0;
              steps == old(steps) + if counts then [Counts(count)] else []
    {
      if count == 0 || job.NoJob? {
        return;
      }
      if job.CountedResult? && job.managed && job.monitor != null {
        job.monitor.IncrPlacesCompleted(count);
        steps := steps + [Counts(count)];
      }
    }
  }
}
