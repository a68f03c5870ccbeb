/**
 The `Process` methods of the four scrape jobs (gmaps/job.go, gmaps/searchjob.go,
 gmaps/place.go, gmaps/emailjob.go): what each returns and what it tells the exit monitor.

 Parsing of a response is an external effect, so a response arrives here already
 classified by the branch that it takes.
 */
module ScrapeJobs {
  import opened Wrappers
  import opened Exiter
  import Deduper

  /** One listing. `id` is the River job that it belongs to once a place job or the writer has set it. */
  datatype Entry = Entry(id: string, place: string, link: string, websiteOk: bool, emails: seq<string>)

  /** The entries under the id of a job, which is what the writer buffers for a batch. */
  function Stamp(entries: seq<Entry>, jobID: string): seq<Entry> {
    seq(|entries|, i requires 0 <= i < |entries| => entries[i].(id := jobID))
  }

  // ---------- Which branch a response takes, and what it costs the monitor ----------

  datatype PlaceResponse = PlaceFetchFailed | PlaceNoPayload | PlaceBadPayload | PlaceParsed(entry: Entry)

  datatype PlaceOutcome = PlaceFailed | PlaceReturned(entry: Entry) | PlaceHandedOff(entry: Entry)

  function CompletePlaceEntry(entry: Entry, parentID: string, url: string): Entry {
    entry.(id := parentID, link := if entry.link == "" then url else entry.link)
  }

  function PlaceOutcomeOf(resp: PlaceResponse, extractEmail: bool, parentID: string, url: string): PlaceOutcome {
    if !resp.PlaceParsed? then PlaceFailed
    else
      var entry := CompletePlaceEntry(resp.entry, parentID, url);
      if extractEmail && entry.websiteOk then PlaceHandedOff(entry) else PlaceReturned(entry)
  }

  /** The entry of a place, if it has one, before any addresses are looked up. */
  function EntriesOfPlace(outcome: PlaceOutcome): seq<Entry> {
    if outcome.PlaceFailed? then [] else [outcome.entry]
  }

  /** Completions that a place job's own `Process` reports. */
  function PlaceCredit(outcome: PlaceOutcome, managed: bool): nat {
    if outcome.PlaceFailed? || (outcome.PlaceReturned? && !managed) then 1 else 0
  }

  datatype EmailResponse = EmailFetchFailed | EmailNoDocument | EmailPage(fromLinks: seq<string>, fromBody: seq<string>)

  function EmailResult(entry: Entry, resp: EmailResponse): Entry {
    match resp
    case EmailPage(fromLinks, fromBody) => entry.(emails := if fromLinks == [] then fromBody else fromLinks)
    case _ => entry
  }

  datatype FeedResponse = FeedFetchFailed | FeedNoDocument | SinglePlace(url: string) | Feed(hrefs: seq<string>)

  datatype SearchResponse = SearchFetchFailed | SearchEmptyBody | SearchBadBody | SearchParsed(entries: seq<Entry>)

  function CompletePlaces(m: MonitorState, amount: int): MonitorState {
    Call(m, PlacesCompletedSection(m.counters, amount))
  }

  /** Found before completed: the order on which the done signal relies. */
  function FindThenCompleteSeed(m: MonitorState, found: int): MonitorState {
    var m1 := m.(counters := PlacesFoundSection(m.counters, found));
    Call(m1, SeedCompletedSection(m1.counters, 1))
  }

  function FailSeed(m: MonitorState): MonitorState {
    Call(m, SeedCompletedSection(m.counters, 1))
  }

  // ---------- Deduplication of a feed ----------

  /** The links of a feed that a deduper holding `seen` lets through: non-empty, and first of their hash. */
  function FreshLinks(hrefs: seq<string>, seen: set<nat>, hash: string -> nat): seq<string> {
    if hrefs == [] then []
    else
      var init, last := hrefs[..|hrefs| - 1], hrefs[|hrefs| - 1];
      if last != "" && hash(last) !in seen + Hashes(init, hash)
      then FreshLinks(init, seen, hash) + [last]
      else FreshLinks(init, seen, hash)
  }

  function Hashes(hrefs: seq<string>, hash: string -> nat): set<nat> {
    set h | h in hrefs && h != "" :: hash(h)
  }

  function NonEmpty(hrefs: seq<string>): seq<string> {
    if hrefs == [] then []
    else
      var init, last := hrefs[..|hrefs| - 1], hrefs[|hrefs| - 1];
      if last != "" then NonEmpty(init) + [last] else NonEmpty(init)
  }

  /** Link `i` is not empty, and its hash is neither seen nor that of an earlier link. */
  predicate IsFresh(hrefs: seq<string>, i: nat, seen: set<nat>, hash: string -> nat)
    requires i < |hrefs|
  {
    hrefs[i] != "" && hash(hrefs[i]) !in seen + Hashes(hrefs[..i], hash)
  }

  /** The positions of the fresh links, in order. */
  function FreshPositions(hrefs: seq<string>, seen: set<nat>, hash: string -> nat): (positions: seq<nat>)
    ensures forall k :: 0 <= k < |positions| ==> positions[k] < |hrefs|
  {
    if hrefs == [] then []
    else
      var before := FreshPositions(hrefs[..|hrefs| - 1], seen, hash);
      if IsFresh(hrefs, |hrefs| - 1, seen, hash) then before + [|hrefs| - 1] else before
  }

  /** A link is kept exactly if it is fresh, and the kept links stay in order. */
  lemma {:induction false} KeptExactlyIfFresh(hrefs: seq<string>, seen: set<nat>, hash: string -> nat)
    ensures var kept, positions := FreshLinks(hrefs, seen, hash), FreshPositions(hrefs, seen, hash);
            && |kept| == |positions|
            && (forall k :: 0 <= k < |kept| ==> kept[k] == hrefs[positions[k]])
            && (forall j, k :: 0 <= j < k < |positions| ==> positions[j] < positions[k])
    ensures forall i: nat :: i in FreshPositions(hrefs, seen, hash) <==> i < |hrefs| && IsFresh(hrefs, i, seen, hash)
  {
    if hrefs != [] {
      var init := hrefs[..|hrefs| - 1];
      KeptExactlyIfFresh(init, seen, hash);
      forall i: nat | i < |init| ensures IsFresh(hrefs, i, seen, hash) <==> IsFresh(init, i, seen, hash) {
        assert hrefs[..i] == init[..i];
      }
    }
  }

  /** No two children of one feed share a hash, none repeats an earlier one, and no unseen hash is dropped. */
  lemma {:induction false} FreshLinksAreUnique(hrefs: seq<string>, seen: set<nat>, hash: string -> nat)
    ensures var kept := FreshLinks(hrefs, seen, hash);
            && (forall i :: 0 <= i < |kept| ==> kept[i] in hrefs && kept[i] != "" && hash(kept[i]) !in seen)
            && (forall i, j :: 0 <= i < j < |kept| ==> hash(kept[i]) != hash(kept[j]))
            && seen + Hashes(hrefs, hash) == seen + Hashes(kept, hash)
  {
    if hrefs != [] {
      var init, last := hrefs[..|hrefs| - 1], hrefs[|hrefs| - 1];
      FreshLinksAreUnique(init, seen, hash);
      HashesAppend(init, last, hash);
      var before := FreshLinks(init, seen, hash);
      HashesAppend(before, last, hash);
      assert hrefs == init + [last];
      forall i | 0 <= i < |before| ensures hash(before[i]) in seen + Hashes(init, hash) {
        assert hash(before[i]) in Hashes(before, hash);
      }
    }
  }

  lemma HashesAppend(hrefs: seq<string>, last: string, hash: string -> nat)
    ensures Hashes(hrefs + [last], hash) == Hashes(hrefs, hash) + (if last == "" then {} else {hash(last)})
  {
    var longer := hrefs + [last];
    forall h | h in hrefs ensures h in longer {}
    assert last in longer;
  }

  // ---------- The jobs ----------

  class PlaceJob {
    const parentID: string
    const url: string
    const extractEmail: bool
    const managed: bool
    const monitor: ExitMonitor?
    var usageInResults: bool

    constructor (parentID: string, url: string, extractEmail: bool, managed: bool, monitor: ExitMonitor?)
      ensures this.parentID == parentID && this.url == url && this.extractEmail == extractEmail
      ensures this.managed == managed && this.monitor == monitor && usageInResults
    {
      this.parentID, this.url, this.extractEmail := parentID, url, extractEmail;
      this.managed, this.monitor, usageInResults := managed, monitor, true;
    }

    /** Failure is the absence of both a result and a child. */
    method Process(resp: PlaceResponse) returns (data: Option<Entry>, next: Option<EmailExtractJob>)
      modifies this
      modifies if monitor == null then {} else {monitor}
      ensures var outcome := PlaceOutcomeOf(resp, extractEmail, parentID, url);
              && data == (if outcome.PlaceReturned? then Some(outcome.entry) else None)
              && (next.Some? <==> outcome.PlaceHandedOff?)
              && (next.Some? ==> fresh(next.value) && next.value.entry == outcome.entry
                                 && next.value.managed == managed && next.value.monitor == monitor)
              && (usageInResults <==> old(usageInResults) && !outcome.PlaceHandedOff?)
              && (monitor != null ==>
                    monitor.State() == if PlaceCredit(outcome, managed) == 1
                                       then CompletePlaces(old(monitor.State()), 1) else old(monitor.State()))
    {
      data, next := None, None;
      if !resp.PlaceParsed? {
        if monitor != null {
          monitor.IncrPlacesCompleted(1);
        }
        return;
      }
      var entry := resp.entry.(id := parentID);
      if entry.link == "" {
        entry := entry.(link := url);
      }
      if extractEmail && entry.websiteOk {
        var child := new EmailExtractJob(entry, managed, monitor);
        usageInResults := false;
        return None, Some(child);
      } else if monitor != null && !managed {
        monitor.IncrPlacesCompleted(1);
      }
      return Some(entry), None;
    }
  }

  class EmailExtractJob {
    var entry: Entry
    const managed: bool
    const monitor: ExitMonitor?

    constructor (entry: Entry, managed: bool, monitor: ExitMonitor?)
      ensures this.entry == entry && this.managed == managed && this.monitor == monitor
    {
      this.entry, this.managed, this.monitor := entry, managed, monitor;
    }

    /** Always returns the entry, with or without addresses; the deferred call counts it at most once. */
    method Process(resp: EmailResponse) returns (data: Entry)
      modifies this
      modifies if monitor == null then {} else {monitor}
      ensures data == entry == EmailResult(old(entry), resp)
      ensures monitor != null ==>
                monitor.State() == if managed then old(monitor.State()) else CompletePlaces(old(monitor.State()), 1)
    {
      if resp.EmailPage? {
        var emails := resp.fromLinks;
        if emails == [] {
          emails := resp.fromBody;
        }
        entry := entry.(emails := emails);
      }
      data := entry;
      if monitor != null && !managed {
        monitor.IncrPlacesCompleted(1);
      }
    }
  }

  datatype GmapJob = GmapJob(id: string, extractEmail: bool, managed: bool, monitor: ExitMonitor?,
      deduper: Deduper.Hashmap?)

  /** The links for which a feed job creates children. */
  ghost function ChildLinks(job: GmapJob, resp: FeedResponse): seq<string>
    reads if job.deduper == null then {} else {job.deduper}
  {
    match resp
    case SinglePlace(url) => [url]
    case Feed(hrefs) =>
      if job.deduper == null then NonEmpty(hrefs) else FreshLinks(hrefs, job.deduper.seen, job.deduper.hash)
    case _ => []
  }

  /** A child of the job for a link: its fields are constants that it takes from the job. */
  predicate IsChild(child: PlaceJob, job: GmapJob, url: string) {
    && child.url == url && child.parentID == job.id && child.extractEmail == job.extractEmail
    && child.managed == job.managed && child.monitor == job.monitor
  }

  /** The links kept with no deduper, or with one that holds a set and hashes by a function. */
  function LinksKept(hrefs: seq<string>, known: Option<(set<nat>, string -> nat)>): seq<string> {
    if known.None? then NonEmpty(hrefs) else FreshLinks(hrefs, known.value.0, known.value.1)
  }

  lemma OneMoreLink(hrefs: seq<string>, i: nat, known: Option<(set<nat>, string -> nat)>)
    requires i < |hrefs|
    ensures var keep := hrefs[i] != ""
                        && (known.None?
                            || known.value.1(hrefs[i]) !in known.value.0 + Hashes(hrefs[..i], known.value.1));
            LinksKept(hrefs[..i + 1], known) == LinksKept(hrefs[..i], known) + if keep then [hrefs[i]] else []
    ensures known.Some? ==>
              Hashes(hrefs[..i + 1], known.value.1)
              == Hashes(hrefs[..i], known.value.1) + if hrefs[i] == "" then {} else {known.value.1(hrefs[i])}
  {
    assert hrefs[..i + 1][..i] == hrefs[..i];
    if known.Some? {
      assert hrefs[..i + 1] == hrefs[..i] + [hrefs[i]];
      HashesAppend(hrefs[..i], hrefs[i], known.value.1);
    }
  }

  method ProcessGmapJob(job: GmapJob, resp: FeedResponse) returns (next: seq<PlaceJob>, ok: bool)
    modifies if job.monitor == null then {} else {job.monitor}
    modifies if job.deduper == null then {} else {job.deduper}
    ensures ok <==> resp.SinglePlace? || resp.Feed?
    ensures |next| == |old(ChildLinks(job, resp))|
    ensures forall i :: 0 <= i < |next| ==> fresh(next[i]) && IsChild(next[i], job, old(ChildLinks(job, resp))[i])
    ensures job.monitor != null ==>
              job.monitor.State() == if ok then FindThenCompleteSeed(old(job.monitor.State()), |next|)
                                     else FailSeed(old(job.monitor.State()))
  {
    next, ok := [], false;
    if resp.FeedFetchFailed? || resp.FeedNoDocument? {
      if job.monitor != null {
        job.monitor.IncrSeedCompleted(1);
      }
      return;
    }
    if resp.SinglePlace? {
      var child := new PlaceJob(job.id, resp.url, job.extractEmail, job.managed, job.monitor);
      next := [child];
    } else {
      next := FeedChildren(job, resp.hrefs);
    }
    if job.monitor != null {
      job.monitor.IncrPlacesFound(|next|);
      job.monitor.IncrSeedCompleted(1);
    }
    ok := true;
  }

  method FeedChildren(job: GmapJob, hrefs: seq<string>) returns (next: seq<PlaceJob>)
    modifies if job.deduper == null then {} else {job.deduper}
    ensures |next| == |old(ChildLinks(job, Feed(hrefs)))|
    ensures forall i :: 0 <= i < |next| ==>
              fresh(next[i]) && IsChild(next[i], job, old(ChildLinks(job, Feed(hrefs)))[i])
    ensures job.deduper != null ==> job.deduper.seen == old(job.deduper.seen) + Hashes(hrefs, job.deduper.hash)
  {
    next := [];
    ghost var known := if job.deduper == null then None else Some((job.deduper.seen, job.deduper.hash));
    ghost var links: seq<string> := [];
    var i := 0;
    while i < |hrefs|
      invariant 0 <= i <= |hrefs| && |next| == |links| && links == LinksKept(hrefs[..i], known)
      invariant forall k :: 0 <= k < |next| ==> fresh(next[k]) && IsChild(next[k], job, links[k])
      invariant job.deduper != null ==> job.deduper.seen == known.value.0 + Hashes(hrefs[..i], known.value.1)
    {
      OneMoreLink(hrefs, i, known);
      var child := ChildFor(job, hrefs[i]);
      if child.Some? {
        next := next + [child.value];
        links := links + [hrefs[i]];
      }
      i := i + 1;
    }
    assert hrefs[..i] == hrefs;
  }

  /** The job for one link of a feed, unless the link is empty or the deduper knows it. */
  method ChildFor(job: GmapJob, href: string) returns (child: Option<PlaceJob>)
    modifies if job.deduper == null then {} else {job.deduper}
    ensures child.Some? <==> href != "" && (job.deduper == null || job.deduper.hash(href) !in old(job.deduper.seen))
    ensures child.Some? ==> fresh(child.value) && IsChild(child.value, job, href)
    ensures job.deduper != null ==>
              job.deduper.seen == old(job.deduper.seen) + (if href == "" then {} else {job.deduper.hash(href)})
  {
    child := None;
    if href != "" {
      var place := new PlaceJob(job.id, href, job.extractEmail, job.managed, job.monitor);
      var added := true;
      if job.deduper != null {
        added := job.deduper.AddIfNotExists(href);
      }
      if added {
        child := Some(place);
      }
    }
  }

  datatype SearchJob = SearchJob(id: string, managed: bool, monitor: ExitMonitor?)

  /**
   `narrow` filters by radius and sorts. A fast-mode seed: its whole batch is found, then the seed is
   completed, then the batch is counted unless the writer does that.
   */
  method ProcessSearchJob(job: SearchJob, resp: SearchResponse, narrow: seq<Entry> -> seq<Entry>)
      returns (data: Option<seq<Entry>>)
    modifies if job.monitor == null then {} else {job.monitor}
    ensures data == if resp.SearchParsed? then Some(narrow(resp.entries)) else None
    ensures job.monitor != null && data.None? ==> job.monitor.State() == FailSeed(old(job.monitor.State()))
    ensures job.monitor != null && data.Some? ==>
              var found := FindThenCompleteSeed(old(job.monitor.State()), |data.value|);
              job.monitor.State() == if job.managed then found else CompletePlaces(found, |data.value|)
  {
    if !resp.SearchParsed? {
      if job.monitor != null {
        job.monitor.IncrSeedCompleted(1);
      }
      return None;
    }
    var entries := narrow(resp.entries);
    if job.monitor != null {
      job.monitor.IncrPlacesFound(|entries|);
      job.monitor.IncrSeedCompleted(1);
      if !job.managed {
        job.monitor.IncrPlacesCompleted(|entries|);
      }
    }
    return Some(entries);
  }
}
