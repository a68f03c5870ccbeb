/** A run of the scrape protocol that ends well: one place is found, saved and reported. */
module ScrapeRun {
  import opened Wrappers
  import opened Exiter
  import opened ScrapeJobs
  import opened CentralWriter
  import P = ScrapePipeline
  import opened ScrapeWork

  /** The pipeline of a one-place job at a moment of its run. */
  function At(id: string, found: nat, completed: nat, seedDone: nat, token: bool, offers: nat, runner: P.Runner,
              taken: bool, seed: P.SeedStage, units: seq<P.Unit>): P.Pipe {
    P.Pipe(id, false, true, false, Counters(1, seedDone, found, completed, 0, false, true), token, offers, 0, 0,
           runner, taken, [seed], units)
  }

  lemma Scraping(id: string, e: Entry, url: string)
    ensures var stored := CompletePlaceEntry(e, id, url);
            var p0 := P.NewPipe(id, false, true, false, 0, true, 1);
            var p1 := At(id, 0, 0, 0, false, 0, P.Listening, false, P.SeedWaiting, []);
            var p2 := At(id, 1, 0, 0, false, 0, P.Listening, false, P.SeedAnnounced, [P.Unit(0, 1, P.Queued, 0, [])]);
            var p3 := At(id, 1, 0, 1, false, 0, P.Listening, false, P.SeedCounted, [P.Unit(0, 1, P.Queued, 0, [])]);
            var p4 := At(id, 1, 0, 1, false, 0, P.Listening, false, P.SeedCounted,
                [P.Unit(0, 1, P.Returned([stored], 0), 0, [stored])]);
            && P.Enabled(p0, P.StartRunner) && P.Step(p0, P.StartRunner) == p1
            && P.Enabled(p1, P.AnnouncePlaces(0, 1)) && P.Step(p1, P.AnnouncePlaces(0, 1)) == p2
            && P.Enabled(p2, P.CountSeed(0)) && P.Step(p2, P.CountSeed(0)) == p3
            && P.Enabled(p3, P.UnitStep(0, P.ProcessPlace(PlaceParsed(e), url)))
            && P.Step(p3, P.UnitStep(0, P.ProcessPlace(PlaceParsed(e), url))) == p4
  {
    var p0 := P.NewPipe(id, false, true, false, 0, true, 1);
    assert p0.seeds == [P.SeedWaiting];
    assert P.NewPlaces(0, 1) == [P.Unit(0, 1, P.Queued, 0, [])];
  }

  lemma Writing(id: string, stored: Entry)
    requires stored.id == id
    ensures var p4 := At(id, 1, 0, 1, false, 0, P.Listening, false, P.SeedCounted,
            [P.Unit(0, 1, P.Returned([stored], 0), 0, [stored])]);
            var p5 := At(id, 1, 0, 1, false, 0, P.Listening, false, P.SeedCounted,
                [P.Unit(0, 1, P.Returned([stored], 1), 0, [stored])]);
            var p6 := At(id, 1, 1, 1, false, 1, P.Listening, false, P.SeedCounted,
                [P.Unit(0, 1, P.Recorded([stored]), 1, [stored])]);
            && P.Enabled(p4, P.UnitStep(0, P.WriterAdds(id))) && P.Step(p4, P.UnitStep(0, P.WriterAdds(id))) == p5
            && P.NextEntry(p4, p4.units[0].stage) == stored
            && P.Enabled(p5, P.UnitStep(0, P.WriterCounts)) && P.Step(p5, P.UnitStep(0, P.WriterCounts)) == p6
  {
    assert [stored][0 := stored] == [stored];
    var p4 := At(id, 1, 0, 1, false, 0, P.Listening, false, P.SeedCounted,
        [P.Unit(0, 1, P.Returned([stored], 0), 0, [stored])]);
    assert P.NextEntry(p4, p4.units[0].stage) == stored;
    assert p4.units[0 := P.Unit(0, 1, P.Returned([stored], 1), 0, [stored])]
           == [P.Unit(0, 1, P.Returned([stored], 1), 0, [stored])];
  }

  lemma Signalling(id: string, units: seq<P.Unit>)
    ensures var p6 := At(id, 1, 1, 1, false, 1, P.Listening, false, P.SeedCounted, units);
            var p7 := At(id, 1, 1, 1, true, 0, P.Listening, false, P.SeedCounted, units);
            var p8 := At(id, 1, 1, 1, false, 0, P.HasToken, true, P.SeedCounted, units);
            var p9 := At(id, 1, 1, 1, false, 0, P.Cancelling, true, P.SeedCounted, units);
            && P.Enabled(p6, P.Offer) && P.Step(p6, P.Offer) == p7
            && P.Enabled(p7, P.TakeToken) && P.Step(p7, P.TakeToken) == p8
            && P.Enabled(p8, P.ReadCancel) && P.Step(p8, P.ReadCancel) == p9
            && P.Enabled(p9, P.RunnerCancels)
  {
  }

  /** A pipeline step of the registration of the worker that is waiting for it. */
  function Waiting(id: string, river: int, keyword: string, p: P.Pipe, entries: seq<Entry>): Sys {
    Sys(Some(Tracked(id, river, keyword, entries)), Busy(id, Selecting),
        map[id := Reg(river, keyword, p, true, false, NotTaken, None, [], [], None, None)])
  }

  lemma PipeMovesOn(id: string, river: int, keyword: string, p: P.Pipe, entries: seq<Entry>, l: P.Label, p': P.Pipe,
      more: seq<Entry>)
    requires P.Enabled(p, l) && P.Step(p, l) == p' && !p.fast
    requires !l.RunnerCancels? && !l.SetCancel? && !l.StopRunner?
    requires if l.UnitStep? && l.move.WriterAdds?
             then more == [P.NextEntry(p, p.units[l.u].stage)] && more[0].id == id && id != ""
             else more == []
    ensures var s := Waiting(id, river, keyword, p, entries);
            Enabled(s, PipeStep(id, l)) && Step(s, PipeStep(id, l)) == Waiting(id, river, keyword, p', entries + more)
  {
    assert entries + [] == entries;
  }

  lemma {:induction false} Then(s: Sys, run: seq<Label>, l: Label)
    requires Execute(s, run).Some? && Enabled(Execute(s, run).value, l)
    ensures Execute(s, run + [l]) == Some(Step(Execute(s, run).value, l))
    decreases |run|
  {
    if run == [] {
      assert run + [l] == [l] && [l][1..] == [];
    } else {
      assert (run + [l])[1..] == run[1..] + [l];
      Then(Step(s, run[0]), run[1..], l);
    }
  }

  lemma Starts(id: string, river: int, keyword: string)
    requires id != ""
    ensures var run := [Register(id, river, keyword, false, false), SubmitOk];
            var start := P.NewPipe(id, false, true, false, 0, true, 1);
            Execute(INITIAL, run) == Some(Waiting(id, river, keyword, start, []))
  {
    var first := Register(id, river, keyword, false, false);
    var run := [first, SubmitOk];
    var s1 := Step(INITIAL, first);
    assert run[1..] == [SubmitOk] && [SubmitOk][1..] == [];
    var s2 := Step(s1, SubmitOk);
    assert s2.regs == map[id := s2.regs[id]];
    assert Execute(s2, []) == Some(s2);
    assert Execute(s1, [SubmitOk]) == Some(s2);
  }

  lemma Ends(id: string, river: int, keyword: string, p: P.Pipe, entries: seq<Entry>)
    requires P.Enabled(p, P.RunnerCancels)
    ensures var s := Waiting(id, river, keyword, p, entries);
            var end := [MarkDone(id), SaveReturns(id, true), SendResult(id), ReceiveResult];
            Execute(s, end).Some?
            && (var s' := Execute(s, end).value;
                s'.worker == Idle && s'.slot == None && s'.regs.Keys == {id} && s'.regs[id].outcome == Some(ReturnedNil)
                && s'.regs[id].saves == [Save(river, keyword, entries, true)])
  {
    var s := Waiting(id, river, keyword, p, entries);
    var s1 := Step(s, MarkDone(id));
    assert s1.regs[id].flush.Taken?;
    var s2 := Step(s1, SaveReturns(id, true));
    assert s2.regs[id].flush.Saved? && s2.regs[id].channel.None?;
    var s3 := Step(s2, SendResult(id));
    var s4 := Step(s3, ReceiveResult);
    assert Execute(s4, []) == Some(s4);
    assert [ReceiveResult][1..] == [];
    assert Execute(s3, [ReceiveResult]) == Some(s4);
    assert [SendResult(id), ReceiveResult][1..] == [ReceiveResult];
    assert Execute(s2, [SendResult(id), ReceiveResult]) == Some(s4);
    assert [SaveReturns(id, true), SendResult(id), ReceiveResult][1..] == [SendResult(id), ReceiveResult];
    assert Execute(s1, [SaveReturns(id, true), SendResult(id), ReceiveResult]) == Some(s4);
    assert [MarkDone(id), SaveReturns(id, true), SendResult(id), ReceiveResult][1..]
           == [SaveReturns(id, true), SendResult(id), ReceiveResult];
  }

  lemma {:induction false} Concatenates(s: Sys, a: seq<Label>, b: seq<Label>)
    requires Execute(s, a).Some?
    ensures Execute(s, a + b) == Execute(Execute(s, a).value, b)
    decreases |a|
  {
    if a == [] {
      assert a + b == b;
    } else {
      assert (a + b)[1..] == a[1..] + b;
      Concatenates(Step(s, a[0]), a[1..], b);
    }
  }

  lemma Continue(id: string, river: int, keyword: string, run: seq<Label>, p: P.Pipe, entries: seq<Entry>,
      l: P.Label, p': P.Pipe, entries': seq<Entry>)
    returns (longer: seq<Label>)
    requires Execute(INITIAL, run) == Some(Waiting(id, river, keyword, p, entries))
    requires P.Enabled(p, l) && P.Step(p, l) == p' && !p.fast
    requires !l.RunnerCancels? && !l.SetCancel? && !l.StopRunner?
    requires if l.UnitStep? && l.move.WriterAdds?
             then var entry := P.NextEntry(p, p.units[l.u].stage);
                  entries' == entries + [entry] && entry.id == id && id != ""
             else entries' == entries
    ensures Execute(INITIAL, longer) == Some(Waiting(id, river, keyword, p', entries'))
  {
    PipeMovesOn(id, river, keyword, p, entries, l, p', entries'[|entries|..]);
    Then(INITIAL, run, PipeStep(id, l));
    longer := run + [PipeStep(id, l)];
  }

  function Queued(id: string): P.Pipe {
    At(id, 1, 0, 1, false, 0, P.Listening, false, P.SeedCounted, [P.Unit(0, 1, P.Queued, 0, [])])
  }

  function Returned(id: string, stored: Entry): P.Pipe {
    At(id, 1, 0, 1, false, 0, P.Listening, false, P.SeedCounted, [P.Unit(0, 1, P.Returned([stored], 0), 0, [stored])])
  }

  function Recorded(id: string, stored: Entry): P.Pipe {
    At(id, 1, 1, 1, false, 1, P.Listening, false, P.SeedCounted, [P.Unit(0, 1, P.Recorded([stored]), 1, [stored])])
  }

  function Finishing(id: string, stored: Entry): P.Pipe {
    At(id, 1, 1, 1, false, 0, P.Cancelling, true, P.SeedCounted, [P.Unit(0, 1, P.Recorded([stored]), 1, [stored])])
  }

  lemma RunToReturned(id: string, river: int, keyword: string, e: Entry, url: string) returns (run: seq<Label>)
    requires id != ""
    ensures Execute(INITIAL, run) == Some(Waiting(id, river, keyword, Returned(id, CompletePlaceEntry(e, id, url)), []))
  {
    Scraping(id, e, url);
    Starts(id, river, keyword);
    var p1 := At(id, 0, 0, 0, false, 0, P.Listening, false, P.SeedWaiting, []);
    var p2 := At(id, 1, 0, 0, false, 0, P.Listening, false, P.SeedAnnounced, [P.Unit(0, 1, P.Queued, 0, [])]);
    run := [Register(id, river, keyword, false, false), SubmitOk];
    run := Continue(id, river, keyword, run, P.NewPipe(id, false, true, false, 0, true, 1), [], P.StartRunner, p1, []);
    run := Continue(id, river, keyword, run, p1, [], P.AnnouncePlaces(0, 1), p2, []);
    run := Continue(id, river, keyword, run, p2, [], P.CountSeed(0), Queued(id), []);
    run := Continue(id, river, keyword, run, Queued(id), [], P.UnitStep(0, P.ProcessPlace(PlaceParsed(e), url)),
                    Returned(id, CompletePlaceEntry(e, id, url)), []);
  }

  lemma RunToRecorded(id: string, river: int, keyword: string, stored: Entry, begun: seq<Label>)
      returns (run: seq<Label>)
    requires id != "" && stored.id == id
    requires Execute(INITIAL, begun) == Some(Waiting(id, river, keyword, Returned(id, stored), []))
    ensures Execute(INITIAL, run) == Some(Waiting(id, river, keyword, Recorded(id, stored), [stored]))
  {
    Writing(id, stored);
    var p5 := At(id, 1, 0, 1, false, 0, P.Listening, false, P.SeedCounted,
        [P.Unit(0, 1, P.Returned([stored], 1), 0, [stored])]);
    run := Continue(id, river, keyword, begun, Returned(id, stored), [], P.UnitStep(0, P.WriterAdds(id)), p5, [stored]);
    run := Continue(id, river, keyword, run, p5, [stored], P.UnitStep(0, P.WriterCounts), Recorded(id, stored),
        [stored]);
  }

  lemma RunToFinishing(id: string, river: int, keyword: string, stored: Entry, begun: seq<Label>)
      returns (run: seq<Label>)
    requires Execute(INITIAL, begun) == Some(Waiting(id, river, keyword, Recorded(id, stored), [stored]))
    ensures Execute(INITIAL, run) == Some(Waiting(id, river, keyword, Finishing(id, stored), [stored]))
  {
    var units := [P.Unit(0, 1, P.Recorded([stored]), 1, [stored])];
    Signalling(id, units);
    var p7 := At(id, 1, 1, 1, true, 0, P.Listening, false, P.SeedCounted, units);
    var p8 := At(id, 1, 1, 1, false, 0, P.HasToken, true, P.SeedCounted, units);
    run := Continue(id, river, keyword, begun, Recorded(id, stored), [stored], P.Offer, p7, [stored]);
    run := Continue(id, river, keyword, run, p7, [stored], P.TakeToken, p8, [stored]);
    run := Continue(id, river, keyword, run, p8, [stored], P.ReadCancel, Finishing(id, stored), [stored]);
  }

  /**
   The results about all runs are not empty: any place that parses can be found, saved as the job's one entry
   and answered with nil.
   */
  lemma APlaceCanBeSaved(id: string, river: int, keyword: string, e: Entry, url: string) returns (run: seq<Label>)
    requires id != ""
    ensures Execute(INITIAL, run).Some?
    ensures var s := Execute(INITIAL, run).value;
            && s.worker == Idle && id in s.regs && s.regs[id].outcome == Some(ReturnedNil)
            && s.regs[id].saves == [Save(river, keyword, [CompletePlaceEntry(e, id, url)], true)]
  {
    var stored := CompletePlaceEntry(e, id, url);
    run := RunToReturned(id, river, keyword, e, url);
    run := RunToRecorded(id, river, keyword, stored, run);
    run := RunToFinishing(id, river, keyword, stored, run);
    Ends(id, river, keyword, Finishing(id, stored), [stored]);
    var end := [MarkDone(id), SaveReturns(id, true), SendResult(id), ReceiveResult];
    Concatenates(INITIAL, run, end);
    run := run + end;
  }
}
