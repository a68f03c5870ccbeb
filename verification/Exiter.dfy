/**
 The exit monitor of one run (exiter/exiter.go).

 Every counter method of the monitor is one section under a mutex, followed for
 two of them by an action after the mutex is released: a non-blocking send on the
 one-slot done channel, or a call of the cancel function. The sections are the
 functions on `Counters` below; `ScrapePipeline` interleaves them as separate
 steps, and `ExitMonitor` runs section and action back to back, as one goroutine
 that is not interrupted would.
 */
module Exiter {

  /** The fields that the mutex guards. `cancelSet` says that `cancelFunc` is not nil. */
  datatype Counters = Counters(
    seedCount: int,
    seedCompleted: int,
    placesFound: int,
    placesCompleted: int,
    maximumPlaces: int,
    limitReached: bool,
    cancelSet: bool)

  /** What a goroutine still has to do once it has released the mutex. */
  datatype Signal = Nothing | OfferToken | CallCancel

  /** A monitor seen from outside: its counters, its done channel, its calls of the cancel function. */
  datatype MonitorState = MonitorState(counters: Counters, token: bool, cancelCalls: nat)

  function NewCounters(limit: int): Counters {
    Counters(0, 0, 0, 0, if limit > 0 then limit else 0, false, false)
  }

  /** The completion condition that both completion methods evaluate. */
  predicate Done(c: Counters) {
    c.seedCompleted >= c.seedCount && c.placesCompleted >= c.placesFound
  }

  function SeedCompletedSection(c: Counters, val: int): (Counters, Signal) {
    var c' := c.(seedCompleted := c.seedCompleted + val);
    (c', if Done(c') then OfferToken else Nothing)
  }

  function PlacesFoundSection(c: Counters, val: int): Counters {
    c.(placesFound := c.placesFound + val)
  }

  function PlacesCompletedSection(c: Counters, val: int): (Counters, Signal) {
    var c1 := c.(placesCompleted := c.placesCompleted + val);
    var c' := if c1.maximumPlaces > 0 && c1.placesCompleted >= c1.maximumPlaces
              then c1.(limitReached := true) else c1;
    (c', if c'.limitReached && c'.cancelSet then CallCancel
         else if Done(c') then OfferToken
         else Nothing)
  }

  function SetCancelSection(c: Counters, present: bool): (Counters, Signal) {
    (c.(cancelSet := present), if c.limitReached && present then CallCancel else Nothing)
  }

  /** The action after the mutex: a send that is dropped when the slot is taken, or the cancel call. */
  function Act(m: MonitorState, s: Signal): MonitorState {
    match s
    case Nothing => m
    case OfferToken => m.(token := true)
    case CallCancel => m.(cancelCalls := m.cancelCalls + 1)
  }

  /** One goroutine's uninterrupted call: the section, then its action. */
  function Call(m: MonitorState, step: (Counters, Signal)): MonitorState {
    Act(m.(counters := step.0), step.1)
  }

  /** The monitor as the object that the jobs share. */
  class ExitMonitor {
    var seedCount: int
    var seedCompleted: int
    var placesFound: int
    var placesCompleted: int
    var maximumPlaces: int
    var limitReached: bool
    var cancelSet: bool
    var token: bool
    var cancelCalls: nat

    ghost function State(): MonitorState
      reads this
    {
      MonitorState(
        Counters(seedCount, seedCompleted, placesFound, placesCompleted, maximumPlaces, limitReached, cancelSet),
        token, cancelCalls)
    }

    constructor (limit: int)
      ensures State() == MonitorState(NewCounters(limit), false, 0)
    {
      seedCount, seedCompleted, placesFound, placesCompleted := 0, 0, 0, 0;
      maximumPlaces := if limit > 0 then limit else 0;
      limitReached, cancelSet, token, cancelCalls := false, false, false, 0;
    }

    method SetSeedCount(val: int)
      modifies this
      ensures State() == old(State()).(counters := old(State()).counters.(seedCount := val))
    {
      seedCount := val;
    }

    method SetCancelFunc(present: bool)
      modifies this
      ensures State() == Call(old(State()), SetCancelSection(old(State()).counters, present))
    {
      cancelSet := present;
      var reached := limitReached;
      if reached && present {
        cancelCalls := cancelCalls + 1;
      }
    }

    method IncrSeedCompleted(val: int)
      modifies this
      ensures State() == Call(old(State()), SeedCompletedSection(old(State()).counters, val))
    {
      seedCompleted := seedCompleted + val;
      var done := seedCompleted >= seedCount && placesCompleted >= placesFound;
      if done {
        if !token {
          token := true;
        }
      }
    }

    method IncrPlacesFound(val: int)
      modifies this
      ensures State() == old(State()).(counters := PlacesFoundSection(old(State()).counters, val))
    {
      placesFound := placesFound + val;
    }

    method IncrPlacesCompleted(val: int)
      modifies this
      ensures State() == Call(old(State()), PlacesCompletedSection(old(State()).counters, val))
    {
      placesCompleted := placesCompleted + val;
      if maximumPlaces > 0 && placesCompleted >= maximumPlaces {
        limitReached := true;
      }
      var done := seedCompleted >= seedCount && placesCompleted >= placesFound;
      var reached := limitReached;
      var cancel := cancelSet;
      if reached && cancel {
        cancelCalls := cancelCalls + 1;
        return;
      }
      if done {
        if !token {
          token := true;
        }
      }
    }

    /** The monitor goroutine once one of its two channels is ready; `ctxDone` says which one was chosen. */
    method Run(ctxDone: bool)
      requires ctxDone || token
      modifies this
      ensures ctxDone ==> State() == old(State())
      ensures !ctxDone ==>
                State() == old(State()).(token := false,
                                         cancelCalls := old(cancelCalls) + if old(cancelSet) then 1 else 0)
    {
      if !ctxDone {
        token := false;
        if cancelSet {
          cancelCalls := cancelCalls + 1;
        }
      }
    }
  }
}
