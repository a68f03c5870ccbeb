/**
 The double-checked deduper (deduper/hashmap.go).

 `Hashmap` is the object with its one method. The rest of the module lets any number
 of calls interleave between the read-locked check and the write-locked section and
 shows that every history is that of an atomic set insertion.
 */
module Deduper {
  import opened Wrappers

  class Hashmap {
    const hash: string -> nat
    var seen: set<nat>

    constructor (hash: string -> nat)
      ensures this.hash == hash && seen == {}
    {
      this.hash := hash;
      seen := {};
    }

    method AddIfNotExists(key: string) returns (added: bool)
      modifies this
      ensures added <==> hash(key) !in old(seen)
      ensures seen == old(seen) + {hash(key)}
    {
      // the read-locked section
      if hash(key) in seen {
        return false;
      }
      // the write-locked section
      if hash(key) in seen {
        return false;
      }
      seen := seen + {hash(key)};
      return true;
    }
  }

  // ---------- Concurrent calls ----------

  type CallId = nat

  /** Where a call stands; a call is linearised by the section that decides it. */
  datatype Phase =
    | Invoked(h: nat)
    | Missed(h: nat)
    | Decided(h: nat, added: bool)
    | Returned(h: nat, added: bool)

  datatype Event = Invocation(call: CallId) | Response(call: CallId)

  datatype Insert = Insert(call: CallId, h: nat, added: bool)

  /** `order` lists the deciding sections in the order they ran; `events` is what the callers see. */
  datatype State = State(seen: set<nat>, calls: map<CallId, Phase>, order: seq<Insert>, events: seq<Event>)

  datatype Label = Invoke(c: CallId, h: nat) | ReadCheck(c: CallId) | WriteSection(c: CallId) | Return(c: CallId)

  const INITIAL := State({}, map[], [], [])

  predicate Enabled(s: State, l: Label) {
    match l
    case Invoke(c, _) => c !in s.calls
    case ReadCheck(c) => c in s.calls && s.calls[c].Invoked?
    case WriteSection(c) => c in s.calls && s.calls[c].Missed?
    case Return(c) => c in s.calls && s.calls[c].Decided?
  }

  function Decide(s: State, c: CallId, h: nat, added: bool): State {
    State(if added then s.seen + {h} else s.seen,
          s.calls[c := Decided(h, added)],
          s.order + [Insert(c, h, added)],
          s.events)
  }

  function Step(s: State, l: Label): State
    requires Enabled(s, l)
  {
    match l
    case Invoke(c, h) => s.(calls := s.calls[c := Invoked(h)], events := s.events + [Invocation(c)])
    case ReadCheck(c) =>
      var h := s.calls[c].h;
      if h in s.seen then Decide(s, c, h, false) else s.(calls := s.calls[c := Missed(h)])
    case WriteSection(c) =>
      var h := s.calls[c].h;
      Decide(s, c, h, h !in s.seen)
    case Return(c) =>
      var p := s.calls[c];
      s.(calls := s.calls[c := Returned(p.h, p.added)], events := s.events + [Response(c)])
  }

  /** The state after a run of labels, if every one of them was enabled. */
  function Execute(s: State, run: seq<Label>): Option<State>
    decreases |run|
  {
    if run == [] then Some(s)
    else if Enabled(s, run[0]) then Execute(Step(s, run[0]), run[1..])
    else None
  }

  // ---------- The sequential set ----------

  /** The hashes that a sequence of inserts leaves behind. */
  function Inserted(order: seq<Insert>): set<nat> {
    set o | o in order :: o.h
  }

  /** `order` is a legal run of an atomic insert: each reports true exactly on the first use of its hash. */
  ghost predicate Sequential(order: seq<Insert>) {
    forall i :: 0 <= i < |order| ==> (order[i].added <==> order[i].h !in Inserted(order[..i]))
  }

  predicate Finished(p: Phase) {
    p.Decided? || p.Returned?
  }

  /** `order` holds exactly the decided calls, each once and with the answer that call gives. */
  ghost predicate Explains(order: seq<Insert>, calls: map<CallId, Phase>) {
    && (forall i :: 0 <= i < |order| ==>
          var o := order[i];
          o.call in calls && Finished(calls[o.call]) && calls[o.call].h == o.h && calls[o.call].added == o.added)
    && (forall c :: c in calls && Finished(calls[c]) ==> exists i :: 0 <= i < |order| && order[i].call == c)
    && (forall i, j :: 0 <= i < j < |order| ==> order[i].call != order[j].call)
  }

  /** A call that responded before another was invoked comes before it in `order`. */
  ghost predicate RealTime(order: seq<Insert>, events: seq<Event>) {
    forall i, j, q :: 0 <= i < j < |events| && 0 <= q < |order|
        && events[i].Response? && events[j].Invocation? && events[j].call == order[q].call
      ==> exists p :: 0 <= p < q && order[p].call == events[i].call
  }

  ghost predicate EventsMatch(s: State) {
    && (forall i :: 0 <= i < |s.events| ==> s.events[i].call in s.calls)
    && (forall i :: 0 <= i < |s.events| && s.events[i].Response? ==> s.calls[s.events[i].call].Returned?)
  }

  ghost predicate Linearizable(s: State) {
    Sequential(s.order) && Explains(s.order, s.calls) && RealTime(s.order, s.events)
  }

  ghost predicate Inv(s: State) {
    Linearizable(s) && EventsMatch(s) && s.seen == Inserted(s.order)
  }

  lemma SequentialExtends(order: seq<Insert>, o: Insert)
    requires Sequential(order) && (o.added <==> o.h !in Inserted(order))
    ensures Sequential(order + [o]) && Inserted(order + [o]) == Inserted(order) + {o.h}
  {
    var longer := order + [o];
    forall i | 0 <= i < |longer| ensures longer[i].added <==> longer[i].h !in Inserted(longer[..i]) {
      if i < |order| {
        assert longer[..i] == order[..i];
      } else {
        assert longer[..i] == order;
      }
    }
    forall h | h in Inserted(order) + {o.h} ensures h in Inserted(longer) {
      if h == o.h {
        assert longer[|order|] == o;
      } else {
        var x :| x in order && x.h == h;
        assert x in longer;
      }
    }
  }

  lemma ExplainsExtends(order: seq<Insert>, calls: map<CallId, Phase>, c: CallId, h: nat, added: bool)
    requires Explains(order, calls) && c in calls && !Finished(calls[c])
    ensures Explains(order + [Insert(c, h, added)], calls[c := Decided(h, added)])
  {
    var longer, calls' := order + [Insert(c, h, added)], calls[c := Decided(h, added)];
    assert longer[|order|].call == c;
    forall d | d in calls' && Finished(calls'[d]) ensures exists i :: 0 <= i < |longer| && longer[i].call == d {
      if d != c {
        var i :| 0 <= i < |order| && order[i].call == d;
        assert longer[i].call == d;
      }
    }
  }

  lemma RealTimeExtends(s: State, o: Insert)
    requires RealTime(s.order, s.events) && Explains(s.order, s.calls) && EventsMatch(s)
    ensures RealTime(s.order + [o], s.events)
  {
    var longer := s.order + [o];
    forall i, j, q | 0 <= i < j < |s.events| && 0 <= q < |longer|
        && s.events[i].Response? && s.events[j].Invocation? && s.events[j].call == longer[q].call
      ensures exists p :: 0 <= p < q && longer[p].call == s.events[i].call
    {
      var d := s.events[i].call;
      if q < |s.order| {
        var p :| 0 <= p < q && s.order[p].call == d;
        assert longer[p].call == d;
      } else {
        assert Finished(s.calls[d]);
        var p :| 0 <= p < |s.order| && s.order[p].call == d;
        assert longer[p].call == d;
      }
    }
  }

  lemma DecideKeepsInv(s: State, c: CallId, h: nat, added: bool)
    requires Inv(s) && c in s.calls && !Finished(s.calls[c])
    requires added <==> h !in s.seen
    ensures Inv(Decide(s, c, h, added))
  {
    SequentialExtends(s.order, Insert(c, h, added));
    ExplainsExtends(s.order, s.calls, c, h, added);
    RealTimeExtends(s, Insert(c, h, added));
  }

  /** A call that moves on without being decided, or whose decision stands, leaves the order explained. */
  lemma ExplainsKept(order: seq<Insert>, calls: map<CallId, Phase>, c: CallId, p: Phase)
    requires Explains(order, calls)
    requires if c in calls && Finished(calls[c])
             then Finished(p) && p.h == calls[c].h && p.added == calls[c].added
             else !Finished(p)
    ensures Explains(order, calls[c := p])
  {
    var calls' := calls[c := p];
    forall d | d in calls' && Finished(calls'[d]) ensures exists i :: 0 <= i < |order| && order[i].call == d {
      assert d in calls && Finished(calls[d]);
    }
  }

  lemma ReadKeepsInv(s: State, c: CallId)
    requires Inv(s) && Enabled(s, ReadCheck(c))
    ensures Inv(Step(s, ReadCheck(c)))
  {
    if s.calls[c].h in s.seen {
      DecideKeepsInv(s, c, s.calls[c].h, false);
    } else {
      ExplainsKept(s.order, s.calls, c, Missed(s.calls[c].h));
    }
  }

  lemma InvokeKeepsInv(s: State, c: CallId, h: nat)
    requires Inv(s) && Enabled(s, Invoke(c, h))
    ensures Inv(Step(s, Invoke(c, h)))
  {
    ExplainsKept(s.order, s.calls, c, Invoked(h));
  }

  lemma ReturnKeepsInv(s: State, c: CallId)
    requires Inv(s) && Enabled(s, Return(c))
    ensures Inv(Step(s, Return(c)))
  {
    ExplainsKept(s.order, s.calls, c, Returned(s.calls[c].h, s.calls[c].added));
  }

  lemma StepKeepsInv(s: State, l: Label)
    requires Inv(s) && Enabled(s, l)
    ensures Inv(Step(s, l))
  {
    match l
    case Invoke(c, h) => InvokeKeepsInv(s, c, h);
    case ReadCheck(c) => ReadKeepsInv(s, c);
    case WriteSection(c) => DecideKeepsInv(s, c, s.calls[c].h, s.calls[c].h !in s.seen);
    case Return(c) => ReturnKeepsInv(s, c);
  }

  lemma {:induction false} ExecuteKeepsInv(s: State, run: seq<Label>)
    requires Inv(s) && Execute(s, run).Some?
    ensures Inv(Execute(s, run).value)
    decreases |run|
  {
    if run != [] {
      StepKeepsInv(s, run[0]);
      ExecuteKeepsInv(Step(s, run[0]), run[1..]);
    }
  }

  /** Every history is that of an atomic set insert, in an order that respects real time. */
  lemma EveryHistoryIsLinearizable(run: seq<Label>)
    requires Execute(INITIAL, run).Some?
    ensures Linearizable(Execute(INITIAL, run).value)
  {
    ExecuteKeepsInv(INITIAL, run);
  }

  predicate Wins(s: State, c: CallId, h: nat) {
    c in s.calls && Finished(s.calls[c]) && s.calls[c].h == h && s.calls[c].added
  }

  /** As soon as one call for a hash has been answered, exactly one call for it has been answered true. */
  lemma ExactlyOneCallWins(run: seq<Label>, c: CallId) returns (winner: CallId)
    requires Execute(INITIAL, run).Some?
    requires var s := Execute(INITIAL, run).value; c in s.calls && Finished(s.calls[c])
    ensures var s := Execute(INITIAL, run).value;
            forall d :: Wins(s, d, s.calls[c].h) <==> d == winner
  {
    ExecuteKeepsInv(INITIAL, run);
    var s := Execute(INITIAL, run).value;
    var h := s.calls[c].h;
    var i :| 0 <= i < |s.order| && s.order[i].call == c;
    var first := FirstUse(s.order, h, i);
    winner := s.order[first].call;
    assert s.order[first].added;
    forall d | Wins(s, d, h) ensures d == winner {
      var k :| 0 <= k < |s.order| && s.order[k].call == d;
    }
  }

  lemma {:induction false} FirstUse(order: seq<Insert>, h: nat, i: nat) returns (first: nat)
    requires i < |order| && order[i].h == h
    ensures first <= i && order[first].h == h && h !in Inserted(order[..first])
    decreases i
  {
    if h in Inserted(order[..i]) {
      var o :| o in order[..i] && o.h == h;
      var j :| 0 <= j < i && order[j] == o;
      first := FirstUse(order, h, j);
    } else {
      first := i;
    }
  }
}
