/** What the subscribers of a payout's scheduler see, told by its inputs alone. */
module PayoutStreams {
  import opened Schedule
  import opened Wrappers
  import opened PayoutTheory
  import Hub

  /** What the event loop selects among.  A new subscriber is answered before the history
      is sent to it; it reads takes(j) times before value j of the history is sent. */
  datatype Input =
    | Take(event: Event)
    | Join(cap: nat, filter: Event -> bool, takes: nat -> nat)
    | Leave(id: nat)
    | Read(i: nat)
    | Done

  function Taken(inputs: seq<Input>): seq<Event> {
    if inputs == [] then []
    else
      var x, before := inputs[|inputs| - 1], Taken(inputs[..|inputs| - 1]);
      if x.Take? then before + [x.event] else before
  }

  /** The loop goes no further than an event it does not know, or its cancellation. */
  predicate Stops(input: Input) {
    input.Done? || (input.Take? && !Known(input.event))
  }

  ghost predicate GoesOn(inputs: seq<Input>) {
    forall n :: 0 <= n < |inputs| ==> !Stops(inputs[n])
  }

  /** What a subscriber asked for. */
  datatype End = End(cap: nat, filter: Event -> bool)

  /** The subscribers in the order in which they joined. */
  function Ends(inputs: seq<Input>): seq<End> {
    if inputs == [] then []
    else
      var x, before := inputs[|inputs| - 1], Ends(inputs[..|inputs| - 1]);
      if x.Join? then before + [End(x.cap, x.filter)] else before
  }

  ghost predicate Registered(ends: seq<End>, logs: seq<seq<Hub.Event<Event>>>, i: nat) {
    i < |ends| && i < |logs| && Hub.Run(ends[i].cap, ends[i].filter, logs[i]).told.None?
  }

  /** What an event makes the scheduler broadcast. */
  function Sent(had: set<int>, e: Event): seq<Event> {
    Caused(had, e.kind) + [e]
  }

  /** One more input: an event passes all subscribers after the triggers it causes, and the
      other inputs concern one subscriber. */
  ghost function Hear(ends: seq<End>, logs: seq<seq<Hub.Event<Event>>>, past: seq<Event>, input: Input): (r: seq<seq<Hub.Event<Event>>>)
    ensures |r| == if input.Join? then |logs| + 1 else |logs|
  {
    match input
    case Take(e) => Hub.CastAll(logs, Sent(Kinds(past), e))
    case Join(_, _, takes) => logs + [Hub.Replays(History(past), takes)]
    case Leave(id) => if Registered(ends, logs, id) then Hub.NotedBy(logs, id, Hub.Leave) else logs
    case Read(i) => if i < |logs| then Hub.NotedBy(logs, i, Hub.Take) else logs
    case Done => logs
  }

  /** What each subscriber has seen. */
  ghost function Logs(inputs: seq<Input>): (r: seq<seq<Hub.Event<Event>>>)
    ensures |r| == |Ends(inputs)|
  {
    if inputs == [] then []
    else
      var before := inputs[..|inputs| - 1];
      Hear(Ends(before), Logs(before), Taken(before), inputs[|inputs| - 1])
  }

  ghost function Outcome(inputs: seq<Input>, i: nat): Hub.State<Event>
    requires i < |Ends(inputs)|
  {
    Hub.Run(Ends(inputs)[i].cap, Ends(inputs)[i].filter, Logs(inputs)[i])
  }

  lemma {:induction false} OneMore(inputs: seq<Input>, n: nat)
    requires n < |inputs|
    ensures Taken(inputs[..n + 1]) == if inputs[n].Take? then Taken(inputs[..n]) + [inputs[n].event] else Taken(inputs[..n])
    ensures Ends(inputs[..n + 1]) ==
      if inputs[n].Join? then Ends(inputs[..n]) + [End(inputs[n].cap, inputs[n].filter)] else Ends(inputs[..n])
    ensures Logs(inputs[..n + 1]) == Hear(Ends(inputs[..n]), Logs(inputs[..n]), Taken(inputs[..n]), inputs[n])
  {
    assert inputs[..n + 1][..n] == inputs[..n];
  }

  lemma {:induction false} GoesOnMore(inputs: seq<Input>, n: nat)
    requires n < |inputs| && GoesOn(inputs[..n]) && !Stops(inputs[n])
    ensures GoesOn(inputs[..n + 1])
  {
  }

  /** What comes after a prefix. */
  lemma {:induction false} Beyond<A>(past: seq<A>, all: seq<A>, more: seq<A>)
    requires past <= all
    ensures past <= all + more && (all + more)[|past|..] == all[|past|..] + more
    ensures past + all[|past|..] == all && past[|past|..] == []
  {
  }

  lemma {:induction false} HistoryMore(past: seq<Event>, e: Event)
    ensures History(past + [e]) == History(past) + Sent(Kinds(past), e)
  {
    assert (past + [e])[..|past|] == past;
  }

  /** There are as many subscribers as there were requests. */
  lemma {:induction false} EndsAreJoins(inputs: seq<Input>)
    ensures |Ends(inputs)| == |set n | 0 <= n < |inputs| && inputs[n].Join?|
  {
    if inputs != [] {
      var k := |inputs| - 1;
      var before := inputs[..k];
      EndsAreJoins(before);
      var joins := set n | 0 <= n < |before| && before[n].Join?;
      assert (set n | 0 <= n < |inputs| && inputs[n].Join?) == if inputs[k].Join? then joins + {k} else joins;
    }
  }

  /** Subscriber i joined with input n. */
  ghost predicate JoinsAt(inputs: seq<Input>, n: nat, i: nat) {
    n < |inputs| && inputs[n].Join? && |Ends(inputs[..n])| == i
  }

  lemma {:induction false} EachJoined(inputs: seq<Input>, i: nat) returns (n: nat)
    requires i < |Ends(inputs)|
    ensures JoinsAt(inputs, n, i)
  {
    var k := |inputs| - 1;
    if i < |Ends(inputs[..k])| {
      n := EachJoined(inputs[..k], i);
      assert inputs[..k][..n] == inputs[..n];
    } else {
      n := k;
    }
  }

  lemma {:induction false} SawAll(log: seq<Hub.Event<Event>>, vs: seq<Event>, past: seq<Event>, later: seq<Event>)
    requires Hub.Saw(log, past, later)
    ensures Hub.Saw(log + Hub.Passing(vs), past, later + vs)
  {
    Hub.PassingUnfolds(log, vs);
    if vs != [] {
      var n := |vs| - 1;
      SawAll(log, vs[..n], past, later);
      Hub.SawMore(log + Hub.Passing(vs[..n]), past, later + vs[..n], vs[n]);
      assert later + vs == later + vs[..n] + [vs[n]];
    } else {
      assert later + vs == later;
    }
  }

  /** Subscriber i asks to leave with input n, when it is registered. */
  ghost predicate LeavesAt(inputs: seq<Input>, n: nat, i: nat) {
    n < |inputs| && inputs[n] == Leave(i) && Registered(Ends(inputs[..n]), Logs(inputs[..n]), i)
  }

  lemma {:induction false} SawHeard(ends: seq<End>, logs: seq<seq<Hub.Event<Event>>>, taken: seq<Event>, x: Input, i: nat, past: seq<Event>, later: seq<Event>)
    requires i < |logs| && Hub.Saw(logs[i], past, later)
    ensures Hub.Saw(Hear(ends, logs, taken, x)[i], past, if x.Take? then later + Sent(Kinds(taken), x.event) else later)
  {
    match x
    case Take(e) => SawAll(logs[i], Sent(Kinds(taken), e), past, later);
    case Leave(_) => Hub.SawStill(logs[i], past, later, Hub.Leave);
    case Read(_) => Hub.SawStill(logs[i], past, later, Hub.Take);
    case _ =>
  }

  /** It goes on having seen what it was replayed and all that came later. */
  ghost predicate UpToDate(log: seq<Hub.Event<Event>>, past: seq<Event>, taken: seq<Event>) {
    past <= History(taken) && Hub.Saw(log, past, History(taken)[|past|..])
  }

  lemma {:induction false} StaysUpToDate(ends: seq<End>, logs: seq<seq<Hub.Event<Event>>>, taken: seq<Event>, x: Input, i: nat, past: seq<Event>)
    requires i < |logs| && UpToDate(logs[i], past, taken)
    ensures UpToDate(Hear(ends, logs, taken, x)[i], past, if x.Take? then taken + [x.event] else taken)
  {
    SawHeard(ends, logs, taken, x, i, past, History(taken)[|past|..]);
    if x.Take? {
      HistoryMore(taken, x.event);
      Beyond(past, History(taken), Sent(Kinds(taken), x.event));
    }
  }

  lemma {:induction false} StartsUpToDate(taken: seq<Event>, takes: nat -> nat)
    ensures UpToDate(Hub.Replays(History(taken), takes), History(taken), taken)
  {
    var past := History(taken);
    Hub.ReplaysReplay(past, takes);
    Hub.SawReplay(Hub.Replays(past, takes));
    Beyond(past, past, []);
  }

  /** A subscriber that joined with input n has the buffer and the filter it asked for; it
      was replayed the history of that time, and passed by all that came later. */
  lemma {:induction false} SawSinceJoin(inputs: seq<Input>, n: nat, i: nat)
    requires JoinsAt(inputs, n, i)
    ensures i < |Ends(inputs)| && Ends(inputs)[i] == End(inputs[n].cap, inputs[n].filter)
    ensures UpToDate(Logs(inputs)[i], History(Taken(inputs[..n])), Taken(inputs))
  {
    var k := |inputs| - 1;
    var before, x := inputs[..k], inputs[k];
    assert inputs == before + [x] && before[..n] == inputs[..n];
    StepUnfolds(before, x);
    if n < k {
      SawSinceJoin(before, n, i);
      StaysUpToDate(Ends(before), Logs(before), Taken(before), x, i, History(Taken(before[..n])));
    } else {
      StartsUpToDate(Taken(before), x.takes);
    }
  }

  /** A subscriber with this log was put what it caught of the history in past and then what
      came later as far as its filter lets it through; if it has been told, a prefix of that.
      It caught at least what fits its queue, and all of it unless a value was dropped. */
  ghost predicate Delivered(end: End, log: seq<Hub.Event<Event>>, past: seq<Event>, all: seq<Event>) {
    past <= all &&
    var s, caught := Hub.Run(end.cap, end.filter, log), Hub.Caught(end.cap, end.filter, log);
    var due := caught + Hub.Filtered(end.filter, all[|past|..]);
    && s.put <= due && (s.told.None? ==> s.put == due)
    && Hub.Kept(end.cap, past) <= caught && Hub.Subsequence(caught, past)
    && (caught == past <==> !exists m: nat :: Hub.DroppedAt(end.cap, end.filter, log, m))
  }

  lemma {:induction false} UpToDateIsDelivered(end: End, log: seq<Hub.Event<Event>>, past: seq<Event>, taken: seq<Event>)
    requires UpToDate(log, past, taken)
    ensures Delivered(end, log, past, History(taken))
  {
    Hub.SawIsPut(end.cap, end.filter, log, past, History(taken)[|past|..]);
    Hub.SawIsCaught(end.cap, end.filter, log, past, History(taken)[|past|..]);
  }

  /** Replay: what a subscriber that joined with input n was put, by the history of that time
      and the history now. */
  lemma {:induction false} LateSubscriber(inputs: seq<Input>, n: nat, i: nat)
    requires JoinsAt(inputs, n, i)
    ensures i < |Ends(inputs)| && Ends(inputs)[i] == End(inputs[n].cap, inputs[n].filter)
    ensures Delivered(Ends(inputs)[i], Logs(inputs)[i], History(Taken(inputs[..n])), History(Taken(inputs)))
  {
    SawSinceJoin(inputs, n, i);
    UpToDateIsDelivered(Ends(inputs)[i], Logs(inputs)[i], History(Taken(inputs[..n])), Taken(inputs));
  }

  lemma {:induction false} DeliveredWhole(end: End, log: seq<Hub.Event<Event>>, past: seq<Event>, all: seq<Event>)
    requires Delivered(end, log, past, all) && |past| <= end.cap && Hub.Run(end.cap, end.filter, log).told.None?
    requires forall e :: e in all ==> end.filter(e)
    ensures Hub.Run(end.cap, end.filter, log).put == all
  {
    var caught, later := Hub.Caught(end.cap, end.filter, log), all[|past|..];
    Hub.NoLonger(caught, past);
    Hub.FilteredAll(end.filter, later);
    Beyond(past, all, []);
  }

  /** All registered subscribers that take everything, and had room for the history when they
      joined, have been put the same: all of it. */
  lemma {:induction false} AllAreEqual(inputs: seq<Input>, n: nat, i: nat)
    requires JoinsAt(inputs, n, i)
    ensures i < |Ends(inputs)|
    ensures Outcome(inputs, i).told.None? && |History(Taken(inputs[..n]))| <= inputs[n].cap
      && (forall e :: e in History(Taken(inputs)) ==> inputs[n].filter(e))
      ==> Outcome(inputs, i).put == History(Taken(inputs))
  {
    LateSubscriber(inputs, n, i);
    var end, log, past, all := Ends(inputs)[i], Logs(inputs)[i], History(Taken(inputs[..n])), History(Taken(inputs));
    if Hub.Run(end.cap, end.filter, log).told.None? && |past| <= end.cap && forall e :: e in all ==> end.filter(e) {
      DeliveredWhole(end, log, past, all);
    }
  }

  lemma {:induction false} CastsTakeNothing(end: End, log: seq<Hub.Event<Event>>, vs: seq<Event>)
    ensures var s, s' := Hub.Run(end.cap, end.filter, log), Hub.Run(end.cap, end.filter, log + Hub.Passing(vs));
      s'.taken == s.taken && s.put <= s'.put
  {
    Hub.PassingUnfolds(log, vs);
    if vs != [] {
      var n := |vs| - 1;
      CastsTakeNothing(end, log, vs[..n]);
      Hub.ReadsTakeOne(end.cap, end.filter, log + Hub.Passing(vs[..n]), Hub.Cast(vs[n]));
    }
  }

  /** A subscriber that reads takes the oldest value that waits for it; no other input takes a
      value from it, and none takes back what it was put. */
  lemma {:induction false} OnlyReadsTake(inputs: seq<Input>, x: Input, i: nat)
    requires i < |Ends(inputs)|
    ensures i < |Ends(inputs + [x])|
    ensures var s, s' := Outcome(inputs, i), Outcome(inputs + [x], i);
      && s.put <= s'.put && s.taken <= |s.put|
      && (x == Read(i) ==> s'.put == s.put && s'.taken == if s.taken < |s.put| then s.taken + 1 else s.taken)
      && (x != Read(i) ==> s'.taken == s.taken)
  {
    StepUnfolds(inputs, x);
    var end, log := Ends(inputs)[i], Logs(inputs)[i];
    Hub.QueueIsBounded(end.cap, end.filter, log);
    match x
    case Take(e) => CastsTakeNothing(end, log, Sent(Kinds(Taken(inputs)), e));
    case Leave(_) => Hub.ReadsTakeOne(end.cap, end.filter, log, Hub.Leave);
    case Read(_) => Hub.ReadsTakeOne(end.cap, end.filter, log, Hub.Take);
    case _ =>
  }

  lemma {:induction false} CastsTellFull(end: End, log: seq<Hub.Event<Event>>, vs: seq<Event>)
    ensures var before, after := Hub.Run(end.cap, end.filter, log).told, Hub.Run(end.cap, end.filter, log + Hub.Passing(vs)).told;
      after == before || (before.None? && after == Some(Hub.Full))
  {
    Hub.PassingUnfolds(log, vs);
    if vs != [] {
      var n := |vs| - 1;
      CastsTellFull(end, log, vs[..n]);
      Hub.RunStep(end.cap, end.filter, log + Hub.Passing(vs[..n]), Hub.Cast(vs[n]));
    }
  }

  lemma {:induction false} ReplayTellsNothing(end: End, log: seq<Hub.Event<Event>>)
    requires Hub.OnlyReplay(log)
    ensures Hub.Run(end.cap, end.filter, log).told.None?
  {
    if log != [] {
      ReplayTellsNothing(end, log[..|log| - 1]);
    }
  }

  /** One input tells a subscriber nil exactly if it is the request to leave of one that is registered. */
  lemma {:induction false} HeardNil(ends: seq<End>, logs: seq<seq<Hub.Event<Event>>>, past: seq<Event>, x: Input, i: nat)
    requires i < |ends| == |logs|
    ensures Hub.Run(ends[i].cap, ends[i].filter, Hear(ends, logs, past, x)[i]).told == Some(Hub.Nil) <==>
      Hub.Run(ends[i].cap, ends[i].filter, logs[i]).told == Some(Hub.Nil) || (x == Leave(i) && Registered(ends, logs, i))
  {
    match x
    case Take(e) => CastsTellFull(ends[i], logs[i], Sent(Kinds(past), e));
    case Leave(_) => Hub.RunStep(ends[i].cap, ends[i].filter, logs[i], Hub.Leave);
    case Read(_) => Hub.RunStep(ends[i].cap, ends[i].filter, logs[i], Hub.Take);
    case _ =>
  }

  /** Some event that the subscriber should have had found its queue full. */
  ghost predicate Overflows(end: End, log: seq<Hub.Event<Event>>) {
    exists n: nat :: Hub.OverflowAt(end.cap, end.filter, log, n)
  }

  /** Why a subscriber is no longer registered: its own request, or a queue that was full
      when an event came that it should have had. */
  lemma {:induction false} ToldWhy(inputs: seq<Input>, i: nat)
    requires i < |Ends(inputs)|
    ensures Outcome(inputs, i).told == Some(Hub.Nil) <==> HasLeft(inputs, i)
    ensures Outcome(inputs, i).told == Some(Hub.Full) <==> Overflows(Ends(inputs)[i], Logs(inputs)[i])
  {
    Hub.WhyTold(Ends(inputs)[i].cap, Ends(inputs)[i].filter, Logs(inputs)[i]);
    ToldNil(inputs, i);
  }

  /** Some input is the request of i to leave, when it is registered. */
  ghost predicate HasLeft(inputs: seq<Input>, i: nat) {
    exists n: nat :: LeavesAt(inputs, n, i)
  }

  lemma {:induction false} HasLeftMore(inputs: seq<Input>, x: Input, i: nat)
    ensures HasLeft(inputs + [x], i) <==> HasLeft(inputs, i) || (x == Leave(i) && Registered(Ends(inputs), Logs(inputs), i))
  {
    var more, k := inputs + [x], |inputs|;
    assert more[..k] == inputs && more[k] == x;
    assert LeavesAt(more, k, i) <==> x == Leave(i) && Registered(Ends(inputs), Logs(inputs), i);
    forall n: nat | n < k
      ensures LeavesAt(more, n, i) <==> LeavesAt(inputs, n, i)
    {
      assert more[..n] == inputs[..n];
    }
  }

  lemma {:induction false} StepUnfolds(inputs: seq<Input>, x: Input)
    ensures Ends(inputs + [x]) == if x.Join? then Ends(inputs) + [End(x.cap, x.filter)] else Ends(inputs)
    ensures Logs(inputs + [x]) == Hear(Ends(inputs), Logs(inputs), Taken(inputs), x)
  {
    assert (inputs + [x])[..|inputs|] == inputs;
  }

  lemma {:induction false} NewIsToldNothing(inputs: seq<Input>, x: Input)
    requires x.Join?
    ensures |Ends(inputs + [x])| == |Ends(inputs)| + 1 && Outcome(inputs + [x], |Ends(inputs)|).told.None?
  {
    StepUnfolds(inputs, x);
    Hub.ReplaysReplay(History(Taken(inputs)), x.takes);
    ReplayTellsNothing(End(x.cap, x.filter), Hub.Replays(History(Taken(inputs)), x.takes));
  }

  lemma {:induction false} NilMore(inputs: seq<Input>, x: Input, i: nat)
    requires i < |Ends(inputs)|
    ensures i < |Ends(inputs + [x])|
    ensures Outcome(inputs + [x], i).told == Some(Hub.Nil) <==>
      Outcome(inputs, i).told == Some(Hub.Nil) || (x == Leave(i) && Registered(Ends(inputs), Logs(inputs), i))
  {
    StepUnfolds(inputs, x);
    HeardNil(Ends(inputs), Logs(inputs), Taken(inputs), x, i);
  }

  lemma {:induction false} ToldNil(inputs: seq<Input>, i: nat)
    requires i < |Ends(inputs)|
    ensures Outcome(inputs, i).told == Some(Hub.Nil) <==> HasLeft(inputs, i)
  {
    var before, x := inputs[..|inputs| - 1], inputs[|inputs| - 1];
    assert inputs == before + [x];
    HasLeftMore(before, x, i);
    StepUnfolds(before, x);
    if i < |Ends(before)| {
      ToldNil(before, i);
      NilMore(before, x, i);
    } else {
      NotYet(before, i);
      NewIsToldNothing(before, x);
    }
  }

  /** Who has not joined cannot leave. */
  lemma {:induction false} NotYet(inputs: seq<Input>, i: nat)
    requires |Ends(inputs)| <= i
    ensures !HasLeft(inputs, i)
  {
    forall n: nat | n < |inputs|
      ensures |Ends(inputs[..n])| <= |Ends(inputs)|
    {
      EndsGrow(inputs, n);
    }
  }

  lemma {:induction false} EndsGrow(inputs: seq<Input>, n: nat)
    requires n <= |inputs|
    ensures |Ends(inputs[..n])| <= |Ends(inputs)|
  {
    if n < |inputs| {
      var before := inputs[..|inputs| - 1];
      assert before[..n] == inputs[..n];
      EndsGrow(before, n);
    } else {
      assert inputs[..n] == inputs;
    }
  }
}
