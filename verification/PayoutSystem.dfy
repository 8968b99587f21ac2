/** The clock, the watcher and the scheduler of one payout, as one transition system:
    every interleaving of their steps, and of events that others send. */
module PayoutSystem {
  import opened Wrappers
  import opened Schedule
  import Clock
  import ClockTheory
  import opened Watcher
  import WatcherTheory
  import PayoutTheory

  /** What comes from outside: the period, the stream of slots, and the states of the account. */
  datatype World = World(times: Clock.Times, slots: seq<Clock.Uint64>, first: Data, datas: seq<Data>)

  /** Handing over an event is a rendezvous, so an event of the clock or of the watcher
      is either given or still held by its sender; the note from the clock to the
      watcher goes through a buffer with one slot. */
  datatype System = System(
    ticks: nat, clockGiven: nat, posted: bool,
    note: Option<bool>,
    inputs: seq<Input>, datasSeen: nat, watcherGiven: nat,
    taken: seq<Event>)

  const INITIAL := System(0, 0, false, None, [], 0, 0, [])

  function ClockSends(w: World, s: System): seq<Event>
    requires s.ticks <= |w.slots|
  {
    Clock.Emitted(w.times, w.slots[..s.ticks])
  }

  predicate CloseSent(w: World, s: System)
    requires s.ticks <= |w.slots|
  {
    Clock.Reached(w.slots[..s.ticks], w.times.closeOut)
  }

  function WatcherNow(w: World, s: System): Watch {
    Watched(w.first, s.inputs)
  }

  /** The scheduler is still there to take events. */
  predicate SchedulerOpen(s: System) {
    !PayoutTheory.Complete(PayoutTheory.Kinds(s.taken))
  }

  predicate CanTick(w: World, s: System) {
    s.ticks < |w.slots| && s.clockGiven == |ClockSends(w, s)| && !CloseSent(w, s)
  }

  predicate CanTakeFromClock(w: World, s: System) {
    s.ticks <= |w.slots| && s.clockGiven < |ClockSends(w, s)| && SchedulerOpen(s)
  }

  predicate CanPost(w: World, s: System) {
    s.ticks <= |w.slots| && s.clockGiven == |ClockSends(w, s)| && CloseSent(w, s) && !s.posted && s.note.None?
  }

  predicate CanTakeFromWatcher(w: World, s: System) {
    s.watcherGiven < |WatcherNow(w, s).sent| && SchedulerOpen(s)
  }

  predicate WatcherReady(w: World, s: System) {
    s.watcherGiven == |WatcherNow(w, s).sent| && Watching(WatcherNow(w, s))
  }

  predicate CanSeeNote(w: World, s: System) {
    WatcherReady(w, s) && s.note.Some?
  }

  predicate CanSeeData(w: World, s: System) {
    WatcherReady(w, s) && s.datasSeen < |w.datas|
  }

  /** Nothing is left to do for the three loops. */
  predicate Quiet(w: World, s: System) {
    && !CanTick(w, s) && !CanTakeFromClock(w, s) && !CanPost(w, s)
    && !CanTakeFromWatcher(w, s) && !CanSeeNote(w, s) && !CanSeeData(w, s)
  }

  /** A step of one of the three loops. */
  predicate LoopStep(w: World, s: System, s': System) {
    || (CanTick(w, s) && s' == s.(ticks := s.ticks + 1))
    || (CanTakeFromClock(w, s)
        && s' == s.(clockGiven := s.clockGiven + 1, taken := s.taken + [ClockSends(w, s)[s.clockGiven]]))
    || (CanPost(w, s) && s' == s.(posted := true, note := Some(s.ticks > 1)))
    || (CanTakeFromWatcher(w, s)
        && s' == s.(watcherGiven := s.watcherGiven + 1, taken := s.taken + [WatcherNow(w, s).sent[s.watcherGiven]]))
    || (CanSeeNote(w, s) && s' == s.(note := None, inputs := s.inputs + [Post(s.note.value)]))
    || (CanSeeData(w, s)
        && s' == s.(datasSeen := s.datasSeen + 1, inputs := s.inputs + [NewData(w.datas[s.datasSeen])]))
  }

  predicate FromOthers(e: Event) {
    e.kind in {EVENT_BID_FINAL, EVENT_STAKER_IS_ADDING, EVENT_STAKER_HAVE_WITHDRAWN}
  }

  /** The watchers of the bids' finality and of the stakers send what they like, when they like. */
  predicate OtherStep(s: System, s': System) {
    && SchedulerOpen(s) && s'.taken != []
    && FromOthers(s'.taken[|s'.taken| - 1])
    && s' == s.(taken := s.taken + [s'.taken[|s'.taken| - 1]])
  }

  predicate Next(w: World, s: System, s': System) {
    LoopStep(w, s, s') || OtherStep(s, s')
  }

  ghost predicate IsRun(w: World, run: seq<System>) {
    && run != [] && run[0] == INITIAL
    && forall i :: 0 <= i < |run| - 1 ==> Next(w, run[i], run[i + 1])
  }

  /** The first n of the events were taken. */
  predicate Given(sent: seq<Event>, n: nat, taken: seq<Event>) {
    n <= |sent| && forall i :: 0 <= i < n ==> sent[i] in taken
  }

  ghost predicate ClockFits(w: World, s: System) {
    && s.ticks <= |w.slots| && Clock.Ticking(w.times, w.slots[..s.ticks])
    && Given(ClockSends(w, s), s.clockGiven, s.taken)
    && (s.posted ==> CloseSent(w, s) && s.clockGiven == |ClockSends(w, s)|)
    && (s.posted <==> s.note.Some? || WatcherTheory.Posted(s.inputs))
  }

  ghost predicate WatcherFits(w: World, s: System) {
    && s.datasSeen <= |w.datas|
    && WatcherTheory.Seen(w.first, s.inputs) == [w.first] + w.datas[..s.datasSeen]
    && Given(WatcherNow(w, s).sent, s.watcherGiven, s.taken)
  }

  ghost predicate Fits(w: World, s: System) {
    ClockFits(w, s) && WatcherFits(w, s) && PayoutTheory.Open(s.taken)
  }

  lemma ClockSendsMore(w: World, n: nat)
    requires n < |w.slots|
    ensures w.slots[..n + 1] == w.slots[..n] + [w.slots[n]]
    ensures Clock.Emitted(w.times, w.slots[..n]) <= Clock.Emitted(w.times, w.slots[..n + 1])
    ensures |Clock.Emitted(w.times, w.slots[..n + 1])| <= |Clock.Emitted(w.times, w.slots[..n])| + 4
    ensures Clock.Ticking(w.times, w.slots[..n + 1]) <==> !Clock.Reached(w.slots[..n], w.times.closeOut)
  {
    assert w.slots[..n + 1] == w.slots[..n] + [w.slots[n]];
    assert w.slots[..n + 1][..n] == w.slots[..n];
    Clock.EmittedMore(w.times, w.slots[..n], w.slots[n]);
  }

  lemma WatcherSendsMore(d: Data, inputs: seq<Input>, x: Input)
    ensures Watched(d, inputs + [x]) == React(Watched(d, inputs), x)
    ensures Watched(d, inputs).sent <= Watched(d, inputs + [x]).sent
    ensures |Watched(d, inputs + [x]).sent| <= |Watched(d, inputs).sent| + (if x.Post? then 1 else 3)
  {
    assert (inputs + [x])[..|inputs|] == inputs;
  }

  /** The clock and the watcher send only events that the scheduler knows. */
  lemma SendersAreKnown(w: World, s: System)
    requires s.ticks <= |w.slots|
    ensures forall e :: e in ClockSends(w, s) || e in WatcherNow(w, s).sent ==> PayoutTheory.Known(e)
  {
    WatcherTheory.WatchedSends(w.first, s.inputs);
    forall e | e in ClockSends(w, s) || e in WatcherNow(w, s).sent
      ensures PayoutTheory.Known(e)
    {
      ClockTheory.SentWhenDue(w.times, w.slots[..s.ticks], e.kind);
      assert e in ClockSends(w, s) ==> ClockTheory.Sent(ClockSends(w, s), e.kind);
      assert e in WatcherNow(w, s).sent ==> ClockTheory.Sent(WatcherNow(w, s).sent, e.kind);
    }
  }

  lemma TickFits(w: World, s: System)
    requires Fits(w, s) && CanTick(w, s)
    ensures Fits(w, s.(ticks := s.ticks + 1))
  {
    ClockSendsMore(w, s.ticks);
  }

  lemma InputFits(w: World, s: System, s': System, x: Input)
    requires Fits(w, s) && WatcherReady(w, s) && s'.inputs == s.inputs + [x]
    requires s' == s.(note := s'.note, datasSeen := s'.datasSeen, inputs := s'.inputs)
    requires x.Post? ==> s.note.Some? && s'.note.None? && s'.datasSeen == s.datasSeen
    requires x.NewData? ==> CanSeeData(w, s) && s'.note == s.note && s'.datasSeen == s.datasSeen + 1 && x.data == w.datas[s.datasSeen]
    ensures Fits(w, s')
  {
    WatcherSendsMore(w.first, s.inputs, x);
    WatcherTheory.PostedMore(w.first, s.inputs, x);
    assert (s.inputs + [x])[..|s.inputs|] == s.inputs;
    if x.NewData? {
      assert w.datas[..s'.datasSeen] == w.datas[..s.datasSeen] + [x.data];
    }
  }

  lemma GivenMore(sent: seq<Event>, n: nat, taken: seq<Event>, e: Event)
    requires Given(sent, n, taken)
    ensures Given(sent, n, taken + [e])
    ensures n < |sent| && e == sent[n] ==> Given(sent, n + 1, taken + [e])
  {
    assert (taken + [e])[|taken|] == e;
  }

  lemma TakeFits(w: World, s: System, e: Event)
    requires Fits(w, s) && SchedulerOpen(s) && PayoutTheory.Known(e)
    ensures Fits(w, s.(taken := s.taken + [e]))
    ensures CanTakeFromClock(w, s) && e == ClockSends(w, s)[s.clockGiven] ==>
      Fits(w, s.(taken := s.taken + [e], clockGiven := s.clockGiven + 1))
    ensures CanTakeFromWatcher(w, s) && e == WatcherNow(w, s).sent[s.watcherGiven] ==>
      Fits(w, s.(taken := s.taken + [e], watcherGiven := s.watcherGiven + 1))
  {
    PayoutTheory.MoreTaken(s.taken, e);
    GivenMore(ClockSends(w, s), s.clockGiven, s.taken, e);
    GivenMore(WatcherNow(w, s).sent, s.watcherGiven, s.taken, e);
  }

  lemma StepFits(w: World, s: System, s': System)
    requires Fits(w, s) && Next(w, s, s')
    ensures Fits(w, s')
  {
    SendersAreKnown(w, s);
    if CanTick(w, s) && s' == s.(ticks := s.ticks + 1) {
      TickFits(w, s);
    } else if CanTakeFromClock(w, s) && s'.clockGiven == s.clockGiven + 1 {
      TakeFits(w, s, ClockSends(w, s)[s.clockGiven]);
    } else if CanTakeFromWatcher(w, s) && s'.watcherGiven == s.watcherGiven + 1 {
      TakeFits(w, s, WatcherNow(w, s).sent[s.watcherGiven]);
    } else if CanSeeNote(w, s) && s'.note.None? && s'.inputs != s.inputs && s'.datasSeen == s.datasSeen {
      InputFits(w, s, s', Post(s.note.value));
    } else if CanSeeData(w, s) && s'.datasSeen == s.datasSeen + 1 {
      InputFits(w, s, s', NewData(w.datas[s.datasSeen]));
    } else if OtherStep(s, s') {
      TakeFits(w, s, s'.taken[|s'.taken| - 1]);
    }
  }

  lemma {:induction false} RunFits(w: World, run: seq<System>, n: nat)
    requires IsRun(w, run) && n < |run|
    ensures Fits(w, run[n])
  {
    if n > 0 {
      RunFits(w, run, n - 1);
      StepFits(w, run[n - 1], run[n]);
    }
  }

  /** The account is such that the payout can be closed at all: the clock reaches the
      time to close it, the bids are closed, and the validators, if there are any, leave. */
  ghost predicate CanBeClosed(w: World) {
    var all := [w.first] + w.datas;
    && Clock.Reached(w.slots, w.times.closeOut)
    && WatcherTheory.Closed(all)
    && (WatcherTheory.Returned(all) || !WatcherTheory.Added(all))
  }

  /** The one trigger to close is in the history. */
  ghost predicate ClosedOnce(h: seq<Event>) {
    exists i :: 0 <= i < |h| && h[i] == Trigger(TRIGGER_CLOSE_PAYOUT)
      && forall j :: 0 <= j < |h| && h[j].kind == TRIGGER_CLOSE_PAYOUT ==> j == i
  }

  lemma AllGiven(sent: seq<Event>, taken: seq<Event>, kind: int)
    requires Given(sent, |sent|, taken) && ClockTheory.Sent(sent, kind)
    ensures kind in PayoutTheory.Kinds(taken)
  {
    var e :| e in sent && e.kind == kind;
    assert e in taken;
  }

  lemma {:induction false} FirstPost(d: Data, inputs: seq<Input>)
    requires WatcherTheory.Posted(inputs) && !WatcherTheory.Added(WatcherTheory.Seen(d, inputs))
    ensures WatcherTheory.PostedBeforeAny(d, inputs)
  {
    var past, x := inputs[..|inputs| - 1], inputs[|inputs| - 1];
    assert inputs == past + [x];
    WatcherTheory.PostedMore(d, past, x);
    WatcherTheory.SeenMore(WatcherTheory.Seen(d, past), if x.NewData? then x.data else d);
    if WatcherTheory.Posted(past) {
      FirstPost(d, past);
    }
  }

  predicate HandedOver(w: World, s: System)
    requires s.ticks <= |w.slots|
  {
    s.clockGiven == |ClockSends(w, s)| && s.watcherGiven == |WatcherNow(w, s).sent|
  }

  /** The clock has ended, and its note has reached the watcher unless that has ended. */
  lemma QuietClock(w: World, s: System)
    requires Fits(w, s) && Quiet(w, s) && HandedOver(w, s) && Clock.Reached(w.slots, w.times.closeOut)
    ensures EVENT_DELAY_CLOSE_PAYOUT in PayoutTheory.Kinds(s.taken)
    ensures Watching(WatcherNow(w, s)) ==> WatcherTheory.Posted(s.inputs)
  {
    if s.ticks == |w.slots| {
      assert w.slots[..s.ticks] == w.slots;
    }
    assert CloseSent(w, s);
    ClockTheory.SentWhenDue(w.times, w.slots[..s.ticks], EVENT_DELAY_CLOSE_PAYOUT);
    AllGiven(ClockSends(w, s), s.taken, EVENT_DELAY_CLOSE_PAYOUT);
  }

  /** The watcher has ended too, so all three events were taken. */
  lemma QuietWatcher(w: World, s: System)
    requires Fits(w, s) && Quiet(w, s) && HandedOver(w, s) && CanBeClosed(w)
    ensures PayoutTheory.Complete(PayoutTheory.Kinds(s.taken))
  {
    var all := [w.first] + w.datas;
    QuietClock(w, s);
    WatcherTheory.WatchedTells(w.first, s.inputs);
    if s.datasSeen == |w.datas| && !WatcherTheory.Returned(all) && WatcherTheory.Posted(s.inputs) {
      assert w.datas[..s.datasSeen] == w.datas;
      FirstPost(w.first, s.inputs);
    }
    assert s.datasSeen == |w.datas| ==> w.datas[..s.datasSeen] == w.datas;
    assert !Watching(WatcherNow(w, s));
    WatcherTheory.WatchedSends(w.first, s.inputs);
    AllGiven(WatcherNow(w, s).sent, s.taken, EVENT_BID_CLOSED);
    AllGiven(WatcherNow(w, s).sent, s.taken, EVENT_VALIDATOR_HAVE_WITHDRAWN);
  }

  /** Main result: in every interleaving, where the payout can be closed and the loops
      have nothing left to do, the history has exactly one trigger to close it. */
  lemma QuietRunClosesOnce(w: World, run: seq<System>, n: nat)
    requires IsRun(w, run) && n < |run| && Quiet(w, run[n]) && CanBeClosed(w)
    ensures ClosedOnce(PayoutTheory.History(run[n].taken))
  {
    var s := run[n];
    RunFits(w, run, n);
    if HandedOver(w, s) {
      QuietWatcher(w, s);
    }
    PayoutTheory.ClosesWhenComplete(s.taken);
    var h := PayoutTheory.History(s.taken);
    assert h[|h| - 2] == Trigger(TRIGGER_CLOSE_PAYOUT);
  }

  /** And no run, whatever the account does, has two. */
  lemma NoRunClosesTwice(w: World, run: seq<System>, n: nat)
    requires IsRun(w, run) && n < |run|
    ensures var h := PayoutTheory.History(run[n].taken);
      forall i, j :: 0 <= i < |h| && 0 <= j < |h| && h[i].kind == h[j].kind == TRIGGER_CLOSE_PAYOUT ==> i == j
  {
    RunFits(w, run, n);
    PayoutTheory.ClosesWhenComplete(run[n].taken);
  }

  predicate From(e: Event, clock: seq<Event>, watcher: seq<Event>) {
    FromOthers(e) || e in clock || e in watcher
  }

  /** What the scheduler took was sent by someone. */
  ghost predicate Honest(w: World, s: System) {
    s.ticks <= |w.slots| && forall e :: e in s.taken ==> From(e, ClockSends(w, s), WatcherNow(w, s).sent)
  }

  lemma FromStill(e: Event, clock: seq<Event>, watcher: seq<Event>, clock': seq<Event>, watcher': seq<Event>)
    requires From(e, clock, watcher) && clock <= clock' && watcher <= watcher'
    ensures From(e, clock', watcher')
  {
  }

  lemma HonestStep(w: World, s: System, s': System)
    requires Fits(w, s) && Honest(w, s) && Next(w, s, s')
    ensures Honest(w, s')
  {
    if s.ticks < |w.slots| {
      ClockSendsMore(w, s.ticks);
    }
    if s'.inputs != s.inputs {
      WatcherSendsMore(w.first, s.inputs, s'.inputs[|s.inputs|]);
    }
    var a, b := ClockSends(w, s), WatcherNow(w, s).sent;
    assert a <= ClockSends(w, s') && b <= WatcherNow(w, s').sent;
    forall e | e in s'.taken
      ensures From(e, ClockSends(w, s'), WatcherNow(w, s').sent)
    {
      assert From(e, a, b);
      FromStill(e, a, b, ClockSends(w, s'), WatcherNow(w, s').sent);
    }
  }

  lemma {:induction false} RunHonest(w: World, run: seq<System>, n: nat)
    requires IsRun(w, run) && n < |run|
    ensures Honest(w, run[n])
  {
    if n > 0 {
      RunFits(w, run, n - 1);
      RunHonest(w, run, n - 1);
      HonestStep(w, run[n - 1], run[n]);
    }
  }

  lemma SentBySomeone(w: World, s: System, kind: int)
    requires Honest(w, s) && kind in PayoutTheory.Kinds(s.taken) && !FromOthers(Event(kind, true, 0))
    ensures ClockTheory.Due(w.times, w.slots[..s.ticks], kind) || ClockTheory.Sent(WatcherNow(w, s).sent, kind)
  {
    var e :| e in s.taken && e.kind == kind;
    assert From(e, ClockSends(w, s), WatcherNow(w, s).sent);
    ClockTheory.SentWhenDue(w.times, w.slots[..s.ticks], kind);
  }

  /** The trigger to close never comes early: the clock has read a slot that allows it,
      the bids were seen closed, and the validators were seen to leave, or none was there
      when the watcher was told that it is time. */
  lemma ClosesOnlyWhenOver(w: World, run: seq<System>, n: nat)
    requires IsRun(w, run) && n < |run| && Trigger(TRIGGER_CLOSE_PAYOUT) in PayoutTheory.History(run[n].taken)
    ensures run[n].ticks <= |w.slots| && Clock.Reached(w.slots[..run[n].ticks], w.times.closeOut)
    ensures var seen := WatcherTheory.Seen(w.first, run[n].inputs);
      && WatcherTheory.Closed(seen)
      && (WatcherTheory.Returned(seen) || WatcherTheory.PostedBeforeAny(w.first, run[n].inputs))
  {
    var s := run[n];
    RunFits(w, run, n);
    RunHonest(w, run, n);
    PayoutTheory.ClosesWhenComplete(s.taken);
    SentBySomeone(w, s, EVENT_DELAY_CLOSE_PAYOUT);
    SentBySomeone(w, s, EVENT_BID_CLOSED);
    SentBySomeone(w, s, EVENT_VALIDATOR_HAVE_WITHDRAWN);
    WatcherTheory.WatchedSends(w.first, s.inputs);
    WatcherTheory.WatchedTells(w.first, s.inputs);
  }

  /** A bound on the steps that the three loops still can make. */
  function Left(w: World, s: System): int
    requires s.ticks <= |w.slots|
  {
    5 * (|w.slots| - s.ticks) + (|ClockSends(w, s)| - s.clockGiven)
    + (if s.posted then 0 else 3) + (if s.note.Some? then 2 else 0)
    + 4 * (|w.datas| - s.datasSeen) + (|WatcherNow(w, s).sent| - s.watcherGiven)
  }

  lemma TickUses(w: World, s: System)
    requires Fits(w, s) && CanTick(w, s)
    ensures 0 <= Left(w, s.(ticks := s.ticks + 1)) < Left(w, s)
  {
    ClockSendsMore(w, s.ticks);
  }

  lemma GivingUses(w: World, s: System, s': System)
    requires Fits(w, s) && s' == s.(clockGiven := s'.clockGiven, watcherGiven := s'.watcherGiven, taken := s'.taken)
    requires s.clockGiven <= s'.clockGiven <= |ClockSends(w, s)| && s.watcherGiven <= s'.watcherGiven <= |WatcherNow(w, s).sent|
    requires s.clockGiven + s.watcherGiven < s'.clockGiven + s'.watcherGiven
    ensures 0 <= Left(w, s') < Left(w, s)
  {
  }

  lemma PostingUses(w: World, s: System)
    requires Fits(w, s) && CanPost(w, s)
    ensures 0 <= Left(w, s.(posted := true, note := Some(s.ticks > 1))) < Left(w, s)
  {
  }

  lemma InputUses(w: World, s: System, s': System, x: Input)
    requires Fits(w, s) && s' == s.(inputs := s.inputs + [x], note := s'.note, datasSeen := s'.datasSeen)
    requires x.Post? ==> s.note.Some? && s'.note.None? && s'.datasSeen == s.datasSeen
    requires x.NewData? ==> s'.note == s.note && s'.datasSeen == s.datasSeen + 1 <= |w.datas|
    ensures 0 <= Left(w, s') < Left(w, s)
  {
    WatcherSendsMore(w.first, s.inputs, x);
  }

  /** Every step of a loop uses up some of it, and it never goes below zero: so the loops
      do come to have nothing left to do. */
  lemma LoopsEnd(w: World, s: System, s': System)
    requires Fits(w, s) && LoopStep(w, s, s')
    ensures s'.ticks <= |w.slots| && 0 <= Left(w, s') < Left(w, s)
  {
    if CanTick(w, s) && s' == s.(ticks := s.ticks + 1) {
      TickUses(w, s);
    } else if CanPost(w, s) && s'.posted {
      PostingUses(w, s);
    } else if s'.inputs != s.inputs {
      InputUses(w, s, s', s'.inputs[|s.inputs|]);
    } else {
      GivingUses(w, s, s');
    }
  }

  // ----- what was taken, and in which order -----

  const CLOCK_KINDS: set<int> := {EVENT_PERIOD_PRE_START, EVENT_PERIOD_START, EVENT_PERIOD_FINISH, EVENT_DELAY_CLOSE_PAYOUT}
  const WATCHER_KINDS: set<int> := {EVENT_BID_CLOSED, EVENT_VALIDATOR_IS_ADDING, EVENT_VALIDATOR_HAVE_WITHDRAWN}

  /** The events of some kinds. */
  function Only(events: seq<Event>, kinds: set<int>): seq<Event> {
    if events == [] then []
    else
      var e, before := events[|events| - 1], Only(events[..|events| - 1], kinds);
      if e.kind in kinds then before + [e] else before
  }

  lemma {:induction false} OnlyMore(events: seq<Event>, e: Event, kinds: set<int>)
    ensures Only(events + [e], kinds) == if e.kind in kinds then Only(events, kinds) + [e] else Only(events, kinds)
  {
    assert (events + [e])[..|events|] == events;
  }

  /** These are the first n of what was sent. */
  predicate FirstOf(sent: seq<Event>, n: nat, got: seq<Event>) {
    n <= |sent| && got == sent[..n]
  }

  /** The scheduler took the clock's events, and the watcher's, in the order in which they were sent. */
  ghost predicate Merged(w: World, s: System) {
    && s.ticks <= |w.slots| && FirstOf(ClockSends(w, s), s.clockGiven, Only(s.taken, CLOCK_KINDS))
    && FirstOf(WatcherNow(w, s).sent, s.watcherGiven, Only(s.taken, WATCHER_KINDS))
  }

  lemma {:induction false} FirstOfMore(sent: seq<Event>, n: nat, got: seq<Event>, more: seq<Event>)
    requires FirstOf(sent, n, got) && sent <= more
    ensures FirstOf(more, n, got)
    ensures n < |sent| ==> FirstOf(sent, n + 1, got + [sent[n]])
  {
    assert more[..n] == sent[..n];
  }

  lemma {:induction false} ClockKinds(w: World, s: System, e: Event)
    requires s.ticks <= |w.slots| && e in ClockSends(w, s)
    ensures e.kind in CLOCK_KINDS
  {
    ClockTheory.SentWhenDue(w.times, w.slots[..s.ticks], e.kind);
    assert ClockTheory.Sent(ClockSends(w, s), e.kind);
  }

  lemma {:induction false} WatcherKinds(w: World, s: System, e: Event)
    requires e in WatcherNow(w, s).sent
    ensures e.kind in WATCHER_KINDS
  {
    WatcherTheory.WatchedSends(w.first, s.inputs);
    assert ClockTheory.Sent(WatcherNow(w, s).sent, e.kind);
  }

  /** The clock reads a slot, or the watcher an input. */
  lemma {:induction false} MergedWhenRead(w: World, s: System, s': System)
    requires Merged(w, s) && s'.ticks <= |w.slots|
    requires ClockSends(w, s) <= ClockSends(w, s') && WatcherNow(w, s).sent <= WatcherNow(w, s').sent
    requires s'.taken == s.taken && s'.clockGiven == s.clockGiven && s'.watcherGiven == s.watcherGiven
    ensures Merged(w, s')
  {
    FirstOfMore(ClockSends(w, s), s.clockGiven, Only(s.taken, CLOCK_KINDS), ClockSends(w, s'));
    FirstOfMore(WatcherNow(w, s).sent, s.watcherGiven, Only(s.taken, WATCHER_KINDS), WatcherNow(w, s').sent);
  }

  lemma {:induction false} MergedWhenTaken(w: World, s: System, s': System, e: Event)
    requires Merged(w, s) && s'.ticks == s.ticks && s'.inputs == s.inputs && s'.taken == s.taken + [e]
    requires e.kind in CLOCK_KINDS ==> s.clockGiven < |ClockSends(w, s)| && e == ClockSends(w, s)[s.clockGiven]
    requires e.kind in WATCHER_KINDS ==> s.watcherGiven < |WatcherNow(w, s).sent| && e == WatcherNow(w, s).sent[s.watcherGiven]
    requires s'.clockGiven == if e.kind in CLOCK_KINDS then s.clockGiven + 1 else s.clockGiven
    requires s'.watcherGiven == if e.kind in WATCHER_KINDS then s.watcherGiven + 1 else s.watcherGiven
    ensures Merged(w, s')
  {
    OnlyMore(s.taken, e, CLOCK_KINDS);
    OnlyMore(s.taken, e, WATCHER_KINDS);
    FirstOfMore(ClockSends(w, s), s.clockGiven, Only(s.taken, CLOCK_KINDS), ClockSends(w, s));
    FirstOfMore(WatcherNow(w, s).sent, s.watcherGiven, Only(s.taken, WATCHER_KINDS), WatcherNow(w, s).sent);
  }

  lemma {:induction false} MergedTick(w: World, s: System)
    requires Merged(w, s) && CanTick(w, s)
    ensures Merged(w, s.(ticks := s.ticks + 1))
  {
    ClockSendsMore(w, s.ticks);
    MergedWhenRead(w, s, s.(ticks := s.ticks + 1));
  }

  lemma {:induction false} MergedClock(w: World, s: System, s': System)
    requires Merged(w, s) && CanTakeFromClock(w, s)
    requires s' == s.(clockGiven := s.clockGiven + 1, taken := s.taken + [ClockSends(w, s)[s.clockGiven]])
    ensures Merged(w, s')
  {
    ClockKinds(w, s, ClockSends(w, s)[s.clockGiven]);
    MergedWhenTaken(w, s, s', ClockSends(w, s)[s.clockGiven]);
  }

  lemma {:induction false} MergedWatcher(w: World, s: System, s': System)
    requires Merged(w, s) && CanTakeFromWatcher(w, s)
    requires s' == s.(watcherGiven := s.watcherGiven + 1, taken := s.taken + [WatcherNow(w, s).sent[s.watcherGiven]])
    ensures Merged(w, s')
  {
    WatcherKinds(w, s, WatcherNow(w, s).sent[s.watcherGiven]);
    MergedWhenTaken(w, s, s', WatcherNow(w, s).sent[s.watcherGiven]);
  }

  lemma {:induction false} MergedInput(w: World, s: System, s': System, x: Input)
    requires Merged(w, s) && s' == s.(note := s'.note, datasSeen := s'.datasSeen, inputs := s.inputs + [x])
    ensures Merged(w, s')
  {
    WatcherSendsMore(w.first, s.inputs, x);
    MergedWhenRead(w, s, s');
  }

  lemma {:induction false} MergedStep(w: World, s: System, s': System)
    requires Merged(w, s) && Next(w, s, s')
    ensures Merged(w, s')
  {
    if OtherStep(s, s') {
      MergedWhenTaken(w, s, s', s'.taken[|s'.taken| - 1]);
    } else if s'.inputs != s.inputs {
      MergedInput(w, s, s', s'.inputs[|s.inputs|]);
    } else if CanTick(w, s) && s' == s.(ticks := s.ticks + 1) {
      MergedTick(w, s);
    } else if s'.clockGiven != s.clockGiven {
      MergedClock(w, s, s');
    } else if s'.watcherGiven != s.watcherGiven {
      MergedWatcher(w, s, s');
    }
  }

  /** Main result on what the scheduler takes: in every run it takes the events of the clock and
      of the watcher, each once and in the order in which they were sent. */
  lemma {:induction false} RunMerges(w: World, run: seq<System>, n: nat)
    requires IsRun(w, run) && n < |run|
    ensures Merged(w, run[n])
  {
    if n > 0 {
      RunMerges(w, run, n - 1);
      MergedStep(w, run[n - 1], run[n]);
    }
  }

  /** What the clock's note says: whether the closing slot came as a change of state. */
  ghost predicate NotedRight(s: System) {
    && (s.note.Some? ==> (s.note.value <==> s.ticks > 1))
    && forall i :: 0 <= i < |s.inputs| && s.inputs[i].Post? ==> (s.inputs[i].isStateTransition <==> s.ticks > 1)
  }

  lemma {:induction false} NotedStep(w: World, s: System, s': System)
    requires Fits(w, s) && NotedRight(s) && Next(w, s, s')
    ensures NotedRight(s')
  {
    if CanTick(w, s) && s' == s.(ticks := s.ticks + 1) {
      assert !s.posted && !WatcherTheory.Posted(s.inputs);
    }
  }

  lemma {:induction false} RunNotes(w: World, run: seq<System>, n: nat)
    requires IsRun(w, run) && n < |run|
    ensures NotedRight(run[n])
  {
    if n > 0 {
      RunFits(w, run, n - 1);
      RunNotes(w, run, n - 1);
      assert Next(w, run[n - 1], run[n]);
      NotedStep(w, run[n - 1], run[n]);
    }
  }

  lemma {:induction false} CountOnly(events: seq<Event>, kinds: set<int>, kind: int)
    requires kind in kinds
    ensures PayoutTheory.Count(Only(events, kinds), kind) == PayoutTheory.Count(events, kind)
  {
    if events != [] {
      var n := |events| - 1;
      CountOnly(events[..n], kinds, kind);
      PayoutTheory.CountMore(Only(events[..n], kinds), events[n], kind);
    }
  }

  lemma {:induction false} SentOnce(t: Clock.Times, rising: bool, sent: seq<Event>, n: nat, kind: int)
    requires ClockTheory.InOrder(t, rising, sent) && n <= |sent|
    ensures PayoutTheory.Count(sent[..n], kind) <= 1
    ensures PayoutTheory.Count(sent[..n], kind) == 1 ==> exists i :: 0 <= i < n && sent[i].kind == kind
  {
    if n > 0 {
      SentOnce(t, rising, sent, n - 1, kind);
      assert sent[..n] == sent[..n - 1] + [sent[n - 1]];
      PayoutTheory.CountMore(sent[..n - 1], sent[n - 1], kind);
    }
  }

  /** No run sends the trigger to set the payout twice, although its guard would let it:
      the clock sends PRE_START only once. */
  lemma NoRunSetsPayoutTwice(w: World, run: seq<System>, n: nat)
    requires IsRun(w, run) && n < |run|
    ensures PayoutTheory.Count(PayoutTheory.History(run[n].taken), TRIGGER_VALIDATOR_SET_PAYOUT) <= 1
  {
    var s := run[n];
    RunFits(w, run, n);
    RunMerges(w, run, n);
    CountOnly(s.taken, CLOCK_KINDS, EVENT_PERIOD_PRE_START);
    var slots := w.slots[..s.ticks];
    ClockTheory.ClockOrder(w.times, slots);
    SentOnce(w.times, ClockTheory.Rising(slots), ClockSends(w, s), s.clockGiven, EVENT_PERIOD_PRE_START);
    PayoutTheory.SetPayoutsWhenDue(s.taken);
    PayoutTheory.CallingAreCounted(s.taken);
  }
}
