/** What the scheduler of one payout should do, told by the events it takes alone, with
    no state; and what follows for whole runs. */
module PayoutTheory {
  import opened Schedule

  /** The events that the scheduler understands; any other stops it. */
  predicate Known(e: Event) {
    EVENT_PERIOD_PRE_START <= e.kind <= EVENT_STAKER_HAVE_WITHDRAWN
  }

  lemma KnownKinds(e: Event)
    ensures Known(e) <==> e.kind in {
      EVENT_PERIOD_PRE_START, EVENT_PERIOD_START, EVENT_PERIOD_FINISH, EVENT_DELAY_CLOSE_PAYOUT, EVENT_BID_CLOSED,
      EVENT_BID_FINAL, EVENT_VALIDATOR_IS_ADDING, EVENT_VALIDATOR_HAVE_WITHDRAWN, EVENT_STAKER_IS_ADDING,
      EVENT_STAKER_HAVE_WITHDRAWN}
  {
  }

  /** The kinds that were among the events. */
  function Kinds(past: seq<Event>): set<int> {
    set e | e in past :: e.kind
  }

  lemma KindsMore(past: seq<Event>, e: Event)
    ensures Kinds(past + [e]) == Kinds(past) + {e.kind}
  {
    assert (past + [e])[|past|] == e;
    forall k | k in Kinds(past)
      ensures k in Kinds(past + [e])
    {
      var x :| x in past && x.kind == k;
      assert x in past + [e];
    }
  }

  predicate Started(had: set<int>) {
    EVENT_PERIOD_START in had || Finished(had)
  }

  predicate Finished(had: set<int>) {
    EVENT_PERIOD_FINISH in had || EVENT_DELAY_CLOSE_PAYOUT in had
  }

  predicate Starting(kind: int) {
    kind == EVENT_PERIOD_START || Finishing(kind)
  }

  predicate Finishing(kind: int) {
    kind == EVENT_PERIOD_FINISH || kind == EVENT_DELAY_CLOSE_PAYOUT
  }

  predicate BidsFinal(had: set<int>) {
    EVENT_BID_FINAL in had || EVENT_BID_CLOSED in had
  }

  /** All three that closing the payout needs. */
  predicate Complete(had: set<int>) {
    EVENT_BID_CLOSED in had && EVENT_VALIDATOR_HAVE_WITHDRAWN in had && EVENT_DELAY_CLOSE_PAYOUT in had
  }

  /** The loop was still open for event i, and went on after it. */
  predicate TakenAt(past: seq<Event>, i: nat)
    requires i < |past|
  {
    Known(past[i]) && !Complete(Kinds(past[..i]))
  }

  predicate Open(past: seq<Event>) {
    forall i {:trigger TakenAt(past, i)} :: 0 <= i < |past| ==> TakenAt(past, i)
  }

  function If(due: bool, kind: int): seq<Event> {
    if due then [Trigger(kind)] else []
  }

  predicate SetPayoutDue(had: set<int>, kind: int) {
    kind == EVENT_PERIOD_PRE_START && !Started(had)
  }

  predicate CrankDue(had: set<int>, kind: int) {
    Starting(kind) && !Started(had) && !BidsFinal(had)
  }

  predicate CloseBidsDue(had: set<int>, kind: int) {
    Finishing(kind) && !Finished(had) && EVENT_BID_CLOSED !in had
  }

  predicate WithdrawDue(had: set<int>, kind: int) {
    kind == EVENT_STAKER_HAVE_WITHDRAWN && EVENT_VALIDATOR_HAVE_WITHDRAWN !in had
  }

  /** The triggers that an event sets off, by the kinds that came before it. */
  function Caused(had: set<int>, kind: int): seq<Event> {
    If(SetPayoutDue(had, kind), TRIGGER_VALIDATOR_SET_PAYOUT)
    + If(CrankDue(had, kind), TRIGGER_CRANK)
    + If(CloseBidsDue(had, kind), TRIGGER_CLOSE_BIDS)
    + If(WithdrawDue(had, kind), TRIGGER_VALIDATOR_WITHDRAW_RECEIPT)
    + If(Complete(had + {kind}), TRIGGER_CLOSE_PAYOUT)
  }

  lemma CausedByStart(had: set<int>)
    requires !Complete(had)
    ensures Caused(had, EVENT_PERIOD_START) == If(CrankDue(had, EVENT_PERIOD_START), TRIGGER_CRANK)
  {
  }

  /** An event that is neither of the clock nor of a staker sets off no trigger but the last. */
  lemma CausedAtMost(had: set<int>, kind: int)
    requires !Starting(kind) && !Finishing(kind) && kind != EVENT_PERIOD_PRE_START && kind != EVENT_STAKER_HAVE_WITHDRAWN
    ensures Caused(had, kind) == If(Complete(had + {kind}), TRIGGER_CLOSE_PAYOUT)
  {
  }

  lemma CausedByStakers(had: set<int>)
    requires !Complete(had)
    ensures Caused(had, EVENT_STAKER_HAVE_WITHDRAWN) ==
      If(EVENT_VALIDATOR_HAVE_WITHDRAWN !in had, TRIGGER_VALIDATOR_WITHDRAW_RECEIPT)
  {
  }

  /** The triggers that the finish of the period sets off. */
  function CausedByFinish(had: set<int>): seq<Event> {
    If(CrankDue(had, EVENT_PERIOD_FINISH), TRIGGER_CRANK) + If(CloseBidsDue(had, EVENT_PERIOD_FINISH), TRIGGER_CLOSE_BIDS)
  }

  lemma CausedInTurn(had: set<int>, history: seq<Event>, between: seq<Event>, after: seq<Event>)
    requires between == history + If(CrankDue(had, EVENT_PERIOD_FINISH), TRIGGER_CRANK)
    requires after == between + If(CloseBidsDue(had, EVENT_PERIOD_FINISH), TRIGGER_CLOSE_BIDS)
    ensures after == history + CausedByFinish(had)
  {
  }

  lemma CausedAtLast(had: set<int>, history: seq<Event>, between: seq<Event>, after: seq<Event>)
    requires between == history + CausedByFinish(had)
    requires after == between + If(Complete(had + {EVENT_DELAY_CLOSE_PAYOUT}), TRIGGER_CLOSE_PAYOUT)
    ensures after == history + Caused(had, EVENT_DELAY_CLOSE_PAYOUT)
  {
  }

  lemma CausedByClock(had: set<int>, history: seq<Event>)
    ensures !Complete(had) ==> Caused(had, EVENT_PERIOD_FINISH) == CausedByFinish(had)
    ensures history + Caused(had, EVENT_DELAY_CLOSE_PAYOUT) ==
      history + CausedByFinish(had) + If(Complete(had + {EVENT_DELAY_CLOSE_PAYOUT}), TRIGGER_CLOSE_PAYOUT)
    ensures Finished(had) ==> history + CausedByFinish(had) == history
  {
  }

  /** Each event comes after the triggers it sets off. */
  function History(past: seq<Event>): seq<Event> {
    if past == [] then []
    else
      var n := |past| - 1;
      History(past[..n]) + Caused(Kinds(past[..n]), past[n].kind) + [past[n]]
  }

  lemma MoreTaken(past: seq<Event>, e: Event)
    requires Open(past) && Known(e) && !Complete(Kinds(past))
    ensures Open(past + [e]) && Kinds(past + [e]) == Kinds(past) + {e.kind}
    ensures History(past + [e]) == History(past) + Caused(Kinds(past), e.kind) + [e]
  {
    KindsMore(past, e);
    forall i | 0 <= i < |past + [e]|
      ensures TakenAt(past + [e], i)
    {
      assert (past + [e])[..i] == past[..i];
      if i < |past| {
        assert TakenAt(past, i);
      } else {
        assert past[..i] == past;
      }
    }
    assert (past + [e])[..|past|] == past;
  }

  /** A START or a FINISH that comes again adds no trigger. */
  lemma RepeatAddsNoTrigger(past: seq<Event>, e: Event)
    requires Open(past) && !Complete(Kinds(past)) && e.kind in Kinds(past)
    requires e.kind == EVENT_PERIOD_START || e.kind == EVENT_PERIOD_FINISH
    ensures History(past + [e]) == History(past) + [e]
  {
    MoreTaken(past, e);
    NothingCaused(Kinds(past), e.kind);
    assert History(past) + [] == History(past);
  }

  lemma NothingCaused(had: set<int>, kind: int)
    requires !Complete(had) && kind in had && (kind == EVENT_PERIOD_START || kind == EVENT_PERIOD_FINISH)
    ensures Caused(had, kind) == []
  {
  }

  /** A kind in the history says something of the events that were taken. */
  predicate Tells(kind: int, had: set<int>) {
    && (kind < THRESH ==> kind in had)
    && (kind == TRIGGER_CRANK ==> Started(had))
    && (kind == TRIGGER_CLOSE_BIDS ==> Finished(had))
    && (kind == TRIGGER_CLOSE_PAYOUT ==> Complete(had))
  }

  /** What may come before what in a history. */
  predicate MayPrecede(a: int, b: int) {
    && (b == TRIGGER_VALIDATOR_SET_PAYOUT ==>
         a !in {EVENT_PERIOD_START, EVENT_PERIOD_FINISH, EVENT_DELAY_CLOSE_PAYOUT,
                TRIGGER_CRANK, TRIGGER_CLOSE_BIDS, TRIGGER_CLOSE_PAYOUT})
    && (b == TRIGGER_CRANK ==>
         a !in {EVENT_PERIOD_START, EVENT_PERIOD_FINISH, EVENT_DELAY_CLOSE_PAYOUT, EVENT_BID_FINAL, EVENT_BID_CLOSED,
                TRIGGER_CRANK, TRIGGER_CLOSE_BIDS, TRIGGER_CLOSE_PAYOUT})
    && (b == TRIGGER_CLOSE_BIDS ==>
         a !in {EVENT_PERIOD_FINISH, EVENT_DELAY_CLOSE_PAYOUT, EVENT_BID_CLOSED, TRIGGER_CLOSE_BIDS, TRIGGER_CLOSE_PAYOUT})
    && (b == TRIGGER_VALIDATOR_WITHDRAW_RECEIPT ==> a !in {EVENT_VALIDATOR_HAVE_WITHDRAWN, TRIGGER_CLOSE_PAYOUT})
    && (b == TRIGGER_CLOSE_PAYOUT ==> a != TRIGGER_CLOSE_PAYOUT)
  }

  /** The last event, and what it adds to the history. */
  lemma LastEvent(past: seq<Event>)
    requires Open(past) && past != []
    ensures var before, e := past[..|past| - 1], past[|past| - 1];
      && Open(before) && !Complete(Kinds(before)) && Known(e)
      && past == before + [e] && Kinds(past) == Kinds(before) + {e.kind}
      && History(past) == History(before) + (Caused(Kinds(before), e.kind) + [e])
  {
    var before, e := past[..|past| - 1], past[|past| - 1];
    assert past == before + [e];
    KindsMore(before, e);
    assert TakenAt(past, |before|);
    forall i | 0 <= i < |before|
      ensures TakenAt(before, i)
    {
      assert before[..i] == past[..i] && TakenAt(past, i);
    }
  }

  lemma CausedTells(had: set<int>, e: Event)
    requires Known(e) && !Complete(had)
    ensures forall x :: x in Caused(had, e.kind) + [e] ==> Tells(x.kind, had + {e.kind})
  {
  }

  lemma {:induction false} HistoryTells(past: seq<Event>)
    requires Open(past)
    ensures forall x :: x in History(past) ==> Tells(x.kind, Kinds(past))
  {
    if past != [] {
      var n := |past| - 1;
      LastEvent(past);
      HistoryTells(past[..n]);
      CausedTells(Kinds(past[..n]), past[n]);
    }
  }

  /** An event's triggers come after all that the history held, and in order. */
  lemma CausedInOrder(had: set<int>, e: Event, a: int)
    requires Known(e) && !Complete(had)
    ensures var more := Caused(had, e.kind) + [e];
      && (Tells(a, had) ==> forall x :: x in more ==> MayPrecede(a, x.kind))
      && forall i, j :: 0 <= i < j < |more| ==> MayPrecede(more[i].kind, more[j].kind)
  {
  }

  /** Main result on order, for all runs. */
  lemma {:induction false} TriggerOrder(past: seq<Event>, i: nat, j: nat)
    requires Open(past) && i < j < |History(past)|
    ensures MayPrecede(History(past)[i].kind, History(past)[j].kind)
  {
    var n := |past| - 1;
    LastEvent(past);
    var before, more := History(past[..n]), Caused(Kinds(past[..n]), past[n].kind) + [past[n]];
    if j < |before| {
      TriggerOrder(past[..n], i, j);
    } else {
      var a := History(past)[i].kind;
      CausedInOrder(Kinds(past[..n]), past[n], a);
      if i < |before| {
        HistoryTells(past[..n]);
        assert before[i] in before && more[j - |before|] in more;
      }
    }
  }

  lemma CausedWhat(had: set<int>, e: Event)
    requires Known(e) && !Complete(had)
    ensures var more := Caused(had, e.kind) + [e];
      && (Trigger(TRIGGER_CRANK) in more <==> CrankDue(had, e.kind))
      && (Trigger(TRIGGER_CLOSE_BIDS) in more <==> CloseBidsDue(had, e.kind))
      && ClosesAtEnd(more, Complete(had + {e.kind}))
  {
  }

  /** Only the last but one of the events can be the trigger to close. */
  predicate ClosesAtEnd(h: seq<Event>, closed: bool) {
    && (closed ==> |h| >= 2 && h[|h| - 2] == Trigger(TRIGGER_CLOSE_PAYOUT))
    && (forall i :: 0 <= i < |h| && h[i].kind == TRIGGER_CLOSE_PAYOUT ==> i == |h| - 2 && closed)
  }

  lemma ClosesAfter(h: seq<Event>, more: seq<Event>, closed: bool)
    requires ClosesAtEnd(more, closed) && forall x :: x in h ==> x.kind != TRIGGER_CLOSE_PAYOUT
    ensures ClosesAtEnd(h + more, closed)
  {
    assert forall i :: 0 <= i < |h| ==> h[i] in h;
    assert forall i :: |h| <= i < |h + more| ==> (h + more)[i] == more[i - |h|];
  }

  /** Close exactly when ready: the trigger to close is in the history if and only if
      all three events were taken, in whatever order.  It is followed only by the event
      that completed them, so no history has two. */
  lemma ClosesWhenComplete(past: seq<Event>)
    requires Open(past)
    ensures ClosesAtEnd(History(past), Complete(Kinds(past)))
    ensures past != [] ==> History(past) != [] && History(past)[|History(past)| - 1] == past[|past| - 1]
  {
    if past != [] {
      var before, e := past[..|past| - 1], past[|past| - 1];
      LastEvent(past);
      HistoryTells(before);
      CausedWhat(Kinds(before), e);
      ClosesAfter(History(before), Caused(Kinds(before), e.kind) + [e], Complete(Kinds(past)));
    }
  }

  /** When the last event adds a CRANK or a CLOSE_BIDS. */
  lemma LastTriggers(past: seq<Event>)
    requires Open(past) && past != []
    ensures var before, e := past[..|past| - 1], past[|past| - 1];
      && Open(before) && Kinds(past) == Kinds(before) + {e.kind}
      && (Trigger(TRIGGER_CRANK) in History(past) <==>
           Trigger(TRIGGER_CRANK) in History(before) || CrankDue(Kinds(before), e.kind))
      && (Trigger(TRIGGER_CLOSE_BIDS) in History(past) <==>
           Trigger(TRIGGER_CLOSE_BIDS) in History(before) || CloseBidsDue(Kinds(before), e.kind))
  {
    LastEvent(past);
    CausedWhat(Kinds(past[..|past| - 1]), past[|past| - 1]);
  }

  /** Event i is such that it calls for a CRANK. */
  predicate CallsForCrank(past: seq<Event>, i: nat) {
    i < |past| && Starting(past[i].kind) && !BidsFinal(Kinds(past[..i]))
  }

  predicate CallsForCloseBids(past: seq<Event>, i: nat) {
    i < |past| && Finishing(past[i].kind) && EVENT_BID_CLOSED !in Kinds(past[..i])
  }

  lemma CallsStill(past: seq<Event>, i: nat)
    requires past != []
    ensures i < |past| - 1 ==> (CallsForCrank(past, i) <==> CallsForCrank(past[..|past| - 1], i))
    ensures i < |past| - 1 ==> (CallsForCloseBids(past, i) <==> CallsForCloseBids(past[..|past| - 1], i))
  {
    if i < |past| - 1 {
      assert past[..i] == past[..|past| - 1][..i];
    }
  }

  lemma CrankCalledFor(past: seq<Event>)
    requires past != []
    ensures var before, e := past[..|past| - 1], past[|past| - 1];
      (exists i: nat :: CallsForCrank(past, i))
      <==> (exists i: nat :: CallsForCrank(before, i)) || (Starting(e.kind) && !BidsFinal(Kinds(before)))
  {
    var n := |past| - 1;
    if i: nat :| CallsForCrank(past, i) {
      CallsStill(past, i);
    }
    if i: nat :| CallsForCrank(past[..n], i) {
      CallsStill(past, i);
    }
    assert CallsForCrank(past, n) <==> Starting(past[n].kind) && !BidsFinal(Kinds(past[..n]));
  }

  lemma CloseBidsCalledFor(past: seq<Event>)
    requires past != []
    ensures var before, e := past[..|past| - 1], past[|past| - 1];
      (exists i: nat :: CallsForCloseBids(past, i))
      <==> (exists i: nat :: CallsForCloseBids(before, i)) || (Finishing(e.kind) && EVENT_BID_CLOSED !in Kinds(before))
  {
    var n := |past| - 1;
    if i: nat :| CallsForCloseBids(past, i) {
      CallsStill(past, i);
    }
    if i: nat :| CallsForCloseBids(past[..n], i) {
      CallsStill(past, i);
    }
    assert CallsForCloseBids(past, n) <==> Finishing(past[n].kind) && EVENT_BID_CLOSED !in Kinds(past[..n]);
  }

  /** One of the events set off a CRANK. */
  predicate Cranked(past: seq<Event>) {
    past != [] && (Cranked(past[..|past| - 1]) || CrankDue(Kinds(past[..|past| - 1]), past[|past| - 1].kind))
  }

  predicate BidsAskedToClose(past: seq<Event>) {
    past != [] && (BidsAskedToClose(past[..|past| - 1]) || CloseBidsDue(Kinds(past[..|past| - 1]), past[|past| - 1].kind))
  }

  lemma {:induction false} TriggersAreCaused(past: seq<Event>)
    requires Open(past)
    ensures Trigger(TRIGGER_CRANK) in History(past) <==> Cranked(past)
    ensures Trigger(TRIGGER_CLOSE_BIDS) in History(past) <==> BidsAskedToClose(past)
  {
    if past != [] {
      LastTriggers(past);
      TriggersAreCaused(past[..|past| - 1]);
    }
  }

  lemma LastKind(past: seq<Event>)
    requires past != []
    ensures Kinds(past) == Kinds(past[..|past| - 1]) + {past[|past| - 1].kind}
  {
    assert past == past[..|past| - 1] + [past[|past| - 1]];
    KindsMore(past[..|past| - 1], past[|past| - 1]);
  }

  lemma {:induction false} CrankedWhenCalledFor(past: seq<Event>)
    ensures Cranked(past) <==> exists i: nat :: CallsForCrank(past, i)
    ensures Started(Kinds(past)) && !BidsFinal(Kinds(past)) ==> Cranked(past)
  {
    if past != [] {
      LastKind(past);
      CrankedWhenCalledFor(past[..|past| - 1]);
      CrankCalledFor(past);
    }
  }

  lemma {:induction false} AskedWhenCalledFor(past: seq<Event>)
    ensures BidsAskedToClose(past) <==> exists i: nat :: CallsForCloseBids(past, i)
    ensures Finished(Kinds(past)) && EVENT_BID_CLOSED !in Kinds(past) ==> BidsAskedToClose(past)
  {
    if past != [] {
      LastKind(past);
      AskedWhenCalledFor(past[..|past| - 1]);
      CloseBidsCalledFor(past);
    }
  }

  /** CRANK is in the history exactly when the start of the period was noticed, by
      START or by a later event of the clock, before the bids were final. */
  lemma CranksWhenDue(past: seq<Event>)
    requires Open(past)
    ensures Trigger(TRIGGER_CRANK) in History(past) <==> exists i: nat :: CallsForCrank(past, i)
  {
    TriggersAreCaused(past);
    CrankedWhenCalledFor(past);
  }

  /** CLOSE_BIDS is in the history exactly when the end of the period was noticed before
      the bids were closed. */
  lemma ClosesBidsWhenDue(past: seq<Event>)
    requires Open(past)
    ensures Trigger(TRIGGER_CLOSE_BIDS) in History(past) <==> exists i: nat :: CallsForCloseBids(past, i)
  {
    TriggersAreCaused(past);
    AskedWhenCalledFor(past);
  }

  /** How many events of a kind there are. */
  function Count(events: seq<Event>, kind: int): nat {
    if events == [] then 0
    else Count(events[..|events| - 1], kind) + if events[|events| - 1].kind == kind then 1 else 0
  }

  lemma {:induction false} CountConcat(a: seq<Event>, b: seq<Event>, kind: int)
    ensures Count(a + b, kind) == Count(a, kind) + Count(b, kind)
  {
    if b == [] {
      assert a + b == a;
    } else {
      var n := |b| - 1;
      assert (a + b)[..|a| + n] == a + b[..n];
      CountConcat(a, b[..n], kind);
    }
  }

  lemma CountMore(events: seq<Event>, e: Event, kind: int)
    ensures Count(events + [e], kind) == Count(events, kind) + if e.kind == kind then 1 else 0
  {
    assert (events + [e])[..|events|] == events;
  }

  /** When an event of this kind sets off this trigger, by the kinds that came before it. */
  predicate Calls(had: set<int>, kind: int, trigger: int) {
    || (trigger == TRIGGER_VALIDATOR_SET_PAYOUT && kind == EVENT_PERIOD_PRE_START
        && had !! {EVENT_PERIOD_START, EVENT_PERIOD_FINISH, EVENT_DELAY_CLOSE_PAYOUT})
    || (trigger == TRIGGER_CRANK && kind in {EVENT_PERIOD_START, EVENT_PERIOD_FINISH, EVENT_DELAY_CLOSE_PAYOUT}
        && had !! {EVENT_PERIOD_START, EVENT_PERIOD_FINISH, EVENT_DELAY_CLOSE_PAYOUT, EVENT_BID_FINAL, EVENT_BID_CLOSED})
    || (trigger == TRIGGER_CLOSE_BIDS && kind in {EVENT_PERIOD_FINISH, EVENT_DELAY_CLOSE_PAYOUT}
        && had !! {EVENT_PERIOD_FINISH, EVENT_DELAY_CLOSE_PAYOUT, EVENT_BID_CLOSED})
    || (trigger == TRIGGER_VALIDATOR_WITHDRAW_RECEIPT && kind == EVENT_STAKER_HAVE_WITHDRAWN
        && EVENT_VALIDATOR_HAVE_WITHDRAWN !in had)
    || (trigger == TRIGGER_CLOSE_PAYOUT
        && {EVENT_DELAY_CLOSE_PAYOUT, EVENT_BID_CLOSED, EVENT_VALIDATOR_HAVE_WITHDRAWN} <= had + {kind})
  }

  /** Event i sets off this trigger. */
  predicate CallsAt(past: seq<Event>, i: nat, trigger: int) {
    i < |past| && Calls(Kinds(past[..i]), past[i].kind, trigger)
  }

  ghost function Calling(past: seq<Event>, trigger: int): set<nat> {
    set i: nat | i < |past| && CallsAt(past, i, trigger)
  }

  lemma {:induction false} CallingMore(past: seq<Event>, trigger: int)
    requires past != []
    ensures var n := |past| - 1;
      Calling(past, trigger) == Calling(past[..n], trigger) + if CallsAt(past, n, trigger) then {n} else {}
  {
    var n := |past| - 1;
    forall i: nat | i < n
      ensures CallsAt(past, i, trigger) <==> CallsAt(past[..n], i, trigger)
    {
      assert past[..n][..i] == past[..i];
    }
  }

  lemma {:induction false} CountIf(due: bool, kind: int, trigger: int)
    ensures Count(If(due, kind), trigger) == if due && kind == trigger then 1 else 0
  {
    assert due ==> If(due, kind)[..0] == [];
  }

  lemma {:induction false} CountFive(a: bool, b: bool, c: bool, d: bool, f: bool, e: Event, trigger: int)
    requires e.kind != trigger
    ensures Count(If(a, TRIGGER_VALIDATOR_SET_PAYOUT) + If(b, TRIGGER_CRANK) + If(c, TRIGGER_CLOSE_BIDS)
                  + If(d, TRIGGER_VALIDATOR_WITHDRAW_RECEIPT) + If(f, TRIGGER_CLOSE_PAYOUT) + [e], trigger) ==
      if (a && trigger == TRIGGER_VALIDATOR_SET_PAYOUT) || (b && trigger == TRIGGER_CRANK) || (c && trigger == TRIGGER_CLOSE_BIDS)
        || (d && trigger == TRIGGER_VALIDATOR_WITHDRAW_RECEIPT) || (f && trigger == TRIGGER_CLOSE_PAYOUT) then 1 else 0
  {
    var v, w, x := If(a, TRIGGER_VALIDATOR_SET_PAYOUT), If(b, TRIGGER_CRANK), If(c, TRIGGER_CLOSE_BIDS);
    var y, z := If(d, TRIGGER_VALIDATOR_WITHDRAW_RECEIPT), If(f, TRIGGER_CLOSE_PAYOUT);
    CountMore(v + w + x + y + z, e, trigger);
    CountConcat(v + w + x + y, z, trigger);
    CountConcat(v + w + x, y, trigger);
    CountConcat(v + w, x, trigger);
    CountConcat(v, w, trigger);
    CountIf(a, TRIGGER_VALIDATOR_SET_PAYOUT, trigger);
    CountIf(b, TRIGGER_CRANK, trigger);
    CountIf(c, TRIGGER_CLOSE_BIDS, trigger);
    CountIf(d, TRIGGER_VALIDATOR_WITHDRAW_RECEIPT, trigger);
    CountIf(f, TRIGGER_CLOSE_PAYOUT, trigger);
  }

  lemma {:induction false} CallsIff(had: set<int>, kind: int, trigger: int)
    ensures Calls(had, kind, trigger) <==>
      || (SetPayoutDue(had, kind) && trigger == TRIGGER_VALIDATOR_SET_PAYOUT)
      || (CrankDue(had, kind) && trigger == TRIGGER_CRANK) || (CloseBidsDue(had, kind) && trigger == TRIGGER_CLOSE_BIDS)
      || (WithdrawDue(had, kind) && trigger == TRIGGER_VALIDATOR_WITHDRAW_RECEIPT)
      || (Complete(had + {kind}) && trigger == TRIGGER_CLOSE_PAYOUT)
  {
  }

  lemma {:induction false} CausedCounts(had: set<int>, e: Event, trigger: int)
    requires Known(e) && THRESH <= trigger
    ensures Count(Caused(had, e.kind) + [e], trigger) == if Calls(had, e.kind, trigger) then 1 else 0
  {
    CallsIff(had, e.kind, trigger);
    CountFive(SetPayoutDue(had, e.kind), CrankDue(had, e.kind), CloseBidsDue(had, e.kind), WithdrawDue(had, e.kind),
              Complete(had + {e.kind}), e, trigger);
  }

  /** How often each trigger is sent, exactly: once for every event that calls for it. */
  lemma {:induction false} TriggersWhenDue(past: seq<Event>, trigger: int)
    requires Open(past) && THRESH <= trigger
    ensures Count(History(past), trigger) == |Calling(past, trigger)|
  {
    if past != [] {
      var before, e := past[..|past| - 1], past[|past| - 1];
      LastEvent(past);
      TriggersWhenDue(before, trigger);
      CallingMore(past, trigger);
      CausedCounts(Kinds(before), e, trigger);
      CountConcat(History(before), Caused(Kinds(before), e.kind) + [e], trigger);
    }
  }

  /** The events of a history that are no triggers. */
  function Plain(h: seq<Event>): seq<Event> {
    if h == [] then []
    else
      var e, before := h[|h| - 1], Plain(h[..|h| - 1]);
      if e.IsTrigger() then before else before + [e]
  }

  lemma {:induction false} PlainConcat(a: seq<Event>, b: seq<Event>)
    ensures Plain(a + b) == Plain(a) + Plain(b)
  {
    if b == [] {
      assert a + b == a;
    } else {
      var n := |b| - 1;
      assert (a + b)[..|a| + n] == a + b[..n];
      PlainConcat(a, b[..n]);
    }
  }

  lemma {:induction false} TriggersAreNotPlain(h: seq<Event>)
    requires forall x :: x in h ==> x.IsTrigger()
    ensures Plain(h) == []
  {
    if h != [] {
      TriggersAreNotPlain(h[..|h| - 1]);
    }
  }

  lemma {:induction false} PlainMore(h: seq<Event>, triggers: seq<Event>, e: Event)
    requires !e.IsTrigger() && forall x :: x in triggers ==> x.IsTrigger()
    ensures Plain(h + (triggers + [e])) == Plain(h) + [e]
  {
    TriggersAreNotPlain(triggers);
    PlainConcat(h, triggers + [e]);
    PlainConcat(triggers, [e]);
    assert [e][..0] == [];
  }

  lemma {:induction false} CausedAreTriggers(had: set<int>, kind: int)
    ensures forall x :: x in Caused(had, kind) ==> x.IsTrigger() && x == Trigger(x.kind)
  {
  }

  /** The other events of the history are those that were taken, each once and in order. */
  lemma {:induction false} EventsInOrder(past: seq<Event>)
    requires Open(past)
    ensures Plain(History(past)) == past
    ensures forall x :: x in History(past) && x.IsTrigger() ==> x == Trigger(x.kind)
  {
    if past != [] {
      var before, e := past[..|past| - 1], past[|past| - 1];
      LastEvent(past);
      EventsInOrder(before);
      CausedAreTriggers(Kinds(before), e.kind);
      PlainMore(History(before), Caused(Kinds(before), e.kind), e);
    }
  }

  /** Each event that is taken adds itself as the last, and nothing is ever taken back. */
  lemma {:induction false} HistoryGrows(past: seq<Event>, n: nat)
    requires n <= |past|
    ensures History(past[..n]) <= History(past)
    ensures n > 0 ==> History(past[..n]) != [] && History(past[..n])[|History(past[..n])| - 1] == past[n - 1]
  {
    if n < |past| {
      assert past[..|past| - 1][..n] == past[..n];
      HistoryGrows(past[..|past| - 1], n);
    } else {
      assert past[..n] == past;
    }
  }

  /** Event i is such that it calls for a SET_PAYOUT. */
  predicate CallsForSetPayout(past: seq<Event>, i: nat) {
    i < |past| && past[i].kind == EVENT_PERIOD_PRE_START && !Started(Kinds(past[..i]))
  }

  ghost function CallingForSetPayout(past: seq<Event>): set<nat> {
    set i: nat | i < |past| && CallsForSetPayout(past, i)
  }

  /** How often SET_PAYOUT is sent, exactly: once for every PRE_START that comes before
      the start was noticed. */
  lemma {:induction false} SetPayoutsWhenDue(past: seq<Event>)
    requires Open(past)
    ensures Count(History(past), TRIGGER_VALIDATOR_SET_PAYOUT) == |CallingForSetPayout(past)|
  {
    TriggersWhenDue(past, TRIGGER_VALIDATOR_SET_PAYOUT);
    assert forall i: nat :: CallsForSetPayout(past, i) <==> CallsAt(past, i, TRIGGER_VALIDATOR_SET_PAYOUT);
    assert CallingForSetPayout(past) == Calling(past, TRIGGER_VALIDATOR_SET_PAYOUT);
  }

  /** Event i is such that it calls for a WITHDRAW_RECEIPT. */
  predicate CallsForWithdraw(past: seq<Event>, i: nat) {
    i < |past| && past[i].kind == EVENT_STAKER_HAVE_WITHDRAWN && EVENT_VALIDATOR_HAVE_WITHDRAWN !in Kinds(past[..i])
  }

  ghost function CallingForWithdraw(past: seq<Event>): set<nat> {
    set i: nat | i < |past| && CallsForWithdraw(past, i)
  }

  /** How often WITHDRAW_RECEIPT is sent, exactly: once for every withdrawal of the stakers that
      comes before one of the validators. */
  lemma {:induction false} WithdrawsWhenDue(past: seq<Event>)
    requires Open(past)
    ensures Count(History(past), TRIGGER_VALIDATOR_WITHDRAW_RECEIPT) == |CallingForWithdraw(past)|
  {
    TriggersWhenDue(past, TRIGGER_VALIDATOR_WITHDRAW_RECEIPT);
    assert forall i: nat :: CallsForWithdraw(past, i) <==> CallsAt(past, i, TRIGGER_VALIDATOR_WITHDRAW_RECEIPT);
    assert CallingForWithdraw(past) == Calling(past, TRIGGER_VALIDATOR_WITHDRAW_RECEIPT);
  }

  lemma AtMostOne(s: set<nat>)
    ensures |s| <= 1 <==> forall i, j :: i in s && j in s ==> i == j
  {
    if i, j :| i in s && j in s && i != j {
      assert |{i, j}| == 2 && {i, j} <= s && |s| == |s - {i, j}| + |{i, j}|;
    } else if i :| i in s {
      assert s == {i};
    }
  }

  /** So its guard lets it through once only if no more than one such PRE_START comes. */
  lemma SetPayoutOnceIff(past: seq<Event>)
    requires Open(past)
    ensures Count(History(past), TRIGGER_VALIDATOR_SET_PAYOUT) <= 1 <==>
      forall i: nat, j: nat :: CallsForSetPayout(past, i) && CallsForSetPayout(past, j) ==> i == j
  {
    SetPayoutsWhenDue(past);
    AtMostOne(CallingForSetPayout(past));
    assert forall i: nat :: CallsForSetPayout(past, i) <==> i in CallingForSetPayout(past);
  }

  /** Two that come send it twice. */
  lemma TwoPreStartsSetPayoutTwice(past: seq<Event>, e: Event)
    requires past == [e, e] && e.kind == EVENT_PERIOD_PRE_START
    ensures Open(past) && Count(History(past), TRIGGER_VALIDATOR_SET_PAYOUT) == 2
  {
    assert TakenAt(past, 0) && TakenAt(past, 1);
    SetPayoutsWhenDue(past);
    assert CallsForSetPayout(past, 0) && CallsForSetPayout(past, 1);
    assert CallingForSetPayout(past) == {0, 1};
  }

  lemma {:induction false} CallingAreCounted(past: seq<Event>)
    ensures |CallingForSetPayout(past)| <= Count(past, EVENT_PERIOD_PRE_START)
  {
    if past != [] {
      var n := |past| - 1;
      CallingAreCounted(past[..n]);
      forall i: nat | i < n
        ensures CallsForSetPayout(past, i) <==> CallsForSetPayout(past[..n], i)
      {
        assert past[..n][..i] == past[..i];
      }
      assert CallingForSetPayout(past) ==
        CallingForSetPayout(past[..n]) + if CallsForSetPayout(past, n) then {n} else {};
    }
  }
}
