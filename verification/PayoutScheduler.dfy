/** The scheduler of one payout. */
module PayoutScheduler {
  import opened Schedule
  import opened Wrappers
  import opened PayoutTheory
  import opened PayoutStreams
  import Hub

  /** The contexts that are done, and those that the cancel fields for the CRANK and
      the CLOSE_BIDS hold; a context is named by its trigger's position in the history. */
  datatype Windows = Windows(done: set<nat>, crank: Option<nat>, bids: Option<nat>)

  /** A trigger is broadcast at position p. */
  function Opened(w: Windows, kind: int, p: nat): Windows {
    w.(crank := if kind == TRIGGER_CRANK then Some(p) else w.crank,
       bids := if kind == TRIGGER_CLOSE_BIDS then Some(p) else w.bids)
  }

  /** An event is taken. */
  function Passed(w: Windows, kind: int): Windows {
    if kind == EVENT_BID_FINAL && w.crank.Some? then w.(done := w.done + {w.crank.value}, crank := None)
    else if kind == EVENT_BID_CLOSED && w.bids.Some? then w.(done := w.done + {w.bids.value}, bids := None)
    else w
  }

  /** The window of a trigger of this kind has passed. */
  predicate Over(kind: int, had: set<int>) {
    || (kind == TRIGGER_CRANK && EVENT_BID_FINAL in had)
    || (kind == TRIGGER_CLOSE_BIDS && EVENT_BID_CLOSED in had)
  }

  ghost predicate Holds(cancel: Option<nat>, kind: int, history: seq<Event>, had: set<int>) {
    cancel.Some? ==> cancel.value < |history| && history[cancel.value].kind == kind && !Over(kind, had)
  }

  ghost predicate Window(w: Windows, e: Event, p: nat, had: set<int>) {
    && (e.kind == TRIGGER_CRANK ==> p in w.done || w.crank == Some(p))
    && (e.kind == TRIGGER_CLOSE_BIDS ==> p in w.done || w.bids == Some(p))
    && (p in w.done ==> Over(e.kind, had))
  }

  ghost predicate Tracks(w: Windows, history: seq<Event>, had: set<int>) {
    && Holds(w.crank, TRIGGER_CRANK, history, had) && Holds(w.bids, TRIGGER_CLOSE_BIDS, history, had)
    && (forall p :: p in w.done ==> p < |history|)
    && forall p {:trigger Window(w, history[p], p, had)} :: 0 <= p < |history| ==> Window(w, history[p], p, had)
  }

  /** A CRANK's context is done exactly once the bids are final, that of a CLOSE_BIDS
      exactly once they are closed, and no other ever is. */
  lemma DoneWhenOver(w: Windows, history: seq<Event>, had: set<int>, p: nat)
    requires Tracks(w, history, had) && p < |history|
    ensures p in w.done <==> Over(history[p].kind, had)
  {
    assert Window(w, history[p], p, had);
  }

  lemma TracksMore(w: Windows, history: seq<Event>, had: set<int>, e: Event)
    requires Tracks(w, history, had) && !Over(e.kind, had)
    requires (e.kind == TRIGGER_CRANK ==> w.crank.None?) && (e.kind == TRIGGER_CLOSE_BIDS ==> w.bids.None?)
    ensures Tracks(Opened(w, e.kind, |history|), history + [e], had)
  {
    var w' := Opened(w, e.kind, |history|);
    forall p | 0 <= p < |history + [e]|
      ensures Window(w', (history + [e])[p], p, had)
    {
      if p < |history| {
        assert Window(w, history[p], p, had);
      }
    }
  }

  /** Only what is over matters. */
  lemma TracksStill(w: Windows, history: seq<Event>, had: set<int>, had': set<int>)
    requires Tracks(w, history, had)
    requires (EVENT_BID_FINAL in had <==> EVENT_BID_FINAL in had') && (EVENT_BID_CLOSED in had <==> EVENT_BID_CLOSED in had')
    ensures Tracks(w, history, had')
  {
    forall p | 0 <= p < |history|
      ensures Window(w, history[p], p, had')
    {
      assert Window(w, history[p], p, had);
    }
  }

  lemma TracksPassed(w: Windows, history: seq<Event>, had: set<int>, kind: int)
    requires Tracks(w, history, had)
    ensures Tracks(Passed(w, kind), history, had + {kind})
  {
    forall p | 0 <= p < |history|
      ensures Window(Passed(w, kind), history[p], p, had + {kind})
    {
      assert Window(w, history[p], p, had);
    }
  }

  /** The streams that the loop hands back are those that were asked for, in this order. */
  ghost predicate Fit(streams: seq<Hub.Subscriber<Event>>, ends: seq<End>) {
    && |streams| == |ends|
    && forall i :: 0 <= i < |streams| ==> streams[i].cap == ends[i].cap && streams[i].filter == ends[i].filter
  }

  class Internal {
    const eventHome: Hub.SubHome<Event>
    var hasStarted: bool
    var hasFinished: bool
    var isClockReadyToClose: bool
    var bidIsFinal: bool
    var bidHasClosed: bool
    var validatorAddingHasStarted: bool
    var validatorHasWithdrawn: bool
    var stakerAddingHasStarted: bool
    var stakerAddingIsDone: bool
    /** The context that a cancel function cancels is named by the position that its
        trigger has in the history; cancelled are the contexts that are done. */
    var cancelCrank: Option<nat>
    var cancelCloseBid: Option<nat>
    var cancelValidatorSetPayout: Option<nat>
    var cancelValidatorWithdraw: Option<nat>
    var cancelled: set<nat>
    var keepPayoutOpen: bool
    var history: seq<Event>
    /** What the subscribers had seen, and how long the history was, before the input that is dealt with. */
    ghost var before: seq<seq<Hub.Event<Event>>>
    ghost var mark: nat

    /** The flags tell which kinds of events were taken. */
    ghost predicate Flags(had: set<int>)
      reads this`hasStarted, this`hasFinished, this`isClockReadyToClose, this`bidIsFinal, this`bidHasClosed
      reads this`validatorAddingHasStarted, this`validatorHasWithdrawn, this`stakerAddingHasStarted, this`stakerAddingIsDone
    {
      (hasFinished <==> Finished(had)) && OtherFlags(had)
    }

    ghost predicate OtherFlags(had: set<int>)
      reads this`hasStarted, this`isClockReadyToClose, this`bidIsFinal, this`bidHasClosed
      reads this`validatorAddingHasStarted, this`validatorHasWithdrawn, this`stakerAddingHasStarted, this`stakerAddingIsDone
    {
      && (hasStarted <==> Started(had))
      && (isClockReadyToClose <==> EVENT_DELAY_CLOSE_PAYOUT in had)
      && (bidIsFinal <==> BidsFinal(had))
      && (bidHasClosed <==> EVENT_BID_CLOSED in had)
      && (validatorAddingHasStarted <==> EVENT_VALIDATOR_IS_ADDING in had || EVENT_VALIDATOR_HAVE_WITHDRAWN in had)
      && (validatorHasWithdrawn <==> EVENT_VALIDATOR_HAVE_WITHDRAWN in had)
      && (stakerAddingHasStarted <==> EVENT_STAKER_IS_ADDING in had || EVENT_STAKER_HAVE_WITHDRAWN in had)
      && (stakerAddingIsDone <==> EVENT_STAKER_HAVE_WITHDRAWN in had)
    }

    /** Why the guards on the cancel fields let CRANK and CLOSE_BIDS through at most once. */
    ghost predicate Guards()
      reads this`cancelValidatorSetPayout, this`cancelCrank, this`cancelCloseBid
      reads this`hasStarted, this`hasFinished, this`bidIsFinal, this`bidHasClosed
    {
      && cancelValidatorSetPayout.None?
      && (hasStarted && !bidIsFinal ==> cancelCrank.Some?) && (!hasStarted ==> cancelCrank.None?)
      && (hasFinished && !bidHasClosed ==> cancelCloseBid.Some?) && (!hasFinished ==> cancelCloseBid.None?)
    }

    ghost function Cancels(): Windows
      reads this`cancelled, this`cancelCrank, this`cancelCloseBid
    {
      Windows(cancelled, cancelCrank, cancelCloseBid)
    }

    ghost predicate Contexts(had: set<int>)
      reads this`history, this`cancelled, this`cancelCrank, this`cancelCloseBid
    {
      Tracks(Cancels(), history, had)
    }

    /** Whatever was appended to the history since then has passed subscriber i, and nothing else
        has happened to it. */
    ghost predicate Reached(i: nat)
      requires i < |before| && i < |eventHome.ever|
      reads this`before, this`mark, this`history, eventHome`ever, eventHome.ever
    {
      mark <= |history| && eventHome.ever[i].log == before[i] + Hub.Passing(history[mark..])
    }

    ghost predicate Served()
      reads this`before, this`mark, this`history, eventHome, eventHome.ever
    {
      && eventHome.Valid() && |before| == |eventHome.ever|
      && forall i {:trigger Reached(i)} :: 0 <= i < |before| ==> Reached(i)
    }

    /** The scheduler has dealt with an event. */
    ghost predicate Told(had: set<int>)
      reads this, eventHome, eventHome.ever
    {
      Tells(had) && (keepPayoutOpen <==> !Complete(had))
    }

    ghost predicate Tells(had: set<int>)
      reads this, eventHome, eventHome.ever
    {
      Flags(had) && Guards() && Contexts(had) && Served()
    }

    /** What the flags say of each other. */
    lemma FlagsImply(had: set<int>)
      requires Flags(had)
      ensures (isClockReadyToClose ==> hasFinished) && (hasFinished ==> hasStarted) && (bidHasClosed ==> bidIsFinal)
      ensures validatorHasWithdrawn ==> validatorAddingHasStarted
      ensures stakerAddingIsDone ==> stakerAddingHasStarted
    {
    }

    constructor (eventHome: Hub.SubHome<Event>)
      requires eventHome.Valid() && eventHome.ever == []
      ensures this.eventHome == eventHome && Accounts([]) && keepPayoutOpen
    {
      this.eventHome := eventHome;
      hasStarted, hasFinished, isClockReadyToClose := false, false, false;
      bidIsFinal, bidHasClosed := false, false;
      validatorAddingHasStarted, validatorHasWithdrawn := false, false;
      stakerAddingHasStarted, stakerAddingIsDone := false, false;
      cancelCrank, cancelCloseBid := None, None;
      cancelValidatorSetPayout, cancelValidatorWithdraw := None, None;
      cancelled, keepPayoutOpen, history, before, mark := {}, true, [], [], 0;
    }

    method Broadcast(event: Event)
      requires Served()
      modifies this`history, eventHome`subs, eventHome.ever
      ensures Served() && history == old(history) + [event]
    {
      history := history + [event];
      eventHome.Broadcast(event);
      forall i | 0 <= i < |before|
        ensures Reached(i)
      {
        assert old(Reached(i));
        assert eventHome.Logs()[i] == old(eventHome.Logs()[i]) + [Hub.Cast(event)];
        Hub.PassingMore(before[i], old(history), mark, event);
      }
    }

    /** The next input is dealt with. */
    ghost method Mark()
      requires eventHome.Valid()
      modifies this`before, this`mark
      ensures Served() && before == eventHome.Logs() && mark == |history|
    {
      before, mark := eventHome.Logs(), |history|;
      forall i | 0 <= i < |before|
        ensures Reached(i)
      {
        assert Hub.Passing(history[mark..]) == [];
      }
    }

    /** The context of the trigger that is broadcast next, by its position in the history. */
    function GenericTrigger(): nat
      reads this`history
    {
      |history|
    }

    /** Call a cancel function, unless it is nil. */
    method Cancel(cancel: Option<nat>)
      modifies this`cancelled
      ensures cancelled == if cancel.Some? then old(cancelled) + {cancel.value} else old(cancelled)
    {
      if cancel.Some? {
        cancelled := cancelled + {cancel.value};
      }
    }

    method RunCrank(ghost had: set<int>)
      requires Served() && Contexts(had) && (bidIsFinal <==> BidsFinal(had))
      modifies this`cancelCrank, this`history, eventHome`subs, eventHome.ever
      ensures Served() && Contexts(had)
      ensures history == old(history) + If(hasStarted && !bidIsFinal && !bidHasClosed && old(cancelCrank).None?, TRIGGER_CRANK)
      ensures hasStarted && !bidIsFinal && !bidHasClosed ==> cancelCrank.Some?
      ensures !hasStarted ==> cancelCrank == old(cancelCrank)
    {
      if !hasStarted {
        return;
      }
      if bidIsFinal || bidHasClosed {
        return;
      }
      if cancelCrank.Some? {
        return;
      }
      cancelCrank := Some(GenericTrigger());
      Broadcast(Trigger(TRIGGER_CRANK));
      TracksMore(old(Cancels()), old(history), had, Trigger(TRIGGER_CRANK));
    }

    method RunCloseBids(ghost had: set<int>)
      requires Served() && Contexts(had) && (bidHasClosed <==> EVENT_BID_CLOSED in had)
      modifies this`cancelCloseBid, this`history, eventHome`subs, eventHome.ever
      ensures Served() && Contexts(had)
      ensures history == old(history) + If(!bidHasClosed && old(cancelCloseBid).None?, TRIGGER_CLOSE_BIDS)
      ensures !bidHasClosed ==> cancelCloseBid.Some?
    {
      if bidHasClosed {
        return;
      }
      if cancelCloseBid.Some? {
        return;
      }
      cancelCloseBid := Some(GenericTrigger());
      Broadcast(Trigger(TRIGGER_CLOSE_BIDS));
      TracksMore(old(Cancels()), old(history), had, Trigger(TRIGGER_CLOSE_BIDS));
    }

    /** Its trigger has no context, because the scheduler ends after it. */
    method RunClosePayout(ghost had: set<int>)
      requires Tells(had) && keepPayoutOpen
      modifies this`keepPayoutOpen, this`history, eventHome`subs, eventHome.ever
      ensures Tells(had) && (keepPayoutOpen <==> !Complete(had))
      ensures history == old(history) + If(Complete(had), TRIGGER_CLOSE_PAYOUT)
    {
      if !bidHasClosed {
        return;
      }
      if !isClockReadyToClose {
        return;
      }
      if !validatorHasWithdrawn {
        return;
      }
      Broadcast(Trigger(TRIGGER_CLOSE_PAYOUT));
      TracksMore(old(Cancels()), old(history), had, Trigger(TRIGGER_CLOSE_PAYOUT));
      keepPayoutOpen := false;
    }

    /** The cancel function goes to the withdraw field, so the field that is tested stays empty. */
    method RunValidatorSetPayout(ghost had: set<int>)
      requires Tells(had)
      modifies this`cancelValidatorWithdraw, this`history, eventHome`subs, eventHome.ever
      ensures Tells(had)
      ensures history == old(history) + If(!hasStarted, TRIGGER_VALIDATOR_SET_PAYOUT)
      ensures cancelValidatorWithdraw == if hasStarted then old(cancelValidatorWithdraw) else Some(|old(history)|)
    {
      if hasStarted {
        return;
      }
      if cancelValidatorSetPayout.Some? {
        return;
      }
      cancelValidatorWithdraw := Some(GenericTrigger());
      Broadcast(Trigger(TRIGGER_VALIDATOR_SET_PAYOUT));
      TracksMore(old(Cancels()), old(history), had, Trigger(TRIGGER_VALIDATOR_SET_PAYOUT));
    }

    method RunValidatorWithdraw(ghost had: set<int>)
      requires Tells(had)
      modifies this`cancelValidatorWithdraw, this`history, eventHome`subs, eventHome.ever
      ensures Tells(had)
      ensures history == old(history) + If(!validatorHasWithdrawn, TRIGGER_VALIDATOR_WITHDRAW_RECEIPT)
      ensures cancelValidatorWithdraw == if validatorHasWithdrawn then old(cancelValidatorWithdraw) else Some(|old(history)|)
    {
      if validatorHasWithdrawn {
        return;
      }
      cancelValidatorWithdraw := Some(GenericTrigger());
      Broadcast(Trigger(TRIGGER_VALIDATOR_WITHDRAW_RECEIPT));
      TracksMore(old(Cancels()), old(history), had, Trigger(TRIGGER_VALIDATOR_WITHDRAW_RECEIPT));
    }

    method OnPreStart(ghost had: set<int>)
      requires Told(had) && keepPayoutOpen
      modifies this`cancelValidatorWithdraw, this`history, eventHome`subs, eventHome.ever
      ensures Told(had + {EVENT_PERIOD_PRE_START})
      ensures history == old(history) + Caused(had, EVENT_PERIOD_PRE_START)
    {
      TracksPassed(Cancels(), history, had, EVENT_PERIOD_PRE_START);
      if !hasStarted {
        RunValidatorSetPayout(had + {EVENT_PERIOD_PRE_START});
      }
    }

    /** The field for the set-payout context is always empty, so START cancels nothing. */
    method OnStart(ghost had: set<int>)
      requires Tells(had)
      modifies this`hasStarted, this`cancelled, this`cancelCrank, this`history, eventHome`subs, eventHome.ever
      ensures Tells(had + {EVENT_PERIOD_START}) && cancelled == old(cancelled)
      ensures history == old(history) + If(CrankDue(had, EVENT_PERIOD_START), TRIGGER_CRANK)
    {
      MarkStarted(had);
      if !bidIsFinal {
        RunCrank(had + {EVENT_PERIOD_START});
      }
    }

    method MarkStarted(ghost had: set<int>)
      requires Tells(had)
      modifies this`hasStarted, this`cancelled
      ensures hasStarted && Flags(had + {EVENT_PERIOD_START}) && Contexts(had + {EVENT_PERIOD_START}) && Served()
      ensures cancelled == old(cancelled)
    {
      TracksPassed(Cancels(), history, had, EVENT_PERIOD_START);
      hasStarted := true;
      Cancel(cancelValidatorSetPayout);
    }

    /** FINISH also stands for the start, if that was not noticed. */
    method CatchUpStart(ghost had: set<int>)
      requires Tells(had)
      modifies this`hasStarted, this`cancelled, this`cancelCrank, this`history, eventHome`subs, eventHome.ever
      ensures OtherFlags(had + {EVENT_PERIOD_FINISH}) && Guards() && Contexts(had + {EVENT_PERIOD_FINISH}) && Served()
      ensures history == old(history) + If(CrankDue(had, EVENT_PERIOD_FINISH), TRIGGER_CRANK)
    {
      if !hasStarted {
        OnStart(had);
      }
      TracksStill(Cancels(), history, if old(hasStarted) then had else had + {EVENT_PERIOD_START}, had + {EVENT_PERIOD_FINISH});
    }

    method OnFinish(ghost had: set<int>)
      requires Tells(had)
      modifies this`hasStarted, this`hasFinished, this`cancelled, this`cancelCrank, this`cancelCloseBid, this`history
      modifies eventHome`subs, eventHome.ever
      ensures Tells(had + {EVENT_PERIOD_FINISH})
      ensures history == old(history) + CausedByFinish(had)
    {
      CatchUpStart(had);
      hasFinished := true;
      ghost var before := history;
      CloseOpenBids(had + {EVENT_PERIOD_FINISH});
      CausedInTurn(had, old(history), before, history);
    }

    /** The last step of OnFinish. */
    method CloseOpenBids(ghost had: set<int>)
      requires Served() && Contexts(had) && Flags(had) && cancelValidatorSetPayout.None?
      requires hasStarted && hasFinished && (!bidIsFinal ==> cancelCrank.Some?)
      modifies this`cancelCloseBid, this`history, eventHome`subs, eventHome.ever
      ensures Tells(had)
      ensures history == old(history) + If(!bidHasClosed && old(cancelCloseBid).None?, TRIGGER_CLOSE_BIDS)
    {
      if !bidHasClosed {
        RunCloseBids(had);
      }
    }

    /** The clock's last event also stands for the finish, if that was not noticed. */
    method CatchUpFinish(ghost had: set<int>)
      requires Tells(had)
      modifies this`hasStarted, this`hasFinished, this`cancelled, this`cancelCrank, this`cancelCloseBid, this`history
      modifies eventHome`subs, eventHome.ever
      ensures hasStarted && hasFinished && Guards() && Contexts(had + {EVENT_DELAY_CLOSE_PAYOUT}) && Served()
      ensures history == old(history) + CausedByFinish(had)
    {
      if !hasFinished {
        OnFinish(had);
      }
      CausedByClock(had, old(history));
      TracksStill(Cancels(), history, if old(hasFinished) then had else had + {EVENT_PERIOD_FINISH}, had + {EVENT_DELAY_CLOSE_PAYOUT});
    }

    method MarkClockReady(ghost had: set<int>)
      requires Tells(had)
      modifies this`hasStarted, this`hasFinished, this`isClockReadyToClose, this`cancelled, this`cancelCrank
      modifies this`cancelCloseBid, this`history, eventHome`subs, eventHome.ever
      ensures Tells(had + {EVENT_DELAY_CLOSE_PAYOUT})
      ensures history == old(history) + CausedByFinish(had)
    {
      CatchUpFinish(had);
      isClockReadyToClose := true;
    }

    method OnClockClosePayout(ghost had: set<int>)
      requires Told(had) && keepPayoutOpen
      modifies this`hasStarted, this`hasFinished, this`isClockReadyToClose, this`cancelled, this`cancelCrank
      modifies this`cancelCloseBid, this`keepPayoutOpen, this`history, eventHome`subs, eventHome.ever
      ensures Told(had + {EVENT_DELAY_CLOSE_PAYOUT})
      ensures history == old(history) + Caused(had, EVENT_DELAY_CLOSE_PAYOUT)
    {
      MarkClockReady(had);
      ghost var between := history;
      RunClosePayout(had + {EVENT_DELAY_CLOSE_PAYOUT});
      CausedAtLast(had, old(history), between, history);
    }

    method OnBidFinal(ghost had: set<int>)
      requires Told(had) && keepPayoutOpen
      modifies this`bidIsFinal, this`cancelCrank, this`cancelled
      ensures Told(had + {EVENT_BID_FINAL})
      ensures history == old(history) + Caused(had, EVENT_BID_FINAL)
    {
      TracksPassed(Cancels(), history, had, EVENT_BID_FINAL);
      bidIsFinal := true;
      Cancel(cancelCrank);
      cancelCrank := None;
      assert Cancels() == Passed(old(Cancels()), EVENT_BID_FINAL);
    }

    /** The crank's context is not cancelled here. */
    method OnBidClosed(ghost had: set<int>)
      requires Told(had) && keepPayoutOpen
      modifies this`bidIsFinal, this`bidHasClosed, this`cancelCloseBid, this`cancelled, this`keepPayoutOpen, this`history
      modifies eventHome`subs, eventHome.ever
      ensures Told(had + {EVENT_BID_CLOSED})
      ensures history == old(history) + Caused(had, EVENT_BID_CLOSED)
    {
      MarkBidClosed(had);
      RunClosePayout(had + {EVENT_BID_CLOSED});
      CausedAtMost(had, EVENT_BID_CLOSED);
    }

    /** What it does before it tries to close the payout. */
    method MarkBidClosed(ghost had: set<int>)
      requires Tells(had)
      modifies this`bidIsFinal, this`bidHasClosed, this`cancelCloseBid, this`cancelled
      ensures Tells(had + {EVENT_BID_CLOSED})
    {
      TracksPassed(Cancels(), history, had, EVENT_BID_CLOSED);
      bidIsFinal := true;
      bidHasClosed := true;
      Cancel(cancelCloseBid);
      cancelCloseBid := None;
      assert Cancels() == Passed(old(Cancels()), EVENT_BID_CLOSED);
    }

    method OnValidatorIsAdding(ghost had: set<int>)
      requires Told(had) && keepPayoutOpen
      modifies this`validatorAddingHasStarted
      ensures Told(had + {EVENT_VALIDATOR_IS_ADDING})
      ensures history == old(history) + Caused(had, EVENT_VALIDATOR_IS_ADDING)
    {
      TracksPassed(Cancels(), history, had, EVENT_VALIDATOR_IS_ADDING);
      validatorAddingHasStarted := true;
    }

    method OnValidatorHaveWithdrawn(ghost had: set<int>)
      requires Told(had) && keepPayoutOpen
      modifies this`validatorAddingHasStarted, this`validatorHasWithdrawn, this`keepPayoutOpen, this`history
      modifies eventHome`subs, eventHome.ever
      ensures Told(had + {EVENT_VALIDATOR_HAVE_WITHDRAWN})
      ensures history == old(history) + Caused(had, EVENT_VALIDATOR_HAVE_WITHDRAWN)
    {
      TracksPassed(Cancels(), history, had, EVENT_VALIDATOR_HAVE_WITHDRAWN);
      validatorAddingHasStarted := true;
      validatorHasWithdrawn := true;
      RunClosePayout(had + {EVENT_VALIDATOR_HAVE_WITHDRAWN});
    }

    method OnStakerIsAdding(ghost had: set<int>)
      requires Told(had) && keepPayoutOpen
      modifies this`stakerAddingHasStarted
      ensures Told(had + {EVENT_STAKER_IS_ADDING})
      ensures history == old(history) + Caused(had, EVENT_STAKER_IS_ADDING)
    {
      TracksPassed(Cancels(), history, had, EVENT_STAKER_IS_ADDING);
      stakerAddingHasStarted := true;
    }

    method OnStakerHaveWithdrawn(ghost had: set<int>)
      requires Told(had) && keepPayoutOpen
      modifies this`stakerAddingHasStarted, this`stakerAddingIsDone, this`cancelValidatorWithdraw, this`history
      modifies eventHome`subs, eventHome.ever
      ensures Told(had + {EVENT_STAKER_HAVE_WITHDRAWN})
      ensures history == old(history) + Caused(had, EVENT_STAKER_HAVE_WITHDRAWN)
    {
      MarkStakersDone(had);
      CausedByStakers(had);
      RunValidatorWithdraw(had + {EVENT_STAKER_HAVE_WITHDRAWN});
    }

    /** What it does before it asks for the validators' withdrawal. */
    method MarkStakersDone(ghost had: set<int>)
      requires Tells(had)
      modifies this`stakerAddingHasStarted, this`stakerAddingIsDone
      ensures Tells(had + {EVENT_STAKER_HAVE_WITHDRAWN})
    {
      TracksPassed(Cancels(), history, had, EVENT_STAKER_HAVE_WITHDRAWN);
      stakerAddingHasStarted := true;
      stakerAddingIsDone := true;
    }

    method Handle(event: Event, ghost had: set<int>) returns (err: bool)
      requires Told(had) && keepPayoutOpen
      modifies this`hasStarted, this`hasFinished, this`isClockReadyToClose, this`bidIsFinal, this`bidHasClosed
      modifies this`validatorAddingHasStarted, this`validatorHasWithdrawn, this`stakerAddingHasStarted, this`stakerAddingIsDone
      modifies this`cancelCrank, this`cancelCloseBid, this`cancelValidatorWithdraw, this`cancelled
      modifies this`keepPayoutOpen, this`history, eventHome`subs, eventHome.ever
      ensures err <==> !Known(event)
      ensures err ==> Told(had) && history == old(history) && keepPayoutOpen
      ensures !err ==> Told(had + {event.kind}) && history == old(history) + Caused(had, event.kind)
    {
      err := false;
      if event.kind == EVENT_PERIOD_PRE_START {
        OnPreStart(had);
      } else if event.kind == EVENT_PERIOD_START {
        CausedByStart(had);
        OnStart(had);
      } else if event.kind == EVENT_PERIOD_FINISH {
        CausedByClock(had, history);
        OnFinish(had);
      } else if event.kind == EVENT_DELAY_CLOSE_PAYOUT {
        OnClockClosePayout(had);
      } else if event.kind == EVENT_BID_CLOSED {
        OnBidClosed(had);
      } else if event.kind == EVENT_BID_FINAL {
        OnBidFinal(had);
      } else if event.kind == EVENT_VALIDATOR_IS_ADDING {
        OnValidatorIsAdding(had);
      } else if event.kind == EVENT_VALIDATOR_HAVE_WITHDRAWN {
        OnValidatorHaveWithdrawn(had);
      } else if event.kind == EVENT_STAKER_IS_ADDING {
        OnStakerIsAdding(had);
      } else if event.kind == EVENT_STAKER_HAVE_WITHDRAWN {
        OnStakerHaveWithdrawn(had);
      } else {
        err := true;
      }
    }

    /** An event that is no trigger leaves the scheduler's state as it is. */
    method Pass(event: Event, ghost had: set<int>)
      requires Told(had) && !event.IsTrigger()
      modifies this`history, eventHome`subs, eventHome.ever
      ensures Told(had) && history == old(history) + [event]
    {
      TracksMore(Cancels(), history, had, event);
      Broadcast(event);
    }

    method OnEvent(event: Event, ghost had: set<int>) returns (err: bool)
      requires Told(had) && keepPayoutOpen
      modifies this`hasStarted, this`hasFinished, this`isClockReadyToClose, this`bidIsFinal, this`bidHasClosed
      modifies this`validatorAddingHasStarted, this`validatorHasWithdrawn, this`stakerAddingHasStarted, this`stakerAddingIsDone
      modifies this`cancelCrank, this`cancelCloseBid, this`cancelValidatorWithdraw, this`cancelled
      modifies this`keepPayoutOpen, this`history, eventHome`subs, eventHome.ever
      ensures err <==> !Known(event)
      ensures err ==> Told(had) && history == old(history) && keepPayoutOpen
      ensures !err ==> Told(had + {event.kind}) && history == old(history) + Caused(had, event.kind) + [event]
    {
      err := Handle(event, had);
      if err {
        return;
      }
      if !event.IsTrigger() {
        Pass(event, had + {event.kind});
      }
    }

    /** A subscriber registers, and is sent the history, while it may read. */
    method Join(cap: nat, filter: Event -> bool, takes: nat -> nat) returns (s: Hub.Subscriber<Event>)
      requires eventHome.Valid()
      modifies eventHome
      ensures eventHome.Valid() && fresh(s) && eventHome.ever == old(eventHome.ever) + [s]
      ensures s.cap == cap && s.filter == filter
      ensures eventHome.subs == old(eventHome.subs)[|old(eventHome.ever)| := s]
      ensures eventHome.Logs() == old(eventHome.Logs()) + [Hub.Replays(history, takes)]
    {
      s := eventHome.Receive(cap, filter);
      Replay(s, takes, |eventHome.ever| - 1);
    }

    /** The history is sent to the newest subscriber. */
    method Replay(s: Hub.Subscriber<Event>, takes: nat -> nat, ghost k: nat)
      requires eventHome.Valid() && k + 1 == |eventHome.ever| && s == eventHome.ever[k] && s.log == []
      modifies s
      ensures eventHome.Valid() && eventHome.Logs() == old(eventHome.Logs()[..k]) + [Hub.Replays(history, takes)]
    {
      assert eventHome.Known(k, eventHome.subs.Keys);
      s.ReplayAll(history, takes);
      assert s.log == Hub.Replays(history, takes);
      forall i | 0 <= i < |eventHome.ever|
        ensures eventHome.Known(i, eventHome.subs.Keys)
      {
        assert old(eventHome.Known(i, eventHome.subs.Keys));
      }
      LogsBut(k);
    }

    /** The log of only the newest subscriber has changed. */
    twostate lemma LogsBut(k: nat)
      requires eventHome.ever == old(eventHome.ever) && k + 1 == |eventHome.ever|
      requires forall i :: 0 <= i < k ==> eventHome.ever[i].log == old(eventHome.ever[i].log)
      ensures eventHome.Logs() == old(eventHome.Logs()[..k]) + [eventHome.ever[k].log]
    {
      forall i | 0 <= i <= k
        ensures eventHome.Logs()[i] == (old(eventHome.Logs()[..k]) + [eventHome.ever[k].log])[i]
      {
      }
    }

    /** A subscriber unsubscribes; an id that is not registered is ignored. */
    method Leave(id: nat, ghost ends: seq<End>, ghost past: seq<Event>)
      requires eventHome.Valid() && Fit(eventHome.ever, ends)
      modifies eventHome`subs, eventHome.ever
      ensures eventHome.Valid() && eventHome.subs == old(eventHome.subs) - {id}
      ensures eventHome.Logs() == old(Hear(ends, eventHome.Logs(), past, Input.Leave(id)))
    {
      if id < |eventHome.ever| {
        assert eventHome.Known(id, eventHome.subs.Keys);
      }
      eventHome.Delete(id);
    }

    /** A subscriber reads its stream: a step of the surroundings. */
    method Read(s: Hub.Subscriber<Event>, ghost k: nat) returns (e: Option<Event>)
      requires eventHome.Valid() && k < |eventHome.ever| && s == eventHome.ever[k]
      modifies s
      ensures eventHome.Valid() && eventHome.Logs() == old(Hub.NotedBy(eventHome.Logs(), k, Hub.Take))
      ensures e == if old(s.streamC) == [] then None else Some(old(s.streamC)[0])
      ensures s.got == if e.None? then old(s.got) else old(s.got) + [e.value]
    {
      assert eventHome.Known(k, eventHome.subs.Keys);
      e := s.Receive();
      Hub.RunStep(s.cap, s.filter, old(s.log), Hub.Take);
      forall i | 0 <= i < |eventHome.ever|
        ensures eventHome.Known(i, eventHome.subs.Keys)
      {
        assert old(eventHome.Known(i, eventHome.subs.Keys));
      }
    }

    method Welcome(cap: nat, filter: Event -> bool, takes: nat -> nat, streams: seq<Hub.Subscriber<Event>>,
                   ghost ends: seq<End>, ghost past: seq<Event>) returns (streams': seq<Hub.Subscriber<Event>>)
      requires eventHome.Valid() && streams == eventHome.ever && Fit(streams, ends) && history == History(past)
      modifies eventHome
      ensures eventHome.Valid() && streams' == eventHome.ever
      ensures streams <= streams' && forall i :: |streams| <= i < |streams'| ==> fresh(streams'[i])
      ensures Fit(streams', ends + [End(cap, filter)])
      ensures eventHome.Logs() == old(Hear(ends, eventHome.Logs(), past, Input.Join(cap, filter, takes)))
    {
      var s := Join(cap, filter, takes);
      streams' := streams + [s];
    }

    /** What the loop and its surroundings do with the subscribers; streams are the ends that they hold. */
    method Attend(input: Input, streams: seq<Hub.Subscriber<Event>>, ghost ends: seq<End>, ghost past: seq<Event>)
      returns (streams': seq<Hub.Subscriber<Event>>)
      requires eventHome.Valid() && streams == eventHome.ever && Fit(streams, ends) && history == History(past)
      requires !input.Take? && !input.Done?
      modifies eventHome, eventHome.ever
      ensures eventHome.Valid() && streams' == eventHome.ever
      ensures streams <= streams' && forall i :: |streams| <= i < |streams'| ==> fresh(streams'[i])
      ensures Fit(streams', if input.Join? then ends + [End(input.cap, input.filter)] else ends)
      ensures eventHome.Logs() == old(Hear(ends, eventHome.Logs(), past, input))
    {
      streams' := streams;
      match input
      case Join(cap, filter, takes) =>
        streams' := Welcome(cap, filter, takes, streams, ends, past);
      case Leave(id) =>
        Leave(id, ends, past);
      case Read(i) =>
        if i < |streams| {
          var _ := Read(streams[i], i);
        }
      case _ =>
    }

    /** The flags, the contexts, the history and the subscribers' streams are those that
        the events taken so far account for. */
    ghost predicate Accounts(past: seq<Event>)
      reads this, eventHome, eventHome.ever
    {
      Told(Kinds(past)) && history == History(past) && Open(past)
    }

    /** All is as the inputs dealt with so far say. */
    ghost predicate Follows(inputs: seq<Input>, streams: seq<Hub.Subscriber<Event>>)
      reads this, eventHome, eventHome.ever
    {
      && Accounts(Taken(inputs)) && streams == eventHome.ever
      && Fit(streams, Ends(inputs)) && eventHome.Logs() == Logs(inputs)
    }

    /** One round of the event loop. */
    method Select(input: Input, streams: seq<Hub.Subscriber<Event>>, ghost ends: seq<End>, ghost past: seq<Event>)
      returns (err: bool, streams': seq<Hub.Subscriber<Event>>)
      requires Accounts(past) && keepPayoutOpen && streams == eventHome.ever && Fit(streams, ends) && !input.Done?
      modifies this, eventHome, eventHome.ever
      ensures err <==> Stops(input)
      ensures streams' == eventHome.ever
      ensures streams <= streams' && forall i :: |streams| <= i < |streams'| ==> fresh(streams'[i])
      ensures err ==> Accounts(past) && keepPayoutOpen && streams' == streams && eventHome.Logs() == old(eventHome.Logs())
      ensures !err ==>
        && Accounts(if input.Take? then past + [input.event] else past)
        && Fit(streams', if input.Join? then ends + [End(input.cap, input.filter)] else ends)
        && eventHome.Logs() == old(Hear(ends, eventHome.Logs(), past, input))
    {
      err, streams' := false, streams;
      if input.Take? {
        err := TakeEvent(input.event, past);
      } else {
        streams' := Serve(input, streams, ends, past);
      }
    }

    method Serve(input: Input, streams: seq<Hub.Subscriber<Event>>, ghost ends: seq<End>, ghost past: seq<Event>)
      returns (streams': seq<Hub.Subscriber<Event>>)
      requires Accounts(past) && streams == eventHome.ever && Fit(streams, ends) && !input.Take? && !input.Done?
      modifies this`before, this`mark, eventHome, eventHome.ever
      ensures Accounts(past) && streams' == eventHome.ever
      ensures streams <= streams' && forall i :: |streams| <= i < |streams'| ==> fresh(streams'[i])
      ensures Fit(streams', if input.Join? then ends + [End(input.cap, input.filter)] else ends)
      ensures eventHome.Logs() == old(Hear(ends, eventHome.Logs(), past, input))
    {
      streams' := Attend(input, streams, ends, past);
      Mark();
    }

    method TakeEvent(event: Event, ghost past: seq<Event>) returns (err: bool)
      requires Accounts(past) && keepPayoutOpen
      modifies this, eventHome`subs, eventHome.ever
      ensures err <==> !Known(event)
      ensures err ==> Accounts(past) && keepPayoutOpen && eventHome.Logs() == old(eventHome.Logs())
      ensures !err ==>
        Accounts(past + [event]) && eventHome.Logs() == Hub.CastAll(old(eventHome.Logs()), Sent(Kinds(past), event))
    {
      Renew(past);
      err := Digest(event, past);
    }

    ghost method Renew(past: seq<Event>)
      requires Accounts(past)
      modifies this`before, this`mark
      ensures Accounts(past) && before == eventHome.Logs() && mark == |history|
    {
      Mark();
    }

    method Digest(event: Event, ghost past: seq<Event>) returns (err: bool)
      requires Accounts(past) && keepPayoutOpen && before == eventHome.Logs() && mark == |history|
      modifies this, eventHome`subs, eventHome.ever
      ensures err <==> !Known(event)
      ensures err ==> Accounts(past) && keepPayoutOpen && eventHome.Logs() == old(eventHome.Logs())
      ensures !err ==>
        Accounts(past + [event]) && eventHome.Logs() == Hub.CastAll(old(eventHome.Logs()), Sent(Kinds(past), event))
    {
      ghost var logs := before;
      err := OnEvent(event, Kinds(past));
      if err {
        AllPassed(logs, History(past), []);
        Hub.NothingPasses(logs);
      } else {
        Settled(logs, past, event);
      }
    }

    /** The event is dealt with. */
    lemma Settled(logs: seq<seq<Hub.Event<Event>>>, past: seq<Event>, event: Event)
      requires Open(past) && Known(event) && !Complete(Kinds(past)) && Told(Kinds(past) + {event.kind})
      requires before == logs && mark == |History(past)|
      requires history == History(past) + Caused(Kinds(past), event.kind) + [event]
      ensures Accounts(past + [event]) && eventHome.Logs() == Hub.CastAll(logs, Sent(Kinds(past), event))
    {
      MoreTaken(past, event);
      HistoryMore(past, event);
      AllPassed(logs, History(past), Sent(Kinds(past), event));
    }

    /** What passed since the mark passed all subscribers. */
    lemma AllPassed(logs: seq<seq<Hub.Event<Event>>>, past: seq<Event>, more: seq<Event>)
      requires Served() && before == logs && mark == |past| && history == past + more
      ensures eventHome.Logs() == Hub.CastAll(logs, more)
    {
      assert history[mark..] == more;
      forall i | 0 <= i < |logs|
        ensures eventHome.Logs()[i] == Hub.CastAll(logs, more)[i]
      {
        assert Reached(i);
      }
    }

    method Turn(inputs: seq<Input>, n: nat, streams: seq<Hub.Subscriber<Event>>)
      returns (err: bool, streams': seq<Hub.Subscriber<Event>>)
      requires n < |inputs| && keepPayoutOpen && !inputs[n].Done?
      requires Follows(inputs[..n], streams) && GoesOn(inputs[..n])
      modifies this, eventHome, eventHome.ever
      ensures streams <= streams' && forall i :: |streams| <= i < |streams'| ==> fresh(streams'[i])
      ensures err <==> Stops(inputs[n])
      ensures err ==> Follows(inputs[..n], streams') && keepPayoutOpen
      ensures !err ==> Follows(inputs[..n + 1], streams') && GoesOn(inputs[..n + 1])
    {
      OneMore(inputs, n);
      err, streams' := Select(inputs[n], streams, Ends(inputs[..n]), Taken(inputs[..n]));
      if !err {
        GoesOnMore(inputs, n);
      }
    }

    /** The event loop, on any inputs in any order: it ends by itself exactly when it has
        taken all three events that closing needs, is cancelled from outside, or meets an
        event it does not know. */
    method Loop(inputs: seq<Input>) returns (taken: nat, err: bool, streams: seq<Hub.Subscriber<Event>>)
      requires Accounts([]) && keepPayoutOpen && eventHome.ever == []
      modifies this, eventHome
      ensures taken <= |inputs| && Follows(inputs[..taken], streams)
      ensures keepPayoutOpen && taken < |inputs| ==> Stops(inputs[taken])
      ensures GoesOn(inputs[..taken])
      ensures err <==> taken < |inputs| && keepPayoutOpen && inputs[taken].Take?
    {
      taken, err, streams := 0, false, [];
      while keepPayoutOpen && taken < |inputs| && !inputs[taken].Done?
        invariant taken <= |inputs| && Follows(inputs[..taken], streams) && GoesOn(inputs[..taken]) && !err
        invariant forall i :: 0 <= i < |streams| ==> fresh(streams[i])
      {
        err, streams := Turn(inputs, taken, streams);
        if err {
          break;
        }
        taken := taken + 1;
      }
    }

    /** The state of each stream is what the inputs say: what its subscriber has got and what
        waits for it is what it was put. */
    lemma StreamsAreAsSaid(inputs: seq<Input>, streams: seq<Hub.Subscriber<Event>>, i: nat)
      requires Follows(inputs, streams) && i < |streams|
      ensures i < |Ends(inputs)| && streams[i].State() == Outcome(inputs, i)
      ensures streams[i].got + streams[i].streamC == Outcome(inputs, i).put && |streams[i].got| == Outcome(inputs, i).taken
      ensures streams[i].errorC == if Outcome(inputs, i).told.None? then [] else [Outcome(inputs, i).told.value]
      ensures i in eventHome.subs <==> Outcome(inputs, i).told.None?
    {
      assert eventHome.Known(i, eventHome.subs.Keys);
      assert eventHome.Logs()[i] == streams[i].log;
      Hub.ReadAndUnread(Outcome(inputs, i).put, Outcome(inputs, i).taken);
    }

    /** The context of a CRANK is done exactly once BID_FINAL was taken, that of a CLOSE_BIDS exactly
        once BID_CLOSED was, and no other ever is. */
    lemma ContextDoneIff(past: seq<Event>, p: nat)
      requires Accounts(past) && p < |history|
      ensures p in cancelled <==>
        || (history[p].kind == TRIGGER_CRANK && EVENT_BID_FINAL in Kinds(past))
        || (history[p].kind == TRIGGER_CLOSE_BIDS && EVENT_BID_CLOSED in Kinds(past))
      ensures forall c :: c in cancelled ==> c < |history|
    {
      DoneWhenOver(Cancels(), history, Kinds(past), p);
    }

    /** The crank's context is done exactly once BID_FINAL was taken; BID_CLOSED, which makes
        the bids final too, does not cancel it. */
    lemma CrankDoneIff(past: seq<Event>, p: nat)
      requires Accounts(past) && p < |history| && history[p].kind == TRIGGER_CRANK
      ensures p in cancelled <==> EVENT_BID_FINAL in Kinds(past)
    {
      DoneWhenOver(Cancels(), history, Kinds(past), p);
    }
  }

  lemma {:induction false} TwoTaken(first: Event, second: Event)
    ensures var inputs := [Take(first), Take(second)];
      Taken(inputs[..0]) == [] && Taken(inputs[..1]) == [first] && Taken(inputs[..2]) == [first, second]
  {
    var inputs := [Take(first), Take(second)];
    assert inputs[..0] == [] && inputs[..1][..0] == [] && inputs[..2][..1] == inputs[..1];
    assert [] + [first] == [first] && [first] + [second] == [first, second];
  }

  lemma {:induction false} TwoKinds(first: Event, second: Event)
    ensures Kinds([]) == {} && Kinds([first]) == {first.kind} && Kinds([first, second]) == {first.kind, second.kind}
  {
    assert [first] + [second] == [first, second];
    KindsMore([first], second);
  }

  lemma {:induction false} TwoMakeHistory(first: Event, second: Event)
    ensures History([first, second]) == Sent({}, first) + Sent({first.kind}, second)
  {
    TwoKinds(first, second);
    assert [first, second][..1] == [first] && [first][..0] == [];
    assert History([first]) == Sent({}, first) by {
      assert History([]) == [];
      HistoryMore([], first);
      assert [] + [first] == [first];
      Beyond([], [], Sent({}, first));
    }
    HistoryMore([first], second);
    assert [first] + [second] == [first, second];
  }

  lemma {:induction false} TwoDoNotComplete(first: Event, second: Event, n: nat)
    requires n <= 2
    ensures !Complete(Kinds(Taken([Take(first), Take(second)][..n])))
  {
    TwoTaken(first, second);
    TwoKinds(first, second);
    assert n == 0 || n == 1 || n == 2;
  }

  lemma {:induction false} CrankedThenClosed(start: Event, closed: Event)
    requires start.kind == EVENT_PERIOD_START && closed.kind == EVENT_BID_CLOSED
    ensures Sent({}, start) == [Trigger(TRIGGER_CRANK), start] && Sent({EVENT_PERIOD_START}, closed) == [closed]
  {
    CausedByStart({});
    CausedAtMost({EVENT_PERIOD_START}, EVENT_BID_CLOSED);
  }

  /** A run after which the bids are closed, and the crank's context is not done. */
  method CrankOutlivesBids(start: Event, closed: Event) returns (scheduler: Internal)
    requires start.kind == EVENT_PERIOD_START && closed.kind == EVENT_BID_CLOSED
    ensures scheduler.history == [Trigger(TRIGGER_CRANK), start, closed]
    ensures scheduler.bidIsFinal && scheduler.bidHasClosed && 0 !in scheduler.cancelled
  {
    TwoKinds(start, closed);
    TwoMakeHistory(start, closed);
    CrankedThenClosed(start, closed);
    scheduler := TakeBoth(start, closed);
    scheduler.CrankDoneIff([start, closed], 0);
  }

  method TakeBoth(first: Event, second: Event) returns (scheduler: Internal)
    requires Known(first) && Known(second)
    ensures scheduler.Accounts([first, second])
  {
    var eventHome := new Hub.SubHome();
    scheduler := new Internal(eventHome);
    var taken, _, _ := scheduler.Loop([Take(first), Take(second)]);
    TwoDoNotComplete(first, second, taken);
    assert taken == 2;
    TwoTaken(first, second);
  }
}
