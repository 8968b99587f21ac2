/** The watcher of one payout account: it turns changes of the account into events. */
module Watcher {
  import opened Schedule
  import opened Clock

  /** The part of a payout account that is watched; bids is the zero key once they are closed. */
  datatype Data = Data(bids: nat, validatorCount: nat)

  /** What the watcher selects among: a new state of the account, and the clock's note
      that the payout can be closed. */
  datatype Input = NewData(data: Data) | Post(isStateTransition: bool)

  datatype Watch = Watch(newData: Data, bidsAreClosed: bool, validatorHasAdded: bool, validatorHasWithdrawn: bool,
                         postDelayClockPast: bool, sent: seq<Event>)

  /** The loop goes on. */
  predicate Watching(w: Watch) {
    !(w.bidsAreClosed && w.validatorHasWithdrawn)
  }

  function Begin(d: Data): Watch {
    Watch(d, d.bids == 0, 0 < d.validatorCount, false, false, Send([], d.bids == 0, EVENT_BID_CLOSED, false, 0))
  }

  function OnData(w: Watch, d: Data): Watch {
    var closes := !w.bidsAreClosed && d.bids == 0;
    var adds := !w.validatorHasAdded && 0 < d.validatorCount;
    var withdraws := w.validatorHasAdded && !w.validatorHasWithdrawn && d.validatorCount == 0;
    Watch(d, w.bidsAreClosed || closes, w.validatorHasAdded || adds, w.validatorHasWithdrawn || withdraws,
          w.postDelayClockPast,
          Send(Send(Send(w.sent,
            closes, EVENT_BID_CLOSED, true, 0),
            adds, EVENT_VALIDATOR_IS_ADDING, true, 0),
            withdraws, EVENT_VALIDATOR_HAVE_WITHDRAWN, true, 0))
  }

  function OnPost(w: Watch, isStateTransition: bool): Watch {
    if w.postDelayClockPast then w
    else
      var withdraws := !w.validatorHasAdded && w.newData.validatorCount == 0;
      w.(postDelayClockPast := true, validatorHasWithdrawn := w.validatorHasWithdrawn || withdraws,
         sent := Send(w.sent, withdraws, EVENT_VALIDATOR_HAVE_WITHDRAWN, isStateTransition, 0))
  }

  function React(w: Watch, x: Input): Watch {
    match x
    case NewData(d) => OnData(w, d)
    case Post(t) => OnPost(w, t)
  }

  /** The watcher after the given inputs. */
  function Watched(d: Data, inputs: seq<Input>): Watch {
    if inputs == [] then Begin(d) else React(Watched(d, inputs[..|inputs| - 1]), inputs[|inputs| - 1])
  }

  class PayoutEventInfo {
    var bidsAreClosed: bool
    var validatorHasAdded: bool
    var validatorHasWithdrawn: bool
    var postDelayClockPast: bool
    /** What was sent on the channel of events. */
    var eventC: seq<Event>
    var extraIsCancelled: bool

    function View(newData: Data): Watch
      reads this
    {
      Watch(newData, bidsAreClosed, validatorHasAdded, validatorHasWithdrawn, postDelayClockPast, eventC)
    }

    constructor ()
      ensures !bidsAreClosed && !validatorHasAdded && !validatorHasWithdrawn && !postDelayClockPast
      ensures eventC == [] && !extraIsCancelled
    {
      bidsAreClosed, validatorHasAdded, validatorHasWithdrawn, postDelayClockPast := false, false, false, false;
      eventC, extraIsCancelled := [], false;
    }

    method OnPostDelayClose()
      modifies this`postDelayClockPast
      ensures postDelayClockPast
    {
      postDelayClockPast := true;
    }

    method OnValidatorHasWithdrawn(isStateTransition: bool)
      modifies this`validatorHasWithdrawn, this`eventC
      ensures validatorHasWithdrawn && eventC == old(eventC) + [Event(EVENT_VALIDATOR_HAVE_WITHDRAWN, isStateTransition, 0)]
    {
      validatorHasWithdrawn := true;
      eventC := eventC + [Event(EVENT_VALIDATOR_HAVE_WITHDRAWN, isStateTransition, 0)];
    }

    method OnValidatorAdding(isStateTransition: bool)
      modifies this`validatorHasAdded, this`eventC
      ensures validatorHasAdded && eventC == old(eventC) + [Event(EVENT_VALIDATOR_IS_ADDING, isStateTransition, 0)]
    {
      validatorHasAdded := true;
      eventC := eventC + [Event(EVENT_VALIDATOR_IS_ADDING, isStateTransition, 0)];
    }

    /** The watchers of the bids' finality and of the stakers stop. */
    method OnBidClosed(isStateTransition: bool)
      modifies this`bidsAreClosed, this`eventC, this`extraIsCancelled
      ensures bidsAreClosed && extraIsCancelled
      ensures eventC == old(eventC) + [Event(EVENT_BID_CLOSED, isStateTransition, 0)]
    {
      bidsAreClosed := true;
      eventC := eventC + [Event(EVENT_BID_CLOSED, isStateTransition, 0)];
      extraIsCancelled := true;
    }

    method OnInput(x: Input, newData: Data) returns (newData': Data)
      modifies this
      ensures View(newData') == React(old(View(newData)), x)
      ensures extraIsCancelled <==> old(extraIsCancelled) || (bidsAreClosed && !old(bidsAreClosed))
    {
      newData' := newData;
      match x
      case Post(isStateTransition) =>
        if !postDelayClockPast {
          OnPostDelayClose();
          if !validatorHasAdded && newData.validatorCount == 0 {
            OnValidatorHasWithdrawn(isStateTransition);
          }
        }
      case NewData(data) =>
        newData' := data;
        if !bidsAreClosed && data.bids == 0 {
          OnBidClosed(true);
        }
        if !validatorHasAdded && 0 < data.validatorCount {
          OnValidatorAdding(true);
        }
        if validatorHasAdded && !validatorHasWithdrawn && data.validatorCount == 0 {
          OnValidatorHasWithdrawn(true);
        }
    }

    /** The loop; it takes the first taken inputs. */
    method LoopPayoutEvent(data: Data, inputs: seq<Input>) returns (taken: nat, newData: Data)
      requires !bidsAreClosed && !validatorHasAdded && !validatorHasWithdrawn && !postDelayClockPast
      requires eventC == [] && !extraIsCancelled
      modifies this
      ensures taken <= |inputs| && View(newData) == Watched(data, inputs[..taken])
      ensures forall i :: 0 <= i < taken ==> Watching(Watched(data, inputs[..i]))
      ensures taken < |inputs| ==> !Watching(Watched(data, inputs[..taken]))
      ensures extraIsCancelled <==> bidsAreClosed
    {
      taken, newData := 0, data;
      if newData.bids == 0 {
        OnBidClosed(false);
      }
      if 0 < data.validatorCount {
        validatorHasAdded := true;
      }
      while !(bidsAreClosed && validatorHasWithdrawn) && taken < |inputs|
        invariant taken <= |inputs| && View(newData) == Watched(data, inputs[..taken])
        invariant forall i :: 0 <= i < taken ==> Watching(Watched(data, inputs[..i]))
        invariant extraIsCancelled <==> bidsAreClosed
        decreases |inputs| - taken
      {
        assert inputs[..taken + 1][..taken] == inputs[..taken];
        newData := OnInput(inputs[taken], newData);
        taken := taken + 1;
      }
    }
  }
}
