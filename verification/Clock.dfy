/** The slot clock: it turns the stream of slots into the events of a period. */
module Clock {
  import opened Schedule

  const TWO_TO_THE_64 := 0x1_0000_0000_0000_0000

  type Uint64 = x: nat | x < TWO_TO_THE_64

  const PAYOUT_POST_FINISH_DELAY: Uint64 := 100

  /** The slots at which the period starts, finishes, and can be closed. */
  datatype Times = Times(start: Uint64, finish: Uint64, closeOut: Uint64)

  /** The sums wrap around. */
  function TimesOf(start: Uint64, length: Uint64): Times {
    var finish := (start + length - 1) % TWO_TO_THE_64;
    Times(start, finish, (finish + PAYOUT_POST_FINISH_DELAY) % TWO_TO_THE_64)
  }

  /** One of the slots was at or past t. */
  predicate Reached(slots: seq<Uint64>, t: Uint64) {
    slots != [] && (t <= slots[|slots| - 1] || Reached(slots[..|slots| - 1], t))
  }

  /** One of the slots was before t. */
  predicate Before(slots: seq<Uint64>, t: Uint64) {
    slots != [] && (slots[|slots| - 1] < t || Before(slots[..|slots| - 1], t))
  }

  lemma ReachedMore(past: seq<Uint64>, slot: Uint64, t: Uint64)
    ensures Reached(past + [slot], t) <==> Reached(past, t) || t <= slot
    ensures Before(past + [slot], t) <==> Before(past, t) || slot < t
  {
    assert (past + [slot])[..|past|] == past;
  }

  /** The slot is the first at or past t. */
  predicate First(past: seq<Uint64>, slot: Uint64, t: Uint64) {
    t <= slot && !Reached(past, t)
  }

  /** Send the event, if it is due. */
  function Send(sent: seq<Event>, due: bool, kind: int, isStateChange: bool, slot: Uint64): seq<Event> {
    if due then sent + [Event(kind, isStateChange, slot)] else sent
  }

  /** The events that one slot adds, by the slots that came before it: START, FINISH and
      CLOSE at the first slot that reaches them, as a state change if there was a slot
      before, and PRE_START at the first slot before the start. */
  function Tick(t: Times, past: seq<Uint64>, slot: Uint64, sent: seq<Event>): seq<Event> {
    Send(Send(Send(Send(sent,
      First(past, slot, t.start), EVENT_PERIOD_START, past != [], slot),
      slot < t.start && !Before(past, t.start), EVENT_PERIOD_PRE_START, true, slot),
      First(past, slot, t.finish), EVENT_PERIOD_FINISH, past != [], slot),
      First(past, slot, t.closeOut), EVENT_DELAY_CLOSE_PAYOUT, past != [], slot)
  }

  function Emitted(t: Times, slots: seq<Uint64>): seq<Event> {
    if slots == [] then []
    else
      var n := |slots| - 1;
      Tick(t, slots[..n], slots[n], Emitted(t, slots[..n]))
  }

  lemma EmittedMore(t: Times, past: seq<Uint64>, slot: Uint64)
    ensures Emitted(t, past + [slot]) == Tick(t, past, slot, Emitted(t, past))
  {
    assert (past + [slot])[..|past|] == past;
  }

  /** The clock went on reading for each of the slots. */
  predicate Ticking(t: Times, slots: seq<Uint64>) {
    slots != [] ==> !Reached(slots[..|slots| - 1], t.closeOut)
  }

  ghost predicate Ticked(t: Times, slots: seq<Uint64>, eventC: seq<Event>, clockPeriodPostC: seq<bool>) {
    && Ticking(t, slots)
    && eventC == Emitted(t, slots)
    && clockPeriodPostC == if Reached(slots, t.closeOut) then [|slots| > 1] else []
  }

  /** What the clock sends on its two channels, in order.  It reads the first taken slots. */
  method LoopClock(start: Uint64, length: Uint64, slots: seq<Uint64>)
    returns (eventC: seq<Event>, clockPeriodPostC: seq<bool>, taken: nat)
    ensures taken <= |slots| && Ticked(TimesOf(start, length), slots[..taken], eventC, clockPeriodPostC)
    ensures taken < |slots| ==> Reached(slots[..taken], TimesOf(start, length).closeOut)
    ensures 1 <= length && start + length + 99 < TWO_TO_THE_64 ==>
      TimesOf(start, length) == Times(start, start + length - 1, start + length + 99)
  {
    var finish := (start + length - 1) % TWO_TO_THE_64;
    var closeOut := (finish + PAYOUT_POST_FINISH_DELAY) % TWO_TO_THE_64;
    eventC, clockPeriodPostC, taken := Loop(start, finish, closeOut, slots);
  }

  method Loop(start: Uint64, finish: Uint64, closeOut: Uint64, slots: seq<Uint64>)
    returns (eventC: seq<Event>, clockPeriodPostC: seq<bool>, taken: nat)
    ensures taken <= |slots| && Ticked(Times(start, finish, closeOut), slots[..taken], eventC, clockPeriodPostC)
    ensures taken < |slots| ==> Reached(slots[..taken], closeOut)
  {
    eventC, clockPeriodPostC, taken := [], [], 0;
    var sentPreStart := false;
    var sentStart, isStartStateTransition := false, false;
    var sentFinish, isFinishStateTransition := false, false;
    var sentClose, isCloseStateTransition := false, false;
    ghost var t, past := Times(start, finish, closeOut), [];
    while !sentClose && taken < |slots|
      invariant taken <= |slots| && past == slots[..taken] && Ticking(t, past)
      invariant eventC == Emitted(t, past)
      invariant sentPreStart <==> Before(past, start)
      invariant sentStart <==> Reached(past, start)
      invariant sentFinish <==> Reached(past, finish)
      invariant sentClose <==> Reached(past, closeOut)
      invariant sentStart || (isStartStateTransition <==> past != [])
      invariant sentFinish || (isFinishStateTransition <==> past != [])
      invariant sentClose || (isCloseStateTransition <==> past != [])
      invariant clockPeriodPostC == if sentClose then [|past| > 1] else []
      decreases |slots| - taken
    {
      var slot := slots[taken];
      ReachedMore(past, slot, start);
      ReachedMore(past, slot, finish);
      ReachedMore(past, slot, closeOut);
      EmittedMore(t, past, slot);
      if !sentStart && start <= slot {
        sentStart := true;
        eventC := eventC + [Event(EVENT_PERIOD_START, isStartStateTransition, slot)];
      } else if !isStartStateTransition {
        isStartStateTransition := true;
      }
      if !sentPreStart && slot < start {
        sentPreStart := true;
        eventC := eventC + [Event(EVENT_PERIOD_PRE_START, true, slot)];
      }
      if !sentFinish && finish <= slot {
        sentFinish := true;
        eventC := eventC + [Event(EVENT_PERIOD_FINISH, isFinishStateTransition, slot)];
      } else if !isFinishStateTransition {
        isFinishStateTransition := true;
      }
      if !sentClose && closeOut <= slot {
        sentClose := true;
        eventC := eventC + [Event(EVENT_DELAY_CLOSE_PAYOUT, isCloseStateTransition, slot)];
        clockPeriodPostC := clockPeriodPostC + [isCloseStateTransition];
      } else if !isCloseStateTransition {
        isCloseStateTransition := true;
      }
      taken, past := taken + 1, past + [slot];
    }
  }
}
