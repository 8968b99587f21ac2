/** What schedules are made of: events, and triggers, which are events that ask for
    a transaction.  Any number can be a kind. */
module Schedule {
  const THRESH := 1000

  const EVENT_PERIOD_PRE_START := 0
  const EVENT_PERIOD_START := 1
  const EVENT_PERIOD_FINISH := 2
  const EVENT_DELAY_CLOSE_PAYOUT := 3
  const EVENT_BID_CLOSED := 4
  const EVENT_BID_FINAL := 5
  const EVENT_VALIDATOR_IS_ADDING := 6
  const EVENT_VALIDATOR_HAVE_WITHDRAWN := 7
  const EVENT_STAKER_IS_ADDING := 8
  const EVENT_STAKER_HAVE_WITHDRAWN := 9
  const TRIGGER_CRANK := THRESH + 1
  const TRIGGER_CLOSE_BIDS := THRESH + 2
  const TRIGGER_CLOSE_PAYOUT := THRESH + 3
  const TRIGGER_VALIDATOR_SET_PAYOUT := THRESH + 4
  const TRIGGER_VALIDATOR_WITHDRAW_RECEIPT := THRESH + 5

  datatype Event = Event(kind: int, isStateChange: bool, slot: nat) {
    predicate IsTrigger() {
      THRESH <= kind
    }
  }

  function Trigger(kind: int): Event {
    Event(kind, true, 0)
  }
}
