/** What the clock's events say of the slots, for every sequence of slots. */
module ClockTheory {
  import opened Schedule
  import opened Clock

  /** The slots never decrease. */
  predicate Rising(slots: seq<Uint64>) {
    forall i, j :: 0 <= i < j < |slots| ==> slots[i] <= slots[j]
  }

  /** An event of kind a may be sent some time before one of kind b. */
  predicate MayPrecede(t: Times, rising: bool, a: int, b: int) {
    && a != b
    && (a == EVENT_PERIOD_FINISH && b == EVENT_PERIOD_START ==> t.finish < t.start)
    && (a == EVENT_DELAY_CLOSE_PAYOUT && b == EVENT_PERIOD_START ==> t.closeOut < t.start)
    && (a == EVENT_DELAY_CLOSE_PAYOUT && b == EVENT_PERIOD_FINISH ==> t.closeOut < t.finish)
    && (a == EVENT_PERIOD_START && b == EVENT_PERIOD_PRE_START ==> !rising)
    && (a == EVENT_PERIOD_FINISH && b == EVENT_PERIOD_PRE_START ==> !rising || t.finish < t.start)
    && (a == EVENT_DELAY_CLOSE_PAYOUT && b == EVENT_PERIOD_PRE_START ==> !rising || t.closeOut < t.start)
  }

  predicate InOrder(t: Times, rising: bool, sent: seq<Event>) {
    forall i, j :: 0 <= i < j < |sent| ==> MayPrecede(t, rising, sent[i].kind, sent[j].kind)
  }

  /** A kind that was sent says something of the slots that were read, and the other way around. */
  predicate Due(t: Times, slots: seq<Uint64>, kind: int) {
    || (kind == EVENT_PERIOD_START && Reached(slots, t.start))
    || (kind == EVENT_PERIOD_PRE_START && Before(slots, t.start))
    || (kind == EVENT_PERIOD_FINISH && Reached(slots, t.finish))
    || (kind == EVENT_DELAY_CLOSE_PAYOUT && Reached(slots, t.closeOut))
  }

  predicate Sent(sent: seq<Event>, kind: int) {
    exists e :: e in sent && e.kind == kind
  }

  lemma SendMore(sent: seq<Event>, due: bool, kind: int, isStateChange: bool, slot: Uint64, k: int)
    ensures Sent(Send(sent, due, kind, isStateChange, slot), k) <==> Sent(sent, k) || (due && k == kind)
  {
    if due {
      var e := Event(kind, isStateChange, slot);
      assert e in sent + [e];
      if x :| x in sent && x.kind == k {
        assert x in sent + [e];
      }
    }
  }

  lemma TickMore(t: Times, past: seq<Uint64>, slot: Uint64, sent: seq<Event>, k: int)
    requires Sent(sent, k) <==> Due(t, past, k)
    ensures Sent(Tick(t, past, slot, sent), k) <==> Due(t, past + [slot], k)
  {
    var a := Send(sent, First(past, slot, t.start), EVENT_PERIOD_START, past != [], slot);
    var b := Send(a, slot < t.start && !Before(past, t.start), EVENT_PERIOD_PRE_START, true, slot);
    var c := Send(b, First(past, slot, t.finish), EVENT_PERIOD_FINISH, past != [], slot);
    SendMore(sent, First(past, slot, t.start), EVENT_PERIOD_START, past != [], slot, k);
    SendMore(a, slot < t.start && !Before(past, t.start), EVENT_PERIOD_PRE_START, true, slot, k);
    SendMore(b, First(past, slot, t.finish), EVENT_PERIOD_FINISH, past != [], slot, k);
    SendMore(c, First(past, slot, t.closeOut), EVENT_DELAY_CLOSE_PAYOUT, past != [], slot, k);
    ReachedMore(past, slot, t.start);
    ReachedMore(past, slot, t.finish);
    ReachedMore(past, slot, t.closeOut);
  }

  /** Each event is sent if and only if the slots call for it. */
  lemma {:induction false} SentWhenDue(t: Times, slots: seq<Uint64>, k: int)
    ensures Sent(Emitted(t, slots), k) <==> Due(t, slots, k)
  {
    if slots != [] {
      var past, slot := slots[..|slots| - 1], slots[|slots| - 1];
      SentWhenDue(t, past, k);
      TickMore(t, past, slot, Emitted(t, past), k);
      assert slots == past + [slot];
    }
  }

  lemma {:induction false} ReachedLess(slots: seq<Uint64>, a: Uint64, b: Uint64)
    requires a <= b && Reached(slots, b)
    ensures Reached(slots, a)
  {
    if slots[|slots| - 1] < b {
      ReachedLess(slots[..|slots| - 1], a, b);
    }
  }

  lemma {:induction false} ReachedBefore(slots: seq<Uint64>, t: Uint64)
    requires Reached(slots, t)
    ensures exists i :: 0 <= i < |slots| && t <= slots[i]
  {
    if slots[|slots| - 1] < t {
      ReachedBefore(slots[..|slots| - 1], t);
      var i :| 0 <= i < |slots| - 1 && t <= slots[..|slots| - 1][i];
      assert t <= slots[i];
    }
  }

  lemma SendInOrder(t: Times, rising: bool, sent: seq<Event>, due: bool, kind: int, isStateChange: bool, slot: Uint64)
    requires InOrder(t, rising, sent)
    requires due ==> forall k :: Sent(sent, k) ==> MayPrecede(t, rising, k, kind)
    ensures InOrder(t, rising, Send(sent, due, kind, isStateChange, slot))
  {
    if due {
      forall i | 0 <= i < |sent|
        ensures MayPrecede(t, rising, sent[i].kind, kind)
      {
        assert sent[i] in sent && Sent(sent, sent[i].kind);
      }
    }
  }

  /** Earlier slots that reached a later time have reached an earlier one; and when
      slots never decrease, none comes before the start once it was reached. */
  lemma PastReached(t: Times, past: seq<Uint64>, slot: Uint64)
    ensures t.start <= t.finish && Reached(past, t.finish) ==> Reached(past, t.start)
    ensures t.start <= t.closeOut && Reached(past, t.closeOut) ==> Reached(past, t.start)
    ensures t.finish <= t.closeOut && Reached(past, t.closeOut) ==> Reached(past, t.finish)
    ensures Rising(past + [slot]) && Reached(past, t.start) ==> t.start <= slot
  {
    if t.start <= t.finish && Reached(past, t.finish) {
      ReachedLess(past, t.start, t.finish);
    }
    if t.start <= t.closeOut && Reached(past, t.closeOut) {
      ReachedLess(past, t.start, t.closeOut);
    }
    if t.finish <= t.closeOut && Reached(past, t.closeOut) {
      ReachedLess(past, t.finish, t.closeOut);
    }
    if Rising(past + [slot]) && Reached(past, t.start) {
      ReachedBefore(past, t.start);
      var i :| 0 <= i < |past| && t.start <= past[i];
      assert (past + [slot])[i] <= (past + [slot])[|past|];
    }
  }

  lemma TickInOrder(t: Times, past: seq<Uint64>, slot: Uint64, sent: seq<Event>)
    requires InOrder(t, Rising(past + [slot]), sent) && forall k :: Sent(sent, k) <==> Due(t, past, k)
    ensures InOrder(t, Rising(past + [slot]), Tick(t, past, slot, sent))
  {
    PastReached(t, past, slot);
    var rising := Rising(past + [slot]);
    var start, finish := First(past, slot, t.start), First(past, slot, t.finish);
    var pre := slot < t.start && !Before(past, t.start);
    var a := Send(sent, start, EVENT_PERIOD_START, past != [], slot);
    var b := Send(a, pre, EVENT_PERIOD_PRE_START, true, slot);
    var c := Send(b, finish, EVENT_PERIOD_FINISH, past != [], slot);
    forall k
      ensures Sent(a, k) <==> Due(t, past, k) || (start && k == EVENT_PERIOD_START)
      ensures Sent(b, k) <==> Sent(a, k) || (pre && k == EVENT_PERIOD_PRE_START)
      ensures Sent(c, k) <==> Sent(b, k) || (finish && k == EVENT_PERIOD_FINISH)
    {
      SendMore(sent, start, EVENT_PERIOD_START, past != [], slot, k);
      SendMore(a, pre, EVENT_PERIOD_PRE_START, true, slot, k);
      SendMore(b, finish, EVENT_PERIOD_FINISH, past != [], slot, k);
    }
    SendInOrder(t, rising, sent, start, EVENT_PERIOD_START, past != [], slot);
    SendInOrder(t, rising, a, pre, EVENT_PERIOD_PRE_START, true, slot);
    SendInOrder(t, rising, b, finish, EVENT_PERIOD_FINISH, past != [], slot);
    SendInOrder(t, rising, c, First(past, slot, t.closeOut), EVENT_DELAY_CLOSE_PAYOUT, past != [], slot);
  }

  /** Main result on order: for every sequence of slots, even one that goes backwards,
      no kind is sent twice, and START, FINISH and CLOSE are sent in that order as far
      as the times are; when slots never decrease, PRE_START comes before START, and before
      the others unless their times are before the start. */
  lemma {:induction false} ClockOrder(t: Times, slots: seq<Uint64>)
    ensures InOrder(t, Rising(slots), Emitted(t, slots))
  {
    if slots != [] {
      var past, slot := slots[..|slots| - 1], slots[|slots| - 1];
      assert slots == past + [slot];
      ClockOrder(t, past);
      assert Rising(slots) ==> Rising(past);
      forall k
        ensures Sent(Emitted(t, past), k) <==> Due(t, past, k)
      {
        SentWhenDue(t, past, k);
      }
      TickInOrder(t, past, slot, Emitted(t, past));
    }
  }

  /** Event e was sent at slot n, the first to reach t, and marks a state change exactly
      if there was a slot before. */
  predicate SentAt(slots: seq<Uint64>, t: Uint64, e: Event, n: nat) {
    n < |slots| && e.slot == slots[n] && First(slots[..n], slots[n], t) && (e.isStateChange <==> n > 0)
  }

  function Threshold(t: Times, kind: int): Uint64 {
    if kind == EVENT_PERIOD_START then t.start
    else if kind == EVENT_PERIOD_FINISH then t.finish
    else t.closeOut
  }

  lemma {:induction false} StateChangeWhenSeenBefore(t: Times, slots: seq<Uint64>, e: Event)
    requires e in Emitted(t, slots) && e.kind != EVENT_PERIOD_PRE_START
    ensures exists n: nat :: SentAt(slots, Threshold(t, e.kind), e, n)
  {
    var k := |slots| - 1;
    if e in Emitted(t, slots[..k]) {
      StateChangeWhenSeenBefore(t, slots[..k], e);
      var n: nat :| SentAt(slots[..k], Threshold(t, e.kind), e, n);
      assert slots[..k][..n] == slots[..n];
      assert SentAt(slots, Threshold(t, e.kind), e, n);
    } else {
      assert SentAt(slots, Threshold(t, e.kind), e, k);
    }
  }

  /** Slot n is the first before t. */
  predicate FirstBefore(slots: seq<Uint64>, t: Uint64, n: nat) {
    n < |slots| && slots[n] < t && forall m :: 0 <= m < n ==> t <= slots[m]
  }

  lemma {:induction false} NotBefore(slots: seq<Uint64>, t: Uint64)
    ensures Before(slots, t) <==> exists i :: 0 <= i < |slots| && slots[i] < t
    ensures Reached(slots, t) <==> exists i :: 0 <= i < |slots| && t <= slots[i]
  {
    if slots != [] {
      var k := |slots| - 1;
      NotBefore(slots[..k], t);
      assert forall i :: 0 <= i < k ==> slots[..k][i] == slots[i];
    }
  }

  /** PRE_START is sent at the first slot before the start, always as a state change. */
  lemma {:induction false} PreStartIsStateChange(t: Times, slots: seq<Uint64>, e: Event)
    requires e in Emitted(t, slots) && e.kind == EVENT_PERIOD_PRE_START
    ensures e.isStateChange && exists n: nat :: FirstBefore(slots, t.start, n) && e.slot == slots[n]
  {
    var k := |slots| - 1;
    if e in Emitted(t, slots[..k]) {
      PreStartIsStateChange(t, slots[..k], e);
      var n: nat :| FirstBefore(slots[..k], t.start, n) && e.slot == slots[..k][n];
      assert FirstBefore(slots, t.start, n);
    } else {
      NotBefore(slots[..k], t.start);
      assert forall m :: 0 <= m < k ==> slots[..k][m] == slots[m];
      assert FirstBefore(slots, t.start, k);
    }
  }

  /** The times, as far as they are not cut to 64 bits; a sum that is too large is 2 to the 64 less. */
  lemma {:induction false} TimesOfPeriod(start: Uint64, length: Uint64)
    ensures TimesOf(start, length).start == start
    ensures 1 <= start + length <= TWO_TO_THE_64 ==> TimesOf(start, length).finish == start + length - 1
    ensures TWO_TO_THE_64 < start + length ==> TimesOf(start, length).finish == start + length - 1 - TWO_TO_THE_64
    ensures start + length == 0 ==> TimesOf(start, length).finish == TWO_TO_THE_64 - 1
    ensures var t := TimesOf(start, length);
      t.closeOut == if t.finish + 100 < TWO_TO_THE_64 then t.finish + 100 else t.finish + 100 - TWO_TO_THE_64
  {
  }

  /** One of the slots is at or past n, as a number of any size. */
  ghost predicate Past(slots: seq<Uint64>, n: int) {
    exists i :: 0 <= i < |slots| && n <= slots[i]
  }

  /** The clock is on time: unless a sum is too large, START is sent once the period's first slot
      was reached, FINISH once its last one was, and CLOSE 100 slots later. */
  lemma {:induction false} ClockOnTime(start: Uint64, length: Uint64, slots: seq<Uint64>)
    requires 1 <= length && start + length + 99 < TWO_TO_THE_64
    ensures var sent := Emitted(TimesOf(start, length), slots);
      && (Sent(sent, EVENT_PERIOD_PRE_START) <==> exists i :: 0 <= i < |slots| && slots[i] < start)
      && (Sent(sent, EVENT_PERIOD_START) <==> Past(slots, start))
      && (Sent(sent, EVENT_PERIOD_FINISH) <==> Past(slots, start + length - 1))
      && (Sent(sent, EVENT_DELAY_CLOSE_PAYOUT) <==> Past(slots, start + length + 99))
  {
    var t := TimesOf(start, length);
    TimesOfPeriod(start, length);
    NotBefore(slots, t.start);
    NotBefore(slots, t.finish);
    NotBefore(slots, t.closeOut);
    SentWhenDue(t, slots, EVENT_PERIOD_PRE_START);
    SentWhenDue(t, slots, EVENT_PERIOD_START);
    SentWhenDue(t, slots, EVENT_PERIOD_FINISH);
    SentWhenDue(t, slots, EVENT_DELAY_CLOSE_PAYOUT);
  }

  /** The clock ends exactly after CLOSE, its last event. */
  lemma CloseIsLast(t: Times, slots: seq<Uint64>)
    requires Ticking(t, slots)
    ensures Sent(Emitted(t, slots), EVENT_DELAY_CLOSE_PAYOUT) <==> Reached(slots, t.closeOut)
    ensures Reached(slots, t.closeOut) ==>
      var sent := Emitted(t, slots); sent != [] && sent[|sent| - 1].kind == EVENT_DELAY_CLOSE_PAYOUT
  {
    SentWhenDue(t, slots, EVENT_DELAY_CLOSE_PAYOUT);
  }

  /** START, FINISH and CLOSE come one after the other, and none without the ones before. */
  predicate Consecutive(sent: seq<Event>) {
    && (forall j :: 0 <= j < |sent| && sent[j].kind == EVENT_PERIOD_FINISH ==> Sent(sent[..j], EVENT_PERIOD_START))
    && (forall j :: 0 <= j < |sent| && sent[j].kind == EVENT_DELAY_CLOSE_PAYOUT ==> Sent(sent[..j], EVENT_PERIOD_FINISH))
  }

  lemma SentEarlier(t: Times, slots: seq<Uint64>, j: nat, kind: int)
    requires j < |Emitted(t, slots)| && Due(t, slots, kind)
    requires Emitted(t, slots)[j].kind != kind && !MayPrecede(t, false, Emitted(t, slots)[j].kind, kind)
    ensures Sent(Emitted(t, slots)[..j], kind)
  {
    var sent := Emitted(t, slots);
    SentWhenDue(t, slots, kind);
    ClockOrder(t, slots);
    var e :| e in sent && e.kind == kind;
    var i :| 0 <= i < |sent| && sent[i] == e;
    assert InOrder(t, false, sent);
    assert i < j;
    assert sent[..j][i] in sent[..j];
  }

  lemma TimesInOrder(t: Times, slots: seq<Uint64>)
    requires t.start <= t.finish <= t.closeOut
    ensures Consecutive(Emitted(t, slots))
  {
    var sent := Emitted(t, slots);
    PastReached(t, slots, 0);
    forall j | 0 <= j < |sent|
      ensures sent[j].kind == EVENT_PERIOD_FINISH ==> Sent(sent[..j], EVENT_PERIOD_START)
      ensures sent[j].kind == EVENT_DELAY_CLOSE_PAYOUT ==> Sent(sent[..j], EVENT_PERIOD_FINISH)
    {
      assert sent[j] in sent;
      SentWhenDue(t, slots, sent[j].kind);
      if sent[j].kind == EVENT_PERIOD_FINISH {
        SentEarlier(t, slots, j, EVENT_PERIOD_START);
      } else if sent[j].kind == EVENT_DELAY_CLOSE_PAYOUT {
        SentEarlier(t, slots, j, EVENT_PERIOD_FINISH);
      }
    }
  }

  /** One slot that reaches a later event's time before an earlier one's. */
  lemma OneSlotOutOfOrder(t: Times, slot: Uint64)
    requires slot == t.finish < t.start || slot == t.closeOut < t.finish
    ensures !Consecutive(Emitted(t, [slot]))
  {
    var sent := Emitted(t, [slot]);
    var late := if slot == t.finish < t.start then EVENT_PERIOD_FINISH else EVENT_DELAY_CLOSE_PAYOUT;
    var early := if slot == t.finish < t.start then EVENT_PERIOD_START else EVENT_PERIOD_FINISH;
    assert Reached([slot], slot) && !Reached([slot], if slot == t.finish < t.start then t.start else t.finish);
    SentWhenDue(t, [slot], late);
    SentWhenDue(t, [slot], early);
    var e :| e in sent && e.kind == late;
    var j :| 0 <= j < |sent| && sent[j] == e;
    if x :| x in sent[..j] && x.kind == early {
      assert x in sent;
    }
  }

  /** The three events come in order for every sequence of slots if and only if the
      times do. */
  lemma OrderIffTimes(t: Times)
    ensures (forall slots :: Consecutive(Emitted(t, slots))) <==> t.start <= t.finish <= t.closeOut
  {
    if t.start <= t.finish <= t.closeOut {
      forall slots
        ensures Consecutive(Emitted(t, slots))
      {
        TimesInOrder(t, slots);
      }
    } else if t.finish < t.start {
      OneSlotOutOfOrder(t, t.finish);
    } else {
      OneSlotOutOfOrder(t, t.closeOut);
    }
  }

  /** So they do if and only if the period is not empty and no sum wraps around. */
  lemma OrderIffNoWrap(start: Uint64, length: Uint64)
    ensures (forall slots :: Consecutive(Emitted(TimesOf(start, length), slots)))
            <==> 1 <= length && start + length + 99 < TWO_TO_THE_64
  {
    OrderIffTimes(TimesOf(start, length));
  }
}
