/** What the watcher's flags and events say of the account it watched. */
module WatcherTheory {
  import opened Schedule
  import opened Clock
  import opened Watcher
  import ClockTheory

  /** The states of the account that were seen, the first one included. */
  function Seen(d: Data, inputs: seq<Input>): (r: seq<Data>)
    ensures r != [] && r[0] == d
  {
    if inputs == [] then [d]
    else
      var before, x := Seen(d, inputs[..|inputs| - 1]), inputs[|inputs| - 1];
      if x.NewData? then before + [x.data] else before
  }

  /** In one of the states the bids were closed. */
  predicate Closed(ds: seq<Data>) {
    exists i :: 0 <= i < |ds| && ds[i].bids == 0
  }

  /** In one of them there were validators. */
  predicate Added(ds: seq<Data>) {
    exists i :: 0 <= i < |ds| && 0 < ds[i].validatorCount
  }

  /** There were validators, and later none. */
  predicate Returned(ds: seq<Data>) {
    exists i, j :: 0 <= i < j < |ds| && 0 < ds[i].validatorCount && ds[j].validatorCount == 0
  }

  predicate Posted(inputs: seq<Input>) {
    exists k :: 0 <= k < |inputs| && inputs[k].Post?
  }

  /** When the clock's note first came, no validator had been seen. */
  predicate PostedBeforeAny(d: Data, inputs: seq<Input>) {
    exists k :: 0 <= k < |inputs| && inputs[k].Post? && !Posted(inputs[..k]) && !Added(Seen(d, inputs[..k]))
  }

  /** Input k is the clock's first note, and no validator had been seen. */
  predicate PostsAt(d: Data, inputs: seq<Input>, k: nat) {
    k < |inputs| && inputs[k].Post? && !Posted(inputs[..k]) && !Added(Seen(d, inputs[..k]))
  }

  /** No kind was sent twice. */
  predicate Once(sent: seq<Event>) {
    forall i, j :: 0 <= i < j < |sent| ==> sent[i].kind != sent[j].kind
  }

  /** The kinds that were sent tell the flags, and the other way around. */
  ghost predicate Sends(w: Watch, atFirst: Data) {
    && Once(w.sent)
    && (forall k :: ClockTheory.Sent(w.sent, k) <==>
         || (k == EVENT_BID_CLOSED && w.bidsAreClosed)
         || (k == EVENT_VALIDATOR_IS_ADDING && w.validatorHasAdded && atFirst.validatorCount == 0)
         || (k == EVENT_VALIDATOR_HAVE_WITHDRAWN && w.validatorHasWithdrawn))
  }

  lemma SendOnce(sent: seq<Event>, due: bool, kind: int, isStateChange: bool)
    requires Once(sent) && (due ==> !ClockTheory.Sent(sent, kind))
    ensures Once(Send(sent, due, kind, isStateChange, 0))
    ensures forall k :: ClockTheory.Sent(Send(sent, due, kind, isStateChange, 0), k) <==>
      ClockTheory.Sent(sent, k) || (due && k == kind)
  {
    forall k
      ensures ClockTheory.Sent(Send(sent, due, kind, isStateChange, 0), k) <==>
        ClockTheory.Sent(sent, k) || (due && k == kind)
    {
      ClockTheory.SendMore(sent, due, kind, isStateChange, 0, k);
    }
    forall i | 0 <= i < |sent|
      ensures due ==> sent[i].kind != kind
    {
      assert sent[i] in sent;
    }
  }

  lemma ReactSends(w: Watch, x: Input, atFirst: Data)
    requires Sends(w, atFirst) && (0 < atFirst.validatorCount ==> w.validatorHasAdded)
    requires w.validatorHasWithdrawn ==> w.validatorHasAdded || w.postDelayClockPast
    ensures Sends(React(w, x), atFirst)
  {
    match x
    case NewData(d) =>
      var closes := !w.bidsAreClosed && d.bids == 0;
      var adds := !w.validatorHasAdded && 0 < d.validatorCount;
      var withdraws := w.validatorHasAdded && !w.validatorHasWithdrawn && d.validatorCount == 0;
      SendOnce(w.sent, closes, EVENT_BID_CLOSED, true);
      var a := Send(w.sent, closes, EVENT_BID_CLOSED, true, 0);
      SendOnce(a, adds, EVENT_VALIDATOR_IS_ADDING, true);
      var b := Send(a, adds, EVENT_VALIDATOR_IS_ADDING, true, 0);
      SendOnce(b, withdraws, EVENT_VALIDATOR_HAVE_WITHDRAWN, true);
    case Post(isStateTransition) =>
      var withdraws := !w.validatorHasAdded && w.newData.validatorCount == 0 && !w.postDelayClockPast;
      SendOnce(w.sent, withdraws, EVENT_VALIDATOR_HAVE_WITHDRAWN, isStateTransition);
  }

  lemma SeenMore(ds: seq<Data>, d: Data)
    ensures Closed(ds + [d]) <==> Closed(ds) || d.bids == 0
    ensures Added(ds + [d]) <==> Added(ds) || 0 < d.validatorCount
    ensures Returned(ds + [d]) <==> Returned(ds) || (Added(ds) && d.validatorCount == 0)
  {
    var more := ds + [d];
    assert more[|ds|] == d && forall i :: 0 <= i < |ds| ==> more[i] == ds[i];
    if Closed(ds) {
      var i :| 0 <= i < |ds| && ds[i].bids == 0;
      assert more[i].bids == 0;
    }
    if i :| 0 <= i < |ds| && 0 < ds[i].validatorCount {
      assert 0 < more[i].validatorCount;
    }
    if Returned(ds) {
      var i, j :| 0 <= i < j < |ds| && 0 < ds[i].validatorCount && ds[j].validatorCount == 0;
      assert 0 < more[i].validatorCount && more[j].validatorCount == 0;
    }
  }

  lemma PostedMore(d: Data, inputs: seq<Input>, x: Input)
    ensures Posted(inputs + [x]) <==> Posted(inputs) || x.Post?
    ensures PostedBeforeAny(d, inputs + [x]) <==>
      PostedBeforeAny(d, inputs) || (x.Post? && !Posted(inputs) && !Added(Seen(d, inputs)))
  {
    var more, n := inputs + [x], |inputs|;
    assert more[n] == x && more[..n] == inputs;
    assert forall k :: 0 <= k < n ==> more[k] == inputs[k] && more[..k] == inputs[..k];
    if k :| 0 <= k < n && inputs[k].Post? {
      assert more[k].Post?;
    }
    if PostedBeforeAny(d, inputs) {
      var k :| 0 <= k < n && inputs[k].Post? && !Posted(inputs[..k]) && !Added(Seen(d, inputs[..k]));
      assert more[k].Post? && !Posted(more[..k]) && !Added(Seen(d, more[..k]));
    }
  }

  /** Main result on the watcher, for every first state of the account and all inputs in
      any order: what each flag says. */
  lemma {:induction false} WatchedTells(d: Data, inputs: seq<Input>)
    ensures var w, ds := Watched(d, inputs), Seen(d, inputs);
      && w.newData == ds[|ds| - 1]
      && (w.bidsAreClosed <==> Closed(ds))
      && (w.validatorHasAdded <==> Added(ds))
      && (w.postDelayClockPast <==> Posted(inputs))
      && (w.validatorHasWithdrawn <==> Returned(ds) || PostedBeforeAny(d, inputs))
  {
    if inputs == [] {
      assert [d][0] == d;
    } else {
      var past, x := inputs[..|inputs| - 1], inputs[|inputs| - 1];
      assert inputs == past + [x];
      WatchedTells(d, past);
      PostedMore(d, past, x);
      SeenMore(Seen(d, past), if x.NewData? then x.data else d);
      NoneAdded(Seen(d, past));
    }
  }

  lemma NoneAdded(ds: seq<Data>)
    requires ds != []
    ensures !Added(ds) ==> ds[|ds| - 1].validatorCount == 0
    ensures 0 < ds[0].validatorCount || Returned(ds) ==> Added(ds)
  {
    if 0 < ds[0].validatorCount {
      assert Added(ds);
    }
    if Returned(ds) {
      var i, j :| 0 <= i < j < |ds| && 0 < ds[i].validatorCount && ds[j].validatorCount == 0;
      assert 0 < ds[i].validatorCount;
    }
  }

  /** And the events: each is sent once, exactly when its flag is set, and
      VALIDATOR_IS_ADDING only if there was no validator at first. */
  lemma {:induction false} WatchedSends(d: Data, inputs: seq<Input>)
    ensures Sends(Watched(d, inputs), d)
  {
    WatchedTells(d, inputs);
    if inputs == [] {
      SendOnce([], d.bids == 0, EVENT_BID_CLOSED, false);
    } else {
      var past, x := inputs[..|inputs| - 1], inputs[|inputs| - 1];
      WatchedSends(d, past);
      WatchedTells(d, past);
      NoneAdded(Seen(d, past));
      PostedMore(d, past, x);
      ReactSends(Watched(d, past), x, d);
    }
  }

  /** What an event says besides its kind: it marks a state change, but for bids that were closed
      at first, and for a withdrawal on the clock's note, which repeats what the note says. */
  ghost predicate Marked(d: Data, inputs: seq<Input>, e: Event) {
    && e.slot == 0
    && (e.kind == EVENT_BID_CLOSED ==> (e.isStateChange <==> d.bids != 0))
    && (e.kind == EVENT_VALIDATOR_IS_ADDING ==> e.isStateChange)
    && (e.kind == EVENT_VALIDATOR_HAVE_WITHDRAWN ==>
         if PostedBeforeAny(d, inputs) then exists k: nat :: PostsAt(d, inputs, k) && e.isStateChange == inputs[k].isStateTransition
         else e.isStateChange)
  }

  lemma {:induction false} MarkedStill(d: Data, inputs: seq<Input>, x: Input, e: Event)
    requires Marked(d, inputs, e)
    requires e.kind == EVENT_VALIDATOR_HAVE_WITHDRAWN ==> Added(Seen(d, inputs)) || Posted(inputs)
    ensures Marked(d, inputs + [x], e)
  {
    PostedMore(d, inputs, x);
    if e.kind == EVENT_VALIDATOR_HAVE_WITHDRAWN && PostedBeforeAny(d, inputs) {
      var k: nat :| PostsAt(d, inputs, k) && e.isStateChange == inputs[k].isStateTransition;
      assert (inputs + [x])[..k] == inputs[..k] && (inputs + [x])[k] == inputs[k];
      assert PostsAt(d, inputs + [x], k);
    }
  }

  lemma {:induction false} NewIsMarked(d: Data, inputs: seq<Input>, x: Input, e: Event)
    requires e in React(Watched(d, inputs), x).sent && e !in Watched(d, inputs).sent
    ensures Marked(d, inputs + [x], e)
  {
    WatchedTells(d, inputs);
    NoneAdded(Seen(d, inputs));
    PostedMore(d, inputs, x);
    assert (inputs + [x])[..|inputs|] == inputs && (inputs + [x])[|inputs|] == x;
    assert Seen(d, inputs)[0] == d;
    if x.Post? {
      assert PostsAt(d, inputs + [x], |inputs|);
    }
  }

  lemma {:induction false} WatchedIsMarked(d: Data, inputs: seq<Input>, e: Event)
    requires e in Watched(d, inputs).sent
    ensures Marked(d, inputs, e)
  {
    if inputs != [] {
      var past, x := inputs[..|inputs| - 1], inputs[|inputs| - 1];
      assert inputs == past + [x];
      if e in Watched(d, past).sent {
        WatchedIsMarked(d, past, e);
        WatchedSends(d, past);
        WatchedTells(d, past);
        NoneAdded(Seen(d, past));
        assert ClockTheory.Sent(Watched(d, past).sent, e.kind);
        PostedIsPosted(d, past);
        MarkedStill(d, past, x, e);
      } else {
        NewIsMarked(d, past, x, e);
      }
    }
  }

  lemma {:induction false} PostedIsPosted(d: Data, inputs: seq<Input>)
    ensures PostedBeforeAny(d, inputs) ==> Posted(inputs)
  {
  }

  ghost predicate ClosedFirst(before: seq<Event>, after: seq<Event>) {
    && before <= after && |after| <= |before| + 2
    && forall j :: |before| < j < |after| ==> after[j].kind != EVENT_BID_CLOSED
  }

  lemma {:induction false} ReactInOrder(w: Watch, x: Input)
    ensures ClosedFirst(w.sent, React(w, x).sent)
  {
  }

  lemma {:induction false} WatchedMore(d: Data, inputs: seq<Input>, n: nat)
    requires n < |inputs|
    ensures Watched(d, inputs[..n + 1]) == React(Watched(d, inputs[..n]), inputs[n])
  {
    assert inputs[..n + 1][..n] == inputs[..n];
  }

  lemma {:induction false} SentGrows(d: Data, inputs: seq<Input>, n: nat)
    requires n <= |inputs|
    ensures Watched(d, inputs[..n]).sent <= Watched(d, inputs).sent
    decreases |inputs| - n
  {
    if n < |inputs| {
      WatchedMore(d, inputs, n);
      ReactInOrder(Watched(d, inputs[..n]), inputs[n]);
      SentGrows(d, inputs, n + 1);
    } else {
      assert inputs[..n] == inputs;
    }
  }

  /** The order of the events: those of an earlier input come first, and of the events of one
      input BID_CLOSED is the first. */
  lemma {:induction false} WatchedInOrder(d: Data, inputs: seq<Input>, n: nat)
    requires n < |inputs|
    ensures ClosedFirst(Watched(d, inputs[..n]).sent, Watched(d, inputs[..n + 1]).sent)
    ensures Watched(d, inputs[..n + 1]).sent <= Watched(d, inputs).sent
  {
    WatchedMore(d, inputs, n);
    ReactInOrder(Watched(d, inputs[..n]), inputs[n]);
    SentGrows(d, inputs, n + 1);
  }
}
