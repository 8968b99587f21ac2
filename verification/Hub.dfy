/** The publish/subscribe hub: bounded queues, disconnection on overflow, one
    error per subscriber. */
module Hub {
  import opened Wrappers

  /** What a subscriber's error channel can carry: nil, or the complaint that its queue is full. */
  datatype Err = Nil | Full

  /** What happens to one subscriber: a broadcast, a replayed value, a read by the
      subscriber, its removal by Delete or Close. */
  datatype Event<+T> = Cast(v: T) | Replay(v: T) | Take | Leave

  /** All that was ever put on the stream, how much of it was read, and the one
      error sent, if any; a subscriber is registered until then. */
  datatype State<+T> = State(put: seq<T>, taken: nat, told: Option<Err>)

  function Room<T>(cap: nat, s: State<T>): bool {
    |s.put| - s.taken < cap
  }

  function Step<T>(cap: nat, filter: T -> bool, s: State<T>, e: Event<T>): State<T> {
    match e
    case Cast(v) =>
      if s.told.Some? || !filter(v) then s
      else if Room(cap, s) then s.(put := s.put + [v])
      else s.(told := Some(Full))
    case Replay(v) => if Room(cap, s) then s.(put := s.put + [v]) else s
    case Take => if s.taken < |s.put| then s.(taken := s.taken + 1) else s
    case Leave => if s.told.None? then s.(told := Some(Nil)) else s
  }

  /** One subscriber's whole story. */
  function Run<T>(cap: nat, filter: T -> bool, log: seq<Event<T>>): State<T> {
    if log == [] then State([], 0, None)
    else Step(cap, filter, Run(cap, filter, log[..|log| - 1]), log[|log| - 1])
  }

  lemma RunStep<T>(cap: nat, filter: T -> bool, log: seq<Event<T>>, e: Event<T>)
    ensures Run(cap, filter, log + [e]) == Step(cap, filter, Run(cap, filter, log), e)
  {
    assert (log + [e])[..|log|] == log;
  }

  /** The broadcasts that pass the filter. */
  function Offered<T>(filter: T -> bool, log: seq<Event<T>>): seq<T> {
    if log == [] then []
    else
      var e, before := log[|log| - 1], Offered(filter, log[..|log| - 1]);
      if e.Cast? && filter(e.v) then before + [e.v] else before
  }

  /** The values the hub's owner replays to a new subscriber before any broadcast. */
  function Replayed<T>(log: seq<Event<T>>): seq<T> {
    if log == [] then []
    else
      var e, before := log[|log| - 1], Replayed(log[..|log| - 1]);
      if e.Replay? then before + [e.v] else before
  }

  lemma ReplayedStep<T>(log: seq<Event<T>>, e: Event<T>)
    ensures Replayed(log + [e]) == if e.Replay? then Replayed(log) + [e.v] else Replayed(log)
  {
    assert (log + [e])[..|log|] == log;
  }

  ghost predicate NoReplay<T>(log: seq<Event<T>>) {
    forall i :: 0 <= i < |log| ==> !log[i].Replay?
  }

  ghost predicate OnlyReplay<T>(log: seq<Event<T>>) {
    forall i :: 0 <= i < |log| ==> log[i].Replay? || log[i].Take?
  }

  /** The queue never holds more than it may, and no more is read than was put. */
  lemma {:induction false} QueueIsBounded<T>(cap: nat, filter: T -> bool, log: seq<Event<T>>)
    ensures var s := Run(cap, filter, log); s.taken <= |s.put| <= s.taken + cap
  {
    if log != [] {
      QueueIsBounded(cap, filter, log[..|log| - 1]);
    }
  }

  /** A value finds no room exactly if as many values wait to be read as the queue can hold. */
  lemma {:induction false} NoRoomIff<T>(cap: nat, filter: T -> bool, log: seq<Event<T>>)
    ensures var s := Run(cap, filter, log); !Room(cap, s) <==> |s.put| == s.taken + cap
  {
    QueueIsBounded(cap, filter, log);
  }

  /** A read takes the oldest value that waits, if there is one, and leaves the others; nothing
      else takes a value. */
  lemma {:induction false} ReadsTakeOne<T>(cap: nat, filter: T -> bool, log: seq<Event<T>>, e: Event<T>)
    ensures var s, s' := Run(cap, filter, log), Run(cap, filter, log + [e]);
      && s.taken <= |s.put| && s'.taken <= |s'.put| && s.put <= s'.put
      && (e.Take? ==> s'.put == s.put && s'.put[s'.taken..] == if s.put[s.taken..] == [] then [] else s.put[s.taken..][1..])
      && (!e.Take? ==> s'.taken == s.taken)
  {
    RunStep(cap, filter, log, e);
    QueueIsBounded(cap, filter, log);
    QueueIsBounded(cap, filter, log + [e]);
  }

  /** The error is sent at most once and never changes; after it nothing more is cast to the stream. */
  lemma {:induction false} ErrorIsFinal<T>(cap: nat, filter: T -> bool, log: seq<Event<T>>, later: seq<Event<T>>)
    requires Run(cap, filter, log).told.Some? && NoReplay(later)
    ensures Run(cap, filter, log + later).told == Run(cap, filter, log).told
    ensures Run(cap, filter, log + later).put == Run(cap, filter, log).put
  {
    if later != [] {
      var n := |later| - 1;
      ErrorIsFinal(cap, filter, log, later[..n]);
      assert (log + later)[..|log| + n] == log + later[..n];
    } else {
      assert log + later == log;
    }
  }

  /** After what came first, event n ended the subscription: it had been put all that was
      offered until then, and it left by a nil error, or by one that says its queue was
      full when a value came that it should have had. */
  ghost predicate EndedAfter<T>(cap: nat, filter: T -> bool, first: seq<Event<T>>, later: seq<Event<T>>, n: nat) {
    && n < |later|
    && Run(cap, filter, first + later[..n]).told.None?
    && Run(cap, filter, first + later).put == Run(cap, filter, first).put + Offered(filter, later[..n])
    && match later[n]
       case Leave => Run(cap, filter, first + later).told == Some(Nil)
       case Cast(v) =>
         && filter(v) && !Room(cap, Run(cap, filter, first + later[..n]))
         && Run(cap, filter, first + later).told == Some(Full)
       case _ => false
  }

  lemma {:induction false} EndedStays<T>(cap: nat, filter: T -> bool, first: seq<Event<T>>, later: seq<Event<T>>, x: Event<T>, n: nat)
    requires EndedAfter(cap, filter, first, later, n) && !x.Replay?
    ensures EndedAfter(cap, filter, first, later + [x], n)
  {
    assert (later + [x])[..n] == later[..n] && (later + [x])[n] == later[n];
    assert first + (later + [x]) == (first + later) + [x];
    RunStep(cap, filter, first + later, x);
  }

  /** After what came first, a subscriber that is registered was put every broadcast that passed
      its filter, and one that is not was put all of them up to the event that ended it. */
  ghost predicate Gapless<T>(cap: nat, filter: T -> bool, first: seq<Event<T>>, later: seq<Event<T>>) {
    var s := Run(cap, filter, first + later);
    && (s.told.None? ==> s.put == Run(cap, filter, first).put + Offered(filter, later))
    && (s.told.Some? ==> exists n: nat :: EndedAfter(cap, filter, first, later, n))
  }

  lemma {:induction false} GaplessMore<T>(cap: nat, filter: T -> bool, first: seq<Event<T>>, later: seq<Event<T>>, x: Event<T>)
    requires Gapless(cap, filter, first, later) && !x.Replay?
    ensures Gapless(cap, filter, first, later + [x])
  {
    var more, n := later + [x], |later|;
    assert more[..n] == later && more[n] == x;
    assert first + more == (first + later) + [x];
    RunStep(cap, filter, first + later, x);
    if Run(cap, filter, first + later).told.Some? {
      var k: nat :| EndedAfter(cap, filter, first, later, k);
      EndedStays(cap, filter, first, later, x, k);
    } else if Run(cap, filter, first + more).told.Some? {
      assert EndedAfter(cap, filter, first, more, n);
    }
  }

  /** Gap-free delivery, after anything that came first, such as a replay. */
  lemma {:induction false} GapFree<T>(cap: nat, filter: T -> bool, first: seq<Event<T>>, later: seq<Event<T>>)
    requires NoReplay(later) && Run(cap, filter, first).told.None?
    ensures Gapless(cap, filter, first, later)
  {
    if later == [] {
      assert first + later == first;
    } else {
      var n := |later| - 1;
      assert later == later[..n] + [later[n]];
      GapFree(cap, filter, first, later[..n]);
      GaplessMore(cap, filter, first, later[..n], later[n]);
    }
  }

  lemma {:induction false} OfferedPrefix<T>(filter: T -> bool, log: seq<Event<T>>, n: nat)
    requires n <= |log|
    ensures Offered(filter, log[..n]) <= Offered(filter, log)
  {
    assert log == log[..n] + log[n..];
    OfferedConcat(filter, log[..n], log[n..]);
  }

  /** In every case what was put is a prefix of what came first and what was offered later. */
  lemma {:induction false} PutIsPrefix<T>(cap: nat, filter: T -> bool, first: seq<Event<T>>, later: seq<Event<T>>)
    requires NoReplay(later) && Run(cap, filter, first).told.None?
    ensures Run(cap, filter, first + later).put <= Run(cap, filter, first).put + Offered(filter, later)
  {
    GapFree(cap, filter, first, later);
    if Run(cap, filter, first + later).told.Some? {
      var n: nat :| EndedAfter(cap, filter, first, later, n);
      OfferedPrefix(filter, later, n);
    }
  }

  /** Event n found the queue full. */
  ghost predicate OverflowAt<T>(cap: nat, filter: T -> bool, log: seq<Event<T>>, n: nat) {
    && n < |log| && log[n].Cast? && filter(log[n].v)
    && Run(cap, filter, log[..n]).told.None? && !Room(cap, Run(cap, filter, log[..n]))
  }

  /** With event n the subscriber left. */
  ghost predicate LeftAt<T>(cap: nat, filter: T -> bool, log: seq<Event<T>>, n: nat) {
    n < |log| && log[n].Leave? && Run(cap, filter, log[..n]).told.None?
  }

  /** The error is non-nil exactly on overflow, and nil exactly when the subscriber left
      or all subscriptions were closed. */
  lemma {:induction false} WhyTold<T>(cap: nat, filter: T -> bool, log: seq<Event<T>>)
    ensures Run(cap, filter, log).told == Some(Full) <==> exists n: nat :: OverflowAt(cap, filter, log, n)
    ensures Run(cap, filter, log).told == Some(Nil) <==> exists n: nat :: LeftAt(cap, filter, log, n)
  {
    if log != [] {
      var k := |log| - 1;
      WhyTold(cap, filter, log[..k]);
      forall n: nat | n < k
        ensures OverflowAt(cap, filter, log, n) <==> OverflowAt(cap, filter, log[..k], n)
        ensures LeftAt(cap, filter, log, n) <==> LeftAt(cap, filter, log[..k], n)
      {
        assert log[..k][..n] == log[..n];
      }
      assert OverflowAt(cap, filter, log, k) <==>
        log[k].Cast? && filter(log[k].v) && Run(cap, filter, log[..k]).told.None? && !Room(cap, Run(cap, filter, log[..k]));
      assert LeftAt(cap, filter, log, k) <==> log[k].Leave? && Run(cap, filter, log[..k]).told.None?;
    }
  }

  /** A replay that fits the queue is put whole, whatever the subscriber reads meanwhile. */
  lemma {:induction false} ReplayFits<T>(cap: nat, filter: T -> bool, log: seq<Event<T>>)
    requires OnlyReplay(log) && |Replayed(log)| <= cap
    ensures Run(cap, filter, log).put == Replayed(log) && Run(cap, filter, log).told.None?
  {
    if log != [] {
      ReplayFits(cap, filter, log[..|log| - 1]);
      QueueIsBounded(cap, filter, log[..|log| - 1]);
    }
  }

  /** A late subscriber: the whole history fits its queue and is replayed, and it does
      not overflow afterwards.  Then its stream is the history followed by all later
      broadcasts that pass its filter. */
  lemma LateSubscriberCatchesUp<T>(cap: nat, filter: T -> bool, replay: seq<Event<T>>, later: seq<Event<T>>)
    requires OnlyReplay(replay) && |Replayed(replay)| <= cap && NoReplay(later)
    requires Run(cap, filter, replay + later).told.None?
    ensures Run(cap, filter, replay + later).put == Replayed(replay) + Offered(filter, later)
  {
    ReplayFits(cap, filter, replay);
    GapFree(cap, filter, replay, later);
  }

  lemma {:induction false} OfferedConcat<T>(filter: T -> bool, a: seq<Event<T>>, b: seq<Event<T>>)
    ensures Offered(filter, a + b) == Offered(filter, a) + Offered(filter, b)
  {
    if b == [] {
      assert a + b == a;
    } else {
      var n := |b| - 1;
      assert (a + b)[..|a| + n] == a + b[..n];
      OfferedConcat(filter, a, b[..n]);
    }
  }

  /** It is the sequence that a subscriber from the start received, which saw the
      history as broadcasts, when neither overflows and both take everything. */
  lemma LateEqualsEarly<T>(cap: nat, cap': nat, all: T -> bool, past: seq<Event<T>>, replay: seq<Event<T>>,
                           later: seq<Event<T>>, later': seq<Event<T>>)
    requires NoReplay(past) && NoReplay(later) && NoReplay(later') && OnlyReplay(replay)
    requires Replayed(replay) == Offered(all, past) && Offered(all, later) == Offered(all, later')
    requires |Replayed(replay)| <= cap'
    requires Run(cap, all, past + later).told.None? && Run(cap', all, replay + later').told.None?
    ensures Run(cap', all, replay + later').put == Run(cap, all, past + later).put
  {
    GapFree(cap, all, [], past + later);
    assert [] + (past + later) == past + later && [] + Offered(all, past + later) == Offered(all, past + later);
    OfferedConcat(all, past, later);
    LateSubscriberCatchesUp(cap', all, replay, later');
  }

  /** The broadcasts that passed a subscriber. */
  function Casts<T>(log: seq<Event<T>>): seq<T> {
    if log == [] then []
    else
      var e, before := log[|log| - 1], Casts(log[..|log| - 1]);
      if e.Cast? then before + [e.v] else before
  }

  /** What is replayed comes before the first broadcast; the subscriber may read meanwhile. */
  ghost predicate ReplaysFirst<T>(log: seq<Event<T>>) {
    forall i, j :: 0 <= i < j < |log| && log[j].Replay? ==> log[i].Replay? || log[i].Take?
  }

  /** A subscriber was replayed the values in past, and then passed by those in later. */
  ghost predicate Saw<T>(log: seq<Event<T>>, past: seq<T>, later: seq<T>) {
    Replayed(log) == past && Casts(log) == later && ReplaysFirst(log)
  }

  lemma {:induction false} SawReplay<T>(log: seq<Event<T>>)
    requires OnlyReplay(log)
    ensures Saw(log, Replayed(log), [])
  {
    if log != [] {
      SawReplay(log[..|log| - 1]);
    }
  }

  lemma SawMore<T>(log: seq<Event<T>>, past: seq<T>, later: seq<T>, v: T)
    requires Saw(log, past, later)
    ensures Saw(log + [Cast(v)], past, later + [v])
  {
    assert (log + [Cast(v)])[..|log|] == log;
  }

  /** Reading, and leaving, pass no value. */
  lemma SawStill<T>(log: seq<Event<T>>, past: seq<T>, later: seq<T>, e: Event<T>)
    requires Saw(log, past, later) && (e.Take? || e.Leave?)
    ensures Saw(log + [e], past, later)
  {
    assert (log + [e])[..|log|] == log;
  }

  lemma {:induction false} ReplaysEnd<T>(log: seq<Event<T>>) returns (n: nat)
    requires ReplaysFirst(log)
    ensures n <= |log| && OnlyReplay(log[..n]) && NoReplay(log[n..])
  {
    n := |log|;
    if log != [] && !log[|log| - 1].Replay? {
      n := ReplaysEnd(log[..|log| - 1]);
    }
  }

  function Filtered<T>(filter: T -> bool, vs: seq<T>): seq<T> {
    if vs == [] then []
    else
      var v, before := vs[|vs| - 1], Filtered(filter, vs[..|vs| - 1]);
      if filter(v) then before + [v] else before
  }

  lemma FilteredMore<T>(filter: T -> bool, vs: seq<T>, v: T)
    ensures Filtered(filter, vs + [v]) == if filter(v) then Filtered(filter, vs) + [v] else Filtered(filter, vs)
  {
    assert (vs + [v])[..|vs|] == vs;
  }

  lemma {:induction false} OfferedCasts<T>(filter: T -> bool, log: seq<Event<T>>)
    ensures Offered(filter, log) == Filtered(filter, Casts(log))
  {
    if log != [] {
      var n := |log| - 1;
      OfferedCasts(filter, log[..n]);
      if log[n].Cast? {
        FilteredMore(filter, Casts(log[..n]), log[n].v);
      } else {
        assert Casts(log) == Casts(log[..n]);
      }
    }
  }

  lemma {:induction false} FilteredAll<T>(filter: T -> bool, vs: seq<T>)
    requires forall v :: v in vs ==> filter(v)
    ensures Filtered(filter, vs) == vs
  {
    if vs != [] {
      var n := |vs| - 1;
      FilteredAll(filter, vs[..n]);
      assert vs[n] in vs && vs == vs[..n] + [vs[n]];
    }
  }

  /** What a queue of this size holds of the values replayed. */
  function Kept<T>(cap: nat, past: seq<T>): seq<T> {
    if |past| <= cap then past else past[..cap]
  }

  /** The replayed values that found room. */
  function Caught<T>(cap: nat, filter: T -> bool, log: seq<Event<T>>): seq<T> {
    if log == [] then []
    else
      var n := |log| - 1;
      var before := Caught(cap, filter, log[..n]);
      if log[n].Replay? && Room(cap, Run(cap, filter, log[..n])) then before + [log[n].v] else before
  }

  /** Event n replays a value that is dropped. */
  ghost predicate DroppedAt<T>(cap: nat, filter: T -> bool, log: seq<Event<T>>, n: nat) {
    n < |log| && log[n].Replay? && !Room(cap, Run(cap, filter, log[..n]))
  }

  ghost predicate Subsequence<A>(xs: seq<A>, ys: seq<A>)
    decreases |ys|
  {
    xs == [] || (ys != [] && var k, n := |xs| - 1, |ys| - 1;
      Subsequence(xs, ys[..n]) || (xs[k] == ys[n] && Subsequence(xs[..k], ys[..n])))
  }

  lemma SubsequenceMore<A>(xs: seq<A>, ys: seq<A>, y: A)
    requires Subsequence(xs, ys)
    ensures Subsequence(xs, ys + [y]) && Subsequence(xs + [y], ys + [y])
  {
    assert (xs + [y])[..|xs|] == xs && (ys + [y])[..|ys|] == ys;
  }

  lemma {:induction false} NoLonger<A>(xs: seq<A>, ys: seq<A>)
    requires Subsequence(xs, ys)
    ensures |xs| <= |ys| && (|xs| == |ys| ==> xs == ys)
    decreases |ys|
  {
    if xs != [] {
      var k, n := |xs| - 1, |ys| - 1;
      if Subsequence(xs, ys[..n]) {
        NoLonger(xs, ys[..n]);
      } else {
        NoLonger(xs[..k], ys[..n]);
      }
    }
  }

  /** What is dropped leaves a gap, and nothing else does. */
  lemma {:induction false} CaughtUnlessDropped<T>(cap: nat, filter: T -> bool, log: seq<Event<T>>)
    ensures Subsequence(Caught(cap, filter, log), Replayed(log))
    ensures if exists n: nat :: DroppedAt(cap, filter, log, n) then |Caught(cap, filter, log)| < |Replayed(log)|
      else Caught(cap, filter, log) == Replayed(log)
  {
    if log != [] {
      var k := |log| - 1;
      CaughtUnlessDropped(cap, filter, log[..k]);
      forall n: nat | n < k
        ensures DroppedAt(cap, filter, log, n) <==> DroppedAt(cap, filter, log[..k], n)
      {
        assert log[..k][..n] == log[..n];
      }
      if log[k].Replay? {
        SubsequenceMore(Caught(cap, filter, log[..k]), Replayed(log[..k]), log[k].v);
        assert DroppedAt(cap, filter, log, k) <==> !Room(cap, Run(cap, filter, log[..k]));
      }
    }
  }

  lemma {:induction false} CaughtIsPut<T>(cap: nat, filter: T -> bool, log: seq<Event<T>>)
    requires OnlyReplay(log)
    ensures Run(cap, filter, log).put == Caught(cap, filter, log) && Run(cap, filter, log).told.None?
  {
    if log != [] {
      CaughtIsPut(cap, filter, log[..|log| - 1]);
    }
  }

  lemma {:induction false} KeptStays<T>(cap: nat, past: seq<T>, v: T)
    ensures |past| >= cap ==> Kept(cap, past + [v]) == Kept(cap, past)
    ensures |past| < cap ==> Kept(cap, past + [v]) == past + [v] && Kept(cap, past) == past
  {
  }

  /** The first values of a replay, as many as fit the queue, are never dropped. */
  lemma {:induction false} KeptIsCaught<T>(cap: nat, filter: T -> bool, log: seq<Event<T>>)
    requires OnlyReplay(log)
    ensures Kept(cap, Replayed(log)) <= Caught(cap, filter, log)
  {
    if log != [] {
      var before, e := log[..|log| - 1], log[|log| - 1];
      KeptIsCaught(cap, filter, before);
      if e.Replay? {
        KeptStays(cap, Replayed(before), e.v);
        if |Replayed(before)| < cap {
          CaughtIsPut(cap, filter, before);
          CaughtUnlessDropped(cap, filter, before);
          NoLonger(Caught(cap, filter, before), Replayed(before));
        }
      }
    }
  }

  lemma {:induction false} CaughtBefore<T>(cap: nat, filter: T -> bool, log: seq<Event<T>>, n: nat)
    requires n <= |log| && NoReplay(log[n..])
    ensures Caught(cap, filter, log) == Caught(cap, filter, log[..n])
    ensures Replayed(log) == Replayed(log[..n])
    ensures Casts(log) == Casts(log[..n]) + Casts(log[n..])
  {
    var k := |log| - 1;
    if n <= k {
      assert log[k] == log[n..][k - n];
      assert log[..k][..n] == log[..n] && log[..k][n..] == log[n..][..k - n];
      CaughtBefore(cap, filter, log[..k], n);
    } else {
      assert log[..n] == log;
    }
  }

  lemma {:induction false} NoCasts<T>(log: seq<Event<T>>)
    requires OnlyReplay(log)
    ensures Casts(log) == []
  {
    if log != [] {
      NoCasts(log[..|log| - 1]);
    }
  }

  lemma PutAfterReplay<T>(cap: nat, filter: T -> bool, first: seq<Event<T>>, rest: seq<Event<T>>)
    requires OnlyReplay(first) && NoReplay(rest)
    ensures var due, s := Caught(cap, filter, first) + Filtered(filter, Casts(rest)), Run(cap, filter, first + rest);
      s.put <= due && (s.told.None? ==> s.put == due)
  {
    CaughtIsPut(cap, filter, first);
    GapFree(cap, filter, first, rest);
    PutIsPrefix(cap, filter, first, rest);
    OfferedCasts(filter, rest);
  }

  /** Replay: a registered subscriber was put what it caught of the replayed values, then
      all later ones that pass its filter; one that is not, a prefix of that. */
  lemma SawIsPut<T>(cap: nat, filter: T -> bool, log: seq<Event<T>>, past: seq<T>, later: seq<T>)
    requires Saw(log, past, later)
    ensures var due := Caught(cap, filter, log) + Filtered(filter, later);
      Run(cap, filter, log).put <= due && (Run(cap, filter, log).told.None? ==> Run(cap, filter, log).put == due)
  {
    var n := ReplaysEnd(log);
    assert log == log[..n] + log[n..];
    PutAfterReplay(cap, filter, log[..n], log[n..]);
    CaughtBefore(cap, filter, log, n);
    NoCasts(log[..n]);
    assert Casts(log[n..]) == later;
  }

  /** What it caught: at least what fits its queue, in order, and with a gap exactly where
      a value was dropped. */
  lemma SawIsCaught<T>(cap: nat, filter: T -> bool, log: seq<Event<T>>, past: seq<T>, later: seq<T>)
    requires Saw(log, past, later)
    ensures Kept(cap, past) <= Caught(cap, filter, log) && Subsequence(Caught(cap, filter, log), past)
    ensures Caught(cap, filter, log) == past <==> !exists n: nat :: DroppedAt(cap, filter, log, n)
    ensures |past| <= cap ==> Caught(cap, filter, log) == past
  {
    var n := ReplaysEnd(log);
    KeptIsCaught(cap, filter, log[..n]);
    CaughtBefore(cap, filter, log, n);
    CaughtUnlessDropped(cap, filter, log);
  }

  /** A history larger than the queue: a read between two sends makes room, so that more
      is put than the queue can hold, and what is put need not be a prefix. */
  lemma {:induction false} ReplayLeavesGap<T>(filter: T -> bool, a: T, b: T, c: T)
    ensures var log := [Replay(a), Take, Replay(b)];
      Saw(log, [a, b], []) && Run(1, filter, log).put == [a, b]
    ensures var log := [Replay(a), Replay(b), Take, Replay(c)];
      Saw(log, [a, b, c], []) && Run(1, filter, log).put == [a, c]
  {
    var none: seq<Event<T>> := [];
    RunStep(1, filter, none, Replay(a));
    ReplayedStep(none, Replay(a));
    assert none + [Replay(a)] == [Replay(a)];
    ReadBetween(filter, a, b);
    ReadAfter(filter, a, b, c);
  }

  lemma {:induction false} ReadBetween<T>(filter: T -> bool, a: T, b: T)
    requires Run(1, filter, [Replay(a)]) == State([a], 0, None) && Replayed([Replay(a)]) == [a]
    ensures var log := [Replay(a), Take, Replay(b)];
      Saw(log, [a, b], []) && Run(1, filter, log).put == [a, b]
  {
    var first: seq<Event<T>> := [Replay(a)];
    RunStep(1, filter, first, Take);
    RunStep(1, filter, first + [Take], Replay(b));
    ReplayedStep(first, Take);
    ReplayedStep(first + [Take], Replay(b));
    var log := first + [Take] + [Replay(b)];
    assert Replayed(log) == [a] + [b] && Run(1, filter, log).put == [a] + [b];
    SawReplay(log);
    assert log == [Replay(a), Take, Replay(b)];
  }

  lemma {:induction false} ReadAfter<T>(filter: T -> bool, a: T, b: T, c: T)
    requires Run(1, filter, [Replay(a)]) == State([a], 0, None) && Replayed([Replay(a)]) == [a]
    ensures var log := [Replay(a), Replay(b), Take, Replay(c)];
      Saw(log, [a, b, c], []) && Run(1, filter, log).put == [a, c]
  {
    var first: seq<Event<T>> := [Replay(a)];
    RunStep(1, filter, first, Replay(b));
    RunStep(1, filter, first + [Replay(b)], Take);
    RunStep(1, filter, first + [Replay(b)] + [Take], Replay(c));
    ReplayedStep(first, Replay(b));
    ReplayedStep(first + [Replay(b)], Take);
    ReplayedStep(first + [Replay(b)] + [Take], Replay(c));
    assert first + [Replay(b)] + [Take] + [Replay(c)] == [Replay(a), Replay(b), Take, Replay(c)];
    SawReplay([Replay(a), Replay(b), Take, Replay(c)]);
  }

  lemma {:induction false} ReadAndUnread<T>(put: seq<T>, taken: nat)
    requires taken <= |put|
    ensures put[..taken] + put[taken..] == put
  {
  }

  lemma UnreadGrows<T>(put: seq<T>, taken: nat, v: T)
    requires taken <= |put|
    ensures (put + [v])[taken..] == put[taken..] + [v] && (put + [v])[..taken] == put[..taken]
  {
  }

  /** One subscription, both ends of it: the hub writes its channels, the subscriber reads them. */
  class Subscriber<T> {
    const id: nat
    const cap: nat
    const filter: T -> bool
    var streamC: seq<T>
    var errorC: seq<Err>
    ghost var log: seq<Event<T>>
    /** The values that the subscriber has read. */
    ghost var got: seq<T>

    ghost function State(): State<T>
      reads this
    {
      Run(cap, filter, log)
    }

    /** The stream channel holds what was put and not yet read, and the subscriber got the rest,
        in order; the error channel, with room for one error, holds what was told. */
    ghost predicate Valid()
      reads this
    {
      && State().taken <= |State().put|
      && got == State().put[..State().taken] && streamC == State().put[State().taken..]
      && errorC == if State().told.Some? then [State().told.value] else []
    }

    constructor (id: nat, cap: nat, filter: T -> bool)
      ensures this.id == id && this.cap == cap && this.filter == filter && log == [] && got == [] && Valid()
    {
      this.id, this.cap, this.filter, streamC, errorC, log, got := id, cap, filter, [], [], [], [];
    }

    /** Send on the stream if there is room. */
    method TrySend(v: T) returns (ok: bool)
      modifies this`streamC
      ensures ok == (|old(streamC)| < cap) && streamC == if ok then old(streamC) + [v] else old(streamC)
    {
      ok := |streamC| < cap;
      if ok {
        streamC := streamC + [v];
      }
    }

    /** The error channel has one slot, and it is free. */
    method SendError(e: Err)
      requires errorC == []
      modifies this`errorC
      ensures errorC == [e]
    {
      errorC := errorC + [e];
    }

    /** One round of the loop in Broadcast; tells whether the subscription survives. */
    method Deliver(v: T) returns (stays: bool)
      requires Valid() && State().told.None?
      modifies this`streamC, this`errorC, this`log
      ensures Valid() && log == old(log) + [Cast(v)]
      ensures stays <==> State().told.None?
    {
      RunStep(cap, filter, log, Cast(v));
      UnreadGrows(State().put, State().taken, v);
      stays := true;
      if filter(v) {
        stays := TrySend(v);
        if !stays {
          SendError(Full);
        }
      }
      log := log + [Cast(v)];
    }

    method Dismiss()
      requires Valid() && State().told.None?
      modifies this`errorC, this`log
      ensures Valid() && log == old(log) + [Leave] && State().told.Some?
    {
      RunStep(cap, filter, log, Leave);
      SendError(Nil);
      log := log + [Leave];
    }

    /** The subscriber reads its stream, if there is something to read. */
    method Receive() returns (v: Option<T>)
      requires Valid()
      modifies this
      ensures Valid() && log == old(log) + [Take]
      ensures v == if old(streamC) == [] then None else Some(old(streamC)[0])
      ensures got == if v.None? then old(got) else old(got) + [v.value]
    {
      RunStep(cap, filter, log, Take);
      v := None;
      if |streamC| > 0 {
        v, streamC := Some(streamC[0]), streamC[1..];
        got := got + [v.value];
      }
      log := log + [Take];
    }

    /** What does not fit is dropped, without an error. */
    method SendOrDrop(v: T)
      requires Valid()
      modifies this`streamC, this`log
      ensures Valid() && log == old(log) + [Replay(v)] && State().told == old(State().told)
    {
      RunStep(cap, filter, log, Replay(v));
      UnreadGrows(State().put, State().taken, v);
      var _ := TrySend(v);
      log := log + [Replay(v)];
    }

    method ReceiveTimes(n: nat)
      requires Valid()
      modifies this
      ensures Valid() && log == old(log) + Takes(n) && State().told == old(State().told)
    {
      for i := 0 to n
        invariant Valid() && log == old(log) + Takes(i) && State().told == old(State().told)
      {
        RunStep(cap, filter, log, Take);
        var _ := Receive();
        assert Takes<T>(i + 1) == Takes(i) + [Take];
      }
    }

    method SendAfter(v: T, n: nat)
      requires Valid()
      modifies this
      ensures Valid() && log == old(log) + Takes(n) + [Replay(v)] && State().told == old(State().told)
    {
      ReceiveTimes(n);
      SendOrDrop(v);
    }

    /** A history is sent to a new subscriber, which may read before each send. */
    method ReplayAll(history: seq<T>, takes: nat -> nat)
      requires Valid()
      modifies this
      ensures Valid() && log == old(log) + Replays(history, takes) && State().told == old(State().told)
    {
      for i := 0 to |history|
        invariant Valid() && log == old(log) + Replays(history[..i], takes) && State().told == old(State().told)
      {
        ReplaysMore(old(log), history, takes, i);
        SendAfter(history[i], takes(i));
      }
      assert history[..|history|] == history;
    }
  }

  function Takes<T>(n: nat): seq<Event<T>> {
    seq(n, _ => Take)
  }

  /** A history is replayed; before each send the subscriber reads as often as takes says. */
  function Replays<T>(history: seq<T>, takes: nat -> nat): seq<Event<T>> {
    if history == [] then []
    else
      var n := |history| - 1;
      Replays(history[..n], takes) + Takes(takes(n)) + [Replay(history[n])]
  }

  lemma {:induction false} ReplaysMore<T>(log: seq<Event<T>>, history: seq<T>, takes: nat -> nat, n: nat)
    requires n < |history|
    ensures log + Replays(history[..n + 1], takes) == log + Replays(history[..n], takes) + Takes(takes(n)) + [Replay(history[n])]
  {
    assert history[..n + 1][..n] == history[..n];
    JoinsAssociate(log, Replays(history[..n], takes), Takes(takes(n)), [Replay(history[n])]);
  }

  lemma {:induction false} JoinsAssociate<A>(a: seq<A>, b: seq<A>, c: seq<A>, d: seq<A>)
    ensures a + (b + c + d) == a + b + c + d
  {
  }

  lemma {:induction false} TakesReplayNothing<T>(log: seq<Event<T>>, n: nat)
    requires OnlyReplay(log)
    ensures Replayed(log + Takes(n)) == Replayed(log) && OnlyReplay(log + Takes(n))
  {
    if n > 0 {
      TakesReplayNothing(log, n - 1);
      assert log + Takes(n) == (log + Takes(n - 1)) + [Take];
      ReplayedStep(log + Takes(n - 1), Take);
    } else {
      assert log + Takes(0) == log;
    }
  }

  function Sum(takes: nat -> nat, n: nat): nat {
    if n == 0 then 0 else Sum(takes, n - 1) + takes(n - 1)
  }

  function CountTakes<T>(log: seq<Event<T>>): nat {
    if log == [] then 0 else CountTakes(log[..|log| - 1]) + if log[|log| - 1].Take? then 1 else 0
  }

  lemma {:induction false} CountTakesMore<T>(log: seq<Event<T>>, n: nat)
    ensures CountTakes(log + Takes(n)) == CountTakes(log) + n
  {
    if n > 0 {
      CountTakesMore(log, n - 1);
      assert (log + Takes(n))[..|log| + n - 1] == log + Takes(n - 1);
    } else {
      assert log + Takes(0) == log;
    }
  }

  lemma {:induction false} CountReplays<T>(history: seq<T>, takes: nat -> nat)
    ensures CountTakes(Replays(history, takes)) == Sum(takes, |history|)
  {
    if history != [] {
      var k := |history| - 1;
      CountReplays(history[..k], takes);
      CountTakesMore(Replays(history[..k], takes), takes(k));
      CountReplay(Replays(history[..k], takes) + Takes(takes(k)), history[k]);
    }
  }

  lemma {:induction false} CountReplay<T>(log: seq<Event<T>>, v: T)
    ensures CountTakes(log + [Replay(v)]) == CountTakes(log)
  {
    assert (log + [Replay(v)])[..|log|] == log;
  }

  /** When n values have been sent, the subscriber has read as often as it was to read before them. */
  lemma {:induction false} ReplaysRead<T>(history: seq<T>, takes: nat -> nat, n: nat)
    requires n <= |history|
    ensures Replays(history[..n], takes) <= Replays(history, takes)
    ensures CountTakes(Replays(history[..n], takes)) == Sum(takes, n)
    decreases |history|
  {
    CountReplays(history[..n], takes);
    if n < |history| {
      var k := |history| - 1;
      assert history[..k][..n] == history[..n];
      ReplaysRead(history[..k], takes, n);
    } else {
      assert history[..n] == history;
    }
  }

  lemma {:induction false} ReplayOneMore<T>(log: seq<Event<T>>, n: nat, v: T)
    requires OnlyReplay(log)
    ensures var more := log + Takes(n) + [Replay(v)]; Replayed(more) == Replayed(log) + [v] && OnlyReplay(more)
  {
    TakesReplayNothing(log, n);
    ReplayedStep(log + Takes(n), Replay(v));
  }

  lemma {:induction false} ReplaysReplay<T>(history: seq<T>, takes: nat -> nat)
    ensures Replayed(Replays(history, takes)) == history && OnlyReplay(Replays(history, takes))
  {
    if history != [] {
      var n := |history| - 1;
      ReplaysReplay(history[..n], takes);
      ReplayOneMore(Replays(history[..n], takes), takes(n), history[n]);
      assert history == history[..n] + [history[n]];
    }
  }

  /** Ids count up, so they are never used twice. */
  ghost predicate Ids<T>(ever: seq<Subscriber<T>>) {
    forall i :: 0 <= i < |ever| ==> ever[i].id == i
  }

  /** Subscriber k sees one more event. */
  ghost function NotedBy<T>(logs: seq<seq<Event<T>>>, k: nat, e: Event<T>): seq<seq<Event<T>>>
    requires k < |logs|
  {
    logs[k := logs[k] + [e]]
  }

  /** All subscribers but those in rest see one more event. */
  ghost function Noted<T>(logs: seq<seq<Event<T>>>, rest: set<nat>, e: Event<T>): (r: seq<seq<Event<T>>>)
    ensures |r| == |logs|
    ensures forall i :: 0 <= i < |r| ==> r[i] == if i in rest then logs[i] else logs[i] + [e]
  {
    seq(|logs|, i requires 0 <= i < |logs| => if i in rest then logs[i] else logs[i] + [e])
  }

  lemma NotedByOneMore<T>(logs: seq<seq<Event<T>>>, rest: set<nat>, k: nat, e: Event<T>)
    requires k < |logs| && k in rest
    ensures NotedBy(Noted(logs, rest, e), k, e) == Noted(logs, rest - {k}, e)
  {
  }

  function Passing<T>(vs: seq<T>): seq<Event<T>> {
    seq(|vs|, i requires 0 <= i < |vs| => Cast(vs[i]))
  }

  /** The values pass all subscribers, one after the other. */
  ghost function CastAll<T>(logs: seq<seq<Event<T>>>, vs: seq<T>): (r: seq<seq<Event<T>>>)
    ensures |r| == |logs| && forall i :: 0 <= i < |r| ==> r[i] == logs[i] + Passing(vs)
  {
    seq(|logs|, i requires 0 <= i < |logs| => logs[i] + Passing(vs))
  }

  lemma {:induction false} NothingPasses<T>(logs: seq<seq<Event<T>>>)
    ensures CastAll(logs, []) == logs
  {
    assert forall i :: 0 <= i < |logs| ==> logs[i] + Passing([]) == logs[i];
  }

  lemma {:induction false} PassingMore<T>(log: seq<Event<T>>, vs: seq<T>, mark: nat, v: T)
    requires mark <= |vs|
    ensures log + Passing((vs + [v])[mark..]) == log + Passing(vs[mark..]) + [Cast(v)]
  {
    assert (vs + [v])[mark..] == vs[mark..] + [v];
    assert Passing(vs[mark..] + [v]) == Passing(vs[mark..]) + [Cast(v)];
  }

  lemma {:induction false} PassingUnfolds<T>(log: seq<Event<T>>, vs: seq<T>)
    ensures vs == [] ==> log + Passing(vs) == log
    ensures vs != [] ==> log + Passing(vs) == log + Passing(vs[..|vs| - 1]) + [Cast(vs[|vs| - 1])]
  {
    assert vs != [] ==> Passing(vs) == Passing(vs[..|vs| - 1]) + [Cast(vs[|vs| - 1])];
  }

  /** The subscribers in who leave. */
  ghost function Left<T>(logs: seq<seq<Event<T>>>, who: set<nat>): (r: seq<seq<Event<T>>>)
    ensures |r| == |logs|
    ensures forall i :: 0 <= i < |r| ==> r[i] == if i in who then logs[i] + [Leave] else logs[i]
  {
    seq(|logs|, i requires 0 <= i < |logs| => if i in who then logs[i] + [Leave] else logs[i])
  }

  lemma {:induction false} OneMoreLeft<T>(logs: seq<seq<Event<T>>>, all: set<nat>, todo: set<nat>, k: nat)
    requires k < |logs| && k in todo && k in all
    ensures NotedBy(Left(logs, all - todo), k, Leave) == Left(logs, all - (todo - {k}))
  {
  }

  class SubHome<T> {
    var id: nat
    var subs: map<nat, Subscriber<T>>
    ghost var ever: seq<Subscriber<T>>

    /** Subscriber number i was the i-th to register, and is live until it is told an error. */
    ghost predicate Known(i: nat, live: set<nat>)
      requires i < |ever|
      reads this`subs, this`ever, ever
    {
      && ever[i].Valid()
      && (i in live <==> ever[i].State().told.None?)
      && (i in live ==> i in subs && subs[i] == ever[i])
    }

    ghost predicate Live(live: set<nat>)
      reads this`subs, this`ever, ever
    {
      && Ids(ever) && (forall i :: i in live ==> i < |ever|)
      && forall i {:trigger Known(i, live)} :: 0 <= i < |ever| ==> Known(i, live)
    }

    ghost predicate Valid()
      reads this, ever
    {
      id == |ever| && Live(subs.Keys)
    }

    /** What each subscriber has seen so far. */
    ghost function Logs(): (r: seq<seq<Event<T>>>)
      reads this`ever, ever
      ensures |r| == |ever| && forall i :: 0 <= i < |r| ==> r[i] == ever[i].log
    {
      var all := ever;
      seq(|all|, i requires 0 <= i < |all| reads all => all[i].log)
    }

    constructor ()
      ensures Valid() && ever == []
    {
      id, subs, ever := 0, map[], [];
    }

    /** Register: the id is new, and the stream is handed back. */
    method Receive(cap: nat, filter: T -> bool) returns (s: Subscriber<T>)
      requires Valid()
      modifies this
      ensures Valid() && fresh(s) && ever == old(ever) + [s]
      ensures s.cap == cap && s.filter == filter && s.log == [] && s.id == |old(ever)|
      ensures subs == old(subs)[|old(ever)| := s] && Logs() == old(Logs()) + [[]]
    {
      s := new Subscriber(id, cap, filter);
      subs, ever := subs[id := s], ever + [s];
      id := id + 1;
      forall i | 0 <= i < |ever|
        ensures Known(i, subs.Keys)
      {
        if i < |ever| - 1 { assert old(Known(i, subs.Keys)); }
      }
    }

    /** One round of the loop of Broadcast. */
    method Serve(k: nat, value: T)
      requires Valid() && k in subs
      modifies this`subs, ever
      ensures Valid() && old(subs).Keys - {k} <= subs.Keys <= old(subs).Keys
      ensures k < |ever| && Logs() == NotedBy(old(Logs()), k, Cast(value))
    {
      assert Known(k, subs.Keys);
      var stays := subs[k].Deliver(value);
      if !stays {
        subs := subs - {k};
      }
      forall i | 0 <= i < |ever|
        ensures Known(i, subs.Keys)
      {
        assert old(Known(i, subs.Keys));
      }
    }

    /** Every subscriber there ever was sees one more broadcast, or misses it if it was told before. */
    method Broadcast(value: T)
      requires Valid()
      modifies this`subs, ever
      ensures Valid() && Logs() == Noted(old(Logs()), {}, Cast(value))
    {
      var todo := subs.Keys;
      PassBy(value);
      while todo != {}
        invariant Valid() && todo <= subs.Keys
        invariant Logs() == Noted(old(Logs()), todo, Cast(value))
        decreases todo
      {
        var k :| k in todo;
        Serve(k, value);
        NotedByOneMore(old(Logs()), todo, k, Cast(value));
        todo := todo - {k};
      }
    }

    /** Those who were told an error before see the broadcast pass. */
    ghost method PassBy(value: T)
      requires Valid()
      modifies ever
      ensures Valid() && Logs() == Noted(old(Logs()), subs.Keys, Cast(value))
    {
      forall i | 0 <= i < |ever| && i !in subs {
        ever[i].log := ever[i].log + [Cast(value)];
      }
      forall i | 0 <= i < |ever|
        ensures Known(i, subs.Keys)
      {
        assert old(Known(i, subs.Keys));
        if i !in subs {
          RunStep(ever[i].cap, ever[i].filter, old(ever[i].log), Cast(value));
        }
      }
    }

    /** Tell subscriber k that its subscription is over. */
    method Part(k: nat, ghost live: set<nat>)
      requires Live(live) && k in live && k in subs
      modifies ever
      ensures Live(live - {k}) && k < |ever| && Logs() == NotedBy(old(Logs()), k, Leave)
    {
      assert Known(k, live);
      subs[k].Dismiss();
      forall i | 0 <= i < |ever|
        ensures Known(i, live - {k})
      {
        assert old(Known(i, live));
      }
    }

    /** An id that is not registered is ignored. */
    method Delete(id: nat)
      requires Valid()
      modifies this`subs, ever
      ensures Valid() && subs == old(subs) - {id}
      ensures id in old(subs) ==> id < |ever| && Logs() == NotedBy(old(Logs()), id, Leave)
      ensures id !in old(subs) ==> Logs() == old(Logs())
    {
      if id in subs {
        Part(id, subs.Keys);
        ghost var rest := subs.Keys - {id};
        label Parted:
        subs := subs - {id};
        assert subs.Keys == rest;
        forall i | 0 <= i < |ever|
          ensures Known(i, subs.Keys)
        {
          assert old@Parted(Known(i, rest));
        }
      }
    }

    /** Close all subscriptions. */
    method Close()
      requires Valid()
      modifies this`subs, ever
      ensures Valid() && subs == map[] && Logs() == Left(old(Logs()), old(subs).Keys)
    {
      var todo := subs.Keys;
      while todo != {}
        invariant Live(todo) && todo <= subs.Keys
        invariant Logs() == Left(old(Logs()), subs.Keys - todo)
        modifies ever
        decreases todo
      {
        var k :| k in todo;
        Part(k, todo);
        OneMoreLeft(old(Logs()), subs.Keys, todo, k);
        todo := todo - {k};
      }
      label Before:
      subs := map[];
      forall i | 0 <= i < |ever|
        ensures Known(i, subs.Keys)
      {
        assert old@Before(Known(i, todo));
      }
    }
  }
}
