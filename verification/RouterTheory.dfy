/** What the router hands out, told by the messages alone. */
module RouterTheory {
  import opened Wrappers
  import opened Router

  /** A payout account was seen. */
  ghost predicate PayoutSeen(past: seq<Message>, payout: Id) {
    exists i: nat :: i < |past| && past[i].PayoutIs? && past[i].id == payout
  }

  ghost predicate ReceiptSeen(past: seq<Message>, receipt: Id) {
    exists i: nat :: i < |past| && past[i].ReceiptIs? && past[i].id == receipt
  }

  /** Message m is the first about a receipt. */
  ghost predicate IsFirst(past: seq<Message>, m: nat, receipt: Id) {
    m < |past| && past[m].ReceiptIs? && past[m].id == receipt && !ReceiptSeen(past[..m], receipt)
  }

  /** This is what the first message about a receipt says. */
  ghost predicate SaidFirst(past: seq<Message>, receipt: Id, data: ReceiptData) {
    exists m: nat :: IsFirst(past, m, receipt) && past[m].receipt == data
  }

  /** Message m is the first about some receipt of the payout, which is not known yet. */
  ghost predicate ComesEarly(past: seq<Message>, m: nat, payout: Id) {
    m < |past| && past[m].ReceiptIs? && IsFirst(past, m, past[m].id) && past[m].receipt.payout == payout
    && !PayoutSeen(past[..m], payout)
  }

  /** Some receipt had to wait for the payout. */
  ghost predicate Awaited(past: seq<Message>, payout: Id) {
    exists m: nat :: ComesEarly(past, m, payout)
  }

  /** Message m is the last bid list for the payout. */
  ghost predicate IsLatestBids(past: seq<Message>, m: nat, payout: Id) {
    && m < |past| && past[m].BidsAre? && past[m].list.payout == payout
    && forall j :: m < j < |past| && past[j].BidsAre? ==> past[j].list.payout != payout
  }

  ghost predicate LatestBids(past: seq<Message>, payout: Id, list: BidList) {
    exists m: nat :: IsLatestBids(past, m, payout) && past[m].list == list
  }

  ghost predicate IsLatestRing(past: seq<Message>, m: nat, pipeline: Id) {
    && m < |past| && past[m].RingIs? && past[m].ring.pipeline == pipeline
    && forall j :: m < j < |past| && past[j].RingIs? ==> past[j].ring.pipeline != pipeline
  }

  ghost predicate LatestRing(past: seq<Message>, pipeline: Id, ring: PeriodRing) {
    exists m: nat :: IsLatestRing(past, m, pipeline) && past[m].ring == ring
  }

  lemma SeenMore(past: seq<Message>, x: Message)
    ensures forall p: Id :: PayoutSeen(past + [x], p) <==> PayoutSeen(past, p) || (x.PayoutIs? && x.id == p)
    ensures forall r: Id :: ReceiptSeen(past + [x], r) <==> ReceiptSeen(past, r) || (x.ReceiptIs? && x.id == r)
  {
    var more, n := past + [x], |past|;
    assert more[n] == x && forall i :: 0 <= i < n ==> more[i] == past[i];
    forall p: Id | PayoutSeen(past, p)
      ensures PayoutSeen(more, p)
    {
      var i: nat :| i < n && past[i].PayoutIs? && past[i].id == p;
      assert more[i].PayoutIs?;
    }
    forall r: Id | ReceiptSeen(past, r)
      ensures ReceiptSeen(more, r)
    {
      var i: nat :| i < n && past[i].ReceiptIs? && past[i].id == r;
      assert more[i].ReceiptIs?;
    }
  }

  /** What an earlier message is does not depend on the later ones. */
  lemma EarlierStays(past: seq<Message>, x: Message, m: nat, id: Id)
    requires m < |past|
    ensures IsFirst(past + [x], m, id) <==> IsFirst(past, m, id)
    ensures ComesEarly(past + [x], m, id) <==> ComesEarly(past, m, id)
  {
    assert (past + [x])[..m] == past[..m] && (past + [x])[m] == past[m];
  }

  lemma FirstMore(past: seq<Message>, x: Message, r: Id, d: ReceiptData)
    ensures SaidFirst(past + [x], r, d) <==>
      SaidFirst(past, r, d) || (x == ReceiptIs(r, d) && !ReceiptSeen(past, r))
  {
    var more, n := past + [x], |past|;
    assert more[..n] == past && more[n] == x;
    if m: nat :| IsFirst(past, m, r) && past[m].receipt == d {
      EarlierStays(past, x, m, r);
      assert IsFirst(more, m, r) && more[m].receipt == d;
    }
    if m: nat :| IsFirst(more, m, r) && more[m].receipt == d {
      if m < n {
        EarlierStays(past, x, m, r);
        assert IsFirst(past, m, r) && past[m].receipt == d;
      }
    }
    if x == ReceiptIs(r, d) && !ReceiptSeen(past, r) {
      assert IsFirst(more, n, r) && more[n].receipt == d;
    }
  }

  lemma AwaitedMore(past: seq<Message>, x: Message, p: Id)
    ensures Awaited(past + [x], p) <==>
      Awaited(past, p) || (x.ReceiptIs? && !ReceiptSeen(past, x.id) && x.receipt.payout == p && !PayoutSeen(past, p))
  {
    var more, n := past + [x], |past|;
    assert more[..n] == past && more[n] == x;
    if m: nat :| ComesEarly(past, m, p) {
      EarlierStays(past, x, m, p);
      EarlierStays(past, x, m, past[m].id);
      assert ComesEarly(more, m, p);
    }
    if m: nat :| ComesEarly(more, m, p) {
      if m < n {
        EarlierStays(past, x, m, p);
      }
    }
    if x.ReceiptIs? && !ReceiptSeen(past, x.id) && x.receipt.payout == p && !PayoutSeen(past, p) {
      assert ComesEarly(more, n, p);
    }
  }

  lemma BidsMore(past: seq<Message>, x: Message, p: Id, l: BidList)
    ensures LatestBids(past + [x], p, l) <==>
      if x.BidsAre? && x.list.payout == p then x.list == l else LatestBids(past, p, l)
  {
    var more, n := past + [x], |past|;
    assert more[n] == x && forall i :: 0 <= i < n ==> more[i] == past[i];
    if x.BidsAre? && x.list.payout == p {
      assert IsLatestBids(more, n, p);
    } else {
      forall m: nat
        ensures IsLatestBids(more, m, p) <==> IsLatestBids(past, m, p)
      {
      }
    }
  }

  lemma RingMore(past: seq<Message>, x: Message, q: Id, ring: PeriodRing)
    ensures LatestRing(past + [x], q, ring) <==>
      if x.RingIs? && x.ring.pipeline == q then x.ring == ring else LatestRing(past, q, ring)
  {
    var more, n := past + [x], |past|;
    assert more[n] == x && forall i :: 0 <= i < n ==> more[i] == past[i];
    if x.RingIs? && x.ring.pipeline == q {
      assert IsLatestRing(more, n, q);
    } else {
      forall m: nat
        ensures IsLatestRing(more, m, q) <==> IsLatestRing(past, m, q)
      {
      }
    }
  }

  lemma {:induction false} SaidSeen(past: seq<Message>)
    ensures var s := AllSaid(past);
      && (forall p: Id :: p in s.payouts <==> PayoutSeen(past, p))
      && (forall r: Id :: r in s.receipts <==> ReceiptSeen(past, r))
  {
    if past != [] {
      var n := |past| - 1;
      SaidSeen(past[..n]);
      assert past == past[..n] + [past[n]];
      SeenMore(past[..n], past[n]);
    }
  }

  lemma {:induction false} SaidMade(past: seq<Message>)
    ensures var s := AllSaid(past);
      && (forall q: Id :: q in s.pipelines <==> PipelineIs(q, true) in past)
      && (forall v: Id :: v in s.validators <==> ValidatorIs(v, true) in past)
  {
    if past != [] {
      var n := |past| - 1;
      SaidMade(past[..n]);
      assert past == past[..n] + [past[n]];
      assert forall x :: x in past <==> x in past[..n] || x == past[n];
    }
  }

  lemma {:induction false} SaidNames(past: seq<Message>, q: Id, p: Id)
    ensures Handed(q, p) in AllSaid(past).named <==> exists start: nat :: PayoutIs(p, PayoutData(q, start)) in past
  {
    if past != [] {
      var n := |past| - 1;
      SaidNames(past[..n], q, p);
      assert past == past[..n] + [past[n]];
      assert forall x :: x in past <==> x in past[..n] || x == past[n];
      if past[n].PayoutIs? {
        assert past[n] == PayoutIs(past[n].id, PayoutData(past[n].payout.pipeline, past[n].payout.start));
      }
    }
  }

  /** Who is known, and who names whom, depends on which messages came, not on their order. */
  lemma {:induction false} SaidIs(past: seq<Message>)
    ensures var s := AllSaid(past);
      && (forall p: Id :: p in s.payouts <==> PayoutSeen(past, p))
      && (forall q: Id, p: Id :: Handed(q, p) in s.named <==> exists start: nat :: PayoutIs(p, PayoutData(q, start)) in past)
      && (forall q: Id :: q in s.pipelines <==> PipelineIs(q, true) in past)
      && (forall v: Id :: v in s.validators <==> ValidatorIs(v, true) in past)
      && (forall r: Id :: r in s.receipts <==> ReceiptSeen(past, r))
  {
    SaidSeen(past);
    SaidMade(past);
    forall q: Id, p: Id
      ensures Handed(q, p) in AllSaid(past).named <==> exists start: nat :: PayoutIs(p, PayoutData(q, start)) in past
    {
      SaidNames(past, q, p);
    }
  }

  lemma {:induction false} SayReceipts(s: Said, x: Message)
    ensures Say(s, x).receipts ==
      if x.ReceiptIs? && x.id !in s.receipts then s.receipts[x.id := x.receipt] else s.receipts
  {
  }

  lemma {:induction false} SaidOf(past: seq<Message>, r: Id, d: ReceiptData)
    ensures SaidFirst(past, r, d) <==> r in AllSaid(past).receipts && AllSaid(past).receipts[r] == d
  {
    if past != [] {
      var before, x := past[..|past| - 1], past[|past| - 1];
      assert past == before + [x];
      SaidSeen(before);
      SaidOf(before, r, d);
      FirstMore(before, x, r, d);
      SayReceipts(AllSaid(before), x);
    }
  }

  /** Of each receipt the first message counts. */
  lemma SaidFirsts(past: seq<Message>)
    ensures forall r: Id, d :: SaidFirst(past, r, d) <==> r in AllSaid(past).receipts && AllSaid(past).receipts[r] == d
  {
    forall r: Id, d
      ensures SaidFirst(past, r, d) <==> r in AllSaid(past).receipts && AllSaid(past).receipts[r] == d
    {
      SaidOf(past, r, d);
    }
  }

  /** Of each bid list the last message counts. */
  lemma {:induction false} SaidBids(past: seq<Message>)
    ensures forall p: Id, l :: LatestBids(past, p, l) <==> p in AllSaid(past).bids && AllSaid(past).bids[p] == l
  {
    if past != [] {
      var before, x := past[..|past| - 1], past[|past| - 1];
      assert past == before + [x];
      SaidBids(before);
      forall p: Id, l
        ensures LatestBids(past, p, l) <==> if x.BidsAre? && x.list.payout == p then x.list == l else LatestBids(before, p, l)
      {
        BidsMore(before, x, p, l);
      }
    }
  }

  /** And of each period ring. */
  lemma {:induction false} SaidRings(past: seq<Message>)
    ensures forall q: Id, ring :: LatestRing(past, q, ring) <==> q in AllSaid(past).rings && AllSaid(past).rings[q] == ring
  {
    if past != [] {
      var before, x := past[..|past| - 1], past[|past| - 1];
      assert past == before + [x];
      SaidRings(before);
      forall q: Id, ring
        ensures LatestRing(past, q, ring) <==> if x.RingIs? && x.ring.pipeline == q then x.ring == ring else LatestRing(before, q, ring)
      {
        RingMore(before, x, q, ring);
      }
    }
  }

  lemma {:induction false} SaidAwaited(past: seq<Message>)
    ensures forall p: Id :: p in AllSaid(past).waitedFor <==> Awaited(past, p)
  {
    if past != [] {
      var before, x := past[..|past| - 1], past[|past| - 1];
      assert past == before + [x];
      SaidIs(before);
      SaidAwaited(before);
      forall p: Id
        ensures Awaited(past, p) <==>
          Awaited(before, p) || (x.ReceiptIs? && !ReceiptSeen(before, x.id) && x.receipt.payout == p && !PayoutSeen(before, p))
      {
        AwaitedMore(before, x, p);
      }
    }
  }

  /** Receipt r of validator v is lost with message n: a payout for which some receipt
      had to wait has the id of the validator, for which r still waits. */
  ghost predicate LosesAt(past: seq<Message>, n: nat, r: Id, v: Id) {
    && n < |past| && past[n].PayoutIs? && past[n].id == v
    && Awaited(past[..n], v) && ValidatorIs(v, true) !in past[..n]
    && exists d :: SaidFirst(past[..n], r, d) && d.validator == v
  }

  lemma LosesWhenCleared(past: seq<Message>, n: nat, r: Id, v: Id)
    requires n < |past|
    ensures LosesAt(past, n, r, v) <==>
      var s := AllSaid(past[..n]);
      past[n].PayoutIs? && past[n].id == v && Clears(s, v) && r in WithValidator(s.receipts, v)
  {
    SaidIs(past[..n]);
    SaidAwaited(past[..n]);
    SaidFirsts(past[..n]);
    var s := AllSaid(past[..n]);
    if r in s.receipts {
      assert SaidFirst(past[..n], r, s.receipts[r]);
    }
  }

  lemma {:induction false} LostIff(past: seq<Message>, r: Id)
    ensures r in AllSaid(past).lost <==> exists n: nat, v: Id :: LosesAt(past, n, r, v)
  {
    if past != [] {
      var k := |past| - 1;
      var before, x := past[..k], past[k];
      LostIff(before, r);
      assert before[..k] == before;
      forall n: nat, v: Id | n < k
        ensures LosesAt(past, n, r, v) <==> LosesAt(before, n, r, v)
      {
        assert before[..n] == past[..n];
      }
      if x.PayoutIs? {
        LosesWhenCleared(past, k, r, x.id);
      }
    }
  }

  /** By the first message about it, the receipt is one of the payout. */
  ghost predicate OfPayout(past: seq<Message>, receipt: Id, payout: Id) {
    exists d :: SaidFirst(past, receipt, d) && d.payout == payout
  }

  ghost predicate OfValidator(past: seq<Message>, receipt: Id, validator: Id) {
    exists d :: SaidFirst(past, receipt, d) && d.validator == validator
  }

  /** The receipt never gets to the validator. */
  ghost predicate Loses(past: seq<Message>, receipt: Id, validator: Id) {
    exists n: nat :: LosesAt(past, n, receipt, validator)
  }

  // ----- what the router handed out, for every order and repetition of the messages -----

  /** Each payout was handed to every pipeline that it ever named and that is known, and
      nothing else was handed to a pipeline. */
  lemma PayoutsHanded(router: Internal, past: seq<Message>, q: Id, p: Id)
    requires router.Joins(AllSaid(past))
    ensures Handed(q, p) in router.payoutsOut <==>
      PipelineIs(q, true) in past && exists start: nat :: PayoutIs(p, PayoutData(q, start)) in past
  {
    SaidIs(past);
    var s := AllSaid(past);
    assert PayoutJoined(s.named, s.pipelines, router.payoutWithNoPipeline, router.payoutsOut, q, p);
  }

  /** Each receipt was handed to its payout, once that is known, and to no other. */
  lemma ReceiptsHanded(router: Internal, past: seq<Message>, p: Id, r: Id)
    requires router.Joins(AllSaid(past))
    ensures Handed(p, r) in router.receiptsOut <==> PayoutSeen(past, p) && OfPayout(past, r, p)
  {
    SaidIs(past);
    SaidFirsts(past);
    var s := AllSaid(past);
    if r in s.receipts {
      assert SaidFirst(past, r, s.receipts[r]);
    }
    assert ReceiptJoined(s.receipts, s.payouts.Keys, router.receiptWithNoPayout, router.receiptsOut, p, r);
  }

  lemma FirstStays(past: seq<Message>, n: nat, r: Id, d: ReceiptData)
    requires n <= |past| && SaidFirst(past[..n], r, d)
    ensures SaidFirst(past, r, d)
  {
    var m: nat :| IsFirst(past[..n], m, r) && past[..n][m].receipt == d;
    assert past[..n][..m] == past[..m] && past[..n][m] == past[m];
    assert IsFirst(past, m, r);
  }

  lemma LostIfLoses(past: seq<Message>, r: Id, v: Id)
    requires OfValidator(past, r, v)
    ensures r in AllSaid(past).lost <==> Loses(past, r, v)
  {
    LostIff(past, r);
    SaidFirsts(past);
    forall n: nat, w: Id | LosesAt(past, n, r, w)
      ensures w == v
    {
      var d :| SaidFirst(past[..n], r, d) && d.validator == w;
      FirstStays(past, n, r, d);
    }
  }

  /** Each receipt was handed to its validator, once that is known, and to no other: unless
      it is lost.  This is when a receipt never gets to its validator, exactly. */
  lemma ValidatorReceiptsHanded(router: Internal, past: seq<Message>, v: Id, r: Id)
    requires router.Joins(AllSaid(past))
    ensures Handed(v, r) in router.validatorReceiptsOut <==>
      ValidatorIs(v, true) in past && OfValidator(past, r, v) && !Loses(past, r, v)
    ensures Once(router.validatorReceiptsOut)
  {
    SaidIs(past);
    SaidFirsts(past);
    var s := AllSaid(past);
    if r in s.receipts {
      assert SaidFirst(past, r, s.receipts[r]);
    }
    if OfValidator(past, r, v) {
      LostIfLoses(past, r, v);
    }
    assert ValidatorJoined(s.receipts, s.validators, router.receiptWithNoValidator, router.validatorReceiptsOut, s.lost, v, r);
  }

  /** The bid list that a known payout was handed last is the latest there is. */
  lemma BidsHanded(router: Internal, past: seq<Message>, p: Id, l: BidList)
    requires router.Joins(AllSaid(past))
    ensures Last(router.bidsOut, p) == Some(l) <==> PayoutSeen(past, p) && LatestBids(past, p, l)
  {
    SaidIs(past);
    SaidBids(past);
    var s := AllSaid(past);
    assert LatestAt(s.bids, s.payouts.Keys, router.bidListWithNoPayout, router.bidsOut, p);
  }

  /** The period ring that a known pipeline was handed last is the latest there is. */
  lemma RingsHanded(router: Internal, past: seq<Message>, q: Id, ring: PeriodRing)
    requires router.Joins(AllSaid(past))
    ensures Last(router.ringsOut, q) == Some(ring) <==> PipelineIs(q, true) in past && LatestRing(past, q, ring)
  {
    SaidIs(past);
    SaidRings(past);
    var s := AllSaid(past);
    assert LatestAt(s.rings, s.pipelines, router.periodRingWithNoPipeline, router.ringsOut, q);
  }

  lemma LossNeedsSharedId(past: seq<Message>, n: nat, r: Id, v: Id) returns (d: ReceiptData)
    requires LosesAt(past, n, r, v)
    ensures ReceiptIs(r, d) in past && d.validator == v && PayoutSeen(past, v)
  {
    d :| SaidFirst(past[..n], r, d) && d.validator == v;
    var m: nat :| IsFirst(past[..n], m, r) && past[..n][m].receipt == d;
    assert past[m] == ReceiptIs(r, d) && past[m] in past;
  }

  /** Where no account is both a payout and a validator, nothing is lost. */
  lemma NothingLost(router: Internal, past: seq<Message>, v: Id, r: Id)
    requires router.Joins(AllSaid(past))
    requires forall r: Id, d :: ReceiptIs(r, d) in past ==> !PayoutSeen(past, d.validator)
    ensures Handed(v, r) in router.validatorReceiptsOut <==> ValidatorIs(v, true) in past && OfValidator(past, r, v)
  {
    ValidatorReceiptsHanded(router, past, v, r);
    if n: nat :| LosesAt(past, n, r, v) {
      var _ := LossNeedsSharedId(past, n, r, v);
    }
  }

  /** A receipt whose payout and validator have the same id: all three accounts are known,
      and it was never handed to the validator. */
  lemma SharedIdLosesReceipt(router: Internal, past: seq<Message>)
    requires past == [ReceiptIs(7, ReceiptData(5, 5)), PayoutIs(5, PayoutData(1, 0)), ValidatorIs(5, true)]
    requires router.Joins(AllSaid(past))
    ensures Handed(5, 7) in router.receiptsOut && 5 in router.validatorById && Handed(5, 7) !in router.validatorReceiptsOut
  {
    var d := ReceiptData(5, 5);
    assert IsFirst(past, 0, 7);
    assert SaidFirst(past, 7, d);
    assert PayoutSeen(past, 5) by { assert past[1].PayoutIs?; }
    assert past[..1][0] == past[0] && past[..1][..0] == [];
    assert IsFirst(past[..1], 0, 7) && SaidFirst(past[..1], 7, d);
    assert ComesEarly(past[..1], 0, 5);
    assert LosesAt(past, 1, 7, 5);
    assert past[2] in past;
    SaidIs(past);
    ReceiptsHanded(router, past, 5, 7);
    ValidatorReceiptsHanded(router, past, 5, 7);
  }

  /** Message i makes the router hand payout p to pipeline q: an update of the payout, when the
      pipeline is known, or the message that makes the pipeline known, when the payout named it. */
  ghost predicate UpdateAt(past: seq<Message>, i: nat, q: Id, p: Id) {
    i < |past| && match past[i]
      case PayoutIs(id, data) => id == p && data.pipeline == q && PipelineIs(q, true) in past[..i]
      case PipelineIs(id, made) =>
        && id == q && made && PipelineIs(q, true) !in past[..i]
        && exists start: nat :: PayoutIs(p, PayoutData(q, start)) in past[..i]
      case _ => false
  }

  ghost function UpdateSet(past: seq<Message>, q: Id, p: Id): set<nat> {
    set i: nat | i < |past| && UpdateAt(past, i, q, p)
  }

  lemma {:induction false} UpdateSetMore(past: seq<Message>, x: Message, q: Id, p: Id)
    ensures UpdateSet(past + [x], q, p) == UpdateSet(past, q, p) + if UpdateAt(past + [x], |past|, q, p) then {|past|} else {}
  {
    forall i: nat | i < |past|
      ensures UpdateAt(past + [x], i, q, p) <==> UpdateAt(past, i, q, p)
    {
      assert (past + [x])[..i] == past[..i];
    }
  }

  lemma {:induction false} BatchIsUpdate(past: seq<Message>, x: Message, q: Id, p: Id)
    ensures var (to, what) := PayoutBatch(AllSaid(past), x);
      q == to && p in what <==> UpdateAt(past + [x], |past|, q, p)
  {
    assert (past + [x])[..|past|] == past;
    SaidMade(past);
    SaidNames(past, q, p);
    InNamedTo(AllSaid(past).named, q);
  }

  lemma {:induction false} UpdatesAre(past: seq<Message>, q: Id, p: Id)
    ensures Updates(past, q, p) == |UpdateSet(past, q, p)|
  {
    if past != [] {
      var before, x := past[..|past| - 1], past[|past| - 1];
      assert past == before + [x];
      UpdatesAre(before, q, p);
      BatchIsUpdate(before, x, q, p);
      UpdateSetMore(before, x, q, p);
    }
  }

  /** Each update of a payout reaches the pipeline that it names: how often a payout was handed
      to a pipeline. */
  lemma {:induction false} PayoutsCounted(router: Internal, past: seq<Message>, q: Id, p: Id)
    requires Counted(past, router.payoutsOut)
    ensures Times(router.payoutsOut, Handed(q, p)) == |UpdateSet(past, q, p)|
  {
    UpdatesAre(past, q, p);
  }

  /** This is what the first message about a payout says. */
  ghost predicate SaidFirstOfPayout(past: seq<Message>, payout: Id, data: PayoutData) {
    exists m: nat :: m < |past| && past[m] == PayoutIs(payout, data) && !PayoutSeen(past[..m], payout)
  }

  lemma {:induction false} FirstOfPayoutMore(past: seq<Message>, x: Message, p: Id, d: PayoutData)
    ensures SaidFirstOfPayout(past + [x], p, d) <==>
      SaidFirstOfPayout(past, p, d) || (x == PayoutIs(p, d) && !PayoutSeen(past, p))
  {
    var more, n := past + [x], |past|;
    assert more[..n] == past && more[n] == x;
    forall m: nat | m < n
      ensures more[m] == past[m] && more[..m] == past[..m]
    {
    }
    if m: nat :| m < n && past[m] == PayoutIs(p, d) && !PayoutSeen(past[..m], p) {
      assert more[m] == PayoutIs(p, d) && !PayoutSeen(more[..m], p);
    }
  }

  /** Of each payout the first message counts for the tables. */
  lemma {:induction false} SaidFirstPayouts(past: seq<Message>, p: Id, d: PayoutData)
    ensures SaidFirstOfPayout(past, p, d) <==> p in AllSaid(past).payouts && AllSaid(past).payouts[p] == d
  {
    if past != [] {
      var before, x := past[..|past| - 1], past[|past| - 1];
      assert past == before + [x];
      SaidSeen(before);
      SaidFirstPayouts(before, p, d);
      FirstOfPayoutMore(before, x, p, d);
    }
  }

  lemma {:induction false} PayoutsKnown(router: Internal, past: seq<Message>, p: Id, d: PayoutData)
    requires router.Joins(AllSaid(past))
    ensures p in router.payoutById && router.payoutById[p] == d <==> SaidFirstOfPayout(past, p, d)
  {
    SaidFirstPayouts(past, p, d);
  }
}
