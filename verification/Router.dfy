/** The router joins accounts that refer to each other and arrive in any order: what
    comes first is parked until its partner appears. */
module Router {
  import opened Wrappers

  type Id = nat

  datatype PayoutData = PayoutData(pipeline: Id, start: nat)
  datatype ReceiptData = ReceiptData(payout: Id, validator: Id)
  datatype BidList = BidList(payout: Id, content: int)
  datatype PeriodRing = PeriodRing(pipeline: Id, content: int)

  /** The messages about open accounts.  The objects for a pipeline and a validator can
      fail to be made; those for a payout and a receipt never do. */
  datatype Message =
    | PayoutIs(id: Id, payout: PayoutData)
    | ReceiptIs(id: Id, receipt: ReceiptData)
    | PipelineIs(id: Id, made: bool)
    | ValidatorIs(id: Id, made: bool)
    | BidsAre(list: BidList)
    | RingIs(ring: PeriodRing)

  /** Something that was handed to an object. */
  datatype Handed<+T> = Handed(to: Id, what: T)

  /** Parked objects, by the id they wait for. */
  type Parked = map<Id, set<Id>>

  predicate IsParked(parked: Parked, at: Id, id: Id) {
    at in parked && id in parked[at]
  }

  function Park(parked: Parked, at: Id, id: Id): (r: Parked)
    ensures r.Keys == parked.Keys + {at}
    ensures forall a, i :: IsParked(r, a, i) <==> IsParked(parked, a, i) || (a == at && i == id)
  {
    parked[at := (if at in parked then parked[at] else {}) + {id}]
  }

  /** What was last handed to an object. */
  function Last<T>(log: seq<Handed<T>>, to: Id): Option<T> {
    if log == [] then None
    else if log[|log| - 1].to == to then Some(log[|log| - 1].what)
    else Last(log[..|log| - 1], to)
  }

  lemma LastMore<T>(log: seq<Handed<T>>, h: Handed<T>, to: Id)
    ensures Last(log + [h], to) == if h.to == to then Some(h.what) else Last(log, to)
  {
    assert (log + [h])[..|log|] == log;
  }

  /** How often a thing was handed to an object. */
  function Times<T(==)>(log: seq<Handed<T>>, h: Handed<T>): nat {
    if log == [] then 0 else Times(log[..|log| - 1], h) + if log[|log| - 1] == h then 1 else 0
  }

  /** The things in what were handed to an object once more, and nothing else was handed out. */
  ghost predicate Grew(before: seq<Handed<Id>>, after: seq<Handed<Id>>, to: Id, what: set<Id>) {
    forall q: Id, p: Id :: Times(after, Handed(q, p)) == Times(before, Handed(q, p)) + if q == to && p in what then 1 else 0
  }

  lemma {:induction false} GrewMore(before: seq<Handed<Id>>, after: seq<Handed<Id>>, to: Id, what: set<Id>, p: Id)
    requires Grew(before, after, to, what) && p !in what
    ensures Grew(before, after + [Handed(to, p)], to, what + {p})
  {
    assert (after + [Handed(to, p)])[..|after|] == after;
  }

  /** Nothing is handed to the same object twice. */
  ghost predicate Once(log: seq<Handed<Id>>) {
    forall i, j :: 0 <= i < j < |log| ==> log[i] != log[j]
  }

  /** What the messages say, with no regard to the order in which partners came, but
      for the last two: the payouts that were not known when some receipt came for them,
      and the receipts that are lost. */
  datatype Said = Said(
    payouts: map<Id, PayoutData>,     // with what was said of each first
    named: set<Handed<Id>>,           // the pipelines that payouts ever named, each with the payout
    receipts: map<Id, ReceiptData>,   // with what was said of each first
    pipelines: set<Id>,               // those for which an object was made
    validators: set<Id>,
    bids: map<Id, BidList>,           // the latest, by payout
    rings: map<Id, PeriodRing>,       // the latest, by pipeline
    waitedFor: set<Id>,
    lost: set<Id>)

  const NOTHING := Said(map[], {}, map[], {}, {}, map[], map[], {}, {})

  function WithValidator(receipts: map<Id, ReceiptData>, validator: Id): set<Id> {
    set r | r in receipts && receipts[r].validator == validator
  }

  /** A payout for which receipts waited clears the receipts that wait for a validator
      with its own id. */
  predicate Clears(s: Said, payout: Id) {
    payout in s.waitedFor && payout !in s.validators
  }

  function KnowPayout(s: Said, id: Id, data: PayoutData): Said {
    s.(payouts := if id in s.payouts then s.payouts else s.payouts[id := data])
  }

  function ClearWaiting(s: Said, id: Id): Said {
    s.(lost := if Clears(s, id) then s.lost + WithValidator(s.receipts, id) else s.lost)
  }

  function NamePipeline(s: Said, id: Id, pipeline: Id): Said {
    s.(named := s.named + {Handed(pipeline, id)})
  }

  function Say(s: Said, m: Message): Said {
    match m
    case PayoutIs(id, data) => NamePipeline(ClearWaiting(KnowPayout(s, id, data), id), id, data.pipeline)
    case ReceiptIs(id, data) =>
      if id in s.receipts then s
      else s.(receipts := s.receipts[id := data],
              waitedFor := if data.payout in s.payouts then s.waitedFor else s.waitedFor + {data.payout})
    case PipelineIs(id, made) => if made then s.(pipelines := s.pipelines + {id}) else s
    case ValidatorIs(id, made) => if made then s.(validators := s.validators + {id}) else s
    case BidsAre(list) => s.(bids := s.bids[list.payout := list])
    case RingIs(ring) => s.(rings := s.rings[ring.pipeline := ring])
  }

  function AllSaid(past: seq<Message>): Said {
    if past == [] then NOTHING else Say(AllSaid(past[..|past| - 1]), past[|past| - 1])
  }

  lemma SaidMore(past: seq<Message>, m: Message)
    ensures AllSaid(past + [m]) == Say(AllSaid(past), m)
  {
    assert (past + [m])[..|past|] == past;
  }

  function NamedTo(named: set<Handed<Id>>, pipeline: Id): set<Id> {
    set h | h in named && h.to == pipeline :: h.what
  }

  lemma {:induction false} InNamedTo(named: set<Handed<Id>>, q: Id)
    ensures forall p: Id :: p in NamedTo(named, q) <==> Handed(q, p) in named
  {
    forall p: Id
      ensures p in NamedTo(named, q) <==> Handed(q, p) in named
    {
      if p in NamedTo(named, q) {
        var h :| h in named && h.to == q && h.what == p;
        assert h == Handed(q, p);
      }
      if Handed(q, p) in named {
        assert Handed(q, p).what == p;
      }
    }
  }

  /** To which pipeline a message makes the router hand payouts, and which: the payout of an
      update, if its pipeline is known, and all that named a pipeline, when it gets to be known. */
  function PayoutBatch(s: Said, m: Message): (Id, set<Id>) {
    match m
    case PayoutIs(id, data) => (data.pipeline, if data.pipeline in s.pipelines then {id} else {})
    case PipelineIs(id, made) => (id, if made && id !in s.pipelines then NamedTo(s.named, id) else {})
    case _ => (0, {})
  }

  /** How often payout p was handed to pipeline q. */
  function Updates(past: seq<Message>, q: Id, p: Id): nat {
    if past == [] then 0
    else
      var before := past[..|past| - 1];
      var (to, what) := PayoutBatch(AllSaid(before), past[|past| - 1]);
      Updates(before, q, p) + if q == to && p in what then 1 else 0
  }

  ghost predicate Counted(past: seq<Message>, log: seq<Handed<Id>>) {
    forall q: Id, p: Id :: Times(log, Handed(q, p)) == Updates(past, q, p)
  }

  lemma {:induction false} CountedMore(past: seq<Message>, m: Message, before: seq<Handed<Id>>, after: seq<Handed<Id>>)
    requires Counted(past, before)
    requires var (to, what) := PayoutBatch(AllSaid(past), m); Grew(before, after, to, what)
    ensures Counted(past + [m], after)
  {
    assert (past + [m])[..|past|] == past;
  }

  /** A thing that is due at an object was handed to it if the object is known, and waits
      for it otherwise. */
  predicate Joined(due: bool, known: bool, handed: bool, parked: bool) {
    (handed <==> due && known) && (parked <==> due && !known)
  }

  predicate PayoutJoined(named: set<Handed<Id>>, pipelines: set<Id>, parked: Parked, log: seq<Handed<Id>>, q: Id, p: Id) {
    Joined(Handed(q, p) in named, q in pipelines, Handed(q, p) in log, IsParked(parked, q, p))
  }

  /** Each payout was handed to every pipeline it ever named, or waits for it; and nothing
      else was handed to a pipeline. */
  ghost predicate PayoutsJoined(named: set<Handed<Id>>, pipelines: set<Id>, parked: Parked, log: seq<Handed<Id>>) {
    forall q: Id, p: Id {:trigger PayoutJoined(named, pipelines, parked, log, q, p)} ::
      PayoutJoined(named, pipelines, parked, log, q, p)
  }

  /** A receipt that waited for a payout stays parked when it was handed over. */
  predicate ReceiptJoined(receipts: map<Id, ReceiptData>, payouts: set<Id>, parked: Parked, log: seq<Handed<Id>>, p: Id, r: Id) {
    var due := r in receipts && receipts[r].payout == p;
    && (Handed(p, r) in log <==> due && p in payouts)
    && (IsParked(parked, p, r) ==> due) && (due && p !in payouts ==> IsParked(parked, p, r))
  }

  /** Each receipt was handed to its payout, or waits for it; and to no other. */
  ghost predicate ReceiptsJoined(receipts: map<Id, ReceiptData>, payouts: set<Id>, parked: Parked, log: seq<Handed<Id>>) {
    forall p: Id, r: Id {:trigger ReceiptJoined(receipts, payouts, parked, log, p, r)} ::
      ReceiptJoined(receipts, payouts, parked, log, p, r)
  }

  predicate ValidatorJoined(receipts: map<Id, ReceiptData>, validators: set<Id>, parked: Parked, log: seq<Handed<Id>>,
                            lost: set<Id>, v: Id, r: Id)
  {
    Joined(r in receipts && receipts[r].validator == v && r !in lost, v in validators, Handed(v, r) in log, IsParked(parked, v, r))
  }

  /** Each receipt was handed to its validator, once, or waits for it, or is lost. */
  ghost predicate ValidatorsJoined(receipts: map<Id, ReceiptData>, validators: set<Id>, parked: Parked, log: seq<Handed<Id>>,
                                   lost: set<Id>)
  {
    && lost <= receipts.Keys && Once(log)
    && forall v: Id, r: Id {:trigger ValidatorJoined(receipts, validators, parked, log, lost, v, r)} ::
      ValidatorJoined(receipts, validators, parked, log, lost, v, r)
  }

  predicate LatestAt<T(==)>(latest: map<Id, T>, known: set<Id>, parked: map<Id, T>, log: seq<Handed<T>>, id: Id) {
    && (id in known ==> id !in parked && (id in latest <==> Last(log, id).Some?) && (id in latest ==> Last(log, id) == Some(latest[id])))
    && (id !in known ==> Last(log, id) == None && (id in latest <==> id in parked) && (id in latest ==> parked[id] == latest[id]))
  }

  /** What was handed last is the latest there is; what waits for an unknown object is parked. */
  ghost predicate LatestJoined<T>(latest: map<Id, T>, known: set<Id>, parked: map<Id, T>, log: seq<Handed<T>>) {
    forall id: Id {:trigger LatestAt(latest, known, parked, log, id)} :: LatestAt(latest, known, parked, log, id)
  }

  lemma LatestMore<T>(latest: map<Id, T>, known: set<Id>, parked: map<Id, T>, log: seq<Handed<T>>, id: Id, x: T)
    requires LatestJoined(latest, known, parked, log)
    ensures id in known ==> LatestJoined(latest[id := x], known, parked, log + [Handed(id, x)])
    ensures id !in known ==> LatestJoined(latest[id := x], known, parked[id := x], log)
  {
    var latest', parked' := latest[id := x], if id in known then parked else parked[id := x];
    var log' := if id in known then log + [Handed(id, x)] else log;
    forall i: Id
      ensures LatestAt(latest', known, parked', log', i)
    {
      assert LatestAt(latest, known, parked, log, i);
      LastMore(log, Handed(id, x), i);
    }
  }

  /** An object becomes known, and is handed what waits for it. */
  lemma LatestKnown<T>(latest: map<Id, T>, known: set<Id>, parked: map<Id, T>, log: seq<Handed<T>>, id: Id)
    requires LatestJoined(latest, known, parked, log)
    ensures LatestJoined(latest, known + {id}, parked - {id}, if id in parked then log + [Handed(id, parked[id])] else log)
  {
    var log' := if id in parked then log + [Handed(id, parked[id])] else log;
    forall i: Id
      ensures LatestAt(latest, known + {id}, parked - {id}, log', i)
    {
      assert LatestAt(latest, known, parked, log, i);
      if id in parked {
        LastMore(log, Handed(id, parked[id]), i);
      }
    }
  }

  /** The table by pipeline and start has an entry for each payout, and only such entries. */
  ghost predicate Indexed(payouts: map<Id, PayoutData>, index: map<Id, map<nat, Id>>) {
    && (forall p :: p in payouts ==> payouts[p].pipeline in index && payouts[p].start in index[payouts[p].pipeline])
    && (forall q, s :: q in index && s in index[q] ==>
         index[q][s] in payouts && payouts[index[q][s]] == PayoutData(q, s))
  }

  /** The router's tables, and what it handed out so far. */
  class Internal {
    var payoutById: map<Id, PayoutData>
    var byPipeline: map<Id, map<nat, Id>>
    var bidListWithNoPayout: map<Id, BidList>
    var receiptWithNoPayout: Parked
    var receiptById: map<Id, ReceiptData>
    var validatorById: set<Id>
    var receiptWithNoValidator: Parked
    var pipelineById: set<Id>
    var payoutWithNoPipeline: Parked
    var periodRingWithNoPipeline: map<Id, PeriodRing>
    var payoutsOut: seq<Handed<Id>>
    var receiptsOut: seq<Handed<Id>>
    var validatorReceiptsOut: seq<Handed<Id>>
    var bidsOut: seq<Handed<BidList>>
    var ringsOut: seq<Handed<PeriodRing>>

    ghost predicate PayoutSide(payouts: map<Id, PayoutData>, receipts: map<Id, ReceiptData>, bids: map<Id, BidList>, waitedFor: set<Id>)
      reads this`payoutById, this`byPipeline, this`receiptWithNoPayout, this`receiptsOut, this`bidListWithNoPayout, this`bidsOut
    {
      && payoutById == payouts && Indexed(payoutById, byPipeline) && receiptWithNoPayout.Keys == waitedFor
      && ReceiptsJoined(receipts, payouts.Keys, receiptWithNoPayout, receiptsOut)
      && LatestJoined(bids, payouts.Keys, bidListWithNoPayout, bidsOut)
    }

    ghost predicate ValidatorSide(receipts: map<Id, ReceiptData>, validators: set<Id>, lost: set<Id>)
      reads this`validatorById, this`receiptWithNoValidator, this`validatorReceiptsOut
    {
      && validatorById == validators
      && ValidatorsJoined(receipts, validators, receiptWithNoValidator, validatorReceiptsOut, lost)
    }

    ghost predicate PipelineSide(named: set<Handed<Id>>, pipelines: set<Id>, rings: map<Id, PeriodRing>)
      reads this`pipelineById, this`payoutWithNoPipeline, this`payoutsOut, this`periodRingWithNoPipeline, this`ringsOut
    {
      && pipelineById == pipelines
      && PayoutsJoined(named, pipelines, payoutWithNoPipeline, payoutsOut)
      && LatestJoined(rings, pipelines, periodRingWithNoPipeline, ringsOut)
    }

    ghost predicate ReceiptSide(receipts: map<Id, ReceiptData>)
      reads this`receiptById
    {
      receiptById == receipts
    }

    /** The tables, and what was handed out, are as the messages say. */
    ghost predicate Joins(s: Said)
      reads this
    {
      && ReceiptSide(s.receipts)
      && PayoutSide(s.payouts, s.receipts, s.bids, s.waitedFor)
      && ValidatorSide(s.receipts, s.validators, s.lost)
      && PipelineSide(s.named, s.pipelines, s.rings)
    }

    constructor ()
      ensures Joins(NOTHING)
    {
      payoutById, byPipeline, bidListWithNoPayout, receiptWithNoPayout := map[], map[], map[], map[];
      receiptById, validatorById, receiptWithNoValidator := map[], {}, map[];
      pipelineById, payoutWithNoPipeline, periodRingWithNoPipeline := {}, map[], map[];
      payoutsOut, receiptsOut, validatorReceiptsOut, bidsOut, ringsOut := [], [], [], [], [];
    }

    method OnBid(list: BidList, ghost s: Said)
      requires Joins(s)
      modifies this`bidListWithNoPayout, this`bidsOut
      ensures Joins(Say(s, BidsAre(list)))
      ensures bidsOut == if list.payout in payoutById then old(bidsOut) + [Handed(list.payout, list)] else old(bidsOut)
    {
      LatestMore(s.bids, s.payouts.Keys, bidListWithNoPayout, bidsOut, list.payout, list);
      if list.payout !in payoutById {
        bidListWithNoPayout := bidListWithNoPayout[list.payout := list];
      } else {
        bidsOut := bidsOut + [Handed(list.payout, list)];
      }
    }

    method OnPeriod(ring: PeriodRing, ghost s: Said)
      requires Joins(s)
      modifies this`periodRingWithNoPipeline, this`ringsOut
      ensures Joins(Say(s, RingIs(ring)))
      ensures ringsOut == if ring.pipeline in pipelineById then old(ringsOut) + [Handed(ring.pipeline, ring)] else old(ringsOut)
    {
      LatestMore(s.rings, s.pipelines, periodRingWithNoPipeline, ringsOut, ring.pipeline, ring);
      if ring.pipeline !in pipelineById {
        periodRingWithNoPipeline := periodRingWithNoPipeline[ring.pipeline := ring];
      } else {
        ringsOut := ringsOut + [Handed(ring.pipeline, ring)];
      }
    }

    method HandToPayout(id: Id, data: ReceiptData, ghost receipts: map<Id, ReceiptData>)
      requires ReceiptsJoined(receipts, payoutById.Keys, receiptWithNoPayout, receiptsOut) && id !in receipts
      modifies this`receiptWithNoPayout, this`receiptsOut
      ensures ReceiptsJoined(receipts[id := data], payoutById.Keys, receiptWithNoPayout, receiptsOut)
      ensures receiptWithNoPayout.Keys == old(receiptWithNoPayout.Keys) + if data.payout in payoutById then {} else {data.payout}
      ensures receiptsOut == if data.payout in payoutById then old(receiptsOut) + [Handed(data.payout, id)] else old(receiptsOut)
    {
      if data.payout in payoutById {
        receiptsOut := receiptsOut + [Handed(data.payout, id)];
      } else {
        receiptWithNoPayout := Park(receiptWithNoPayout, data.payout, id);
      }
      ghost var receipts' := receipts[id := data];
      forall p: Id, r: Id
        ensures ReceiptJoined(receipts', payoutById.Keys, receiptWithNoPayout, receiptsOut, p, r)
      {
        assert ReceiptJoined(receipts, payoutById.Keys, old(receiptWithNoPayout), old(receiptsOut), p, r);
      }
    }

    method HandToValidator(id: Id, data: ReceiptData, ghost receipts: map<Id, ReceiptData>, ghost lost: set<Id>)
      requires ValidatorsJoined(receipts, validatorById, receiptWithNoValidator, validatorReceiptsOut, lost) && id !in receipts
      modifies this`receiptWithNoValidator, this`validatorReceiptsOut
      ensures ValidatorsJoined(receipts[id := data], validatorById, receiptWithNoValidator, validatorReceiptsOut, lost)
    {
      if data.validator in validatorById {
        assert ValidatorJoined(receipts, validatorById, receiptWithNoValidator, validatorReceiptsOut, lost, data.validator, id);
        validatorReceiptsOut := validatorReceiptsOut + [Handed(data.validator, id)];
      } else {
        receiptWithNoValidator := Park(receiptWithNoValidator, data.validator, id);
      }
      ghost var receipts' := receipts[id := data];
      forall v: Id, r: Id
        ensures ValidatorJoined(receipts', validatorById, receiptWithNoValidator, validatorReceiptsOut, lost, v, r)
      {
        assert ValidatorJoined(receipts, validatorById, old(receiptWithNoValidator), old(validatorReceiptsOut), lost, v, r);
      }
    }

    method AddReceipt(id: Id, data: ReceiptData, ghost s: Said)
      requires ReceiptSide(s.receipts) && id !in s.receipts
      requires PayoutSide(s.payouts, s.receipts, s.bids, s.waitedFor) && ValidatorSide(s.receipts, s.validators, s.lost)
      modifies this`receiptById, this`receiptWithNoPayout, this`receiptsOut
      modifies this`receiptWithNoValidator, this`validatorReceiptsOut
      ensures ReceiptSide(s.receipts[id := data]) && ValidatorSide(s.receipts[id := data], s.validators, s.lost)
      ensures PayoutSide(s.payouts, s.receipts[id := data], s.bids,
                         if data.payout in s.payouts then s.waitedFor else s.waitedFor + {data.payout})
      ensures receiptsOut == if data.payout in s.payouts then old(receiptsOut) + [Handed(data.payout, id)] else old(receiptsOut)
    {
      receiptById := receiptById[id := data];
      HandToPayout(id, data, s.receipts);
      HandToValidator(id, data, s.receipts, s.lost);
    }

    /** A receipt that is known is not handed out again. */
    method OnReceipt(id: Id, data: ReceiptData, ghost s: Said)
      requires Joins(s)
      modifies this`receiptById, this`receiptWithNoPayout, this`receiptsOut
      modifies this`receiptWithNoValidator, this`validatorReceiptsOut
      ensures Joins(Say(s, ReceiptIs(id, data)))
      ensures receiptsOut ==
        if id !in s.receipts && data.payout in s.payouts then old(receiptsOut) + [Handed(data.payout, id)] else old(receiptsOut)
    {
      if id !in receiptById {
        AddReceipt(id, data, s);
      }
    }

    /** Hand the payouts that wait for a pipeline to it, one by one. */
    method DrainPayouts(id: Id, ghost named: set<Handed<Id>>, ghost known: set<Id>)
      requires PayoutsJoined(named, known, payoutWithNoPipeline, payoutsOut)
      modifies this`payoutWithNoPipeline, this`payoutsOut
      ensures PayoutsJoined(named, known + {id}, payoutWithNoPipeline, payoutsOut)
      ensures Grew(old(payoutsOut), payoutsOut, id, if id in old(payoutWithNoPipeline) then old(payoutWithNoPipeline[id]) else {})
    {
      if id in payoutWithNoPipeline {
        var y := payoutWithNoPipeline[id];
        ghost var x := y;
        while y != {}
          invariant y <= x && Grew(old(payoutsOut), payoutsOut, id, x - y)
          invariant id in payoutWithNoPipeline && payoutWithNoPipeline[id] == y <= old(payoutWithNoPipeline[id])
          invariant payoutWithNoPipeline == old(payoutWithNoPipeline)[id := y]
          invariant forall q: Id, p: Id :: Handed(q, p) in payoutsOut <==>
            Handed(q, p) in old(payoutsOut) || (q == id && p in old(payoutWithNoPipeline[id]) - y)
          decreases y
        {
          var p :| p in y;
          GrewMore(old(payoutsOut), payoutsOut, id, x - y, p);
          payoutsOut := payoutsOut + [Handed(id, p)];
          assert x - (y - {p}) == x - y + {p};
          y := y - {p};
          payoutWithNoPipeline := payoutWithNoPipeline[id := y];
        }
        assert x - y == x;
      }
      forall q: Id, p: Id
        ensures PayoutJoined(named, known + {id}, payoutWithNoPipeline, payoutsOut, q, p)
      {
        assert PayoutJoined(named, known, old(payoutWithNoPipeline), old(payoutsOut), q, p);
      }
    }

    method DrainRing(id: Id, ghost rings: map<Id, PeriodRing>, ghost known: set<Id>)
      requires LatestJoined(rings, known, periodRingWithNoPipeline, ringsOut)
      modifies this`periodRingWithNoPipeline, this`ringsOut
      ensures LatestJoined(rings, known + {id}, periodRingWithNoPipeline, ringsOut)
      ensures ringsOut == if id in old(periodRingWithNoPipeline) then old(ringsOut) + [Handed(id, old(periodRingWithNoPipeline)[id])] else old(ringsOut)
    {
      LatestKnown(rings, known, periodRingWithNoPipeline, ringsOut, id);
      if id in periodRingWithNoPipeline {
        ringsOut := ringsOut + [Handed(id, periodRingWithNoPipeline[id])];
        periodRingWithNoPipeline := periodRingWithNoPipeline - {id};
      }
      assert periodRingWithNoPipeline == old(periodRingWithNoPipeline) - {id};
    }

    /** What waits for a pipeline is what has named it. */
    lemma ParkedAt(id: Id, named: set<Handed<Id>>)
      requires PayoutsJoined(named, pipelineById, payoutWithNoPipeline, payoutsOut)
      ensures (if id in payoutWithNoPipeline then payoutWithNoPipeline[id] else {}) ==
        if id in pipelineById then {} else NamedTo(named, id)
    {
      var waiting := if id in payoutWithNoPipeline then payoutWithNoPipeline[id] else {};
      forall p: Id
        ensures p in waiting <==> id !in pipelineById && Handed(id, p) in named
      {
        assert PayoutJoined(named, pipelineById, payoutWithNoPipeline, payoutsOut, id, p);
      }
      InNamedTo(named, id);
    }

    method AddPipeline(id: Id, made: bool, ghost s: Said)
      requires PipelineSide(s.named, s.pipelines, s.rings)
      modifies this`pipelineById, this`periodRingWithNoPipeline, this`ringsOut, this`payoutWithNoPipeline, this`payoutsOut
      ensures PipelineSide(s.named, if made then s.pipelines + {id} else s.pipelines, s.rings)
      ensures Grew(old(payoutsOut), payoutsOut, id, if made && id !in s.pipelines then NamedTo(s.named, id) else {})
      ensures ringsOut ==
        if id in pipelineById && id in old(periodRingWithNoPipeline) then old(ringsOut) + [Handed(id, old(periodRingWithNoPipeline)[id])]
        else old(ringsOut)
    {
      ParkedAt(id, s.named);
      if id !in pipelineById {
        if !made {
          return;
        }
        pipelineById := pipelineById + {id};
      }
      assert pipelineById == s.pipelines + {id};
      DrainRing(id, s.rings, s.pipelines);
      DrainPayouts(id, s.named, s.pipelines);
    }

    /** If no object can be made for a new pipeline, nothing changes. */
    method OnPipeline(id: Id, made: bool, ghost s: Said)
      requires Joins(s)
      modifies this`pipelineById, this`periodRingWithNoPipeline, this`ringsOut, this`payoutWithNoPipeline, this`payoutsOut
      ensures Joins(Say(s, PipelineIs(id, made)))
      ensures var (to, what) := PayoutBatch(s, PipelineIs(id, made)); Grew(old(payoutsOut), payoutsOut, to, what)
      ensures ringsOut ==
        if id in pipelineById && id in old(periodRingWithNoPipeline) then old(ringsOut) + [Handed(id, old(periodRingWithNoPipeline)[id])]
        else old(ringsOut)
    {
      AddPipeline(id, made, s);
    }

    /** Hand the receipts that wait for a validator to it, and forget them. */
    method DrainReceipts(id: Id, ghost receipts: map<Id, ReceiptData>, ghost known: set<Id>, ghost lost: set<Id>)
      requires ValidatorsJoined(receipts, known, receiptWithNoValidator, validatorReceiptsOut, lost)
      modifies this`receiptWithNoValidator, this`validatorReceiptsOut
      ensures ValidatorsJoined(receipts, known + {id}, receiptWithNoValidator, validatorReceiptsOut, lost)
    {
      if id in receiptWithNoValidator {
        var x := receiptWithNoValidator[id];
        var todo := x;
        while todo != {}
          invariant todo <= x && Once(validatorReceiptsOut)
          invariant forall v: Id, r: Id :: Handed(v, r) in validatorReceiptsOut <==>
            Handed(v, r) in old(validatorReceiptsOut) || (v == id && r in x - todo)
          modifies this`validatorReceiptsOut
          decreases todo
        {
          var r :| r in todo;
          assert ValidatorJoined(receipts, known, old(receiptWithNoValidator), old(validatorReceiptsOut), lost, id, r);
          validatorReceiptsOut := validatorReceiptsOut + [Handed(id, r)];
          todo := todo - {r};
        }
        receiptWithNoValidator := receiptWithNoValidator - {id};
      }
      forall v: Id, r: Id
        ensures ValidatorJoined(receipts, known + {id}, receiptWithNoValidator, validatorReceiptsOut, lost, v, r)
      {
        assert ValidatorJoined(receipts, known, old(receiptWithNoValidator), old(validatorReceiptsOut), lost, v, r);
      }
    }

    method OnValidator(id: Id, made: bool, ghost s: Said)
      requires Joins(s)
      modifies this`validatorById, this`receiptWithNoValidator, this`validatorReceiptsOut
      ensures Joins(Say(s, ValidatorIs(id, made)))
    {
      if id !in validatorById {
        if !made {
          return;
        }
        validatorById := validatorById + {id};
      }
      assert validatorById == s.validators + {id};
      DrainReceipts(id, s.receipts, s.validators, s.lost);
    }

    /** The first payout with its pipeline and start is the one the table keeps. */
    method LookupAddPayout(id: Id, data: PayoutData)
      requires Indexed(payoutById, byPipeline) && id !in payoutById
      modifies this`payoutById, this`byPipeline
      ensures Indexed(payoutById, byPipeline) && payoutById == old(payoutById)[id := data]
      ensures forall q, s :: q in old(byPipeline) && s in old(byPipeline)[q] ==>
        q in byPipeline && s in byPipeline[q] && byPipeline[q][s] == old(byPipeline)[q][s]
    {
      payoutById := payoutById[id := data];
      var x := if data.pipeline in byPipeline then byPipeline[data.pipeline] else map[];
      if data.start !in x {
        x := x[data.start := id];
      }
      byPipeline := byPipeline[data.pipeline := x];
    }

    method DrainBids(id: Id, ghost bids: map<Id, BidList>, ghost known: set<Id>)
      requires LatestJoined(bids, known, bidListWithNoPayout, bidsOut)
      modifies this`bidListWithNoPayout, this`bidsOut
      ensures LatestJoined(bids, known + {id}, bidListWithNoPayout, bidsOut)
      ensures bidsOut == if id in old(bidListWithNoPayout) then old(bidsOut) + [Handed(id, old(bidListWithNoPayout)[id])] else old(bidsOut)
    {
      LatestKnown(bids, known, bidListWithNoPayout, bidsOut, id);
      if id in bidListWithNoPayout {
        bidsOut := bidsOut + [Handed(id, bidListWithNoPayout[id])];
        bidListWithNoPayout := bidListWithNoPayout - {id};
      }
      assert bidListWithNoPayout == old(bidListWithNoPayout) - {id};
    }

    /** Hand the receipts that wait for a payout to it.  They stay parked. */
    method HandReceipts(id: Id, ghost receipts: map<Id, ReceiptData>, ghost payouts: set<Id>) returns (waited: bool)
      requires ReceiptsJoined(receipts, payouts, receiptWithNoPayout, receiptsOut)
      modifies this`receiptsOut
      ensures ReceiptsJoined(receipts, payouts + {id}, receiptWithNoPayout, receiptsOut)
      ensures waited <==> id in receiptWithNoPayout
      ensures Grew(old(receiptsOut), receiptsOut, id, if waited then receiptWithNoPayout[id] else {})
    {
      waited := id in receiptWithNoPayout;
      if waited {
        var x := receiptWithNoPayout[id];
        var todo := x;
        while todo != {}
          invariant todo <= x && Grew(old(receiptsOut), receiptsOut, id, x - todo)
          invariant forall p: Id, r: Id :: Handed(p, r) in receiptsOut <==>
            Handed(p, r) in old(receiptsOut) || (p == id && r in x - todo)
          decreases todo
        {
          var r :| r in todo;
          GrewMore(old(receiptsOut), receiptsOut, id, x - todo, r);
          receiptsOut := receiptsOut + [Handed(id, r)];
          assert x - (todo - {r}) == x - todo + {r};
          todo := todo - {r};
        }
        assert x - todo == x;
      }
      forall p: Id, r: Id
        ensures ReceiptJoined(receipts, payouts + {id}, receiptWithNoPayout, receiptsOut, p, r)
      {
        assert ReceiptJoined(receipts, payouts, receiptWithNoPayout, old(receiptsOut), p, r);
      }
    }

    method FillPayout(id: Id, data: PayoutData, ghost s: Said) returns (waited: bool)
      requires PayoutSide(s.payouts, s.receipts, s.bids, s.waitedFor)
      modifies this`payoutById, this`byPipeline, this`bidListWithNoPayout, this`bidsOut, this`receiptsOut
      ensures PayoutSide(KnowPayout(s, id, data).payouts, s.receipts, s.bids, s.waitedFor)
      ensures waited <==> id in s.waitedFor
      ensures Grew(old(receiptsOut), receiptsOut, id, if waited then receiptWithNoPayout[id] else {})
      ensures bidsOut == if id in old(bidListWithNoPayout) then old(bidsOut) + [Handed(id, old(bidListWithNoPayout)[id])] else old(bidsOut)
    {
      if id !in payoutById {
        LookupAddPayout(id, data);
      }
      DrainBids(id, s.bids, s.payouts.Keys);
      waited := HandReceipts(id, s.receipts, s.payouts.Keys);
      assert KnowPayout(s, id, data).payouts.Keys == s.payouts.Keys + {id};
    }

    /** A payout gets to be known, and what waits for it is handed to it. */
    method AddPayout(id: Id, data: PayoutData, ghost s: Said) returns (waited: bool)
      requires Joins(s)
      modifies this`payoutById, this`byPipeline, this`bidListWithNoPayout, this`bidsOut, this`receiptsOut
      ensures Joins(KnowPayout(s, id, data)) && (waited <==> id in s.waitedFor)
      ensures Grew(old(receiptsOut), receiptsOut, id, if waited then receiptWithNoPayout[id] else {})
      ensures bidsOut == if id in old(bidListWithNoPayout) then old(bidsOut) + [Handed(id, old(bidListWithNoPayout)[id])] else old(bidsOut)
    {
      waited := FillPayout(id, data, s);
    }

    /** What is cleared, if receipts waited for a payout, are those that wait for a
        validator with the same id. */
    method ClearReceipts(id: Id, waited: bool, ghost s: Said)
      requires Joins(s) && (waited <==> id in s.waitedFor)
      modifies this`receiptWithNoValidator
      ensures Joins(ClearWaiting(s, id))
    {
      if waited {
        receiptWithNoValidator := receiptWithNoValidator - {id};
      }
      ghost var lost := if Clears(s, id) then s.lost + WithValidator(s.receipts, id) else s.lost;
      forall v: Id, r: Id
        ensures ValidatorJoined(s.receipts, s.validators, receiptWithNoValidator, validatorReceiptsOut, lost, v, r)
      {
        assert ValidatorJoined(s.receipts, s.validators, old(receiptWithNoValidator), validatorReceiptsOut, s.lost, v, r);
      }
    }

    /** The payout goes to the pipeline that it names, or waits for it. */
    method HandToPipeline(id: Id, pipeline: Id, ghost s: Said)
      requires Joins(s)
      modifies this`payoutWithNoPipeline, this`payoutsOut
      ensures Joins(NamePipeline(s, id, pipeline))
      ensures Grew(old(payoutsOut), payoutsOut, pipeline, if pipeline in s.pipelines then {id} else {})
    {
      GrewMore(payoutsOut, payoutsOut, pipeline, {}, id);
      if pipeline in pipelineById {
        payoutsOut := payoutsOut + [Handed(pipeline, id)];
      } else {
        payoutWithNoPipeline := Park(payoutWithNoPipeline, pipeline, id);
      }
      ghost var named := s.named + {Handed(pipeline, id)};
      forall q: Id, p: Id
        ensures PayoutJoined(named, pipelineById, payoutWithNoPipeline, payoutsOut, q, p)
      {
        assert PayoutJoined(s.named, pipelineById, old(payoutWithNoPipeline), old(payoutsOut), q, p);
      }
    }

    /** An update of a known payout also hands over what waits for it, and the payout to
        the pipeline that it names now. */
    method OnPayout(id: Id, data: PayoutData, ghost s: Said)
      requires Joins(s)
      modifies this`payoutById, this`byPipeline, this`bidListWithNoPayout, this`bidsOut, this`receiptsOut
      modifies this`receiptWithNoValidator, this`payoutWithNoPipeline, this`payoutsOut
      ensures Joins(Say(s, PayoutIs(id, data)))
      ensures var (to, what) := PayoutBatch(s, PayoutIs(id, data)); Grew(old(payoutsOut), payoutsOut, to, what)
      ensures Grew(old(receiptsOut), receiptsOut, id, if id in receiptWithNoPayout then receiptWithNoPayout[id] else {})
      ensures bidsOut == if id in old(bidListWithNoPayout) then old(bidsOut) + [Handed(id, old(bidListWithNoPayout)[id])] else old(bidsOut)
    {
      var waited := AddPayout(id, data, s);
      ClearReceipts(id, waited, KnowPayout(s, id, data));
      HandToPipeline(id, data.pipeline, ClearWaiting(KnowPayout(s, id, data), id));
    }

    method Handle(m: Message, ghost s: Said)
      requires Joins(s)
      modifies this
      ensures Joins(Say(s, m))
      ensures var (to, what) := PayoutBatch(s, m); Grew(old(payoutsOut), payoutsOut, to, what)
    {
      match m
      case PayoutIs(id, data) => OnPayout(id, data, s);
      case ReceiptIs(id, data) => OnReceipt(id, data, s);
      case PipelineIs(id, made) => OnPipeline(id, made, s);
      case ValidatorIs(id, made) => OnValidator(id, made, s);
      case BidsAre(list) => OnBid(list, s);
      case RingIs(ring) => OnPeriod(ring, s);
    }

    lemma NotHanded(h: Handed<Id>)
      requires Joins(NOTHING)
      ensures h !in payoutsOut
    {
      assert PayoutJoined({}, {}, payoutWithNoPipeline, payoutsOut, h.to, h.what);
    }

    lemma NothingHanded()
      requires Joins(NOTHING)
      ensures payoutsOut == []
    {
      if payoutsOut != [] {
        NotHanded(payoutsOut[0]);
      }
    }

    /** The messages come in, in whatever order and however often. */
    method HandleAll(past: seq<Message>)
      requires Joins(NOTHING)
      modifies this
      ensures Joins(AllSaid(past)) && Counted(past, payoutsOut)
    {
      NothingHanded();
      for n := 0 to |past|
        invariant Joins(AllSaid(past[..n])) && Counted(past[..n], payoutsOut)
      {
        ghost var before := payoutsOut;
        SaidMore(past[..n], past[n]);
        assert past[..n + 1] == past[..n] + [past[n]];
        Handle(past[n], AllSaid(past[..n]));
        CountedMore(past[..n], past[n], before, payoutsOut);
      }
      assert past[..|past|] == past;
    }
  }
}
