/** The offer ledger: buyers' price offers on catalog entries and the
    status each one moves through. */
module Offers {
  import opened Base
  import Amounts

  /** The statuses an offer can carry. `Counter` is declared by the
      storefront but no handler ever sets it. */
  datatype Status = Pending | Counter | Accepted | Declined | Shipped

  /** An offer; `price` is in hundredths of SOL and `ts` the creation time. */
  datatype Offer = Offer(id: string, nftId: int, buyer: string, price: int, status: Status, ts: int)

  /** The offer `submitOffer` appends (App.tsx:566-573). */
  function NewOffer(id: string, nftId: int, buyer: string, price: Num, ts: int): (o: Offer)
    ensures o.status == Pending && o.buyer == buyer && o.nftId == nftId && o.id == id
    ensures o.price >= 10 && o.price == Amounts.OfferPrice(price)
  {
    Offer(id, nftId, buyer, Amounts.OfferPrice(price), Pending, ts)
  }

  /** `offers.find(o => o.id === id)`: the first offer with that id. */
  function FindOffer(offers: seq<Offer>, id: string): (r: Option<Offer>)
    ensures r == None <==> forall i :: 0 <= i < |offers| ==> offers[i].id != id
    ensures r.Some? ==> exists i :: 0 <= i < |offers| && offers[i] == r.value && r.value.id == id && (forall j :: 0 <= j < i ==> offers[j].id != id)
  {
    if offers == [] then None
    else if offers[0].id == id then Some(offers[0])
    else
      assert forall i :: 1 <= i < |offers| ==> offers[1..][i - 1] == offers[i];
      FindOffer(offers[1..], id)
  }

  /** `prev.map(o => o.id === id ? { ...o, status: st } : o)`: the common
      shape of `declineOffer`, `acceptOffer` and `shipOffer`. Only the status
      of the offers with that id changes; length, order, the other fields
      and the other offers stay as they were. */
  function SetStatus(offers: seq<Offer>, id: string, st: Status): (r: seq<Offer>)
    ensures |r| == |offers|
    ensures forall i :: 0 <= i < |offers| ==> r[i] == if offers[i].id == id then offers[i].(status := st) else offers[i]
  {
    if offers == [] then []
    else [if offers[0].id == id then offers[0].(status := st) else offers[0]] + SetStatus(offers[1..], id, st)
  }

  /** Applying a status change twice is applying it once. */
  lemma SetStatusIdempotent(offers: seq<Offer>, id: string, st: Status)
    ensures SetStatus(SetStatus(offers, id, st), id, st) == SetStatus(offers, id, st)
  {
  }

  /** A status change leaves an unknown id's ledger as it was. */
  lemma SetStatusUnknownId(offers: seq<Offer>, id: string, st: Status)
    requires FindOffer(offers, id) == None
    ensures SetStatus(offers, id, st) == offers
  {
  }

  /** The offer lifecycle: pending to accepted or declined, accepted to
      shipped. */
  predicate Transition(from: Status, to: Status)
  {
    (from == Pending && (to == Accepted || to == Declined)) || (from == Accepted && to == Shipped)
  }

  /** The actions the buyer-requests table shows for an offer in status `s`
      (App.tsx:2032-2055): Accept and Decline on a pending offer, Mark as
      Shipped on an accepted one, nothing otherwise. */
  function Actions(s: Status): (r: set<Status>)
    ensures forall to :: to in r <==> Transition(s, to)
  {
    match s
    case Pending => {Accepted, Declined}
    case Accepted => {Shipped}
    case _ => {}
  }

  /** A status change the table offers for every offer with that id moves
      each changed offer along the lifecycle. */
  lemma OfferedChangeIsTransition(offers: seq<Offer>, id: string, st: Status)
    requires forall i :: 0 <= i < |offers| && offers[i].id == id ==> st in Actions(offers[i].status)
    ensures forall i :: 0 <= i < |offers| ==>
      SetStatus(offers, id, st)[i].status == offers[i].status || Transition(offers[i].status, SetStatus(offers, id, st)[i].status)
  {
  }

  /** Declined and shipped offers are terminal: the table offers nothing
      for them, and nothing leads back to pending. */
  lemma TerminalStatuses()
    ensures Actions(Declined) == {} && Actions(Shipped) == {}
    ensures forall s :: !Transition(s, Pending)
  {
  }

  /** Counts the offers in status `st`. */
  function CountStatus(offers: seq<Offer>, st: Status): (n: nat)
    ensures n <= |offers|
  {
    if offers == [] then 0
    else (if offers[0].status == st then 1 else 0) + CountStatus(offers[1..], st)
  }

  /** The pending, accepted and shipped counts together never exceed the
      number of offers. */
  lemma {:induction false} FunnelBounded(offers: seq<Offer>)
    ensures CountStatus(offers, Pending) + CountStatus(offers, Accepted) + CountStatus(offers, Shipped) <= |offers|
  {
    if offers != [] {
      FunnelBounded(offers[1..]);
    }
  }
}
