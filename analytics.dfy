/** The derived figures of the dashboards: sold counts and conversion, the
    sold-by-product tally of the analytics page, and the offer funnel of the
    factory page. */
module Analytics {
  import opened Base
  import opened Catalog
  import opened Offers
  import Identity

  /** Counts the owned entries: `es.filter(n => n.owned).length`. */
  function CountOwned(es: seq<Entry>): (n: nat)
    ensures n <= |es|
  {
    if es == [] then 0 else (if es[0].owned then 1 else 0) + CountOwned(es[1..])
  }

  lemma {:induction false} CountOwnedAppend(es: seq<Entry>, e: Entry)
    ensures CountOwned(es + [e]) == CountOwned(es) + (if e.owned then 1 else 0)
    decreases |es|
  {
    if es != [] {
      assert (es + [e])[1..] == es[1..] + [e];
      CountOwnedAppend(es[1..], e);
    }
  }

  /** Raising owned flags never lowers the sold count. */
  lemma {:induction false} CountOwnedGrows(before: seq<Entry>, after: seq<Entry>)
    requires OwnedGrows(before, after)
    ensures CountOwned(before) <= CountOwned(after)
    decreases |before|
  {
    if before != [] {
      assert OwnedGrows(before[1..], after[1..]) by {
        forall i | 0 <= i < |before| - 1
          ensures after[1..][i] == before[1..][i].(owned := after[1..][i].owned)
        {
          assert after[i + 1] == before[i + 1].(owned := after[i + 1].owned);
        }
      }
      CountOwnedGrows(before[1..], after[1..]);
    }
  }

  /** The entries of farm `farmId`: `nfts.filter(n => n.farmId === farmId)`. */
  function FilterFarm(es: seq<Entry>, farmId: int): (r: seq<Entry>)
    ensures |r| <= |es|
    ensures forall i :: 0 <= i < |r| ==> r[i] in es && r[i].farmId == farmId
    ensures forall i :: 0 <= i < |es| && es[i].farmId == farmId ==> es[i] in r
  {
    if es == [] then []
    else
      var rest := FilterFarm(es[1..], farmId);
      assert forall i :: 1 <= i < |es| ==> es[i] == es[1..][i - 1];
      if es[0].farmId == farmId then [es[0]] + rest else rest
  }

  /** The filter keeps each entry of the farm as often as it occurs and
      drops every other. */
  lemma {:induction false} FilterFarmCount(es: seq<Entry>, farmId: int)
    ensures forall x :: multiset(FilterFarm(es, farmId))[x] == if x.farmId == farmId then multiset(es)[x] else 0
  {
    if es != [] {
      var rest := FilterFarm(es[1..], farmId);
      FilterFarmCount(es[1..], farmId);
      assert es == [es[0]] + es[1..];
      assert multiset(es) == multiset{es[0]} + multiset(es[1..]);
      if es[0].farmId == farmId {
        assert multiset([es[0]] + rest) == multiset{es[0]} + multiset(rest);
      }
    }
  }

  /** `farmNfts`: a factory account with a farm sees its own farm's entries,
      everyone else the whole catalog (App.tsx:1699-1702, 1800-1803). */
  function FarmView(nfts: seq<Entry>, user: Option<Identity.User>): (r: seq<Entry>)
    ensures |r| <= |nfts|
    ensures user.Some? && user.value.role == Identity.Factory && Identity.FarmGiven(user.value.farmId) ==>
      (forall i :: 0 <= i < |r| ==> r[i] in nfts && r[i].farmId == user.value.farmId.value)
      && (forall i :: 0 <= i < |nfts| && nfts[i].farmId == user.value.farmId.value ==> nfts[i] in r)
      && (forall x :: multiset(r)[x] == if x.farmId == user.value.farmId.value then multiset(nfts)[x] else 0)
    ensures !(user.Some? && user.value.role == Identity.Factory && Identity.FarmGiven(user.value.farmId)) ==> r == nfts
  {
    if user.Some? && user.value.role == Identity.Factory && Identity.FarmGiven(user.value.farmId)
    then FilterFarmCount(nfts, user.value.farmId.value); FilterFarm(nfts, user.value.farmId.value)
    else nfts
  }

  /** `total > 0 ? sold / total : 0`, as an exact ratio. */
  function Conversion(es: seq<Entry>): (c: real)
    ensures |es| == 0 ==> c == 0.0
    ensures 0.0 <= c <= 1.0
    ensures |es| > 0 ==> c * (|es| as real) == CountOwned(es) as real
  {
    var total := |es|;
    var sold := CountOwned(es);
    if total > 0 then
      DivTimes(sold as real, total as real);
      (sold as real) / (total as real)
    else 0.0
  }

  datatype Advice = BoostPromotion | RaisePrices | KeepStrategy

  /** The analytics page's recommendation (App.tsx:1725-1730). */
  function Recommend(conversion: real): (a: Advice)
    ensures a == BoostPromotion <==> conversion < 0.3
    ensures a == RaisePrices <==> conversion > 0.7
    ensures a == KeepStrategy <==> 0.3 <= conversion <= 0.7
  {
    if conversion < 0.3 then BoostPromotion
    else if conversion > 0.7 then RaisePrices
    else KeepStrategy
  }

  /** The summed price of the owned entries. */
  function OwnedPriceSum(es: seq<Entry>): (r: int)
    ensures CountOwned(es) == 0 ==> r == 0
  {
    if es == [] then 0 else (if es[0].owned then es[0].price else 0) + OwnedPriceSum(es[1..])
  }

  /** `avgPrice`: mean price of the sold entries, 0 when nothing sold. */
  function AveragePrice(es: seq<Entry>): (r: real)
    ensures CountOwned(es) == 0 ==> r == 0.0
    ensures CountOwned(es) > 0 ==> r * (CountOwned(es) as real) == OwnedPriceSum(es) as real
  {
    var sold := CountOwned(es);
    if sold > 0 then
      DivTimes(OwnedPriceSum(es) as real, sold as real);
      (OwnedPriceSum(es) as real) / (sold as real)
    else 0.0
  }

  lemma DivTimes(x: real, y: real)
    requires y != 0.0
    ensures (x / y) * y == x
  {
  }

  lemma {:induction false} UniformPriceSum(es: seq<Entry>, price: int)
    requires forall i :: 0 <= i < |es| ==> es[i].price == price
    ensures OwnedPriceSum(es) == price * CountOwned(es)
    decreases |es|
  {
    if es != [] {
      assert forall i :: 0 <= i < |es| - 1 ==> es[1..][i] == es[i + 1];
      UniformPriceSum(es[1..], price);
      var head := if es[0].owned then 1 else 0;
      assert OwnedPriceSum(es) == price * head + price * CountOwned(es[1..]);
      assert CountOwned(es) == head + CountOwned(es[1..]);
    }
  }

  /** When every entry has the same price, the average of a non-empty sale
      is that price. */
  lemma UniformAveragePrice(es: seq<Entry>, price: int)
    requires forall i :: 0 <= i < |es| ==> es[i].price == price
    requires CountOwned(es) > 0
    ensures AveragePrice(es) == price as real
  {
    UniformPriceSum(es, price);
    MeanOfEqualParts(OwnedPriceSum(es), CountOwned(es), price);
  }

  lemma MeanOfEqualParts(sum: int, n: int, price: int)
    requires n > 0 && sum == price * n
    ensures (sum as real) / (n as real) == price as real
  {
    assert (sum as real) == (price as real) * (n as real);
  }

  // ---- sold by product -------------------------------------------------

  /** `Object.entries` of the tally record, each product key with its
      count. The keys are kept in first-insertion order, which is the order
      `Object.entries` lists non-integer keys in; an integer-like key would
      come first, in ascending order, but no product key is one. */
  type Tally = seq<(string, nat)>

  /** The total of all counts in a tally. */
  function TallyTotal(acc: Tally): nat
  {
    if acc == [] then 0 else acc[0].1 + TallyTotal(acc[1..])
  }

  /** The count a tally gives `k` (`acc[k] || 0`). */
  function CountOf(acc: Tally, k: string): nat
  {
    if acc == [] then 0 else (if acc[0].0 == k then acc[0].1 else 0) + CountOf(acc[1..], k)
  }

  /** The tally lists key `k`. */
  predicate Lists(acc: Tally, k: string)
  {
    acc != [] && (acc[0].0 == k || Lists(acc[1..], k))
  }

  /** No key is listed twice, as in the entries of a record. */
  predicate DistinctKeys(acc: Tally)
  {
    acc == [] || (!Lists(acc[1..], acc[0].0) && DistinctKeys(acc[1..]))
  }

  /** `acc[k] = (acc[k] || 0) + 1`: raises the count of an existing key in
      place, or adds the key at the end with count 1. For a key the record
      does not hold, `acc[k]` is undefined (so `|| 0` gives 0) only when `k`
      is not a property inherited from `Object.prototype`. The keys here are
      the fixed names of the `Products` list, and none of them is one. */
  function Bump(acc: Tally, k: string): (r: Tally)
    ensures |acc| <= |r| <= |acc| + 1
    ensures TallyTotal(r) == TallyTotal(acc) + 1
    ensures forall j :: CountOf(r, j) == CountOf(acc, j) + (if j == k then 1 else 0)
  {
    if acc == [] then [(k, 1)]
    else if acc[0].0 == k then [(k, acc[0].1 + 1)] + acc[1..]
    else
      [acc[0]] + Bump(acc[1..], k)
  }

  /** Bumping adds `k` to the listed keys and lists no key twice. */
  lemma {:induction false} BumpKeys(acc: Tally, k: string)
    ensures forall j :: Lists(Bump(acc, k), j) <==> j == k || Lists(acc, j)
    ensures DistinctKeys(acc) ==> DistinctKeys(Bump(acc, k))
  {
    if acc != [] && acc[0].0 != k {
      BumpKeys(acc[1..], k);
    }
  }

  /** The reducer over the sold entries, as a left fold of `Bump`; it lists
      no more products than there are sold entries. */
  function TallyOf(es: seq<Entry>): (r: Tally)
    ensures |r| <= CountOwned(es)
  {
    if es == [] then []
    else
      var acc := TallyOf(es[..|es| - 1]);
      var e := es[|es| - 1];
      CountOwnedAppend(es[..|es| - 1], e);
      assert es[..|es| - 1] + [e] == es;
      if e.owned then Bump(acc, ProductKey(e.name)) else acc
  }

  /** Counts the owned entries whose product key is `k`. */
  function CountOwnedWithKey(es: seq<Entry>, k: string): nat
  {
    if es == [] then 0
    else (if es[0].owned && ProductKey(es[0].name) == k then 1 else 0) + CountOwnedWithKey(es[1..], k)
  }

  lemma {:induction false} CountOwnedWithKeyAppend(es: seq<Entry>, e: Entry, k: string)
    ensures CountOwnedWithKey(es + [e], k) == CountOwnedWithKey(es, k) + (if e.owned && ProductKey(e.name) == k then 1 else 0)
    decreases |es|
  {
    if es != [] {
      assert (es + [e])[1..] == es[1..] + [e];
      CountOwnedWithKeyAppend(es[1..], e, k);
    }
  }

  /** The per-product counts add up to the sold count. */
  lemma {:induction false} TallySumsToSold(es: seq<Entry>)
    ensures TallyTotal(TallyOf(es)) == CountOwned(es)
    decreases |es|
  {
    if es != [] {
      var init := es[..|es| - 1];
      TallySumsToSold(init);
      CountOwnedAppend(init, es[|es| - 1]);
      assert init + [es[|es| - 1]] == es;
    }
  }

  /** Each product's count is the number of sold entries of that product,
      and no product is listed twice. */
  lemma {:induction false} TallyCountsPerProduct(es: seq<Entry>, k: string)
    ensures CountOf(TallyOf(es), k) == CountOwnedWithKey(es, k)
    ensures DistinctKeys(TallyOf(es))
    decreases |es|
  {
    if es != [] {
      var init := es[..|es| - 1];
      TallyCountsPerProduct(init, k);
      CountOwnedWithKeyAppend(init, es[|es| - 1], k);
      BumpKeys(TallyOf(init), ProductKey(es[|es| - 1].name));
      assert init + [es[|es| - 1]] == es;
    }
  }

  /** `soldByProduct` (App.tsx:1712-1718, 1810-1816): one pass over the
      entries, bumping the accumulator record for each sold one. */
  method SoldByProduct(es: seq<Entry>) returns (acc: Tally)
    ensures acc == TallyOf(es)
    ensures TallyTotal(acc) == CountOwned(es)
  {
    acc := [];
    var i := 0;
    while i < |es|
      invariant 0 <= i <= |es|
      invariant acc == TallyOf(es[..i])
    {
      assert es[..i + 1][..i] == es[..i];
      if es[i].owned {
        acc := Bump(acc, ProductKey(es[i].name));
      }
      i := i + 1;
    }
    assert es[..|es|] == es;
    TallySumsToSold(es);
  }

  // ---- offer funnel ----------------------------------------------------

  /** Offer `o` targets one of the given entries
      (`farmNftIds.has(o.nftId)`). */
  predicate OnAny(farm: seq<Entry>, o: Offer)
  {
    exists n :: n in farm && n.id == o.nftId
  }

  /** `incomingOffers`: the offers on any of the given entries
      (App.tsx:1806-1807), each as often as it occurs in `offers`; their
      display order is not modelled. */
  function Incoming(offers: seq<Offer>, farm: seq<Entry>): (r: seq<Offer>)
    ensures |r| <= |offers|
    ensures forall i :: 0 <= i < |r| ==> r[i] in offers && OnAny(farm, r[i])
    ensures forall i :: 0 <= i < |offers| && OnAny(farm, offers[i]) ==> offers[i] in r
  {
    if offers == [] then []
    else
      var rest := Incoming(offers[1..], farm);
      assert forall i :: 1 <= i < |offers| ==> offers[i] == offers[1..][i - 1];
      if OnAny(farm, offers[0]) then [offers[0]] + rest else rest
  }

  /** The incoming list keeps each offer on the farm as often as it occurs
      and drops every other. */
  lemma {:induction false} IncomingCount(offers: seq<Offer>, farm: seq<Entry>)
    ensures forall o :: multiset(Incoming(offers, farm))[o] == if OnAny(farm, o) then multiset(offers)[o] else 0
  {
    if offers != [] {
      var rest := Incoming(offers[1..], farm);
      IncomingCount(offers[1..], farm);
      assert offers == [offers[0]] + offers[1..];
      assert multiset(offers) == multiset{offers[0]} + multiset(offers[1..]);
      if OnAny(farm, offers[0]) {
        assert multiset([offers[0]] + rest) == multiset{offers[0]} + multiset(rest);
      }
    }
  }

  datatype Funnel = Funnel(pending: nat, accepted: nat, shipped: nat)

  /** `offersFunnel` (App.tsx:1823-1827). */
  function OffersFunnel(offers: seq<Offer>, farm: seq<Entry>): (f: Funnel)
    ensures f.pending + f.accepted + f.shipped <= |Incoming(offers, farm)|
    ensures f.pending <= |offers| && f.accepted <= |offers| && f.shipped <= |offers|
  {
    var inc := Incoming(offers, farm);
    FunnelBounded(inc);
    Funnel(CountStatus(inc, Pending), CountStatus(inc, Accepted), CountStatus(inc, Shipped))
  }
}
