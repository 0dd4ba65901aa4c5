/** The storefront as one stateful object: the state cells of the `App`
    component and one method per event handler. Calls into the simulated
    chain are replaced by an explicit `chainOk` outcome; clock readings are
    parameters. */
module App {
  import opened Base
  import Text
  import Amounts
  import opened Catalog
  import opened Identity
  import opened Offers
  import Ledger
  import Analytics

  /** What a handler ends with: `Ok`, or the notice it shows instead. */
  datatype Outcome =
    | Ok
    | SignInRequired
    | WalletRequired
    | NftNotFound
    | TransactionFailed
    | InvalidAmount
    | MissingBeneficiary
    | RoyaltyEmpty
    | NoOwners
    | NoTarget
    | NoSuchOffer

  /** The key the simulated wallet connection always returns (App.tsx:92). */
  const PhantomKey: string := "Phan...t0mKey...ABCD"

  /** `offer_${Date.now()}_${nftId}` (App.tsx:563). */
  function OfferId(now: nat, nftId: nat): string
  {
    "offer_" + Amounts.NatToDigits(now) + "_" + Amounts.NatToDigits(nftId)
  }

  /** An offer id is `offer_`, the digits of the clock reading, a `_`, and
      digits that read back as the target's id. */
  lemma OfferIdShape(now: nat, nftId: nat)
    ensures var r, d := OfferId(now, nftId), |Amounts.NatToDigits(nftId)|;
      && |r| > 6 && r[..6] == "offer_"
      && d + 7 < |r| && r[|r| - d - 1] == '_'
      && Amounts.AllDigits(r[6..|r| - d - 1]) && Amounts.AllDigits(r[|r| - d..])
      && Amounts.DigitsValue(r[|r| - d..]) == nftId
  {
    var t, d := Amounts.NatToDigits(now), Amounts.NatToDigits(nftId);
    var r := OfferId(now, nftId);
    assert r[..6] == "offer_" && r[6..|r| - |d| - 1] == t && r[|r| - |d|..] == d;
    Amounts.DigitsRoundTrip(nftId);
  }

  /** The id of an offer names the entry it targets: two ids that are equal
      were built for the same entry. */
  lemma OfferIdNamesTarget(t: nat, n: nat, t': nat, n': nat)
    requires OfferId(t, n) == OfferId(t', n')
    ensures n == n'
  {
    var s := OfferId(t, n);
    var d, d' := Amounts.NatToDigits(n), Amounts.NatToDigits(n');
    assert s == ("offer_" + Amounts.NatToDigits(t) + "_") + d;
    assert s == ("offer_" + Amounts.NatToDigits(t') + "_") + d';
    assert s[|s| - |d| - 1] == '_' && s[|s| - |d'| - 1] == '_';
    assert forall j :: |s| - |d| <= j < |s| ==> s[j] == d[j - (|s| - |d|)];
    assert forall j :: |s| - |d'| <= j < |s| ==> s[j] == d'[j - (|s| - |d'|)];
    assert |d| == |d'|;
    assert d == s[|s| - |d|..] == d';
    Amounts.DigitsRoundTrip(n);
    Amounts.DigitsRoundTrip(n');
  }

  /** An offer whose id has the shape `submitOffer` gives it. */
  ghost predicate WellFormedId(o: Offer)
  {
    o.nftId >= 0 && exists t: nat :: o.id == OfferId(t, o.nftId)
  }

  /** Offers that share an id target the same entry. */
  lemma SameIdSameTarget(o: Offer, o': Offer)
    requires WellFormedId(o) && WellFormedId(o') && o.id == o'.id
    ensures o.nftId == o'.nftId
  {
    var t: nat :| o.id == OfferId(t, o.nftId);
    var t': nat :| o'.id == OfferId(t', o'.nftId);
    OfferIdNamesTarget(t, o.nftId, t', o'.nftId);
  }

  /** Every offer in status `st` (for each of `sts`) targets entries that
      are owned. */
  predicate TargetsOwned(offers: seq<Offer>, nfts: seq<Entry>, sts: set<Status>)
  {
    forall i, k :: 0 <= i < |offers| && 0 <= k < |nfts| && offers[i].status in sts && nfts[k].id == offers[i].nftId ==> nfts[k].owned
  }

  /** A status change keeps every offer id well formed: ids and targets
      are untouched. */
  lemma StatusChangeKeepsIds(offers: seq<Offer>, id: string, st: Status)
    requires forall i :: 0 <= i < |offers| ==> WellFormedId(offers[i])
    ensures forall i :: 0 <= i < |offers| ==> WellFormedId(SetStatus(offers, id, st)[i])
  {
    var after := SetStatus(offers, id, st);
    forall i | 0 <= i < |offers|
      ensures WellFormedId(after[i])
    {
      var t: nat :| offers[i].id == OfferId(t, offers[i].nftId);
      assert after[i].id == OfferId(t, after[i].nftId);
    }
  }

  /** Accepting a known offer keeps every offer in `sts` (which holds
      `Accepted`) pointing at owned entries: the offers that become accepted
      share the id of the one whose entry is marked, so they share its
      entry. */
  lemma AcceptKeepsTargetsOwned(offers: seq<Offer>, nfts: seq<Entry>, id: string, sts: set<Status>)
    requires forall i :: 0 <= i < |offers| ==> WellFormedId(offers[i])
    requires TargetsOwned(offers, nfts, sts) && Accepted in sts
    requires FindOffer(offers, id).Some?
    ensures TargetsOwned(SetStatus(offers, id, Accepted), MarkOwned(nfts, FindOffer(offers, id).value.nftId), sts)
  {
    var off := FindOffer(offers, id).value;
    var j :| 0 <= j < |offers| && offers[j] == off;
    var after, owned := SetStatus(offers, id, Accepted), MarkOwned(nfts, off.nftId);
    forall i, k | 0 <= i < |after| && 0 <= k < |owned| && after[i].status in sts && owned[k].id == after[i].nftId
      ensures owned[k].owned
    {
      if offers[i].id == id {
        SameIdSameTarget(offers[i], offers[j]);
      }
    }
  }

  /** Moving offers to a status other than `Accepted` keeps every accepted
      offer pointing at an owned entry. */
  lemma StatusChangeKeepsAcceptedOwned(offers: seq<Offer>, nfts: seq<Entry>, id: string, st: Status)
    requires TargetsOwned(offers, nfts, {Accepted}) && st != Accepted
    ensures TargetsOwned(SetStatus(offers, id, st), nfts, {Accepted})
  {
    var after := SetStatus(offers, id, st);
    forall i, k | 0 <= i < |after| && 0 <= k < |nfts| && after[i].status in {Accepted} && nfts[k].id == after[i].nftId
      ensures nfts[k].owned
    {
      assert offers[i].status == Accepted;
    }
  }

  /** Shipping an accepted offer, as the buyer-requests table does, keeps
      every accepted or shipped offer pointing at an owned entry: the offers
      that become shipped share the accepted one's id, hence its entry. */
  lemma ShipKeepsTargetsOwned(offers: seq<Offer>, nfts: seq<Entry>, id: string, j: nat)
    requires forall i :: 0 <= i < |offers| ==> WellFormedId(offers[i])
    requires TargetsOwned(offers, nfts, {Accepted, Shipped})
    requires j < |offers| && offers[j].id == id && offers[j].status == Accepted
    ensures TargetsOwned(SetStatus(offers, id, Shipped), nfts, {Accepted, Shipped})
  {
    var after := SetStatus(offers, id, Shipped);
    forall i, k | 0 <= i < |after| && 0 <= k < |nfts| && after[i].status in {Accepted, Shipped} && nfts[k].id == after[i].nftId
      ensures nfts[k].owned
    {
      if offers[i].id == id {
        SameIdSameTarget(offers[i], offers[j]);
      }
    }
  }

  /** The transaction banner's status. The buy, royalty, payout and mint
      buttons are disabled while it is `TxPending` (App.tsx:1458, 1565,
      1581, 2003). */
  datatype TxStatus = TxIdle | TxPending | TxSuccess | TxError

  /** The status `addPayout` (App.tsx:720-760) leaves behind, AS WRITTEN:
      past the wallet check it sets `pending`, and the "no owners" return
      never resets it. */
  function PayoutStatusAsWritten(prev: TxStatus, ready: bool, owners: nat, chainOk: bool): (r: TxStatus)
    ensures !ready ==> r == prev
    ensures ready && owners > 0 ==> r == (if chainOk then TxSuccess else TxError)
  {
    if !ready then prev
    else if owners == 0 then TxPending
    else if chainOk then TxSuccess else TxError
  }

  /** With a wallet connected and nothing sold, the handler as written
      returns with the status still pending, which keeps every gated button
      disabled; the corrected handler leaves the status as it was. */
  lemma NoOwnersLeavesPending(prev: TxStatus, chainOk: bool)
    ensures PayoutStatusAsWritten(prev, true, 0, chainOk) == TxPending
    ensures prev != TxPending ==> PayoutStatus(prev, true, 0, chainOk) != TxPending
  {
  }

  /** The status `addPayout` evidently means to leave: a refusal before the
      distribution starts leaves it as it was, the distribution ends in
      success or error. It never stays pending once the handler is done. */
  function PayoutStatus(prev: TxStatus, ready: bool, owners: nat, chainOk: bool): (r: TxStatus)
    ensures prev != TxPending ==> r != TxPending
    ensures r != prev ==> ready && owners > 0
    ensures ready && owners > 0 ==> (r == TxSuccess <==> chainOk)
  {
    if !ready || owners == 0 then prev
    else if chainOk then TxSuccess else TxError
  }

  /** All the state cells, as one value. */
  datatype State = State(
    users: Directory,
    user: Option<User>,
    connected: bool,
    pubkey: Option<string>,
    nfts: seq<Entry>,
    offers: seq<Offer>,
    walletBalance: int,
    pendingFiat: seq<Ledger.FiatWithdrawal>,
    royaltyBalance: int,
    payouts: seq<Ledger.Payout>,
    txStatus: TxStatus)

  /** What every handler keeps: the wallet balance is never negative, the
      catalog differs from the initial one only in raised `owned` flags,
      every offer id names its target, every accepted offer's entry is
      owned, and no finished handler leaves the banner pending. */
  ghost predicate Invariant(st: State)
  {
    && st.walletBalance >= 0
    && st.txStatus != TxPending
    && ShelfInvariant(st.nfts, st.offers)
  }

  /** The part of the invariant about the catalog and the offers. */
  ghost predicate ShelfInvariant(nfts: seq<Entry>, offers: seq<Offer>)
  {
    && OwnedGrows(InitialCatalog(), nfts)
    && (forall i :: 0 <= i < |offers| ==> WellFormedId(offers[i]))
    && TargetsOwned(offers, nfts, {Accepted})
  }

  /** A state that keeps the catalog and the offers, has a non-negative
      balance and a banner that is not pending keeps the invariant. */
  lemma FrameKeepsInvariant(st: State, st': State)
    requires Invariant(st)
    requires st'.nfts == st.nfts && st'.offers == st.offers
    requires st'.walletBalance >= 0 && st'.txStatus != TxPending
    ensures Invariant(st')
  {
  }

  /** Raising `owned` flags keeps the catalog part of the invariant. */
  lemma GrowsKeepsShelf(nfts: seq<Entry>, nfts': seq<Entry>, offers: seq<Offer>)
    requires ShelfInvariant(nfts, offers) && OwnedGrows(nfts, nfts')
    ensures ShelfInvariant(nfts', offers)
  {
    OwnedGrowsTransitive(InitialCatalog(), nfts, nfts');
    forall i, k | 0 <= i < |offers| && 0 <= k < |nfts'| && offers[i].status in {Accepted} && nfts'[k].id == offers[i].nftId
      ensures nfts'[k].owned
    {
      assert nfts'[k] == nfts[k].(owned := nfts'[k].owned);
    }
  }

  /** Appending a pending offer with a well-formed id keeps the catalog
      part of the invariant. */
  lemma AppendPendingKeepsShelf(nfts: seq<Entry>, offers: seq<Offer>, o: Offer)
    requires ShelfInvariant(nfts, offers) && WellFormedId(o) && o.status == Pending
    ensures ShelfInvariant(nfts, offers + [o])
  {
    var after := offers + [o];
    assert forall i :: 0 <= i < |offers| ==> after[i] == offers[i];
    forall i, k | 0 <= i < |after| && 0 <= k < |nfts| && after[i].status in {Accepted} && nfts[k].id == after[i].nftId
      ensures nfts[k].owned
    {
      assert i < |offers|;
    }
  }

  /** Accepting a known offer keeps the invariant. */
  lemma AcceptKeepsInvariant(st: State, id: string)
    requires Invariant(st) && FindOffer(st.offers, id).Some?
    ensures Invariant(st.(nfts := MarkOwned(st.nfts, FindOffer(st.offers, id).value.nftId),
                          offers := SetStatus(st.offers, id, Accepted)))
  {
    var target := FindOffer(st.offers, id).value.nftId;
    StatusChangeKeepsIds(st.offers, id, Accepted);
    AcceptKeepsTargetsOwned(st.offers, st.nfts, id, {Accepted});
    MarkOwnedGrows(st.nfts, target);
    OwnedGrowsTransitive(InitialCatalog(), st.nfts, MarkOwned(st.nfts, target));
  }

  class Storefront {
    /** The "auth:users" directory, which `handleLogin` reads and writes. */
    var users: Directory
    var user: Option<User>
    var connected: bool
    var pubkey: Option<string>
    var nfts: seq<Entry>
    var offers: seq<Offer>
    var walletBalance: int
    var pendingFiat: seq<Ledger.FiatWithdrawal>
    var royaltyBalance: int
    var payouts: seq<Ledger.Payout>
    var txStatus: TxStatus

    function Snapshot(): State
      reads this
    {
      State(users, user, connected, pubkey, nfts, offers, walletBalance, pendingFiat, royaltyBalance, payouts, txStatus)
    }

    ghost predicate Valid()
      reads this
    {
      Invariant(Snapshot())
    }

    /** `!connected || !phantomPubkey` fails: the empty key is falsy, so
        a connection holding the simulated key is ready. */
    predicate WalletReady()
      reads this
      ensures connected && pubkey == Some(PhantomKey) ==> WalletReady()
    {
      connected && pubkey.Some? && pubkey.value != ""
    }

    /** The first-launch state over a stored user directory. */
    constructor (directory: Directory)
      ensures Valid()
      ensures Snapshot() == State(directory, None, false, None, InitialCatalog(), [], Ledger.InitialWalletBalance,
                                  [], Ledger.InitialRoyalty, Ledger.InitialPayouts, TxIdle)
      ensures RoyaltyCovered()
    {
      var items := BuildCatalog(Farms, Products);
      users := directory;
      user := None;
      connected := false;
      pubkey := None;
      nfts := items;
      offers := [];
      walletBalance := Ledger.InitialWalletBalance;
      pendingFiat := [];
      royaltyBalance := Ledger.InitialRoyalty;
      payouts := Ledger.InitialPayouts;
      txStatus := TxIdle;
    }

    /** The royalty balance is never negative and never more than what was
        paid out to fans. */
    predicate RoyaltyCovered()
      reads this
    {
      0 <= royaltyBalance <= Ledger.PaidToFans(payouts)
    }

    /** `soldCount` (App.tsx:327). */
    function SoldCount(): (n: nat)
      reads this
      ensures n <= |nfts|
    {
      Analytics.CountOwned(nfts)
    }

    /** `raisedSOL` (App.tsx:328): one SOL per sold entry. */
    function RaisedSol(): (r: nat)
      reads this
      ensures r <= 100 * |nfts|
    {
      100 * SoldCount()
    }

    /** Every catalog entry is priced at one SOL, so what was raised is
        exactly the summed price of the sold entries. */
    lemma RaisedIsPriceOfSold()
      requires Valid()
      ensures RaisedSol() == Analytics.OwnedPriceSum(nfts)
    {
      InitialCatalogShape();
      Analytics.UniformPriceSum(nfts, 100);
    }

    /** `doConnectPhantom` (App.tsx:335-355): the simulated connection
        always succeeds. */
    method ConnectWallet()
      requires Valid()
      modifies this
      ensures Valid()
      ensures Snapshot() == old(Snapshot()).(connected := true, pubkey := Some(PhantomKey), txStatus := TxSuccess)
      ensures WalletReady()
    {
      connected := true;
      pubkey := Some(PhantomKey);
      txStatus := TxSuccess;
    }

    /** `disconnectWallet` (App.tsx:357-363). */
    method DisconnectWallet()
      requires Valid()
      modifies this
      ensures Valid()
      ensures Snapshot() == old(Snapshot()).(connected := false, pubkey := None, txStatus := TxIdle)
      ensures !WalletReady()
    {
      connected := false;
      pubkey := None;
      txStatus := TxIdle;
    }

    /** The transaction banner's Close button (App.tsx:894-903), shown for
        every status but idle: the banner goes back to idle and nothing else
        changes. The hash and error text it also clears are presentation. */
    method CloseBanner()
      requires Valid()
      modifies this
      ensures Valid()
      ensures Snapshot() == old(Snapshot()).(txStatus := TxIdle)
    {
      txStatus := TxIdle;
    }

    /** `handleLogin` (App.tsx:365-464) in the current `mode`: the checks
        are those of `Authenticate`; on success the directory and the session
        become the ones it gives, on a refusal nothing changes. */
    method HandleLogin(mode: Mode, form: Form) returns (err: Option<AuthError>)
      requires Valid()
      modifies this
      ensures Valid()
      ensures match Authenticate(mode, form, old(users))
        case Success((dir, u)) => err == None && Snapshot() == old(Snapshot()).(users := dir, user := Some(u))
        case Failure(e) => err == Some(e) && Snapshot() == old(Snapshot())
    {
      ghost var st := Snapshot();
      match Authenticate(mode, form, users) {
        case Failure(e) =>
          err := Some(e);
        case Success((dir, u)) =>
          users := dir;
          user := Some(u);
          err := None;
          assert Snapshot() == st.(users := dir, user := Some(u));
          FrameKeepsInvariant(st, Snapshot());
      }
    }

    /** `logout` (App.tsx:466). */
    method Logout()
      requires Valid()
      modifies this
      ensures Valid()
      ensures Snapshot() == old(Snapshot()).(user := None)
    {
      user := None;
    }

    /** `buyNft` (App.tsx:515-550): needs a connected wallet and a known
        entry; when the simulated purchase succeeds the entry becomes owned. */
    method BuyNft(id: int, chainOk: bool) returns (r: Outcome)
      requires Valid()
      modifies this
      ensures Valid()
      ensures r == Ok <==> old(WalletReady()) && FindEntry(old(nfts), id).Some? && chainOk
      ensures !old(WalletReady()) ==> r == WalletRequired
      ensures old(WalletReady()) && FindEntry(old(nfts), id) == None ==> r == NftNotFound
      ensures old(WalletReady()) && FindEntry(old(nfts), id).Some? && !chainOk ==> r == TransactionFailed
      ensures r == Ok ==> Snapshot() == old(Snapshot()).(nfts := MarkOwned(old(nfts), id), txStatus := TxSuccess)
      ensures r == WalletRequired ==> Snapshot() == old(Snapshot())
      ensures r != Ok && r != WalletRequired ==> Snapshot() == old(Snapshot()).(txStatus := TxError)
      ensures OwnedGrows(old(nfts), nfts)
    {
      ghost var st := Snapshot();
      if !WalletReady() {
        return WalletRequired;
      }
      if FindEntry(nfts, id) == None || !chainOk {
        r := if FindEntry(nfts, id) == None then NftNotFound else TransactionFailed;
        txStatus := TxError;
        assert Snapshot() == st.(txStatus := TxError);
        FrameKeepsInvariant(st, Snapshot());
        return;
      }
      MarkOwnedGrows(nfts, id);
      GrowsKeepsShelf(nfts, MarkOwned(nfts, id), offers);
      nfts := MarkOwned(nfts, id);
      txStatus := TxSuccess;
      r := Ok;
      assert Snapshot() == st.(nfts := MarkOwned(st.nfts, id), txStatus := TxSuccess);
    }

    /** `submitOffer` (App.tsx:557-576) for the entry the offer dialog was
        opened on (`target`, absent once the dialog is closed). `idTime` and
        `ts` are the two clock readings of the handler. */
    method SubmitOffer(target: Option<nat>, price: Num, idTime: nat, ts: int) returns (r: Outcome)
      requires Valid()
      modifies this
      ensures Valid()
      ensures old(user) == None ==> r == SignInRequired
      ensures old(user).Some? && (target == None || target == Some(0)) ==> r == NoTarget
      ensures r == Ok <==> old(user).Some? && target.Some? && target.value != 0
      ensures r == Ok ==> Snapshot() == old(Snapshot()).(offers := old(offers) + [NewOffer(OfferId(idTime, target.value), target.value, old(user).value.username, price, ts)])
      ensures r != Ok ==> Snapshot() == old(Snapshot())
    {
      if user == None {
        return SignInRequired;
      }
      if target == None || target.value == 0 {
        return NoTarget;
      }
      var o := NewOffer(OfferId(idTime, target.value), target.value, user.value.username, price, ts);
      assert WellFormedId(o);
      AppendPendingKeepsShelf(nfts, offers, o);
      offers := offers + [o];
      r := Ok;
    }

    /** `declineOffer` (App.tsx:578-582). */
    method DeclineOffer(id: string)
      requires Valid()
      modifies this
      ensures Valid()
      ensures Snapshot() == old(Snapshot()).(offers := SetStatus(old(offers), id, Declined))
    {
      StatusChangeKeepsIds(offers, id, Declined);
      StatusChangeKeepsAcceptedOwned(offers, nfts, id, Declined);
      offers := SetStatus(offers, id, Declined);
    }

    /** `acceptOffer` (App.tsx:584-593): for a known id it marks the entry
        of the first offer with that id as owned and every offer with that
        id as accepted; an unknown id changes nothing. */
    method AcceptOffer(id: string) returns (r: Outcome)
      requires Valid()
      modifies this
      ensures Valid()
      ensures r == Ok <==> FindOffer(old(offers), id).Some?
      ensures r != Ok ==> r == NoSuchOffer && Snapshot() == old(Snapshot())
      ensures r == Ok ==> Snapshot() == old(Snapshot()).(
        nfts := MarkOwned(old(nfts), FindOffer(old(offers), id).value.nftId),
        offers := SetStatus(old(offers), id, Accepted))
      ensures OwnedGrows(old(nfts), nfts)
      ensures old(TargetsOwned(offers, nfts, {Accepted, Shipped})) ==> TargetsOwned(offers, nfts, {Accepted, Shipped})
    {
      var off := FindOffer(offers, id);
      if off.None? {
        return NoSuchOffer;
      }
      ghost var st := Snapshot();
      var target := off.value.nftId;
      nfts := MarkOwned(nfts, target);
      offers := SetStatus(offers, id, Accepted);
      r := Ok;
      assert Snapshot() == st.(nfts := MarkOwned(st.nfts, target), offers := SetStatus(st.offers, id, Accepted));
      AcceptKeepsInvariant(st, id);
      MarkOwnedGrows(st.nfts, target);
      if TargetsOwned(st.offers, st.nfts, {Accepted, Shipped}) {
        StatusChangeKeepsIds(st.offers, id, Accepted);
        AcceptKeepsTargetsOwned(st.offers, st.nfts, id, {Accepted, Shipped});
      }
    }

    /** `shipOffer` (App.tsx:595-599). When called as the buyer-requests
        table calls it, on an accepted offer, shipped offers too keep owned
        entries. */
    method ShipOffer(id: string)
      requires Valid()
      modifies this
      ensures Valid()
      ensures Snapshot() == old(Snapshot()).(offers := SetStatus(old(offers), id, Shipped))
      ensures old(TargetsOwned(offers, nfts, {Accepted, Shipped})) && (exists i :: 0 <= i < |old(offers)| && old(offers)[i].id == id && old(offers)[i].status == Accepted)
        ==> TargetsOwned(offers, nfts, {Accepted, Shipped})
    {
      StatusChangeKeepsIds(offers, id, Shipped);
      StatusChangeKeepsAcceptedOwned(offers, nfts, id, Shipped);
      if TargetsOwned(offers, nfts, {Accepted, Shipped}) && exists i :: 0 <= i < |offers| && offers[i].id == id && offers[i].status == Accepted {
        var j :| 0 <= j < |offers| && offers[j].id == id && offers[j].status == Accepted;
        ShipKeepsTargetsOwned(offers, nfts, id, j);
      }
      offers := SetStatus(offers, id, Shipped);
    }

    /** `confirmFiatWithdraw` (App.tsx:601-646) with the drafts as typed;
        `wdId`, `eta` and `ts` come from the clock. */
    method ConfirmFiatWithdraw(draft: string, name: string, iban: string, wdId: string, eta: string, ts: int) returns (r: Outcome)
      requires Valid()
      modifies this
      ensures Valid()
      ensures var amount := Amounts.WithdrawAmount(draft);
        && (r == Ok <==> Ledger.CheckWithdrawal(old(user).Some?, amount, old(walletBalance), name, iban) == None)
        && (r == Ok ==> Snapshot() == old(Snapshot()).(
              walletBalance := old(walletBalance) - amount,
              pendingFiat := old(pendingFiat) + [Ledger.NewWithdrawal(wdId, amount, eta, iban, ts)]))
      ensures r != Ok ==> Snapshot() == old(Snapshot())
      ensures r == SignInRequired <==> old(user) == None
      ensures var refusal := Ledger.CheckWithdrawal(old(user).Some?, Amounts.WithdrawAmount(draft), old(walletBalance), name, iban);
        && (refusal == Some(Ledger.InvalidAmount) ==> r == InvalidAmount)
        && (refusal == Some(Ledger.MissingBeneficiary) ==> r == MissingBeneficiary)
    {
      var amount := Amounts.WithdrawAmount(draft);
      var refusal := Ledger.CheckWithdrawal(user.Some?, amount, walletBalance, name, iban);
      if refusal == Some(Ledger.SignInRequired) {
        return SignInRequired;
      } else if refusal == Some(Ledger.InvalidAmount) {
        return InvalidAmount;
      } else if refusal == Some(Ledger.MissingBeneficiary) {
        return MissingBeneficiary;
      }
      QueueWithdrawal(Ledger.NewWithdrawal(wdId, amount, eta, iban, ts));
      r := Ok;
    }

    /** The state update of an accepted withdrawal: the record joins the
        queue and its amount leaves the wallet balance. */
    method QueueWithdrawal(w: Ledger.FiatWithdrawal)
      requires Valid() && 0 < w.amount <= walletBalance
      modifies this
      ensures Valid()
      ensures Snapshot() == old(Snapshot()).(walletBalance := old(walletBalance) - w.amount, pendingFiat := old(pendingFiat) + [w])
    {
      ghost var st := Snapshot();
      pendingFiat := pendingFiat + [w];
      walletBalance := walletBalance - w.amount;
      assert Snapshot() == st.(walletBalance := st.walletBalance - w.amount, pendingFiat := st.pendingFiat + [w]);
      FrameKeepsInvariant(st, Snapshot());
    }

    /** `withdrawRoyalty` (App.tsx:648-681): needs a connected wallet and a
        positive royalty balance; a successful distribution zeroes it. */
    method WithdrawRoyalty(chainOk: bool) returns (r: Outcome)
      requires Valid()
      modifies this
      ensures Valid()
      ensures !old(WalletReady()) ==> r == WalletRequired
      ensures old(WalletReady()) && old(royaltyBalance) <= 0 ==> r == RoyaltyEmpty
      ensures r == Ok <==> old(WalletReady()) && old(royaltyBalance) > 0 && chainOk
      ensures old(WalletReady()) && old(royaltyBalance) > 0 && !chainOk ==> r == TransactionFailed
      ensures r == Ok ==> Snapshot() == old(Snapshot()).(royaltyBalance := 0, txStatus := TxSuccess)
      ensures r == TransactionFailed ==> Snapshot() == old(Snapshot()).(txStatus := TxError)
      ensures r == WalletRequired || r == RoyaltyEmpty ==> Snapshot() == old(Snapshot())
      ensures old(RoyaltyCovered()) ==> RoyaltyCovered()
    {
      ghost var st := Snapshot();
      if !WalletReady() {
        return WalletRequired;
      }
      if royaltyBalance <= 0 {
        return RoyaltyEmpty;
      }
      if !chainOk {
        txStatus := TxError;
        assert Snapshot() == st.(txStatus := TxError);
        FrameKeepsInvariant(st, Snapshot());
        return TransactionFailed;
      }
      royaltyBalance := 0;
      txStatus := TxSuccess;
      r := Ok;
      assert Snapshot() == st.(royaltyBalance := 0, txStatus := TxSuccess);
      FrameKeepsInvariant(st, Snapshot());
    }

    /** `mintAlbumNfts` (App.tsx:683-717): needs a connected wallet; the
        simulated mint only moves the banner, to success when it resolves
        and to error when it is rejected. The album form and the returned
        collection id are not modelled. */
    method MintAlbum(chainOk: bool) returns (r: Outcome)
      requires Valid()
      modifies this
      ensures Valid()
      ensures !old(WalletReady()) ==> r == WalletRequired && Snapshot() == old(Snapshot())
      ensures r == Ok <==> old(WalletReady()) && chainOk
      ensures old(WalletReady()) && !chainOk ==> r == TransactionFailed
      ensures r == Ok ==> Snapshot() == old(Snapshot()).(txStatus := TxSuccess)
      ensures r == TransactionFailed ==> Snapshot() == old(Snapshot()).(txStatus := TxError)
    {
      ghost var st := Snapshot();
      if !WalletReady() {
        return WalletRequired;
      }
      if chainOk {
        txStatus := TxSuccess;
        r := Ok;
      } else {
        txStatus := TxError;
        r := TransactionFailed;
      }
      assert Snapshot() == st.(txStatus := txStatus);
      FrameKeepsInvariant(st, Snapshot());
    }

    /** `addPayout` (App.tsx:720-760): needs a connected wallet and at least
        one owned entry; a successful distribution appends a payout dated
        `today` and raises the royalty balance by `amount`. The banner status
        is the corrected `PayoutStatus`. */
    method AddPayout(amount: int, today: string, chainOk: bool) returns (r: Outcome)
      requires Valid()
      modifies this
      ensures Valid()
      ensures !old(WalletReady()) ==> r == WalletRequired
      ensures old(WalletReady()) && Analytics.CountOwned(old(nfts)) == 0 ==> r == NoOwners
      ensures r == Ok <==> old(WalletReady()) && Analytics.CountOwned(old(nfts)) > 0 && chainOk
      ensures old(WalletReady()) && Analytics.CountOwned(old(nfts)) > 0 && !chainOk ==> r == TransactionFailed
      ensures r == TransactionFailed ==> Snapshot() == old(Snapshot()).(txStatus := TxError)
      ensures r == Ok ==> Snapshot() == old(Snapshot()).(
        payouts := old(payouts) + [Ledger.Payout(today, amount)],
        royaltyBalance := old(royaltyBalance) + amount,
        txStatus := TxSuccess)
      ensures r == Ok ==> Ledger.PaidToFans(payouts) == Ledger.PaidToFans(old(payouts)) + amount
      ensures r != Ok ==> Snapshot() == old(Snapshot()).(txStatus := txStatus)
      ensures txStatus == PayoutStatus(old(txStatus), old(WalletReady()), Analytics.CountOwned(old(nfts)), chainOk)
      ensures amount >= 0 && old(RoyaltyCovered()) ==> RoyaltyCovered()
    {
      ghost var st := Snapshot();
      if !WalletReady() {
        return WalletRequired;
      }
      if Analytics.CountOwned(nfts) == 0 {
        return NoOwners;
      }
      if !chainOk {
        txStatus := TxError;
        assert Snapshot() == st.(txStatus := TxError);
        FrameKeepsInvariant(st, Snapshot());
        return TransactionFailed;
      }
      Ledger.PaidToFansAppend(payouts, Ledger.Payout(today, amount));
      payouts := payouts + [Ledger.Payout(today, amount)];
      royaltyBalance := royaltyBalance + amount;
      txStatus := TxSuccess;
      r := Ok;
      assert Snapshot() == st.(payouts := st.payouts + [Ledger.Payout(today, amount)],
                               royaltyBalance := st.royaltyBalance + amount, txStatus := TxSuccess);
      FrameKeepsInvariant(st, Snapshot());
    }
  }
}
