/** The ascending-price auction of auction.rs: `items` maps an item id to its
    current price, `bids` maps an item id to every bid accepted for it, in
    order. Ids and prices are u64 in the source and `nat` here. */
module Auction {
  import opened Ledgers

  type ItemId = nat

  /** One accepted bid: who placed it and how much. */
  datatype Bid = Bid(bidder: AccountId, amount: nat)

  /** The messages of the contract's `assert!`s. */
  datatype AuctionError = ItemAlreadyExists | ItemNotFound | BidTooLow

  /** The contract's persistent fields, as one value. */
  datatype AuctionState = AuctionState(items: map<ItemId, nat>, bids: map<ItemId, seq<Bid>>)

  /** `bids.get(&item_id).unwrap_or(vec![])` */
  function BidsOf(s: AuctionState, itemId: ItemId): seq<Bid>
  {
    if itemId in s.bids then s.bids[itemId] else []
  }

  /** Every later bid in `bs` is strictly higher than every earlier one. */
  ghost predicate StrictlyIncreasing(bs: seq<Bid>)
  {
    forall i, j :: 0 <= i < j < |bs| ==> bs[i].amount < bs[j].amount
  }

  /** What every reachable auction state satisfies: only existing items have
      bids, each bid list is non-empty and strictly increasing, and its last
      bid is the item's current price. */
  ghost predicate WellFormed(s: AuctionState)
  {
    forall itemId :: itemId in s.bids ==>
      && itemId in s.items
      && s.bids[itemId] != []
      && StrictlyIncreasing(s.bids[itemId])
      && s.bids[itemId][|s.bids[itemId]| - 1].amount == s.items[itemId]
  }

  /** `create_item`: rejects an id that already exists, otherwise lists the
      item at `startingPrice` and touches nothing else. */
  function CreateItemStep(s: AuctionState, itemId: ItemId, startingPrice: nat): (t: Transition<AuctionState, AuctionError>)
    ensures t.outcome.Rejected? <==> itemId in s.items
    ensures t.outcome.Rejected? ==> t.outcome.reason == ItemAlreadyExists && t.next == s
    ensures t.outcome.Accepted? ==>
      && t.next.items.Keys == s.items.Keys + {itemId}
      && t.next.items[itemId] == startingPrice
      && (forall id :: id in s.items ==> t.next.items[id] == s.items[id])
      && t.next.bids == s.bids
  {
    if itemId in s.items then Transition(Rejected(ItemAlreadyExists), s)
    else Transition(Accepted, s.(items := s.items[itemId := startingPrice]))
  }

  /** `place_bid`: the item must exist and the bid must beat the current price
      strictly; an accepted bid is appended to the item's list and becomes its
      price, and no other item changes. */
  function PlaceBidStep(s: AuctionState, bidder: AccountId, itemId: ItemId, amount: nat): (t: Transition<AuctionState, AuctionError>)
    ensures t.outcome == Rejected(ItemNotFound) <==> itemId !in s.items
    ensures t.outcome == Rejected(BidTooLow) <==> itemId in s.items && amount <= s.items[itemId]
    ensures t.outcome.Accepted? <==> itemId in s.items && s.items[itemId] < amount
    ensures t.outcome.Rejected? ==> t.next == s
    ensures t.outcome.Accepted? ==>
      && itemId in s.items && s.items[itemId] < amount
      && t.next.items.Keys == s.items.Keys
      && t.next.items[itemId] == amount
      && (forall id :: id in s.items && id != itemId ==> t.next.items[id] == s.items[id])
      && t.next.bids.Keys == s.bids.Keys + {itemId}
      && t.next.bids[itemId] == BidsOf(s, itemId) + [Bid(bidder, amount)]
      && (forall id :: id in s.bids && id != itemId ==> t.next.bids[id] == s.bids[id])
  {
    if itemId !in s.items then Transition(Rejected(ItemNotFound), s)
    else
      var currentPrice := s.items[itemId];
      if amount <= currentPrice then Transition(Rejected(BidTooLow), s)
      else
        var itemBids := BidsOf(s, itemId) + [Bid(bidder, amount)];
        Transition(Accepted, AuctionState(s.items[itemId := amount], s.bids[itemId := itemBids]))
  }

  /** `get_current_bid`: the stored price, 0 for an unknown item. */
  function CurrentBid(s: AuctionState, itemId: ItemId): nat
  {
    Get(s.items, itemId)
  }

  lemma CreateItemPreservesWellFormed(s: AuctionState, itemId: ItemId, startingPrice: nat)
    requires WellFormed(s)
    ensures WellFormed(CreateItemStep(s, itemId, startingPrice).next)
  {
  }

  lemma PlaceBidPreservesWellFormed(s: AuctionState, bidder: AccountId, itemId: ItemId, amount: nat)
    requires WellFormed(s)
    ensures WellFormed(PlaceBidStep(s, bidder, itemId, amount).next)
  {
    var t := PlaceBidStep(s, bidder, itemId, amount);
    if t.outcome.Accepted? {
      var old_ := BidsOf(s, itemId);
      var bs := t.next.bids[itemId];
      assert bs == old_ + [Bid(bidder, amount)];
      forall i, j | 0 <= i < j < |bs| ensures bs[i].amount < bs[j].amount {
        if j == |bs| - 1 {
          if itemId in s.bids {
            assert bs[i] == old_[i];
            assert old_[i].amount <= old_[|old_| - 1].amount;
          }
        }
      }
    }
  }

  /** In a well-formed state the current price of an item that has bids is the
      highest bid placed on it, and that highest bid is the last one. */
  lemma PriceIsHighestBid(s: AuctionState, itemId: ItemId)
    ensures WellFormed(s) && itemId in s.bids ==>
      && s.bids[itemId] != []
      && s.bids[itemId][|s.bids[itemId]| - 1].amount == CurrentBid(s, itemId)
      && (forall i :: 0 <= i < |s.bids[itemId]| ==> s.bids[itemId][i].amount <= CurrentBid(s, itemId))
  {
    if WellFormed(s) && itemId in s.bids {
      var bs := s.bids[itemId];
      forall i | 0 <= i < |bs| ensures bs[i].amount <= CurrentBid(s, itemId) {
        if i < |bs| - 1 {
          assert bs[i].amount < bs[|bs| - 1].amount;
        }
      }
    }
  }

  /** A call to the auction contract, with the caller made explicit. */
  datatype AuctionCall =
    | CreateItem(itemId: ItemId, startingPrice: nat)
    | PlaceBid(bidder: AccountId, itemId: ItemId, amount: nat)

  function Apply(s: AuctionState, call: AuctionCall): AuctionState
  {
    match call
    case CreateItem(itemId, startingPrice) => CreateItemStep(s, itemId, startingPrice).next
    case PlaceBid(bidder, itemId, amount) => PlaceBidStep(s, bidder, itemId, amount).next
  }

  /** The state after the calls `calls`, in order. */
  function Run(s: AuctionState, calls: seq<AuctionCall>): AuctionState
    decreases |calls|
  {
    if calls == [] then s else Run(Apply(s, calls[0]), calls[1..])
  }

  /** From the empty contract, any sequence of calls, accepted or rejected,
      leaves every item's bids strictly increasing and ending in its price. */
  lemma {:induction false} RunKeepsWellFormed(s: AuctionState, calls: seq<AuctionCall>)
    requires WellFormed(s)
    ensures WellFormed(Run(s, calls))
    decreases |calls|
  {
    if calls != [] {
      match calls[0] {
        case CreateItem(itemId, startingPrice) =>
          CreateItemPreservesWellFormed(s, itemId, startingPrice);
        case PlaceBid(bidder, itemId, amount) =>
          PlaceBidPreservesWellFormed(s, bidder, itemId, amount);
      }
      RunKeepsWellFormed(Apply(s, calls[0]), calls[1..]);
    }
  }

  /** Along any sequence of calls an item is never removed and its price
      never goes down. */
  lemma {:induction false} RunNeverLowersPrice(s: AuctionState, calls: seq<AuctionCall>, itemId: ItemId)
    requires itemId in s.items
    ensures itemId in Run(s, calls).items && s.items[itemId] <= Run(s, calls).items[itemId]
    decreases |calls|
  {
    if calls != [] {
      RunNeverLowersPrice(Apply(s, calls[0]), calls[1..], itemId);
    }
  }

  /** Along any sequence of calls an item's bid list is only ever extended:
      the bids it holds now stay, in the same order, at its front. */
  lemma {:induction false} RunOnlyAppendsBids(s: AuctionState, calls: seq<AuctionCall>, itemId: ItemId)
    ensures BidsOf(s, itemId) <= BidsOf(Run(s, calls), itemId)
    decreases |calls|
  {
    if calls != [] {
      RunOnlyAppendsBids(Apply(s, calls[0]), calls[1..], itemId);
    }
  }

  /** Creating the same id twice always fails the second time, whatever the
      prices. */
  lemma CreateItemNotIdempotent(s: AuctionState, itemId: ItemId, p1: nat, p2: nat)
    ensures CreateItemStep(CreateItemStep(s, itemId, p1).next, itemId, p2).outcome == Rejected(ItemAlreadyExists)
  {
  }

  /** Item 1 listed at 100: a bid of 100 is too low, 150 is accepted and
      becomes the price, and 120 is then too low. */
  lemma BidScenario(s: AuctionState, alice: AccountId, bob: AccountId, carol: AccountId)
    requires 1 !in s.items
    ensures
      var s1 := CreateItemStep(s, 1, 100);
      var t2 := PlaceBidStep(s1.next, alice, 1, 100);
      var t3 := PlaceBidStep(t2.next, bob, 1, 150);
      var t4 := PlaceBidStep(t3.next, carol, 1, 120);
      && s1.outcome == Accepted
      && t2.outcome == Rejected(BidTooLow)
      && t3.outcome == Accepted && CurrentBid(t3.next, 1) == 150
      && t4.outcome == Rejected(BidTooLow) && t4.next == t3.next
  {
  }

  /** The deployed contract: its two persistent maps as fields. */
  class AuctionContract {
    var items: map<ItemId, nat>
    var bids: map<ItemId, seq<Bid>>

    function State(): AuctionState
      reads this
    {
      AuctionState(items, bids)
    }

    ghost predicate Valid()
      reads this
    {
      WellFormed(State())
    }

    constructor ()
      ensures Valid() && items == map[] && bids == map[]
    {
      items := map[];
      bids := map[];
    }

    /** `create_item`, checked before anything is written. */
    method CreateItem(itemId: ItemId, startingPrice: nat) returns (outcome: Outcome<AuctionError>)
      requires Valid()
      modifies this
      ensures Valid()
      ensures Transition(outcome, State()) == CreateItemStep(old(State()), itemId, startingPrice)
    {
      CreateItemPreservesWellFormed(State(), itemId, startingPrice);
      if itemId in items {
        return Rejected(ItemAlreadyExists);
      }
      items := items[itemId := startingPrice];
      outcome := Accepted;
    }

    /** `place_bid` with `caller` standing for the predecessor account: read
        the item's bid list, push the new bid, write the list back, then
        raise the price. */
    method PlaceBid(caller: AccountId, itemId: ItemId, amount: nat) returns (outcome: Outcome<AuctionError>)
      requires Valid()
      modifies this
      ensures Valid()
      ensures Transition(outcome, State()) == PlaceBidStep(old(State()), caller, itemId, amount)
    {
      PlaceBidPreservesWellFormed(State(), caller, itemId, amount);
      if itemId !in items {
        return Rejected(ItemNotFound);
      }
      var currentPrice := items[itemId];
      if amount <= currentPrice {
        return Rejected(BidTooLow);
      }
      var itemBids := if itemId in bids then bids[itemId] else [];
      itemBids := itemBids + [Bid(caller, amount)];
      bids := bids[itemId := itemBids];
      items := items[itemId := amount];
      outcome := Accepted;
    }

    /** `get_current_bid`: reads only; the stored price or 0, and on a valid
        contract no bid on the item is higher. */
    function GetCurrentBid(itemId: ItemId): (price: nat)
      reads this
      ensures itemId !in items ==> price == 0
      ensures itemId in items ==> price == items[itemId]
      ensures Valid() && itemId in bids ==>
        forall i :: 0 <= i < |bids[itemId]| ==> bids[itemId][i].amount <= price
    {
      PriceIsHighestBid(State(), itemId);
      CurrentBid(State(), itemId)
    }
  }
}
