/**
 Properties of the item routes over several calls: a run of bids on one item,
 the invariant it keeps, the uncapped anti-snipe extension, and how bidding and
 winner resolution fit together around the deadline.
 */
module BidHistory {
  import opened Wrappers
  import opened Models
  import opened ItemRouter

  /** One bid request on the item: who, how much, and the clock when it arrives. */
  datatype BidRequest = BidRequest(bidder: UserId, amount: int, at: int)

  /** The item document after handling `bids` in order, rejected ones included. */
  function ApplyBids(item: Item, bids: seq<BidRequest>): (r: Item)
    decreases |bids|
  {
    if bids == [] then item
    else ApplyBids(Bid(item, bids[0].bidder, bids[0].amount, bids[0].at).item, bids[1..])
  }

  /** Neither the highest bid nor the deadline ever goes back, whatever the bids. */
  lemma {:induction false} BidsMonotone(item: Item, bids: seq<BidRequest>)
    ensures item.highestBid <= ApplyBids(item, bids).highestBid
    ensures item.endDate <= ApplyBids(item, bids).endDate
    decreases |bids|
  {
    if bids != [] {
      BidsMonotone(Bid(item, bids[0].bidder, bids[0].amount, bids[0].at).item, bids[1..]);
    }
  }

  /** Bids keep the consistency of highest bid and winner, and never touch
      the fields fixed at listing time. */
  lemma {:induction false} BidsPreserveConsistent(item: Item, bids: seq<BidRequest>)
    requires Consistent(item)
    ensures Consistent(ApplyBids(item, bids))
    ensures ApplyBids(item, bids).seller == item.seller
    ensures ApplyBids(item, bids).startingPrice == item.startingPrice
    ensures ApplyBids(item, bids).name == item.name
    ensures ApplyBids(item, bids).description == item.description
    decreases |bids|
  {
    if bids != [] {
      BidsPreserveConsistent(Bid(item, bids[0].bidder, bids[0].amount, bids[0].at).item, bids[1..]);
    }
  }

  /** Every item the add route creates stays consistent under any run of bids. */
  lemma ListedItemsStayConsistent(req: AddRequest, seller: UserId, bids: seq<BidRequest>)
    requires AllFieldsGiven(req)
    ensures AddItem(req, seller).ItemAdded?
    ensures Consistent(ApplyBids(AddItem(req, seller).item, bids))
    ensures ApplyBids(AddItem(req, seller).item, bids).seller == seller
  {
    BidsPreserveConsistent(AddItem(req, seller).item, bids);
  }

  /** `n` bids, each one millisecond before the deadline as it stands after the
      previous ones and one above the highest bid as it stands then. */
  function LateBids(item: Item, bidder: UserId, n: nat): (bids: seq<BidRequest>)
    ensures |bids| == n
  {
    seq(n, i => BidRequest(bidder, item.highestBid + i + 1, item.endDate + i * ExtensionMs - 1))
  }

  /** There is no cap on extensions: every one of `n` late bids is accepted and
      pushes the deadline back by another five minutes. */
  lemma {:induction false} UncappedExtension(item: Item, bidder: UserId, n: nat)
    ensures ApplyBids(item, LateBids(item, bidder, n)).endDate == item.endDate + n * ExtensionMs
    ensures ApplyBids(item, LateBids(item, bidder, n)).highestBid == item.highestBid + n
    ensures n > 0 ==> ApplyBids(item, LateBids(item, bidder, n)).winningBidder == Some(bidder)
    decreases n
  {
    if n > 0 {
      var bids := LateBids(item, bidder, n);
      var next := Bid(item, bidder, item.highestBid + 1, item.endDate - 1).item;
      assert bids[0] == BidRequest(bidder, item.highestBid + 1, item.endDate - 1);
      assert next.endDate == item.endDate + ExtensionMs;
      assert next.highestBid == item.highestBid + 1;
      assert bids[1..] == LateBids(next, bidder, n - 1);
      UncappedExtension(next, bidder, n - 1);
    }
  }

  /** Once the deadline has passed, the bidder of the last accepted bid is the
      winner the winner route announces. */
  lemma LastBidderWins(item: Item, bidder: UserId, bidAmount: int, now: int,
                       users: map<UserId, User>, later: int)
    requires Bid(item, bidder, bidAmount, now).reply == BidPlaced
    requires Bid(item, bidder, bidAmount, now).item.endDate <= later
    requires bidder in users
    ensures ResolveWinner(Some(Bid(item, bidder, bidAmount, now).item), users, later)
            == WinnerIs(Contact(users[bidder]))
  {
  }

  /** A bid placed in the last five minutes keeps the auction open for the
      winner route for at least five more minutes after the old deadline. */
  lemma LateBidKeepsAuctionOpen(item: Item, bidder: UserId, bidAmount: int, now: int,
                                users: map<UserId, User>, later: int)
    requires Bid(item, bidder, bidAmount, now).reply == BidPlaced
    requires item.endDate - now < ExtensionMs
    requires later < item.endDate + ExtensionMs
    ensures ResolveWinner(Some(Bid(item, bidder, bidAmount, now).item), users, later) == NotEndedYet
  {
  }

  /** At the deadline millisecond itself the winner route already treats the
      auction as over, yet the bid route still accepts a higher bid, which
      extends the deadline and so reopens the auction for the winner route. */
  lemma DeadlineInstantReopens(item: Item, bidder: UserId, bidAmount: int, users: map<UserId, User>)
    requires item.highestBid < bidAmount
    ensures ResolveWinner(Some(item), users, item.endDate) != NotEndedYet
    ensures Bid(item, bidder, bidAmount, item.endDate).reply == BidPlaced
    ensures ResolveWinner(Some(Bid(item, bidder, bidAmount, item.endDate).item), users, item.endDate)
            == NotEndedYet
  {
  }

  /** Bids that all arrive after the deadline are all rejected as ended and
      leave the item exactly as it was, so the winner stays fixed. */
  lemma {:induction false} ClosedItemIsFrozen(item: Item, bids: seq<BidRequest>)
    requires forall k :: 0 <= k < |bids| ==> item.endDate < bids[k].at
    ensures ApplyBids(item, bids) == item
    decreases |bids|
  {
    if bids != [] {
      assert Bid(item, bids[0].bidder, bids[0].amount, bids[0].at).item == item;
      assert forall k :: 0 <= k < |bids[1..]| ==> item.endDate < bids[1..][k].at by {
        forall k | 0 <= k < |bids[1..]| ensures item.endDate < bids[1..][k].at {
          assert bids[1..][k] == bids[k + 1];
        }
      }
      ClosedItemIsFrozen(item, bids[1..]);
    }
  }

  /** The starting price plays no part in bidding: on a freshly listed item any
      positive bid, however far below the starting price, is accepted. */
  lemma StartingPriceNotEnforced(req: AddRequest, seller: UserId, bidder: UserId, bidAmount: int, now: int)
    requires AllFieldsGiven(req)
    requires 0 < bidAmount && now <= req.endDate.value
    ensures AddItem(req, seller).ItemAdded?
    ensures Bid(AddItem(req, seller).item, bidder, bidAmount, now).reply == BidPlaced
  {
  }

  /** A worked run on the object model: an item listed at 100 with deadline `t`. */
  method SnipeScenario(t: int)
  {
    var doc := Item("lamp", "brass lamp", 100, t, 7, 0, None);
    var item := new AuctionItem.Load(doc);
    var r := BidRoute(item, 1, 0, t - 600000);
    assert r == BidTooLow && item.Document() == doc;
    r := BidRoute(item, 1, 50, t - 600000);
    assert r == BidPlaced && item.highestBid == 50;
    r := BidRoute(item, 1, 150, t - 600000);
    assert r == BidPlaced && item.highestBid == 150 && item.winningBidder == Some(1);
    assert item.endDate == t;
    r := BidRoute(item, 2, 120, t - 500000);
    assert r == BidTooLow && item.highestBid == 150;
    r := BidRoute(item, 2, 160, t - 120000);
    assert r == BidPlaced && item.endDate == t + 300000;
    assert ResolveWinner(Some(item.Document()), map[], t + 60000) == NotEndedYet;
    r := BidRoute(item, 3, 200, t + 300001);
    assert r == BiddingEnded && item.highestBid == 160 && item.winningBidder == Some(2);
    r := BidRoute(null, 3, 200, t);
    assert r == ItemNotFound;
  }
}
