/**
 The item routes of the auction backend with the HTTP and database plumbing
 removed: adding an item, placing a bid on a loaded item document, and
 resolving the winner of an item. The clock is the parameter `now`
 (milliseconds); the item store is a nullable loaded document for bids and an
 optional document for the winner; the user store is a map.
 */
module ItemRouter {
  import opened Wrappers
  import opened Models

  /** One minute, the unit the anti-snipe rule counts in. */
  const MinuteMs: int := 1000 * 60
  /** The anti-snipe window, in whole minutes. */
  const SnipeWindowMinutes: int := 5
  /** The extension added to the deadline by a late bid: five minutes. */
  const ExtensionMs: int := 5 * 60 * 1000

  /** Text that precedes the winner's contact in the success reply. */
  const WinnerPrefix: string := "Winner for the item auction is "

  /** Every reply the routes give; each one is a distinct status/message pair. */
  datatype Reply =
    | ItemNotFound
    | BiddingEnded
    | BidTooLow
    | BidPlaced
    | NotEndedYet
    | NoWinner
    | WinnerNotFound
    | WinnerIs(contact: string)
    | FetchWinnerFailed
    | FieldsRequired
    | ItemAdded(item: Item)
  {
    function Status(): int {
      match this
      case ItemNotFound => 404
      case BiddingEnded => 400
      case BidTooLow => 400
      case BidPlaced => 200
      case NotEndedYet => 500
      case NoWinner => 400
      case WinnerNotFound => 404
      case WinnerIs(_) => 200
      case FetchWinnerFailed => 500
      case FieldsRequired => 400
      case ItemAdded(_) => 201
    }

    function Message(): string {
      match this
      case ItemNotFound => "Item not found"
      case BiddingEnded => "Bidding for this item has ended"
      case BidTooLow => "Bid amount must be higher than current highest bid"
      case BidPlaced => "Bid placed Successfully"
      case NotEndedYet => "Auction for this item has not ended yet"
      case NoWinner => "No winner found for this item"
      case WinnerNotFound => "Winner not found"
      case WinnerIs(c) => WinnerPrefix + c
      case FetchWinnerFailed => "Failed to fetch final winner"
      case FieldsRequired => "All fields are required"
      case ItemAdded(_) => "Item added for auction successfully"
    }
  }

  /** The consistency every item created by AddItem and changed only by bids keeps:
      no winner and a highest bid of 0 before the first accepted bid, a winner and
      a positive highest bid after it. */
  predicate Consistent(item: Item) {
    item.highestBid >= 0 && (item.winningBidder.Some? <==> item.highestBid > 0)
  }

  // ---------------------------------------------------------------- add item

  /** The fields of an add request body, each possibly absent. */
  datatype AddRequest = AddRequest(
    name: Option<string>,
    description: Option<string>,
    startingPrice: Option<int>,
    endDate: Option<int>)

  predicate AllFieldsGiven(req: AddRequest) {
    TruthyString(req.name) && TruthyString(req.description)
    && TruthyNumber(req.startingPrice) && TruthyNumber(req.endDate)
  }

  /** Validates an add request and builds the new item document, listed by `currentUser`. */
  function AddItem(req: AddRequest, currentUser: UserId): (r: Reply)
    ensures r == FieldsRequired <==> !AllFieldsGiven(req)
    ensures r.ItemAdded? <==> AllFieldsGiven(req)
    ensures r.ItemAdded? ==>
      && r.item.seller == currentUser
      && r.item.name == req.name.value && r.item.name != ""
      && r.item.description == req.description.value && r.item.description != ""
      && r.item.startingPrice == req.startingPrice.value && r.item.startingPrice != 0
      && r.item.endDate == req.endDate.value
      && r.item.highestBid == 0 && r.item.winningBidder.None?
      && Consistent(r.item)
  {
    if !TruthyString(req.name) || !TruthyString(req.description)
       || !TruthyNumber(req.startingPrice) || !TruthyNumber(req.endDate)
    then FieldsRequired
    else ItemAdded(Item(req.name.value, req.description.value, req.startingPrice.value,
                        req.endDate.value, currentUser, 0, None))
  }

  // ---------------------------------------------------------------- place bid

  /** The outcome of one bid: the reply and the item document afterwards. */
  datatype BidOutcome = BidOutcome(reply: Reply, item: Item)

  /** The whole-minute test of the handler is the same as a millisecond
      comparison with the five-minute extension (floor division). */
  lemma SnipeWindow(remaining: int)
    ensures remaining / MinuteMs < SnipeWindowMinutes <==> remaining < ExtensionMs
  {
  }

  /** A bid on an existing item at time `now`, as a value: checks in the order
      ended, then too low; an accepted bid inside the last five minutes pushes the
      current deadline back by five minutes, then records amount and bidder. */
  function Bid(item: Item, bidder: UserId, bidAmount: int, now: int): (o: BidOutcome)
    ensures o.reply == BiddingEnded <==> item.endDate < now
    ensures o.reply == BidTooLow <==> now <= item.endDate && bidAmount <= item.highestBid
    ensures o.reply == BidPlaced <==> now <= item.endDate && item.highestBid < bidAmount
    ensures o.reply != BidPlaced ==> o.item == item
    ensures o.reply == BidPlaced ==>
      && o.item.highestBid == bidAmount > item.highestBid
      && o.item.winningBidder == Some(bidder)
      && o.item.endDate == item.endDate + (if item.endDate - now < ExtensionMs then ExtensionMs else 0)
      && o.item.(endDate := item.endDate, highestBid := item.highestBid,
                 winningBidder := item.winningBidder) == item
    ensures item.endDate <= o.item.endDate && item.highestBid <= o.item.highestBid
    ensures Consistent(item) ==> Consistent(o.item)
  {
    if item.endDate < now then BidOutcome(BiddingEnded, item)
    else if bidAmount <= item.highestBid then BidOutcome(BidTooLow, item)
    else
      var deadline := if item.endDate - now < ExtensionMs then item.endDate + ExtensionMs else item.endDate;
      BidOutcome(BidPlaced, item.(endDate := deadline, highestBid := bidAmount,
                                  winningBidder := Some(bidder)))
  }

  /** A loaded item document whose deadline, highest bid and winner the bid
      handler updates in place before saving it. */
  class AuctionItem {
    const name: string
    const description: string
    const startingPrice: int
    const seller: UserId
    var endDate: int
    var highestBid: int
    var winningBidder: Option<UserId>

    /** Loads a stored document. */
    constructor Load(doc: Item)
      ensures Document() == doc
    {
      name, description, startingPrice, seller := doc.name, doc.description, doc.startingPrice, doc.seller;
      endDate, highestBid, winningBidder := doc.endDate, doc.highestBid, doc.winningBidder;
    }

    /** The document this object would save. */
    function Document(): (d: Item)
      reads this
    {
      Item(name, description, startingPrice, endDate, seller, highestBid, winningBidder)
    }

    /** The bid handler after the item was found: one reading of the clock, `now`. */
    method PlaceBid(bidder: UserId, bidAmount: int, now: int) returns (r: Reply)
      modifies this
      ensures r == Bid(old(Document()), bidder, bidAmount, now).reply
      ensures Document() == Bid(old(Document()), bidder, bidAmount, now).item
      ensures r != BidPlaced ==> unchanged(this)
      ensures old(endDate) <= endDate && old(highestBid) <= highestBid
    {
      if endDate < now {
        return BiddingEnded;
      }
      if bidAmount <= highestBid {
        return BidTooLow;
      }
      var timeDifference := endDate - now;
      var minutesDifference := timeDifference / MinuteMs;
      SnipeWindow(timeDifference);
      if minutesDifference < SnipeWindowMinutes {
        endDate := endDate + ExtensionMs;
      }
      highestBid := bidAmount;
      winningBidder := Some(bidder);
      r := BidPlaced;
    }
  }

  /** The bid route: `item` is the result of the lookup, null when no document has the id. */
  method BidRoute(item: AuctionItem?, bidder: UserId, bidAmount: int, now: int) returns (r: Reply)
    modifies item
    ensures item == null ==> r == ItemNotFound
    ensures item != null ==>
      && r == Bid(old(item.Document()), bidder, bidAmount, now).reply
      && item.Document() == Bid(old(item.Document()), bidder, bidAmount, now).item
  {
    if item == null {
      return ItemNotFound;
    }
    r := item.PlaceBid(bidder, bidAmount, now);
  }

  // ---------------------------------------------------------------- winner

  /** The contact the winner reply names: the email when truthy, else the mobile number. */
  function Contact(u: User): (c: string) {
    if TruthyField(u.email) then u.email.s else TemplateText(u.mobileNumber)
  }

  /** The winner route as written: reading the deadline of a missing item fails,
      so a missing item gets the catch-all reply and never "Item not found". */
  function ResolveWinner(item: Option<Item>, users: map<UserId, User>, now: int): (r: Reply)
    ensures item.None? ==> r == FetchWinnerFailed
    ensures r != ItemNotFound
    ensures r == NotEndedYet <==> item.Some? && now < item.value.endDate
    ensures r == NoWinner <==>
      item.Some? && item.value.endDate <= now && item.value.winningBidder.None?
    ensures r == WinnerNotFound <==>
      && item.Some? && item.value.endDate <= now && item.value.winningBidder.Some?
      && item.value.winningBidder.value !in users
    ensures r.WinnerIs? <==>
      && item.Some? && item.value.endDate <= now && item.value.winningBidder.Some?
      && item.value.winningBidder.value in users
    ensures r.WinnerIs? ==>
      var u := users[item.value.winningBidder.value];
      && (TruthyField(u.email) ==> r.contact == u.email.s)
      && (!TruthyField(u.email) ==> r.contact == TemplateText(u.mobileNumber))
  {
    match item
    case None => FetchWinnerFailed
    case Some(it) =>
      if it.endDate > now then NotEndedYet
      else
        match it.winningBidder
        case None => NoWinner
        case Some(w) => if w !in users then WinnerNotFound else WinnerIs(Contact(users[w]))
  }

  /** The winner route with the existence check first, as its unreachable
      "Item not found" branch intends; it agrees with ResolveWinner on every stored item. */
  function ResolveWinnerChecked(item: Option<Item>, users: map<UserId, User>, now: int): (r: Reply)
    ensures item.None? <==> r == ItemNotFound
    ensures item.Some? ==> r == ResolveWinner(item, users, now)
    ensures r != FetchWinnerFailed
  {
    if item.None? then ItemNotFound
    else if now < item.value.endDate then NotEndedYet
    else if item.value.winningBidder.None? then NoWinner
    else if item.value.winningBidder.value !in users then WinnerNotFound
    else WinnerIs(Contact(users[item.value.winningBidder.value]))
  }

  /** A winner with a falsy email (empty or null) is announced by the mobile
      number as printed: "null" when it is stored as null, "undefined" when absent. */
  lemma FalsyEmailFallsBack(item: Item, w: UserId, now: int)
    requires item.winningBidder == Some(w) && item.endDate <= now
    ensures ResolveWinner(Some(item), map[w := User(Text(""), Null)], now) == WinnerIs("null")
    ensures ResolveWinner(Some(item), map[w := User(Null, Absent)], now) == WinnerIs("undefined")
  {
  }

  /** A missing item: the winner route as written answers with the catch-all
      server error, where its own existence check meant "Item not found". */
  lemma MissingItemIsServerError(users: map<UserId, User>, now: int)
    ensures ResolveWinner(None, users, now) == FetchWinnerFailed
    ensures ResolveWinner(None, users, now).Status() == 500
    ensures ResolveWinnerChecked(None, users, now) == ItemNotFound
    ensures ResolveWinnerChecked(None, users, now).Status() == 404
  {
  }

  /** Different replies of the bid and winner routes are told apart by their
      status and message; add replies differ by their payload. */
  lemma RepliesDistinct(a: Reply, b: Reply)
    requires a.Status() == b.Status() && a.Message() == b.Message()
    requires !a.ItemAdded?
    ensures a == b
  {
    if a.WinnerIs? && b.WinnerIs? {
      assert a.contact == a.Message()[|WinnerPrefix|..];
      assert b.contact == b.Message()[|WinnerPrefix|..];
    }
  }
}
