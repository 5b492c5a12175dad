# Auction item bidding engine

A Dafny model of the item routes of a small auction backend (Express and
Mongoose): listing an item, bidding on it with an anti-snipe deadline
extension, and announcing the winner once the deadline has passed. The HTTP
and database plumbing is stripped off; what remains is one item record and
three operations on it.

- `wrappers.dfy` — `Option`, for document fields that may be absent.
- `models.dfy` — the item document (the `itemSchema` embedded in
  `models/user.js`: `highestBid` defaults to 0, `winningBidder` is optional)
  and the contact part of a user document; JavaScript truthiness of optional
  fields, and what a template literal prints for an absent one.
- `item_router.dfy` — the replies of the routes (each a distinct status and
  message); `AddItem`; `Bid`, the bid handler as a function on the document;
  the class `AuctionItem`, the loaded document whose `endDate`, `highestBid`
  and `winningBidder` the handler's `PlaceBid` updates in place, proved
  against `Bid`; `BidRoute`, the lookup that may find nothing;
  `ResolveWinner` as written and `ResolveWinnerChecked` as intended.
- `bid_history.dfy` — runs of bids on one item (`ApplyBids`) and the
  properties that span several calls: monotone highest bid and deadline, the
  consistency invariant, extensions without a cap, and how the bid route and
  the winner route meet at the deadline; a worked run on the object model.

Time is an integer number of milliseconds and the clock is the parameter
`now`: the bid handler reads the clock twice (lines 86 and 100), the model
reads it once. Amounts are integers. The item store is a nullable
`AuctionItem` for the bid route and an `Option<Item>` for the winner route;
the user store is a `map<UserId, User>`.

Behaviour of the code that a reader might not expect, all followed here:

- The ended check is `endDate < now`, so a bid at exactly the deadline
  millisecond is accepted, and since it is within five minutes it extends
  the deadline. At that same millisecond the winner route (`endDate > now`)
  already treats the auction as over: it answers with the winner, "No winner
  found for this item" or "Winner not found", never "not ended yet"
  (`BidHistory.DeadlineInstantReopens`).
- A missing item in the winner route dereferences null before the existence
  check, so it answers 500 "Failed to fetch final winner"; the "Item not
  found" branch there never runs.
- A winner with a falsy email is announced with the mobile number as a
  template literal prints it: "undefined" when the field is absent, "null"
  when it is stored as null (`ItemRouter.FalsyEmailFallsBack`); neither is
  an error. Document string fields therefore tell absent, null and a string
  apart.
- The starting price is only checked for truthiness when listing (0 is
  refused, a negative price is not) and is never compared with bids: on a
  fresh item any positive bid is accepted.
- The extension test counts whole minutes with floor division
  (`floor((endDate - now) / 60000) < 5`); that is the same as
  `endDate - now < 300000` ms, proved as `ItemRouter.SnipeWindow`.
- The add route's refusal is the HTTP status 400 with a `message` key; every
  other reply is a JSON body with `status` and `msg`. The model gives each
  reply one status number and one message.

## Model

| member | source | states |
|---|---|---|
| `ItemRouter.AddItem` | router/item.js:19-43 | refused with "All fields are required" exactly when one of name, description, startingPrice, endDate is falsy (absent, empty string, 0); otherwise the new item carries the given fields, the caller as seller, highest bid 0, no winner, and is consistent |
| `ItemRouter.SnipeWindow` | router/item.js:100-102 | fewer than 5 whole minutes remaining (floor division by 60000) is the same as fewer than 300000 ms remaining, for every remaining time including negative ones |
| `ItemRouter.Bid` | router/item.js:86-107 | "has ended" exactly when the deadline is before `now`; "too low" exactly when not ended and the amount is at most the highest bid (ties lose, a late low bid reports ended); accepted otherwise; a rejection leaves the item unchanged; an acceptance sets highest bid (strictly higher) and winner, adds exactly 300000 ms to the old deadline iff under 300000 ms remained, and changes nothing else; deadline and highest bid never decrease; consistency is preserved |
| `ItemRouter.AuctionItem.Load` | models/user.js:4-34 | the loaded object holds exactly the stored document |
| `ItemRouter.AuctionItem.PlaceBid` | router/item.js:86-113 | the in-place handler, with its whole-minute test, returns the reply and leaves the fields as `Bid` prescribes; a rejection changes no field; deadline and highest bid never decrease |
| `ItemRouter.BidRoute` | router/item.js:75-120 | no item found gives 404 "Item not found" and touches nothing; otherwise the reply and new state are those of `Bid` |
| `ItemRouter.ResolveWinner` | router/item.js:122-168 | missing item gives 500 "Failed to fetch final winner" and "Item not found" is never returned; "not ended yet" exactly when the deadline is after `now`; otherwise "no winner" exactly when there is no winning bidder, "winner not found" exactly when the bidder has no user record, and else the winner text with the email if truthy, otherwise the mobile number as a template literal prints it ("undefined" if absent, "null" if stored null) |
| `ItemRouter.ResolveWinnerChecked` | router/item.js:133-138 | existence checked first: "Item not found" exactly for a missing item, never the catch-all error, and the same reply as `ResolveWinner` for every stored item |
| `ItemRouter.FalsyEmailFallsBack` | router/item.js:155-159 | with a falsy email (empty or null) the winner text is the mobile number as printed: "null" for a stored null, "undefined" for an absent field |
| `ItemRouter.MissingItemIsServerError` | router/item.js:127-138 | for a missing item the route as written answers status 500 where the intended route answers 404 |
| `ItemRouter.RepliesDistinct` | router/item.js:79-166 | two replies of the bid and winner routes with the same status and message are the same reply (winner texts with different contacts differ) |
| `BidHistory.BidsMonotone` | router/item.js:93-107 | over any run of bids the highest bid and the deadline never go back |
| `BidHistory.BidsPreserveConsistent` | router/item.js:93-107 | over any run of bids a consistent item stays consistent (no winner iff highest bid 0) and seller, name, description and starting price never change |
| `BidHistory.ListedItemsStayConsistent` | router/item.js:27-33 | every item the add route creates is consistent after any run of bids and keeps its seller |
| `BidHistory.UncappedExtension` | router/item.js:100-104 | `n` bids, each 1 ms before the then-current deadline and above the then-current highest bid, are all accepted and push the deadline back by exactly `n` times 300000 ms: no cap |
| `BidHistory.LastBidderWins` | router/item.js:106-159 | after an accepted bid, once its (possibly extended) deadline has passed, the winner route announces that bidder's contact |
| `BidHistory.LateBidKeepsAuctionOpen` | router/item.js:100-131 | a bid accepted with under 300000 ms left makes the winner route answer "not ended yet" until 300000 ms after the old deadline |
| `BidHistory.DeadlineInstantReopens` | router/item.js:86-131 | at the deadline millisecond the winner route already names a result, yet a higher bid is still accepted and makes the winner route answer "not ended yet" again |
| `BidHistory.ClosedItemIsFrozen` | router/item.js:86-91 | bids that all arrive after the deadline leave the item exactly as it was |
| `BidHistory.StartingPriceNotEnforced` | router/item.js:93-98 | on a freshly listed item any positive bid before the deadline is accepted, whatever the starting price |

## Findings

| source | as written | input that shows it | evidently intended | confidence | as-written member | corrected member |
|---|---|---|---|---|---|---|
| router/item.js:127-138 | `item.endDate` is read before `!item` is tested, so a missing item throws and reaches the catch block | an item id with no document: reply 500 "Failed to fetch final winner" | 404 "Item not found", the branch at line 133 | high; not executed | `ItemRouter.MissingItemIsServerError` (about `ItemRouter.ResolveWinner`) | `ItemRouter.ResolveWinnerChecked` |

## Left out

- The list-all and view-one routes (router/item.js:7-17, 52-72): plain reads with no logic.
- Persistence: `save`, `findOne`, and the `$push` of the new item into the seller's `listedItems`; their failures (the catch-all 500 replies of the bid and add routes) are not modelled.
- Authentication (`requireAuth`) and the password field: the caller's id is a parameter.
- Concurrency between bids on one item: the code does no locking, and the model handles one request at a time.
- Bid history records (`models/bid.js`): the routes never write them.
- JavaScript type coercion of the request body, non-integer and NaN amounts and prices, and invalid date strings: amounts and times are integers.
- `app.js`: server start-up and route mounting.
- ItemRouter.Bid: reads the clock once; the handler reads it twice (router/item.js:86 and 100), so its extension test sees a clock at least as late as its ended test. A bid whose first reading leaves exactly 300000 ms can extend in the handler when the second reading is later, while the model, with one `now`, does not extend it.
