/**
 The stored records of the auction backend: an item document as embedded in
 the user schema, and the contact part of a user document. Times are integer
 milliseconds since the epoch, amounts are integers.
 */
module Models {
  import opened Wrappers

  /** Identifier of a user document (a Mongo object id in the system). */
  type UserId = nat

  /** An auction item document. `highestBid` defaults to 0 and
      `winningBidder` is absent until a bid has been accepted. */
  datatype Item = Item(
    name: string,
    description: string,
    startingPrice: int,
    endDate: int,
    seller: UserId,
    highestBid: int,
    winningBidder: Option<UserId>)

  /** A string field of a stored document: absent (read as `undefined`),
      stored as `null`, or a string. */
  datatype TextField = Absent | Null | Text(s: string)

  /** The contact fields of a user document; either may be absent or null. */
  datatype User = User(email: TextField, mobileNumber: TextField)

  /** JavaScript truthiness of a document string field: absent, null and the
      empty string are falsy. */
  predicate TruthyField(f: TextField) {
    f.Text? && f.s != ""
  }

  /** JavaScript truthiness of an optional request string: absent (undefined or
      null, which truthiness does not tell apart) and the empty string are falsy. */
  predicate TruthyString(s: Option<string>) {
    s.Some? && s.value != ""
  }

  /** JavaScript truthiness of an optional integer field: absent and 0 are falsy. */
  predicate TruthyNumber(n: Option<int>) {
    n.Some? && n.value != 0
  }

  /** What a template literal prints for a document string field. */
  function TemplateText(f: TextField): (r: string) {
    match f
    case Absent => "undefined"
    case Null => "null"
    case Text(s) => s
  }
}
