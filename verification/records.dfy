/**
 * The records of the marketplace: gigs, bids and the two collections that
 * hold them, keyed by id. Every other module works on these values.
 */
module Records {

  /** Document ids and user ids: the string form of a database ObjectId. */
  type Id = string

  datatype Option<T> = None | Some(value: T)

  /** A handler's outcome: the value it answers with, or the error it reports. */
  datatype Result<T, E> = Ok(value: T) | Err(error: E)

  datatype GigStatus = Open | Assigned

  datatype BidStatus = Pending | Hired | Rejected

  datatype Gig = Gig(
    id: Id,
    ownerId: Id,
    title: string,
    description: Option<string>,
    budget: int,
    status: GigStatus,
    createdAt: int)

  datatype Bid = Bid(
    id: Id,
    gigId: Id,
    freelancerId: Id,
    message: Option<string>,
    price: int,
    status: BidStatus,
    createdAt: int)

  /** The state of the database: the gig collection and the bid collection. */
  datatype Tables = Tables(gigs: map<Id, Gig>, bids: map<Id, Bid>)

  /** A request-body string is truthy when it is present and not empty. */
  predicate PresentText(v: Option<string>)
  {
    v.Some? && v.value != ""
  }

  /** A request-body number is truthy when it is present and not zero. */
  predicate PresentNumber(v: Option<int>)
  {
    v.Some? && v.value != 0
  }

  function GigCreatedAt(g: Gig): int
  {
    g.createdAt
  }

  function BidCreatedAt(b: Bid): int
  {
    b.createdAt
  }
}
