# Gig marketplace: record-level rules

A Dafny model of the business rules of a small freelance marketplace backend.
Posters create gigs; freelancers bid on open gigs; a gig's owner hires one bid.
The model is an in-memory database of two collections, gigs and bids, each a
map keyed by document id (`Records.Tables`). Its operations are:

- **create gig**: checks that the title and budget are present, then inserts an
  `open` gig owned by the caller;
- **submit bid**: checks that the gig id and price are present, that the gig is
  open, that the caller does not own it and has not bid on it yet, then inserts
  a `pending` bid;
- **hire**: runs six checks in a fixed order (bid exists, bid pending, gig
  exists, caller owns gig, caller is not the bid's freelancer, gig not yet
  assigned). If all pass, it hires the bid, rejects every other bid on the
  gig and assigns the gig, all in one atomic step. It answers with the
  updated gig and bid and the `hired` event for the winning freelancer;
- **queries**: the open-gig listing, the caller's own gigs, the bids on a gig
  (visible only to its owner) and the caller's own applications. Each is
  sorted by creation time, newest first.

Layout:

- `records.dfy` (`Records`): the gig and bid records, their statuses, the
  request-field truthiness rules.
- `listing.dfy` (`Listing`): newest-first ordering of a query's matches.
- `invariants.dfy` (`StoreInvariants`): the store invariants. Each record sits
  under its own id. There is one bid per (gig, freelancer). Every bid targets
  an existing gig. No owner bids on their own gig. A gig has at most one hired
  bid. A hired bid's gig is assigned. An assigned gig has no pending bid.
- `gig_rules.dfy` (`GigRules`), `bidding.dfy` (`Bidding`), `hiring.dfy`
  (`Hiring`): each operation as a function from the store to (answer, new
  store), with the lemmas about it.
- `database.dfy` (`Database.Store`): the class whose fields are the two
  collections. Its methods update them step by step. Each is proved to
  produce exactly what the matching function describes and to keep the store
  invariants. The reject pass is a loop over the bid collection.

The caller's user id is an input that has already been verified. The id and
timestamp the database gives a new document are parameters (`id`, `now`).

Two details of the hire handler:

- The reject pass sets every other bid of the gig to `rejected`, whatever
  its status, not only pending ones.
- The ownership check runs before the self-hire check, so a freelancer who
  tries to hire their own bid on someone else's gig is refused as not the
  owner.

## Model

| member | source | states |
|---|---|---|
| Listing.SortNewest | app/controllers/gig.controller.js:21 | the result lists each record of the matched set exactly once, and by creation time, newest first |
| GigRules.CreateGig | app/controllers/gig.controller.js:34-62 | fails with no change exactly when title or budget is missing or falsy (so a budget of 0 is refused), or when the id the database assigns is already taken; succeeds exactly when both fields are truthy and the id is fresh; on success the gig is `open`, owned by the caller, carries the request's title, description and budget, and is inserted under a fresh id |
| GigRules.CreateGigAddsOne | app/controllers/gig.controller.js:44-52 | a successful creation adds exactly one gig; existing gigs and all bids are unchanged |
| GigRules.CreateGigPreserves | app/controllers/gig.controller.js:44-52 | gig creation keeps every store invariant |
| GigRules.OpenGigs | app/controllers/gig.controller.js:9-31 | lists exactly the gigs whose status is `open`, each once, newest first |
| GigRules.MyGigs | app/controllers/gig.controller.js:65-78 | lists exactly the gigs owned by the caller, each once, newest first |
| GigRules.CreatedGigIsListed | app/controllers/gig.controller.js:44-50 | a newly created gig appears in the open listing and in its owner's listing |
| Bidding.SubmitBid | app/controllers/bid.controller.js:11-67 | any failure leaves the store unchanged; success inserts one pending bid by the caller on an existing open gig the caller does not own, with the request's price and message, under a fresh id, only when the caller had no bid on that gig |
| Bidding.SubmitBidRejections | app/controllers/bid.controller.js:15-46 | each rejection happens exactly when its own check fails and all earlier ones pass: missing or falsy gig id or price (a price of 0 included), then missing or non-open gig, then caller owns the gig, then caller already bid, then the assigned id is taken; and a submission succeeds exactly when all of these checks pass |
| Bidding.SubmitBidAddsOne | app/controllers/bid.controller.js:49-57 | a successful submission adds exactly one bid; existing bids and all gigs are unchanged |
| Bidding.SubmitBidKeepsOneBidPerFreelancer | app/controllers/bid.controller.js:37-46 | submission never creates a second bid for the same (gigId, freelancerId) pair |
| Bidding.SubmitBidTwiceFails | app/controllers/bid.controller.js:37-46 | repeating a successful submission, under any new id, is refused as already bid and changes nothing |
| Bidding.SubmitBidPreserves | app/controllers/bid.controller.js:11-67 | bid submission keeps every store invariant |
| Bidding.GetBids | app/controllers/bid.controller.js:71-101 | fails exactly when the gig is missing, or when the caller does not own it; otherwise lists exactly the bids on that gig, each once, newest first |
| Bidding.MyApplications | app/controllers/bid.controller.js:325-339 | lists exactly the caller's own bids, each once, newest first |
| Bidding.SubmittedBidIsListed | app/controllers/bid.controller.js:49-57 | a submitted bid appears in the freelancer's applications and in the bids the gig's owner may list |
| Hiring.WithCompetitorsRejected | app/controllers/bid.controller.js:262-269 | every bid of the gig except the winner becomes rejected; every other bid is untouched; no field but status changes and no bid is added or removed |
| Hiring.Hire | app/controllers/bid.controller.js:200-321 | a failure reports the first failing check and leaves the store unchanged; success happens exactly when no check fails |
| Hiring.HireErrorOrder | app/controllers/bid.controller.js:209-252 | each of the six errors is reported exactly when its check fails and every earlier check passes (bid missing, bid not pending, gig missing, caller not owner, caller is the freelancer, gig assigned) |
| Hiring.HireSucceedsIff | app/controllers/bid.controller.js:216-252 | a hire succeeds if and only if the bid exists and is pending, its gig exists and is not assigned, the caller owns the gig and is not the bid's freelancer |
| Hiring.HireEffects | app/controllers/bid.controller.js:255-313 | on success the bid is hired, every other bid on its gig is rejected whatever its prior status, the gig is assigned, the answer carries the updated gig and bid, and the event goes to the bid's freelancer with the gig's id and title |
| Hiring.HireFrame | app/controllers/bid.controller.js:255-276 | on success no record is added or removed, other gigs and bids on other gigs are unchanged, and only status fields change |
| Hiring.HireLeavesOneWinner | app/controllers/bid.controller.js:255-269 | after a successful hire the winner is the only hired bid on the gig and no bid on it is pending |
| Hiring.HireIsFinal | app/controllers/bid.controller.js:216-221 | after a successful hire, any later hire of any bid on that gig, by anyone, fails as not hireable and changes nothing |
| Hiring.HireKeepsAtMostOneHired | app/controllers/bid.controller.js:255-269 | from a store where no gig has two hired bids, a hire never produces one |
| Hiring.HirePreserves | app/controllers/bid.controller.js:200-321 | hiring keeps every store invariant |
| Hiring.ConsistentHireErrors | app/controllers/bid.controller.js:223-252 | on a store that satisfies the invariants, a hire can only fail with bid missing, bid not pending, or caller not owner |
| Hiring.HiredGigLeavesOpenListing | app/controllers/bid.controller.js:271-276 | a hired gig no longer appears in the open-gig listing |
| Hiring.TwoBidScenario | app/controllers/bid.controller.js:209-276 | on a gig with two pending bids: a freelancer hiring on a gig they do not own is refused as not the owner; the owner's hire of the first bid hires it, rejects the second, assigns the gig and notifies the first bidder; a later hire of the second bid is refused as not hireable |
| Database.Store.CreateGig | app/controllers/gig.controller.js:34-62 | the method's answer and the new collections are those of `GigRules.CreateGig`; the store invariants are kept |
| Database.Store.SubmitBid | app/controllers/bid.controller.js:11-67 | the method's answer and the new collections are those of `Bidding.SubmitBid`; the store invariants are kept |
| Database.Store.RejectCompetitors | app/controllers/bid.controller.js:262-269 | the bid-by-bid loop leaves the bid collection equal to `Hiring.WithCompetitorsRejected` of the old one; gigs are not touched |
| Database.Store.Hire | app/controllers/bid.controller.js:200-321 | the method's answer and the new collections are those of `Hiring.Hire`, with the three writes done in the source's order; the store invariants are kept |

## Left out

- Authentication: registration, login, password hashing, token signing and
  the token check. The caller id is taken as already verified.
- HTTP transport: routing, cookies, CORS, status codes, response message
  texts and logout. Each handler answers with a typed `Result` instead.
- Notification delivery: the socket server, the room join and the `emit`.
  A successful hire returns the event (`Hiring.Notification`) instead of
  sending it. The model does not capture whether a socket server is attached.
- Concurrency. Every handler is modelled as one sequential, atomic step.
  For hiring this matches the database transaction, but no race between two
  hires can be expressed. Bid submission has no transaction: its gig lookup,
  duplicate check and insert are separate awaited calls, so two concurrent
  submissions by one freelancer can both pass the duplicate check, and a
  submission racing a hire can insert a pending bid on a gig just assigned.
  The store invariants (`StoreInvariants.Consistent`), and with them
  `Hiring.ConsistentHireErrors`, hold only for sequential runs.
- Database failures other than a duplicate id: unavailability, commit
  failure, and a malformed id that makes a lookup throw. In the model an id
  is a plain string, and a malformed id is simply absent.
- Mongoose schema validation and type casting. The schema files are not part
  of this model.
- Request values: gig id and title are optional strings, and price and
  budget are optional integers. They are falsy when absent, or when empty
  or zero. Other JavaScript falsy values (`NaN`, `false`, `null`) count as
  absent. Fractional numbers are not modelled.
- The case-insensitive regular-expression title search of the open-gig
  listing.
- The `populate` joins of the bid queries.
- Console logging.
- The commented-out earlier hire handler.
- The listings return records as values: two documents with identical
  contents would be listed once. Under `StoreInvariants.KeysMatch` each
  record carries its own id, so this cannot happen.
- The listings are ghost functions: they specify the answer without
  computing it. Among records with equal timestamps, the order is left
  unspecified, as it is for the database's sort.
