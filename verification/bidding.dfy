/**
 * The bid handlers other than hiring: submitting a bid, the owner's view of
 * the bids on a gig and the freelancer's own applications.
 */
module Bidding {
  import opened Records
  import opened Listing
  import opened StoreInvariants

  /** The body of a submit-bid request; any field may be absent. */
  datatype BidRequest = BidRequest(gigId: Option<Id>, message: Option<string>, price: Option<int>)

  datatype SubmitError =
    | MissingGigOrPrice  // "gigId and price are required"
    | GigNotAvailable    // no such gig, or it is not open
    | OwnGig             // "You cannot bid on your own gig"
    | AlreadyBid         // "You have already bid on this gig"
    | DuplicateKey       // the database refused the insert: the id is taken

  /** Some bid in `bids` is by `freelancer` on gig `gigId`, whatever its status. */
  predicate HasBid(bids: map<Id, Bid>, gigId: Id, freelancer: Id)
  {
    exists k :: k in bids && bids[k].gigId == gigId && bids[k].freelancerId == freelancer
  }

  /**
   * Submit a bid by `caller`. `id` and `now` are the id and timestamp the
   * database assigns to the new document.
   */
  function SubmitBid(t: Tables, req: BidRequest, caller: Id, id: Id, now: int): (out: (Result<Bid, SubmitError>, Tables))
    ensures out.0.Err? ==> out.1 == t
    ensures out.0.Ok? ==>
      && out.0.value.id == id && id !in t.bids
      && req.gigId == Some(out.0.value.gigId)
      && out.0.value.gigId in t.gigs && t.gigs[out.0.value.gigId].status == Open
      && out.0.value.freelancerId == caller
      && t.gigs[out.0.value.gigId].ownerId != caller
      && out.0.value.status == Pending
      && req.price == Some(out.0.value.price) && out.0.value.price != 0
      && req.message == out.0.value.message
      && out.0.value.createdAt == now
      && !HasBid(t.bids, out.0.value.gigId, caller)
      && out.1 == Tables(t.gigs, t.bids[id := out.0.value])
  {
    if !PresentText(req.gigId) || !PresentNumber(req.price) then
      (Err(MissingGigOrPrice), t)
    else if req.gigId.value !in t.gigs || t.gigs[req.gigId.value].status != Open then
      (Err(GigNotAvailable), t)
    else if t.gigs[req.gigId.value].ownerId == caller then
      (Err(OwnGig), t)
    else if HasBid(t.bids, req.gigId.value, caller) then
      (Err(AlreadyBid), t)
    else if id in t.bids then
      (Err(DuplicateKey), t)
    else
      var bid := Bid(id, req.gigId.value, caller, req.message, req.price.value, Pending, now);
      (Ok(bid), Tables(t.gigs, t.bids[id := bid]))
  }

  /** Which rejection a submission meets: the checks run in this order and the first failure wins. */
  lemma SubmitBidRejections(t: Tables, req: BidRequest, caller: Id, id: Id, now: int)
    ensures var r := SubmitBid(t, req, caller, id, now).0;
      && (r == Err(MissingGigOrPrice) <==> !PresentText(req.gigId) || !PresentNumber(req.price))
      && (r == Err(GigNotAvailable) <==>
            PresentText(req.gigId) && PresentNumber(req.price)
            && (req.gigId.value !in t.gigs || t.gigs[req.gigId.value].status != Open))
      && (r == Err(OwnGig) <==>
            PresentText(req.gigId) && PresentNumber(req.price)
            && req.gigId.value in t.gigs && t.gigs[req.gigId.value].status == Open
            && t.gigs[req.gigId.value].ownerId == caller)
      && (r == Err(AlreadyBid) <==>
            PresentText(req.gigId) && PresentNumber(req.price)
            && req.gigId.value in t.gigs && t.gigs[req.gigId.value].status == Open
            && t.gigs[req.gigId.value].ownerId != caller
            && HasBid(t.bids, req.gigId.value, caller))
      && (r == Err(DuplicateKey) <==>
            PresentText(req.gigId) && PresentNumber(req.price)
            && req.gigId.value in t.gigs && t.gigs[req.gigId.value].status == Open
            && t.gigs[req.gigId.value].ownerId != caller
            && !HasBid(t.bids, req.gigId.value, caller) && id in t.bids)
      && (r.Ok? <==>
            PresentText(req.gigId) && PresentNumber(req.price)
            && req.gigId.value in t.gigs && t.gigs[req.gigId.value].status == Open
            && t.gigs[req.gigId.value].ownerId != caller
            && !HasBid(t.bids, req.gigId.value, caller) && id !in t.bids)
  {
  }

  /** A successful submission adds exactly one bid and leaves every other record as it was. */
  lemma SubmitBidAddsOne(t: Tables, req: BidRequest, caller: Id, id: Id, now: int)
    requires SubmitBid(t, req, caller, id, now).0.Ok?
    ensures var t' := SubmitBid(t, req, caller, id, now).1;
      && |t'.bids| == |t.bids| + 1
      && t'.bids.Keys == t.bids.Keys + {id}
      && (forall k :: k in t.bids ==> t'.bids[k] == t.bids[k])
      && t'.gigs == t.gigs
  {
  }

  /** Submission never creates a second bid for the same (gigId, freelancerId) pair. */
  lemma SubmitBidKeepsOneBidPerFreelancer(t: Tables, req: BidRequest, caller: Id, id: Id, now: int)
    requires OneBidPerFreelancer(t)
    ensures OneBidPerFreelancer(SubmitBid(t, req, caller, id, now).1)
  {
  }

  /** Submitting the same bid again, under any new id, is refused as a duplicate. */
  lemma SubmitBidTwiceFails(t: Tables, req: BidRequest, caller: Id, id: Id, now: int, id2: Id, now2: int)
    requires SubmitBid(t, req, caller, id, now).0.Ok?
    ensures var t' := SubmitBid(t, req, caller, id, now).1;
      SubmitBid(t', req, caller, id2, now2) == (Err(AlreadyBid), t')
  {
    var (r, t') := SubmitBid(t, req, caller, id, now);
    assert t'.bids[id].gigId == req.gigId.value && t'.bids[id].freelancerId == caller;
  }

  /** Bid submission keeps the store invariants. */
  lemma SubmitBidPreserves(t: Tables, req: BidRequest, caller: Id, id: Id, now: int)
    requires Consistent(t)
    ensures Consistent(SubmitBid(t, req, caller, id, now).1)
  {
  }

  datatype QueryError =
    | GigNotFound   // "Gig not found"
    | AccessDenied  // the caller does not own the gig

  /**
   * The bids on gig `gigId`, newest first; only the gig's owner may look.
   * Bids are listed as values, so two documents with identical contents would
   * show once; on a store where each bid sits under its own id (`KeysMatch`)
   * no two are equal.
   */
  ghost function GetBids(t: Tables, gigId: Id, caller: Id): (r: Result<seq<Bid>, QueryError>)
    ensures r == Err(GigNotFound) <==> gigId !in t.gigs
    ensures r == Err(AccessDenied) <==> gigId in t.gigs && t.gigs[gigId].ownerId != caller
    ensures r.Ok? ==>
      && (forall b :: b in r.value <==> b in t.bids.Values && b.gigId == gigId)
      && Distinct(r.value) && NewestFirst(r.value, BidCreatedAt)
  {
    if gigId !in t.gigs then Err(GigNotFound)
    else if t.gigs[gigId].ownerId != caller then Err(AccessDenied)
    else Ok(SortNewest((set b | b in t.bids.Values && b.gigId == gigId), BidCreatedAt))
  }

  /** The caller's own bids on any gig, newest first (listed as values, as for `GetBids`). */
  ghost function MyApplications(t: Tables, caller: Id): (r: seq<Bid>)
    ensures forall b :: b in r <==> b in t.bids.Values && b.freelancerId == caller
    ensures Distinct(r) && NewestFirst(r, BidCreatedAt)
  {
    SortNewest((set b | b in t.bids.Values && b.freelancerId == caller), BidCreatedAt)
  }

  /** A submitted bid is listed, pending, for the gig's owner and for the freelancer. */
  lemma SubmittedBidIsListed(t: Tables, req: BidRequest, caller: Id, id: Id, now: int)
    requires SubmitBid(t, req, caller, id, now).0.Ok?
    ensures var (r, t') := SubmitBid(t, req, caller, id, now);
      && r.value in MyApplications(t', caller)
      && GetBids(t', r.value.gigId, t.gigs[r.value.gigId].ownerId).Ok?
      && r.value in GetBids(t', r.value.gigId, t.gigs[r.value.gigId].ownerId).value
  {
    var (r, t') := SubmitBid(t, req, caller, id, now);
    assert t'.bids[id] == r.value;
  }
}
