/**
 * The database as the handlers see it: a gig collection and a bid collection
 * that the write handlers update in place. Each method is proved to end in
 * the state, and answer with the result, that the matching rule function
 * gives, and to keep the store invariants.
 */
module Database {
  import opened Records
  import opened StoreInvariants
  import GigRules
  import Bidding
  import Hiring

  class Store {
    var gigs: map<Id, Gig>
    var bids: map<Id, Bid>

    /** The current contents of both collections. */
    function Snapshot(): Tables
      reads this
    {
      Tables(gigs, bids)
    }

    constructor ()
      ensures gigs == map[] && bids == map[]
      ensures Consistent(Snapshot())
    {
      gigs := map[];
      bids := map[];
    }

    /** Create a gig: validate the body, then insert an open gig owned by the caller. */
    method CreateGig(req: GigRules.GigRequest, caller: Id, id: Id, now: int)
      returns (r: Result<Gig, GigRules.CreateGigError>)
      modifies this
      ensures (r, Snapshot()) == GigRules.CreateGig(old(Snapshot()), req, caller, id, now)
      ensures old(Consistent(Snapshot())) ==> Consistent(Snapshot())
    {
      ghost var before := Snapshot();
      if !PresentText(req.title) || !PresentNumber(req.budget) {
        return Err(GigRules.MissingTitleOrBudget);
      }
      var gig := Gig(id, caller, req.title.value, req.description, req.budget.value, Open, now);
      if id in gigs {
        return Err(GigRules.DuplicateKey);
      }
      gigs := gigs[id := gig];
      r := Ok(gig);
      if Consistent(before) {
        GigRules.CreateGigPreserves(before, req, caller, id, now);
      }
    }

    /** Submit a bid: validate the body and the gig, refuse a second bid, then insert a pending bid. */
    method SubmitBid(req: Bidding.BidRequest, caller: Id, id: Id, now: int)
      returns (r: Result<Bid, Bidding.SubmitError>)
      modifies this
      ensures (r, Snapshot()) == Bidding.SubmitBid(old(Snapshot()), req, caller, id, now)
      ensures old(Consistent(Snapshot())) ==> Consistent(Snapshot())
    {
      ghost var before := Snapshot();
      if !PresentText(req.gigId) || !PresentNumber(req.price) {
        return Err(Bidding.MissingGigOrPrice);
      }
      var gigId := req.gigId.value;
      if gigId !in gigs || gigs[gigId].status != Open {
        return Err(Bidding.GigNotAvailable);
      }
      if gigs[gigId].ownerId == caller {
        return Err(Bidding.OwnGig);
      }
      if Bidding.HasBid(bids, gigId, caller) {
        return Err(Bidding.AlreadyBid);
      }
      var bid := Bid(id, gigId, caller, req.message, req.price.value, Pending, now);
      if id in bids {
        return Err(Bidding.DuplicateKey);
      }
      bids := bids[id := bid];
      r := Ok(bid);
      if Consistent(before) {
        Bidding.SubmitBidPreserves(before, req, caller, id, now);
      }
    }

    /** The reject pass: one bid at a time, every bid on `gigId` other than `winner` becomes rejected. */
    method RejectCompetitors(gigId: Id, winner: Id)
      modifies this`bids
      ensures bids == Hiring.WithCompetitorsRejected(old(bids), gigId, winner)
    {
      ghost var start := bids;
      var todo := bids.Keys;
      while todo != {}
        invariant todo <= start.Keys && bids.Keys == start.Keys
        invariant forall k :: k in start && k !in todo ==>
          bids[k] == Hiring.WithCompetitorsRejected(start, gigId, winner)[k]
        invariant forall k :: k in todo ==> bids[k] == start[k]
        decreases todo
      {
        var k :| k in todo;
        if bids[k].gigId == gigId && k != winner {
          bids := bids[k := bids[k].(status := Rejected)];
        }
        todo := todo - {k};
      }
    }

    /**
     * Hire bid `bidId` for `caller`: run the six checks, then hire the bid,
     * reject the others on its gig and assign the gig, as one atomic step.
     */
    method Hire(bidId: Id, caller: Id) returns (r: Result<Hiring.HireReceipt, Hiring.HireError>)
      modifies this
      ensures (r, Snapshot()) == Hiring.Hire(old(Snapshot()), bidId, caller)
      ensures old(Consistent(Snapshot())) ==> Consistent(Snapshot())
    {
      ghost var before := Snapshot();
      if bidId !in bids {
        return Err(Hiring.BidNotFound);
      }
      var bid := bids[bidId];
      if bid.status != Pending {
        return Err(Hiring.BidNotHireable);
      }
      if bid.gigId !in gigs {
        return Err(Hiring.GigNotFound);
      }
      var gig := gigs[bid.gigId];
      if gig.ownerId != caller {
        return Err(Hiring.NotGigOwner);
      }
      if bid.freelancerId == caller {
        return Err(Hiring.SelfHire);
      }
      if gig.status == Assigned {
        return Err(Hiring.GigAlreadyAssigned);
      }
      var hiredBid := bid.(status := Hired);
      bids := bids[bidId := hiredBid];
      RejectCompetitors(bid.gigId, bidId);
      var updatedGig := gig.(status := Assigned);
      gigs := gigs[bid.gigId := updatedGig];
      r := Ok(Hiring.HireReceipt(updatedGig, hiredBid,
        Hiring.Notification(bid.freelancerId, updatedGig.id, updatedGig.title)));
      if Consistent(before) {
        Hiring.HirePreserves(before, bidId, caller);
      }
    }
  }
}
