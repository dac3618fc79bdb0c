/**
 * Hiring a bid: six checks in a fixed order, then three writes applied as one
 * unit. The transaction makes the whole step atomic, so every early abort
 * leaves the collections exactly as they were.
 */
module Hiring {
  import opened Records
  import opened StoreInvariants
  import GigRules

  datatype HireError =
    | BidNotFound         // "Bid not found"
    | BidNotHireable      // the bid is not pending
    | GigNotFound         // "Gig not found"
    | NotGigOwner         // the caller does not own the gig
    | SelfHire            // "You cannot hire yourself"
    | GigAlreadyAssigned  // "Gig already assigned"

  /** The `hired` event pushed to the winning freelancer after the commit. */
  datatype Notification = Notification(recipient: Id, gigId: Id, gigTitle: string)

  /** What a successful hire answers with: the updated gig and bid, and the event to push. */
  datatype HireReceipt = HireReceipt(gig: Gig, bid: Bid, notice: Notification)

  /** The first of the six checks that fails, if any. */
  function HireCheck(t: Tables, bidId: Id, caller: Id): Option<HireError>
  {
    if bidId !in t.bids then Some(BidNotFound)
    else if t.bids[bidId].status != Pending then Some(BidNotHireable)
    else if t.bids[bidId].gigId !in t.gigs then Some(GigNotFound)
    else if t.gigs[t.bids[bidId].gigId].ownerId != caller then Some(NotGigOwner)
    else if t.bids[bidId].freelancerId == caller then Some(SelfHire)
    else if t.gigs[t.bids[bidId].gigId].status == Assigned then Some(GigAlreadyAssigned)
    else None
  }

  /** The reject pass: every bid on `gigId` except `winner` becomes rejected, whatever its status. */
  function WithCompetitorsRejected(bids: map<Id, Bid>, gigId: Id, winner: Id): (r: map<Id, Bid>)
    ensures r.Keys == bids.Keys
    ensures forall k :: k in bids && bids[k].gigId == gigId && k != winner ==> r[k].status == Rejected
    ensures forall k :: k in bids && (bids[k].gigId != gigId || k == winner) ==> r[k] == bids[k]
    ensures forall k :: k in bids ==> r[k] == bids[k].(status := r[k].status)
  {
    map k | k in bids :: if bids[k].gigId == gigId && k != winner then bids[k].(status := Rejected) else bids[k]
  }

  /**
   * Hire bid `bidId` on behalf of `caller`: on success the bid is hired, every
   * other bid on its gig rejected and the gig assigned; on failure nothing changes.
   */
  function Hire(t: Tables, bidId: Id, caller: Id): (out: (Result<HireReceipt, HireError>, Tables))
    ensures out.0.Err? ==> out.1 == t && HireCheck(t, bidId, caller) == Some(out.0.error)
    ensures out.0.Ok? <==> HireCheck(t, bidId, caller) == None
  {
    match HireCheck(t, bidId, caller)
    case Some(e) => (Err(e), t)
    case None =>
      var bid := t.bids[bidId];
      var hiredBid := bid.(status := Hired);
      var updatedGig := t.gigs[bid.gigId].(status := Assigned);
      var bids' := WithCompetitorsRejected(t.bids[bidId := hiredBid], bid.gigId, bidId);
      var notice := Notification(bid.freelancerId, updatedGig.id, updatedGig.title);
      (Ok(HireReceipt(updatedGig, hiredBid, notice)), Tables(t.gigs[bid.gigId := updatedGig], bids'))
  }

  /** Which error a hire reports: the checks run in order and the first failure decides. */
  lemma HireErrorOrder(t: Tables, bidId: Id, caller: Id)
    ensures var r := Hire(t, bidId, caller).0;
      && (r == Err(BidNotFound) <==> bidId !in t.bids)
      && (r == Err(BidNotHireable) <==> bidId in t.bids && t.bids[bidId].status != Pending)
      && (r == Err(GigNotFound) <==>
            bidId in t.bids && t.bids[bidId].status == Pending && t.bids[bidId].gigId !in t.gigs)
      && (r == Err(NotGigOwner) <==>
            bidId in t.bids && t.bids[bidId].status == Pending && t.bids[bidId].gigId in t.gigs
            && t.gigs[t.bids[bidId].gigId].ownerId != caller)
      && (r == Err(SelfHire) <==>
            bidId in t.bids && t.bids[bidId].status == Pending && t.bids[bidId].gigId in t.gigs
            && t.gigs[t.bids[bidId].gigId].ownerId == caller && t.bids[bidId].freelancerId == caller)
      && (r == Err(GigAlreadyAssigned) <==>
            bidId in t.bids && t.bids[bidId].status == Pending && t.bids[bidId].gigId in t.gigs
            && t.gigs[t.bids[bidId].gigId].ownerId == caller && t.bids[bidId].freelancerId != caller
            && t.gigs[t.bids[bidId].gigId].status == Assigned)
  {
  }

  /** A hire succeeds exactly when the bid is pending, its gig exists and is not assigned,
      and the caller owns the gig without being the bid's freelancer. */
  lemma HireSucceedsIff(t: Tables, bidId: Id, caller: Id)
    ensures Hire(t, bidId, caller).0.Ok? <==>
      && bidId in t.bids && t.bids[bidId].status == Pending
      && t.bids[bidId].gigId in t.gigs
      && t.gigs[t.bids[bidId].gigId].ownerId == caller
      && t.bids[bidId].freelancerId != caller
      && t.gigs[t.bids[bidId].gigId].status != Assigned
  {
  }

  /** The three writes of a successful hire, and the records it answers with. */
  lemma HireEffects(t: Tables, bidId: Id, caller: Id)
    requires Hire(t, bidId, caller).0.Ok?
    ensures var (r, t') := Hire(t, bidId, caller);
      var g := t.bids[bidId].gigId;
      && bidId in t'.bids && t'.bids[bidId].status == Hired
      && (forall k :: k in t'.bids && k != bidId && t.bids[k].gigId == g ==> t'.bids[k].status == Rejected)
      && g in t'.gigs && t'.gigs[g].status == Assigned
      && r.value.bid == t'.bids[bidId] && r.value.gig == t'.gigs[g]
      && r.value.notice == Notification(t.bids[bidId].freelancerId, t.gigs[g].id, t.gigs[g].title)
  {
  }

  /** A successful hire touches nothing but the status of the bids on the hired gig and of that gig. */
  lemma HireFrame(t: Tables, bidId: Id, caller: Id)
    requires Hire(t, bidId, caller).0.Ok?
    ensures var t' := Hire(t, bidId, caller).1;
      var g := t.bids[bidId].gigId;
      && t'.gigs.Keys == t.gigs.Keys && t'.bids.Keys == t.bids.Keys
      && (forall k :: k in t.gigs && k != g ==> t'.gigs[k] == t.gigs[k])
      && (forall k :: k in t.bids && t.bids[k].gigId != g ==> t'.bids[k] == t.bids[k])
      && t'.gigs[g] == t.gigs[g].(status := t'.gigs[g].status)
      && (forall k :: k in t.bids ==> t'.bids[k] == t.bids[k].(status := t'.bids[k].status))
  {
  }

  /** After a successful hire, the only hired bid on the gig is the winner and none is pending. */
  lemma HireLeavesOneWinner(t: Tables, bidId: Id, caller: Id)
    requires Hire(t, bidId, caller).0.Ok?
    ensures var t' := Hire(t, bidId, caller).1;
      forall k :: k in t'.bids && t'.bids[k].gigId == t.bids[bidId].gigId ==>
        (t'.bids[k].status == Hired <==> k == bidId) && t'.bids[k].status != Pending
  {
  }

  /** Once a hire succeeds, every later hire of a bid on that gig fails as not hireable. */
  lemma HireIsFinal(t: Tables, bidId: Id, caller: Id, other: Id, caller2: Id)
    requires Hire(t, bidId, caller).0.Ok?
    requires other in Hire(t, bidId, caller).1.bids
    requires Hire(t, bidId, caller).1.bids[other].gigId == t.bids[bidId].gigId
    ensures var t' := Hire(t, bidId, caller).1;
      Hire(t', other, caller2) == (Err(BidNotHireable), t')
  {
  }

  /** A hire never leaves a gig with two hired bids. */
  lemma HireKeepsAtMostOneHired(t: Tables, bidId: Id, caller: Id)
    requires AtMostOneHired(t)
    ensures AtMostOneHired(Hire(t, bidId, caller).1)
  {
  }

  /** Hiring keeps the store invariants. */
  lemma HirePreserves(t: Tables, bidId: Id, caller: Id)
    requires Consistent(t)
    ensures Consistent(Hire(t, bidId, caller).1)
  {
  }

  /** On a consistent store only the first, second and fourth checks can fail:
      the missing-gig, self-hire and already-assigned checks never fire. */
  lemma ConsistentHireErrors(t: Tables, bidId: Id, caller: Id)
    requires Consistent(t)
    ensures var r := Hire(t, bidId, caller).0;
      r.Err? ==> r.error in {BidNotFound, BidNotHireable, NotGigOwner}
  {
  }

  /** A hired gig leaves the public listing of open gigs. */
  lemma HiredGigLeavesOpenListing(t: Tables, bidId: Id, caller: Id)
    requires Hire(t, bidId, caller).0.Ok?
    ensures var (r, t') := Hire(t, bidId, caller);
      r.value.gig !in GigRules.OpenGigs(t')
  {
  }

  /**
   * Gig g (open, owner o) has pending bids b1 by f1 and b2 by f2. Freelancer f1
   * trying to hire b1 is refused as not the owner; o hiring b1 hires it, rejects
   * b2, assigns g and notifies f1; o then hiring b2 is refused as not hireable.
   */
  lemma TwoBidScenario()
    ensures
      var g := Gig("g", "o", "Logo", None, 100, Open, 1);
      var b1 := Bid("b1", "g", "f1", None, 50, Pending, 2);
      var b2 := Bid("b2", "g", "f2", None, 60, Pending, 3);
      var t := Tables(map["g" := g], map["b1" := b1, "b2" := b2]);
      var (r, t') := Hire(t, "b1", "o");
      && Hire(t, "b1", "f1") == (Err(NotGigOwner), t)
      && r == Ok(HireReceipt(g.(status := Assigned), b1.(status := Hired), Notification("f1", "g", "Logo")))
      && t' == Tables(map["g" := g.(status := Assigned)],
                      map["b1" := b1.(status := Hired), "b2" := b2.(status := Rejected)])
      && Hire(t', "b2", "o") == (Err(BidNotHireable), t')
  {
  }
}
