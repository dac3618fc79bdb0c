/**
 * Invariants of the two collections that the marketplace's write paths keep:
 * bid submission, gig creation and hiring.
 */
module StoreInvariants {
  import opened Records

  /** Each record is stored under its own id. */
  ghost predicate KeysMatch(t: Tables)
  {
    && (forall k :: k in t.gigs ==> t.gigs[k].id == k)
    && (forall k :: k in t.bids ==> t.bids[k].id == k)
  }

  /** At most one bid per (gigId, freelancerId) pair. */
  ghost predicate OneBidPerFreelancer(t: Tables)
  {
    forall a, b | a in t.bids && b in t.bids ::
      t.bids[a].gigId == t.bids[b].gigId && t.bids[a].freelancerId == t.bids[b].freelancerId ==> a == b
  }

  /** Every bid targets a gig that exists. */
  ghost predicate BidsReferenceGigs(t: Tables)
  {
    forall k :: k in t.bids ==> t.bids[k].gigId in t.gigs
  }

  /** No gig owner has a bid on their own gig. */
  ghost predicate OwnersDoNotBid(t: Tables)
  {
    forall k :: k in t.bids && t.bids[k].gigId in t.gigs ==>
      t.gigs[t.bids[k].gigId].ownerId != t.bids[k].freelancerId
  }

  /** A gig has at most one bid in status hired. */
  ghost predicate AtMostOneHired(t: Tables)
  {
    forall a, b | a in t.bids && b in t.bids && t.bids[a].status == Hired && t.bids[b].status == Hired ::
      t.bids[a].gigId == t.bids[b].gigId ==> a == b
  }

  /** A hired bid belongs to an assigned gig. */
  ghost predicate HiredMeansAssigned(t: Tables)
  {
    forall k :: k in t.bids && t.bids[k].status == Hired ==>
      t.bids[k].gigId in t.gigs && t.gigs[t.bids[k].gigId].status == Assigned
  }

  /** Once a gig is assigned, none of its bids is still pending. */
  ghost predicate NoPendingOnAssigned(t: Tables)
  {
    forall k | k in t.bids && t.bids[k].gigId in t.gigs ::
      t.gigs[t.bids[k].gigId].status == Assigned ==> t.bids[k].status != Pending
  }

  ghost predicate Consistent(t: Tables)
  {
    && KeysMatch(t)
    && OneBidPerFreelancer(t)
    && BidsReferenceGigs(t)
    && OwnersDoNotBid(t)
    && AtMostOneHired(t)
    && HiredMeansAssigned(t)
    && NoPendingOnAssigned(t)
  }
}
