/**
 * The gig handlers: creating a gig, the public listing of open gigs and the
 * owner's own listing.
 */
module GigRules {
  import opened Records
  import opened Listing
  import opened StoreInvariants

  /** The body of a create-gig request; any field may be absent. */
  datatype GigRequest = GigRequest(title: Option<string>, description: Option<string>, budget: Option<int>)

  datatype CreateGigError =
    | MissingTitleOrBudget  // "Title and budget are required"
    | DuplicateKey          // the database refused the insert: the id is taken

  /**
   * Create a gig owned by `caller`. `id` and `now` are the id and timestamp
   * the database assigns to the new document.
   */
  function CreateGig(t: Tables, req: GigRequest, caller: Id, id: Id, now: int): (out: (Result<Gig, CreateGigError>, Tables))
    ensures out.0.Err? ==> out.1 == t
    ensures out.0 == Err(MissingTitleOrBudget) <==> !PresentText(req.title) || !PresentNumber(req.budget)
    ensures out.0 == Err(DuplicateKey) <==> PresentText(req.title) && PresentNumber(req.budget) && id in t.gigs
    ensures out.0.Ok? <==> PresentText(req.title) && PresentNumber(req.budget) && id !in t.gigs
    ensures out.0.Ok? ==>
      && out.0.value.id == id && id !in t.gigs
      && out.0.value.ownerId == caller
      && out.0.value.status == Open
      && out.0.value.createdAt == now
      && req.title == Some(out.0.value.title) && out.0.value.title != ""
      && req.budget == Some(out.0.value.budget) && out.0.value.budget != 0
      && req.description == out.0.value.description
      && out.1 == Tables(t.gigs[id := out.0.value], t.bids)
  {
    if !PresentText(req.title) || !PresentNumber(req.budget) then
      (Err(MissingTitleOrBudget), t)
    else if id in t.gigs then
      (Err(DuplicateKey), t)
    else
      var gig := Gig(id, caller, req.title.value, req.description, req.budget.value, Open, now);
      (Ok(gig), Tables(t.gigs[id := gig], t.bids))
  }

  /** A successful creation adds exactly one gig and leaves every other record as it was. */
  lemma CreateGigAddsOne(t: Tables, req: GigRequest, caller: Id, id: Id, now: int)
    requires CreateGig(t, req, caller, id, now).0.Ok?
    ensures var t' := CreateGig(t, req, caller, id, now).1;
      && |t'.gigs| == |t.gigs| + 1
      && t'.gigs.Keys == t.gigs.Keys + {id}
      && (forall k :: k in t.gigs ==> t'.gigs[k] == t.gigs[k])
      && t'.bids == t.bids
  {
  }

  /** Gig creation keeps the store invariants. */
  lemma CreateGigPreserves(t: Tables, req: GigRequest, caller: Id, id: Id, now: int)
    requires Consistent(t)
    ensures Consistent(CreateGig(t, req, caller, id, now).1)
  {
  }

  /**
   * The public listing: open gigs only, newest first. Records are listed as
   * values, so two documents with identical contents would show once; on a
   * store where each gig sits under its own id (`KeysMatch`) no two are equal.
   */
  ghost function OpenGigs(t: Tables): (r: seq<Gig>)
    ensures forall g :: g in r <==> g in t.gigs.Values && g.status == Open
    ensures Distinct(r) && NewestFirst(r, GigCreatedAt)
  {
    SortNewest((set g | g in t.gigs.Values && g.status == Open), GigCreatedAt)
  }

  /** The caller's own gigs, whatever their status, newest first (listed as values, as for `OpenGigs`). */
  ghost function MyGigs(t: Tables, caller: Id): (r: seq<Gig>)
    ensures forall g :: g in r <==> g in t.gigs.Values && g.ownerId == caller
    ensures Distinct(r) && NewestFirst(r, GigCreatedAt)
  {
    SortNewest((set g | g in t.gigs.Values && g.ownerId == caller), GigCreatedAt)
  }

  /** A newly created gig shows up in the public listing and in its owner's listing. */
  lemma CreatedGigIsListed(t: Tables, req: GigRequest, caller: Id, id: Id, now: int)
    requires CreateGig(t, req, caller, id, now).0.Ok?
    ensures var (r, t') := CreateGig(t, req, caller, id, now);
      r.value in OpenGigs(t') && r.value in MyGigs(t', caller)
  {
    var (r, t') := CreateGig(t, req, caller, id, now);
    assert t'.gigs[id] == r.value;
  }
}
