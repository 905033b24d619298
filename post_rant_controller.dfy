/**
 * The rant controller: each request runs the same ordered checks against the
 * service (the rant exists, it is not deleted, the caller is its creator or
 * a valid voter) and only then makes the one mutating call. Each method
 * returns the reply and the service calls it made, in order, which is what
 * the controller's unit tests observe through their spies.
 */
module PostRantController {
  import opened Wrappers
  import opened JsValues
  import opened RantDiff
  import opened VoteLedger
  import opened RantModel
  import opened RantMessages
  import opened RantService

  datatype Reply =
    | Failure(status: nat, message: RantMessage)
    /** a service error handed to `next` */
    | Forwarded
    | Created(rant: Rant)
    | DeletedOk
    | EditedOk(rant: Rant)
    | VoteCounts(rantUpvoteCount: nat, rantDownvoteCount: nat)
    | RantRead(rant: Rant, rantUpvoteCount: nat, rantDownvoteCount: nat)
    | FeedPage(rants: seq<Rant>)

  datatype ServiceCall =
    | ValidateRantExistenceCall(rantId: string)
    | ValidateRantCreatorCall(user: string, rantId: string)
    | ValidateRantUpvoterCall(voterName: string)
    | GetRantCall(rantId: string)
    | DeleteRantCall(rantId: string)
    | EditRantCall(user: string, rantId: string, payload: EditPayload)
    | UpvoteCall(rantId: string, voterId: string)
    | DownvoteCall(rantId: string, voterId: string)
    | GetRantsCall(numRequest: nat)
    | CreateRantCall(rantPoster: string, rant: string, tags: seq<JsValue>, when: Option<int>)

  datatype Op = DeleteOp | EditOp | UpvoteOp | DownvoteOp | ReadOp {
    predicate ByCreator() { DeleteOp? || EditOp? }
    predicate ByVoter() { UpvoteOp? || DownvoteOp? }
  }

  datatype Check = Pass | Deny(status: nat, message: RantMessage)

  /** When an operation may go ahead: a live rant, and its creator or an active voter where the operation needs one. */
  predicate Admitted(op: Op, existing: Option<Rant>, creator: Option<Rant>, voter: Option<Voter>) {
    && existing.Some? && !existing.value.deleted
    && (op.ByCreator() ==> creator.Some?)
    && (op.ByVoter() ==> voter.Some? && !voter.value.deactivated)
  }

  /**
   * The controller's ordered checks over what the service lookups returned:
   * the first failing check decides the reply.
   */
  function Gate(op: Op, existing: Option<Rant>, creator: Option<Rant>, voter: Option<Voter>): (c: Check)
    ensures c == Pass <==> Admitted(op, existing, creator, voter)
    ensures existing.None? ==> c == Deny(404, RantDoesNotExists)
    ensures existing.Some? && existing.value.deleted ==> c == Deny(410, RantHasAlreadyBeenDeleted)
    ensures existing.Some? && !existing.value.deleted ==>
      && (op.ByCreator() && creator.None? ==> c == Deny(401, RantNotUser))
      && (op.ByVoter() && voter.None? ==> c == Deny(404, RantUserUpvoterNotExists))
      && (op.ByVoter() && voter.Some? && voter.value.deactivated ==> c == Deny(404, RantUserUpvoterDeactivated))
  {
    if existing.None? then Deny(404, RantDoesNotExists)
    else if existing.value.deleted then Deny(410, RantHasAlreadyBeenDeleted)
    else if op.ByCreator() && creator.None? then Deny(401, RantNotUser)
    else if op.ByVoter() && voter.None? then Deny(404, RantUserUpvoterNotExists)
    else if op.ByVoter() && voter.value.deactivated then Deny(404, RantUserUpvoterDeactivated)
    else Pass
  }

  /** A missing rant or a deleted one is reported the same way whatever the caller or the voter. */
  lemma ExistenceDecidesFirst(op: Op, existing: Option<Rant>, c1: Option<Rant>, c2: Option<Rant>, v1: Option<Voter>, v2: Option<Voter>)
    requires existing.None? || existing.value.deleted
    ensures Gate(op, existing, c1, v1) == Gate(op, existing, c2, v2) != Pass
  {
  }

  /** The checks a request reached: existence always, then the creator or voter lookup only for a live rant. */
  function Lookups(op: Op, rantId: string, user: string, existing: Option<Rant>): (calls: seq<ServiceCall>)
    ensures calls != [] && calls[0] == ValidateRantExistenceCall(rantId)
    ensures |calls| == 1 <==> existing.None? || existing.value.deleted || op == ReadOp
  {
    if existing.None? || existing.value.deleted then [ValidateRantExistenceCall(rantId)]
    else if op.ByCreator() then [ValidateRantExistenceCall(rantId), ValidateRantCreatorCall(user, rantId)]
    else if op.ByVoter() then [ValidateRantExistenceCall(rantId), ValidateRantUpvoterCall(user)]
    else [ValidateRantExistenceCall(rantId)]
  }

  /** deleteRant: the checks, then `deleteRant(rantId)`, replying 200 RANT_SUCCESSFULLY_DELETED. */
  method DeleteRantRequest(store: RantStore, user: string, rantId: string) returns (reply: Reply, calls: seq<ServiceCall>)
    requires store.Valid()
    modifies store`rants
    ensures store.Valid()
    ensures var existing := old(store.FindRant(rantId));
      var c := Gate(DeleteOp, existing, old(store.CreatorRant(user, rantId)), None);
      && (c.Deny? ==> reply == Failure(c.status, c.message) && calls == Lookups(DeleteOp, rantId, user, existing)
                      && store.rants == old(store.rants))
      && (c.Pass? ==> reply == DeletedOk && calls == Lookups(DeleteOp, rantId, user, existing) + [DeleteRantCall(rantId)]
                      && store.rants == old(store.rants)[rantId := Deleted(old(store.rants)[rantId])])
  {
    calls := [ValidateRantExistenceCall(rantId)];
    var existing := store.FindRant(rantId);
    if existing.None? {
      return Failure(404, RantDoesNotExists), calls;
    }
    if existing.value.deleted {
      return Failure(410, RantHasAlreadyBeenDeleted), calls;
    }
    calls := calls + [ValidateRantCreatorCall(user, rantId)];
    assert calls == Lookups(DeleteOp, rantId, user, existing);
    var creator := store.CreatorRant(user, rantId);
    if creator.None? {
      return Failure(401, RantNotUser), calls;
    }
    assert Gate(DeleteOp, existing, creator, None) == Pass;
    calls := calls + [DeleteRantCall(rantId)];
    store.DeleteRant(rantId);
    reply := DeletedOk;
  }

  /**
   * editRant: the checks, then `getRant` for the current body, then
   * `editRant` with the new body, that prior body, the tags, the request
   * time and the diff between the two bodies. `diff` is what the text-diff
   * library returns for the prior and the new body.
   */
  method EditRantRequest(store: RantStore, user: string, rantId: string, body: string, tags: seq<JsValue>, when: int,
                         diff: seq<DiffSegment>)
    returns (reply: Reply, calls: seq<ServiceCall>)
    requires store.Valid()
    requires rantId in store.rants ==> Rebuilds(diff, store.rants[rantId].rant, body)
    modifies store`rants
    ensures store.Valid()
    ensures var existing := old(store.FindRant(rantId));
      var c := Gate(EditOp, existing, old(store.CreatorRant(user, rantId)), None);
      && (c.Deny? ==> reply == Failure(c.status, c.message) && calls == Lookups(EditOp, rantId, user, existing)
                      && store.rants == old(store.rants))
      && (c.Pass? ==>
            var prior := old(store.rants)[rantId];
            var p := EditPayload(body, prior.rant, tags, when, diff);
            && reply == EditedOk(Edited(prior, p))
            && calls == Lookups(EditOp, rantId, user, existing) + [GetRantCall(rantId), EditRantCall(user, rantId, p)]
            && store.rants == old(store.rants)[rantId := Edited(prior, p)])
  {
    calls := [ValidateRantExistenceCall(rantId)];
    var existing := store.FindRant(rantId);
    if existing.None? {
      return Failure(404, RantDoesNotExists), calls;
    }
    if existing.value.deleted {
      return Failure(410, RantHasAlreadyBeenDeleted), calls;
    }
    calls := calls + [ValidateRantCreatorCall(user, rantId)];
    assert calls == Lookups(EditOp, rantId, user, existing);
    var creator := store.CreatorRant(user, rantId);
    if creator.None? {
      return Failure(401, RantNotUser), calls;
    }
    assert Gate(EditOp, existing, creator, None) == Pass;
    calls := calls + [GetRantCall(rantId)];
    var current := store.FindRant(rantId);
    var p := EditPayload(body, current.value.rant, tags, when, diff);
    calls := calls + [EditRantCall(user, rantId, p)];
    var edited := store.EditRant(user, rantId, p);
    reply := EditedOk(edited.value);
  }

  /**
   * upvoteRant / downvoteRant: the existence checks, then the voter named in
   * the request must exist and be active; the vote is cast with the voter's
   * id and the reply carries the two counts.
   */
  method VoteRantRequest(store: RantStore, users: map<string, Voter>, rantId: string, voterName: string, op: Op)
    returns (reply: Reply, calls: seq<ServiceCall>)
    requires store.Valid() && op.ByVoter()
    modifies store`rants
    ensures store.Valid()
    ensures var existing := old(store.FindRant(rantId));
      var voter := if voterName in users then Some(users[voterName]) else None;
      var c := Gate(op, existing, None, voter);
      && (c.Deny? ==> reply == Failure(c.status, c.message) && calls == Lookups(op, rantId, voterName, existing)
                      && store.rants == old(store.rants))
      && (c.Pass? ==>
            var id := voter.value.id;
            var r' := if op.UpvoteOp? then Upvoted(old(store.rants)[rantId], id) else Downvoted(old(store.rants)[rantId], id);
            && reply == VoteCounts(|r'.rantUpvote|, |r'.rantDownvote|)
            && calls == Lookups(op, rantId, voterName, existing) + [if op.UpvoteOp? then UpvoteCall(rantId, id) else DownvoteCall(rantId, id)]
            && store.rants == old(store.rants)[rantId := r'])
  {
    calls := [ValidateRantExistenceCall(rantId)];
    var existing := store.FindRant(rantId);
    if existing.None? {
      return Failure(404, RantDoesNotExists), calls;
    }
    if existing.value.deleted {
      return Failure(410, RantHasAlreadyBeenDeleted), calls;
    }
    calls := calls + [ValidateRantUpvoterCall(voterName)];
    assert calls == Lookups(op, rantId, voterName, existing);
    if voterName !in users {
      return Failure(404, RantUserUpvoterNotExists), calls;
    }
    var voter := users[voterName];
    if voter.deactivated {
      return Failure(404, RantUserUpvoterDeactivated), calls;
    }
    assert Gate(op, existing, None, Some(voter)) == Pass;
    calls := calls + [if op.UpvoteOp? then UpvoteCall(rantId, voter.id) else DownvoteCall(rantId, voter.id)];
    var t := store.Vote(rantId, voter.id, op.UpvoteOp?);
    reply := VoteCounts(|t.value.up|, |t.value.down|);
  }

  /** getRant: the existence checks, then the record with its two vote counts. */
  method GetRantRequest(store: RantStore, rantId: string) returns (reply: Reply, calls: seq<ServiceCall>)
    requires store.Valid()
    ensures var existing := store.FindRant(rantId);
      var c := Gate(ReadOp, existing, None, None);
      && (c.Deny? ==> reply == Failure(c.status, c.message) && calls == [ValidateRantExistenceCall(rantId)])
      && (c.Pass? ==>
            && reply == RantRead(existing.value, |existing.value.rantUpvote|, |existing.value.rantDownvote|)
            && calls == [ValidateRantExistenceCall(rantId), GetRantCall(rantId)])
  {
    calls := [ValidateRantExistenceCall(rantId)];
    var existing := store.FindRant(rantId);
    if existing.None? {
      return Failure(404, RantDoesNotExists), calls;
    }
    if existing.value.deleted {
      return Failure(410, RantHasAlreadyBeenDeleted), calls;
    }
    calls := calls + [GetRantCall(rantId)];
    var rant := store.FindRant(rantId).value;
    reply := RantRead(rant, |rant.rantUpvote|, |rant.rantDownvote|);
  }

  /** getRants: an empty page means the feed is exhausted (404), otherwise 200 with the page as it is. */
  method GetRantsRequest(store: RantStore, numRequest: nat) returns (reply: Reply, calls: seq<ServiceCall>)
    requires store.Valid()
    ensures calls == [GetRantsCall(numRequest)]
    ensures reply == Failure(404, RantReadExhausted) <==> store.GetRants(numRequest) == []
    ensures reply.FeedPage? <==> store.GetRants(numRequest) != []
    ensures reply.FeedPage? ==> reply.rants == store.GetRants(numRequest)
    ensures reply.FeedPage? ==> forall k :: 0 <= k < |reply.rants| ==> !reply.rants[k].deleted
  {
    calls := [GetRantsCall(numRequest)];
    var page := store.GetRants(numRequest);
    if |page| == 0 {
      return Failure(404, RantReadExhausted), calls;
    }
    reply := FeedPage(page);
  }

  /**
   * createRant: hands the poster, body, tags and time to the service and
   * replies 201 with the stored record; a service failure goes to `next`.
   */
  method CreateRantRequest(store: RantStore, user: string, body: string, tags: seq<JsValue>, when: Option<int>, rantId: string)
    returns (reply: Reply, calls: seq<ServiceCall>)
    requires store.Valid()
    modifies store
    ensures store.Valid()
    ensures calls == [CreateRantCall(user, body, tags, when)]
    ensures rantId in old(store.rants) ==>
      reply == Forwarded && store.rants == old(store.rants) && store.order == old(store.order)
    ensures rantId !in old(store.rants) ==>
      && reply == Created(NewRant(rantId, user, body, tags, when))
      && store.rants == old(store.rants)[rantId := reply.rant]
      && store.order == old(store.order) + [rantId]
  {
    calls := [CreateRantCall(user, body, tags, when)];
    var r := store.CreateRant(user, body, tags, when, rantId);
    if r.None? {
      return Forwarded, calls;
    }
    reply := Created(r.value);
  }
}
