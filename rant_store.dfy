/**
 * The rant service over its collection: rants keyed by their unique rantId,
 * with the insertion order the feed is read in. The service's own source is
 * not part of this model; its operations here do what the controller and the
 * record schema expect of them, and keep every stored record well formed.
 */
module RantService {
  import opened Wrappers
  import opened JsValues
  import opened RantDiff
  import opened VoteLedger
  import opened RantModel

  /** A user as the voter lookup (`validateRantUpvoter`) returns it. */
  datatype Voter = Voter(id: string, deactivated: bool)

  /** The positions in `ids` of the non-deleted rants, last position first. */
  function LiveIndexes(ids: seq<string>, m: map<string, Rant>): (p: seq<nat>)
    requires forall i :: 0 <= i < |ids| ==> ids[i] in m
    ensures forall k :: 0 <= k < |p| ==> p[k] < |ids|
  {
    if ids == [] then []
    else
      var front := ids[..|ids| - 1];
      assert forall i :: 0 <= i < |front| ==> front[i] == ids[i];
      var rest := LiveIndexes(front, m);
      if m[ids[|ids| - 1]].deleted then rest else [|ids| - 1] + rest
  }

  /**
   * LiveIndexes lists the positions of the non-deleted rants, each exactly
   * once, in strictly decreasing order: the newest insertion first.
   */
  lemma LiveIndexesNewestFirst(ids: seq<string>, m: map<string, Rant>)
    requires forall i :: 0 <= i < |ids| ==> ids[i] in m
    ensures var p := LiveIndexes(ids, m);
      && (forall k :: 0 <= k < |p| ==> !m[ids[p[k]]].deleted)
      && (forall k, k' :: 0 <= k < k' < |p| ==> p[k] > p[k'])
      && (forall i :: 0 <= i < |ids| && !m[ids[i]].deleted ==> i in p)
  {
    LiveIndexesAreLive(ids, m);
    LiveIndexesDecrease(ids, m);
    LiveIndexesComplete(ids, m);
  }

  lemma {:induction false} LiveIndexesAreLive(ids: seq<string>, m: map<string, Rant>)
    requires forall i :: 0 <= i < |ids| ==> ids[i] in m
    ensures forall k :: 0 <= k < |LiveIndexes(ids, m)| ==> !m[ids[LiveIndexes(ids, m)[k]]].deleted
  {
    if ids != [] {
      var front := ids[..|ids| - 1];
      assert forall i :: 0 <= i < |front| ==> front[i] == ids[i];
      LiveIndexesAreLive(front, m);
      var rest := LiveIndexes(front, m);
      var p := LiveIndexes(ids, m);
      var shift := if m[ids[|ids| - 1]].deleted then 0 else 1;
      assert p == if shift == 0 then rest else [|ids| - 1] + rest;
      forall k | shift <= k < |p|
        ensures !m[ids[p[k]]].deleted
      {
        assert p[k] == rest[k - shift] && !m[front[rest[k - shift]]].deleted;
      }
    }
  }

  lemma {:induction false} LiveIndexesDecrease(ids: seq<string>, m: map<string, Rant>)
    requires forall i :: 0 <= i < |ids| ==> ids[i] in m
    ensures forall k, k' :: 0 <= k < k' < |LiveIndexes(ids, m)| ==> LiveIndexes(ids, m)[k] > LiveIndexes(ids, m)[k']
  {
    if ids != [] {
      var front := ids[..|ids| - 1];
      assert forall i :: 0 <= i < |front| ==> front[i] == ids[i];
      LiveIndexesDecrease(front, m);
      var rest := LiveIndexes(front, m);
      var p := LiveIndexes(ids, m);
      var shift := if m[ids[|ids| - 1]].deleted then 0 else 1;
      assert p == if shift == 0 then rest else [|ids| - 1] + rest;
      forall k, k' | 0 <= k < k' < |p|
        ensures p[k] > p[k']
      {
        assert p[k'] == rest[k' - shift];
        if k >= shift {
          assert p[k] == rest[k - shift];
        }
      }
    }
  }

  lemma {:induction false} LiveIndexesComplete(ids: seq<string>, m: map<string, Rant>)
    requires forall i :: 0 <= i < |ids| ==> ids[i] in m
    ensures forall i :: 0 <= i < |ids| && !m[ids[i]].deleted ==> i in LiveIndexes(ids, m)
  {
    if ids != [] {
      var front := ids[..|ids| - 1];
      assert forall i :: 0 <= i < |front| ==> front[i] == ids[i];
      LiveIndexesComplete(front, m);
    }
  }

  /** The records named at positions `p` of `ids`, in the order of `p`. */
  function Pick(ids: seq<string>, m: map<string, Rant>, p: seq<nat>): (r: seq<Rant>)
    requires forall i :: 0 <= i < |ids| ==> ids[i] in m
    requires forall k :: 0 <= k < |p| ==> p[k] < |ids|
    ensures |r| == |p| && forall k :: 0 <= k < |r| ==> r[k] == m[ids[p[k]]]
  {
    seq(|p|, k requires 0 <= k < |p| => m[ids[p[k]]])
  }

  /**
   * Over an order that lists each key once, where every record carries its own
   * key, the records at the live positions are every live record, each once,
   * and only live ones.
   */
  lemma FeedOfOrder(order: seq<string>, rants: map<string, Rant>)
    requires forall i :: 0 <= i < |order| ==> order[i] in rants
    requires NoDuplicates(order) && (forall id :: id in rants <==> id in order)
    requires forall id :: id in rants ==> rants[id].rantId == id
    ensures var feed := Pick(order, rants, LiveIndexes(order, rants));
      && (forall k :: 0 <= k < |feed| ==> !feed[k].deleted && feed[k] in rants.Values)
      && (forall id :: id in rants && !rants[id].deleted ==> rants[id] in feed)
      && (forall k, k' :: 0 <= k < k' < |feed| ==> feed[k].rantId != feed[k'].rantId)
  {
    var p := LiveIndexes(order, rants);
    LiveIndexesNewestFirst(order, rants);
    var feed := Pick(order, rants, p);
    assert forall k :: 0 <= k < |feed| ==> feed[k].rantId == order[p[k]];
    forall id | id in rants && !rants[id].deleted
      ensures rants[id] in feed
    {
      var i :| 0 <= i < |order| && order[i] == id;
      var k :| 0 <= k < |p| && p[k] == i;
      assert feed[k] == rants[id];
    }
  }

  /** The page of `feed` a client that has already read `numRequest` items receives. */
  function Window(feed: seq<Rant>, numRequest: nat, pageSize: nat): (w: seq<Rant>)
    ensures |w| <= pageSize
    ensures numRequest >= |feed| ==> w == []
    ensures numRequest < |feed| && pageSize > 0 ==> w != [] && w[0] == feed[numRequest]
    ensures forall k :: 0 <= k < |w| ==> numRequest + k < |feed| && w[k] == feed[numRequest + k]
    ensures numRequest < |feed| ==> |w| == if |feed| - numRequest <= pageSize then |feed| - numRequest else pageSize
  {
    if numRequest >= |feed| then []
    else
      var rest := feed[numRequest..];
      if |rest| <= pageSize then rest else rest[..pageSize]
  }

  class RantStore {
    var rants: map<string, Rant>
    /** rantIds in insertion order, oldest first. */
    var order: seq<string>
    /** The fixed number of rants one feed page holds. */
    const pageSize: nat

    /** Keys are the records' own unique ids, every record is well formed, the order lists each key once. */
    ghost predicate Valid()
      reads this
    {
      && (forall id :: id in rants ==> rants[id].rantId == id && WellFormed(rants[id]))
      && NoDuplicates(order)
      && (forall id :: id in rants <==> id in order)
    }

    constructor (pageSize: nat)
      ensures Valid() && rants == map[] && order == [] && this.pageSize == pageSize
    {
      rants := map[];
      order := [];
      this.pageSize := pageSize;
    }

    /** validateRantExistence: the record, deleted or not, or nothing. */
    function FindRant(rantId: string): (r: Option<Rant>)
      reads this
      ensures r.Some? <==> rantId in rants
      ensures r.Some? ==> r.value == rants[rantId]
    {
      if rantId in rants then Some(rants[rantId]) else None
    }

    /** validateRantCreator: the record only when `user` posted it. */
    function CreatorRant(user: string, rantId: string): (r: Option<Rant>)
      reads this
      ensures r.Some? <==> FindRant(rantId).Some? && FindRant(rantId).value.rantPoster == user
      ensures r.Some? ==> r.value == rants[rantId]
    {
      if rantId in rants && rants[rantId].rantPoster == user then Some(rants[rantId]) else None
    }

    /**
     * The non-deleted rants, newest first: the records of the live positions
     * of `order`, from the last inserted back, each rant exactly once.
     */
    function LiveFeed(): (feed: seq<Rant>)
      reads this
      requires Valid()
      ensures |feed| == |LiveIndexes(order, rants)|
      ensures forall k :: 0 <= k < |feed| ==> feed[k] == rants[order[LiveIndexes(order, rants)[k]]]
      ensures forall k :: 0 <= k < |feed| ==> !feed[k].deleted && feed[k] in rants.Values
      ensures forall id :: id in rants && !rants[id].deleted ==> rants[id] in feed
      ensures forall k, k' :: 0 <= k < k' < |feed| ==> feed[k].rantId != feed[k'].rantId
    {
      assert forall i :: 0 <= i < |order| ==> order[i] in rants;
      FeedOfOrder(order, rants);
      Pick(order, rants, LiveIndexes(order, rants))
    }

    /** getRants: the page after the first `numRequest` live rants. */
    function GetRants(numRequest: nat): (w: seq<Rant>)
      reads this
      requires Valid()
      ensures |w| <= pageSize
      ensures forall k :: 0 <= k < |w| ==> !w[k].deleted && w[k] in rants.Values
      ensures w == [] <==> numRequest >= |LiveFeed()| || pageSize == 0
    {
      Window(LiveFeed(), numRequest, pageSize)
    }

    /**
     * createRant: stores a new record under `rantId` with the creation
     * defaults. An id already taken violates the unique index: nothing is
     * stored and the failure is returned.
     */
    method CreateRant(rantPoster: string, body: string, tags: seq<JsValue>, when: Option<int>, rantId: string)
      returns (r: Option<Rant>)
      requires Valid()
      modifies this
      ensures Valid()
      ensures rantId in old(rants) ==> r.None? && rants == old(rants) && order == old(order)
      ensures rantId !in old(rants) ==>
        && r == Some(NewRant(rantId, rantPoster, body, tags, when))
        && rants == old(rants)[rantId := r.value]
        && order == old(order) + [rantId]
    {
      if rantId in rants {
        return None;
      }
      var rant := NewRant(rantId, rantPoster, body, tags, when);
      AppendFresh(order, rantId);
      rants := rants[rantId := rant];
      order := order + [rantId];
      r := Some(rant);
    }

    /** deleteRant: marks the record deleted; its comments, votes and history stay. */
    method DeleteRant(rantId: string)
      requires Valid()
      modifies this`rants
      ensures Valid()
      ensures rantId in old(rants) ==> rants == old(rants)[rantId := Deleted(old(rants)[rantId])]
      ensures rantId !in old(rants) ==> rants == old(rants)
    {
      if rantId in rants {
        rants := rants[rantId := Deleted(rants[rantId])];
      }
    }

    /**
     * editRant: replaces body and tags and appends the edit to the history,
     * all in one step. The caller has read the current body and diffed the
     * new one against it.
     */
    method EditRant(user: string, rantId: string, p: EditPayload) returns (r: Option<Rant>)
      requires Valid()
      requires rantId in rants ==> p.currentRantInDb == rants[rantId].rant && Rebuilds(p.diff, p.currentRantInDb, p.editedRant)
      modifies this`rants
      ensures Valid()
      ensures rantId in old(rants) ==>
        && r == Some(Edited(old(rants)[rantId], p))
        && rants == old(rants)[rantId := r.value]
      ensures rantId !in old(rants) ==> r.None? && rants == old(rants)
    {
      if rantId !in rants {
        return None;
      }
      EditKeepsWellFormed(rants[rantId], p);
      var edited := Edited(rants[rantId], p);
      rants := rants[rantId := edited];
      r := Some(edited);
    }

    /** upvote / downvote: applies the toggle rule and returns the new vote arrays. */
    method Vote(rantId: string, voterId: string, upvote: bool) returns (t: Option<Tally>)
      requires Valid()
      modifies this`rants
      ensures Valid()
      ensures rantId in old(rants) ==>
        var r' := if upvote then Upvoted(old(rants)[rantId], voterId) else Downvoted(old(rants)[rantId], voterId);
        && t == Some(VotesOf(r'))
        && rants == old(rants)[rantId := r']
      ensures rantId !in old(rants) ==> t.None? && rants == old(rants)
    {
      if rantId !in rants {
        return None;
      }
      VotesKeepWellFormed(rants[rantId], voterId);
      var r' := if upvote then Upvoted(rants[rantId], voterId) else Downvoted(rants[rantId], voterId);
      rants := rants[rantId := r'];
      t := Some(VotesOf(r'));
    }
  }

  /** Once deleted, a rant never appears in a feed page. */
  lemma DeletedNeverListed(store: RantStore, rantId: string, numRequest: nat)
    requires store.Valid() && rantId in store.rants && store.rants[rantId].deleted
    ensures store.rants[rantId] !in store.GetRants(numRequest)
  {
  }

  /** The first page of a collection holding a live rant is not empty (given a non-zero page size). */
  lemma FirstPageNotEmpty(store: RantStore, rantId: string)
    requires store.Valid() && rantId in store.rants && !store.rants[rantId].deleted && store.pageSize > 0
    ensures store.GetRants(0) != []
  {
    assert store.rants[rantId] in store.LiveFeed();
  }
}
