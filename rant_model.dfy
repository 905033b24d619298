/**
 * The stored rant record: its fields, the defaults a new record starts from,
 * and the consistency a record keeps through edits, votes and deletion.
 */
module RantModel {
  import opened Wrappers
  import opened JsValues
  import opened RantDiff
  import opened VoteLedger

  /** A comment entry: ids only, the parent and the children are references, not owned records. */
  datatype Comment = Comment(rantCommentId: string, parentCommentId: Option<string>, childrenCommentId: seq<string>)

  /** One edit: when it was requested, its diff, and the body it was made against. */
  datatype EditEntry = EditEntry(when: int, diff: seq<DiffSegment>, diffAgainst: string)

  datatype EditRecord = EditRecord(isEdited: bool, editHistory: seq<EditEntry>)

  datatype Rant = Rant(
    tags: seq<JsValue>,
    when: Option<int>,
    rantId: string,
    rantPoster: string,
    rant: string,
    rantComments: seq<Comment>,
    deleted: bool,
    edit: EditRecord,
    rantUpvote: seq<string>,
    rantDownvote: seq<string>)

  /** What an edit request hands the service. */
  datatype EditPayload = EditPayload(
    editedRant: string,
    currentRantInDb: string,
    tags: seq<JsValue>,
    when: int,
    diff: seq<DiffSegment>)

  /** The tags a new rant is stored with: the given ones as they are, or `["general"]` for none. */
  function DefaultTags(tags: seq<JsValue>): (r: seq<JsValue>)
    ensures r != []
    ensures tags != [] ==> r == tags
    ensures tags == [] ==> r == [Str("general")]
  {
    if tags == [] then [Str("general")] else tags
  }

  function VotesOf(r: Rant): Tally {
    Tally(r.rantUpvote, r.rantDownvote)
  }

  /** The body in force after edit `k`: the next edit's baseline, or the current body after the last edit. */
  function BodyAfter(h: seq<EditEntry>, k: nat, current: string): string
    requires k < |h|
  {
    if k + 1 < |h| then h[k + 1].diffAgainst else current
  }

  /** Every edit's diff rebuilds the body it was made against and the body it produced. */
  predicate HistoryChain(h: seq<EditEntry>, current: string) {
    forall k :: 0 <= k < |h| ==> Rebuilds(h[k].diff, h[k].diffAgainst, BodyAfter(h, k, current))
  }

  /** The invariant every stored rant keeps. */
  predicate WellFormed(r: Rant) {
    && Ledger(VotesOf(r))
    && (r.edit.isEdited <==> r.edit.editHistory != [])
    && HistoryChain(r.edit.editHistory, r.rant)
  }

  /** A record as creation stores it: the schema's defaults around the poster's body and tags. */
  function NewRant(rantId: string, rantPoster: string, body: string, tags: seq<JsValue>, when: Option<int>): (r: Rant)
    ensures WellFormed(r)
    ensures r.rantId == rantId && r.rantPoster == rantPoster && r.rant == body && r.when == when
    ensures r.tags != [] && (tags != [] ==> r.tags == tags)
    ensures !r.deleted && !r.edit.isEdited && r.edit.editHistory == []
    ensures r.rantComments == [] && r.rantUpvote == [] && r.rantDownvote == []
  {
    Rant(DefaultTags(tags), when, rantId, rantPoster, body, [], false, EditRecord(false, []), [], [])
  }

  /**
   * The record after an edit: the sent body and tags, marked edited, with one
   * history entry (time, diff, prior body) appended; nothing else changes.
   */
  function Edited(r: Rant, p: EditPayload): (r': Rant)
    ensures r'.rant == p.editedRant && r'.tags == p.tags && r'.edit.isEdited
    ensures r'.edit.editHistory == r.edit.editHistory + [EditEntry(p.when, p.diff, p.currentRantInDb)]
    ensures r'.(rant := r.rant, tags := r.tags, edit := r.edit) == r
  {
    r.(rant := p.editedRant,
       tags := p.tags,
       edit := EditRecord(true, r.edit.editHistory + [EditEntry(p.when, p.diff, p.currentRantInDb)]))
  }

  /** The record after a soft delete: flagged deleted, nothing else changes. */
  function Deleted(r: Rant): (r': Rant)
    ensures r'.deleted && r'.(deleted := r.deleted) == r
  {
    r.(deleted := true)
  }

  /** The record after an upvote: the toggle rule on its vote arrays, nothing else changes. */
  function Upvoted(r: Rant, voter: string): (r': Rant)
    ensures VotesOf(r') == Upvote(VotesOf(r), voter)
    ensures r'.(rantUpvote := r.rantUpvote, rantDownvote := r.rantDownvote) == r
  {
    var t := Upvote(VotesOf(r), voter);
    r.(rantUpvote := t.up, rantDownvote := t.down)
  }

  /** The record after a downvote: the toggle rule on its vote arrays, nothing else changes. */
  function Downvoted(r: Rant, voter: string): (r': Rant)
    ensures VotesOf(r') == Downvote(VotesOf(r), voter)
    ensures r'.(rantUpvote := r.rantUpvote, rantDownvote := r.rantDownvote) == r
  {
    var t := Downvote(VotesOf(r), voter);
    r.(rantUpvote := t.up, rantDownvote := t.down)
  }

  /**
   * An edit made against the current body with a diff from it to the new body
   * keeps the record well formed; the history grows by exactly that entry and
   * the earlier entries stay as they were.
   */
  lemma EditKeepsWellFormed(r: Rant, p: EditPayload)
    requires WellFormed(r)
    requires p.currentRantInDb == r.rant && Rebuilds(p.diff, r.rant, p.editedRant)
    ensures WellFormed(Edited(r, p))
    ensures Edited(r, p).edit.isEdited
    ensures Edited(r, p).edit.editHistory[..|r.edit.editHistory|] == r.edit.editHistory
    ensures |Edited(r, p).edit.editHistory| == |r.edit.editHistory| + 1
  {
    var h := r.edit.editHistory;
    var e := EditEntry(p.when, p.diff, p.currentRantInDb);
    var h' := h + [e];
    forall k | 0 <= k < |h'|
      ensures Rebuilds(h'[k].diff, h'[k].diffAgainst, BodyAfter(h', k, p.editedRant))
    {
      if k < |h| {
        assert h'[k] == h[k];
        if k + 1 < |h| {
          assert h'[k + 1] == h[k + 1];
        } else {
          assert h'[k + 1] == e;
        }
        assert Rebuilds(h[k].diff, h[k].diffAgainst, BodyAfter(h, k, r.rant));
      }
    }
    assert h'[..|h|] == h;
  }

  /** Walking the history forward: the last diff's new text is the current body, each diff's new text the next one's old text. */
  lemma HistoryReplays(h: seq<EditEntry>, current: string)
    requires HistoryChain(h, current)
    ensures h != [] ==> NewText(h[|h| - 1].diff) == current
    ensures forall k :: 0 <= k < |h| - 1 ==> NewText(h[k].diff) == OldText(h[k + 1].diff)
  {
    forall k | 0 <= k < |h| - 1 ensures NewText(h[k].diff) == OldText(h[k + 1].diff) {
      assert Rebuilds(h[k].diff, h[k].diffAgainst, BodyAfter(h, k, current));
      assert Rebuilds(h[k + 1].diff, h[k + 1].diffAgainst, BodyAfter(h, k + 1, current));
    }
    if h != [] {
      assert Rebuilds(h[|h| - 1].diff, h[|h| - 1].diffAgainst, BodyAfter(h, |h| - 1, current));
    }
  }

  /** Votes keep the record well formed. */
  lemma VotesKeepWellFormed(r: Rant, voter: string)
    requires WellFormed(r)
    ensures WellFormed(Upvoted(r, voter)) && WellFormed(Downvoted(r, voter))
  {
    UpvoteEffect(VotesOf(r), voter);
    DownvoteEffect(VotesOf(r), voter);
  }

  /** The controller test's edit: "hellow world" edited to "hello earthlings" with the test's diff. */
  lemma EarthlingsEdit(r: Rant, when: int)
    requires WellFormed(r) && r.rant == "hellow world"
    ensures var r' := Edited(r, EditPayload("hello earthlings", "hellow world", [], when, EarthlingsDiff()));
      && WellFormed(r')
      && r'.edit.isEdited
      && r'.edit.editHistory[|r'.edit.editHistory| - 1] == EditEntry(when, EarthlingsDiff(), "hellow world")
  {
    EarthlingsDiffRebuilds();
    EditKeepsWellFormed(r, EditPayload("hello earthlings", "hellow world", [], when, EarthlingsDiff()));
  }
}
