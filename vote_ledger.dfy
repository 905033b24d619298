/**
 * The two vote arrays of a rant (`rantUpvote`, `rantDownvote`, lists of user
 * ids) and the toggle rule applied by an upvote or a downvote: a vote on the
 * other side moves over, a repeated vote is withdrawn, a first vote is added.
 */
module VoteLedger {

  datatype Tally = Tally(up: seq<string>, down: seq<string>)

  predicate NoDuplicates(s: seq<string>) {
    forall i, j :: 0 <= i < j < |s| ==> s[i] != s[j]
  }

  /** Each voter is listed at most once, and never on both sides. */
  predicate Ledger(t: Tally) {
    NoDuplicates(t.up) && NoDuplicates(t.down) && forall v :: v in t.up ==> v !in t.down
  }

  /** `s` without any occurrence of `v`, order kept. */
  function Without(s: seq<string>, v: string): (r: seq<string>)
    ensures forall x :: x in r <==> x in s && x != v
    ensures |r| <= |s|
    ensures NoDuplicates(s) ==> NoDuplicates(r)
    ensures NoDuplicates(s) && v in s ==> |r| == |s| - 1
    ensures v !in s ==> r == s
  {
    if s == [] then []
    else if s[0] == v then Without(s[1..], v)
    else
      var r := [s[0]] + Without(s[1..], v);
      assert NoDuplicates(s) ==> s[0] !in s[1..];
      r
  }

  /**
   * An upvote by `v`: afterwards `v` upvotes unless it withdrew a lone upvote,
   * never downvotes, and every other voter stays where it was.
   */
  function Upvote(t: Tally, v: string): (r: Tally)
    ensures v in r.up <==> v !in t.up || v in t.down
    ensures v !in r.down
    ensures forall x :: x != v ==> (x in r.up <==> x in t.up) && (x in r.down <==> x in t.down)
  {
    if v in t.down then Tally(t.up + [v], Without(t.down, v))
    else if v in t.up then Tally(Without(t.up, v), t.down)
    else Tally(t.up + [v], t.down)
  }

  /** A downvote by `v`: the upvote rule with the sides swapped. */
  function Downvote(t: Tally, v: string): (r: Tally)
    ensures v in r.down <==> v !in t.down || v in t.up
    ensures v !in r.up
    ensures forall x :: x != v ==> (x in r.up <==> x in t.up) && (x in r.down <==> x in t.down)
  {
    if v in t.up then Tally(Without(t.up, v), t.down + [v])
    else if v in t.down then Tally(t.up, Without(t.down, v))
    else Tally(t.up, t.down + [v])
  }

  lemma AppendFresh(s: seq<string>, v: string)
    requires NoDuplicates(s) && v !in s
    ensures NoDuplicates(s + [v])
  {
    assert forall i :: 0 <= i < |s| ==> (s + [v])[i] == s[i];
  }

  /**
   * An upvote keeps the ledger, and afterwards `v` is upvoting exactly when it
   * was not before, is not downvoting, and every other voter is where it was.
   */
  lemma UpvoteEffect(t: Tally, v: string)
    requires Ledger(t)
    ensures var t' := Upvote(t, v);
      && Ledger(t')
      && (v in t'.up <==> v !in t.up)
      && v !in t'.down
      && (forall x :: x != v ==> (x in t'.up <==> x in t.up) && (x in t'.down <==> x in t.down))
  {
    if v !in t.up {
      AppendFresh(t.up, v);
    }
  }

  /** The mirror image of UpvoteEffect. */
  lemma DownvoteEffect(t: Tally, v: string)
    requires Ledger(t)
    ensures var t' := Downvote(t, v);
      && Ledger(t')
      && (v in t'.down <==> v !in t.down)
      && v !in t'.up
      && (forall x :: x != v ==> (x in t'.up <==> x in t.up) && (x in t'.down <==> x in t.down))
  {
    if v !in t.down {
      AppendFresh(t.down, v);
    }
  }

  /** How a vote moves the counts: one more, one fewer, or a transfer between the sides. */
  lemma UpvoteCounts(t: Tally, v: string)
    requires Ledger(t)
    ensures var t' := Upvote(t, v);
      && (v in t.down ==> |t'.up| == |t.up| + 1 && |t'.down| == |t.down| - 1)
      && (v in t.up ==> |t'.up| == |t.up| - 1 && |t'.down| == |t.down|)
      && (v !in t.up && v !in t.down ==> |t'.up| == |t.up| + 1 && |t'.down| == |t.down|)
  {
  }

  /**
   * Two upvotes in a row cancel: `v` upvotes afterwards exactly when it did
   * before, and no longer downvotes. From no vote, `v` ends on neither side.
   */
  lemma UpvoteTwice(t: Tally, v: string)
    requires Ledger(t)
    ensures v in Upvote(Upvote(t, v), v).up <==> v in t.up
    ensures v !in Upvote(Upvote(t, v), v).down
  {
    UpvoteEffect(t, v);
    UpvoteEffect(Upvote(t, v), v);
  }

  /** Upvoting twice in a row from no vote restores the arrays exactly. */
  lemma UpvoteTwiceRestores(t: Tally, v: string)
    requires Ledger(t) && v !in t.up && v !in t.down
    ensures Upvote(Upvote(t, v), v) == t
  {
    var t1 := Upvote(t, v);
    assert t1.up == t.up + [v];
    WithoutLast(t.up, v);
  }

  lemma {:induction false} WithoutLast(s: seq<string>, v: string)
    requires v !in s
    ensures Without(s + [v], v) == s
  {
    if s != [] {
      assert (s + [v])[1..] == s[1..] + [v];
      WithoutLast(s[1..], v);
    } else {
      assert [v][1..] == [];
    }
  }

  /** An upvote followed by a downvote from the same voter leaves only the downvote. */
  lemma UpThenDown(t: Tally, v: string)
    requires Ledger(t)
    ensures v !in Downvote(Upvote(t, v), v).up && v in Downvote(Upvote(t, v), v).down
  {
    UpvoteEffect(t, v);
    var t1 := Upvote(t, v);
    if v in t.up {
      // the upvote withdrew an earlier upvote; the downvote is then a first vote
      assert v !in t1.up && v !in t1.down;
    }
    DownvoteEffect(t1, v);
  }
}
