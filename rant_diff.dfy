/**
 * Diff segments as an edit records them: a span of text flagged added,
 * removed or (both flags false, the schema default) unchanged. The text-diff
 * library that produces them is not part of this model; what it promises and
 * what the edit history relies on is that the segments rebuild both texts.
 */
module RantDiff {

  datatype DiffSegment = DiffSegment(value: string, added: bool, removed: bool)

  /** A segment as the schema stores it when the library leaves both flags unset. */
  function Unchanged(value: string): DiffSegment {
    DiffSegment(value, false, false)
  }

  /** An unchanged segment contributes its text to both sides: alone, it rebuilds its text from itself. */
  lemma UnchangedRebuilds(value: string)
    ensures NewText([Unchanged(value)]) == value && OldText([Unchanged(value)]) == value
    ensures Rebuilds([Unchanged(value)], value, value)
  {
    assert [Unchanged(value)][1..] == [];
  }

  /** The text after the edit: the values of the segments that were not removed, in order. */
  function NewText(diff: seq<DiffSegment>): string {
    if diff == [] then ""
    else (if diff[0].removed then "" else diff[0].value) + NewText(diff[1..])
  }

  /** The text before the edit: the values of the segments that were not added, in order. */
  function OldText(diff: seq<DiffSegment>): string {
    if diff == [] then ""
    else (if diff[0].added then "" else diff[0].value) + OldText(diff[1..])
  }

  /** No segment is flagged both added and removed. */
  predicate Exclusive(diff: seq<DiffSegment>) {
    forall k :: 0 <= k < |diff| ==> !(diff[k].added && diff[k].removed)
  }

  /** `diff` is a diff from `before` to `after`. */
  predicate Rebuilds(diff: seq<DiffSegment>, before: string, after: string) {
    Exclusive(diff) && OldText(diff) == before && NewText(diff) == after
  }

  lemma {:induction false} NewTextAppend(d: seq<DiffSegment>, e: seq<DiffSegment>)
    ensures NewText(d + e) == NewText(d) + NewText(e)
  {
    if d == [] {
      assert d + e == e;
    } else {
      assert (d + e)[1..] == d[1..] + e;
      NewTextAppend(d[1..], e);
    }
  }

  lemma {:induction false} OldTextAppend(d: seq<DiffSegment>, e: seq<DiffSegment>)
    ensures OldText(d + e) == OldText(d) + OldText(e)
  {
    if d == [] {
      assert d + e == e;
    } else {
      assert (d + e)[1..] == d[1..] + e;
      OldTextAppend(d[1..], e);
    }
  }

  /** The new text is empty exactly when every segment that was not removed is empty. */
  lemma {:induction false} NewTextEmpty(diff: seq<DiffSegment>)
    ensures NewText(diff) == "" <==> forall k :: 0 <= k < |diff| ==> diff[k].removed || diff[k].value == ""
  {
    if diff != [] {
      NewTextEmpty(diff[1..]);
      assert forall k :: 1 <= k < |diff| ==> diff[k] == diff[1..][k - 1];
    }
  }

  /** The old text is empty exactly when every segment that was not added is empty. */
  lemma {:induction false} OldTextEmpty(diff: seq<DiffSegment>)
    ensures OldText(diff) == "" <==> forall k :: 0 <= k < |diff| ==> diff[k].added || diff[k].value == ""
  {
    if diff != [] {
      OldTextEmpty(diff[1..]);
      assert forall k :: 1 <= k < |diff| ==> diff[k] == diff[1..][k - 1];
    }
  }

  /** Diffs compose by concatenation: a diff of each part is a diff of the whole. */
  lemma RebuildsAppend(d: seq<DiffSegment>, e: seq<DiffSegment>, b1: string, a1: string, b2: string, a2: string)
    requires Rebuilds(d, b1, a1) && Rebuilds(e, b2, a2)
    ensures Rebuilds(d + e, b1 + b2, a1 + a2)
  {
    NewTextAppend(d, e);
    OldTextAppend(d, e);
    assert forall k :: 0 <= k < |d + e| ==> (d + e)[k] == if k < |d| then d[k] else e[k - |d|];
  }

  /** Any two texts have a diff (remove all, add all), so an edit never lacks one. */
  lemma DiffExists(before: string, after: string)
    ensures Rebuilds([DiffSegment(before, false, true), DiffSegment(after, true, false)], before, after)
  {
    var d := [DiffSegment(before, false, true), DiffSegment(after, true, false)];
    assert d[1..][1..] == [];
    assert NewText(d[1..]) == after + "";
    assert OldText(d[1..]) == "" + "";
    assert OldText(d) == before + "";
    assert NewText(d) == "" + after;
  }

  /** The diff the editRant controller test passes for "hellow world" becoming "hello earthlings". */
  function EarthlingsDiff(): seq<DiffSegment> {
    [ Unchanged("hello"),
      DiffSegment("w", false, true),
      Unchanged(" "),
      DiffSegment("wo", false, true),
      DiffSegment("ea", true, false),
      Unchanged("r"),
      DiffSegment("th", true, false),
      Unchanged("l"),
      DiffSegment("d", false, true),
      DiffSegment("ings", true, false) ]
  }

  /** The test's segments rebuild the prior body and the edited body. */
  lemma EarthlingsDiffRebuilds()
    ensures Rebuilds(EarthlingsDiff(), "hellow world", "hello earthlings")
  {
    var p1 := [Unchanged("hello"), DiffSegment("w", false, true), Unchanged(" ")];
    var p2 := [DiffSegment("wo", false, true), DiffSegment("ea", true, false), Unchanged("r")];
    var p3 := [DiffSegment("th", true, false), Unchanged("l"), DiffSegment("d", false, true), DiffSegment("ings", true, false)];
    assert EarthlingsDiff() == p1 + (p2 + p3);
    EarthlingsPieces();
    RebuildsAppend(p2, p3, "wo" + "r", "ea" + "r", "ld", "thlings");
    RebuildsAppend(p1, p2 + p3, "hellow ", "hello ", "wor" + "ld", "ear" + "thlings");
    EarthlingsJoin();
  }

  /** The three runs the test's diff splits into, each rebuilding its part of both bodies. */
  lemma EarthlingsPieces()
    ensures Rebuilds([Unchanged("hello"), DiffSegment("w", false, true), Unchanged(" ")], "hellow ", "hello ")
    ensures Rebuilds([DiffSegment("wo", false, true), DiffSegment("ea", true, false), Unchanged("r")], "wo" + "r", "ea" + "r")
    ensures Rebuilds([DiffSegment("th", true, false), Unchanged("l"), DiffSegment("d", false, true), DiffSegment("ings", true, false)],
      "ld", "thlings")
  {
  }

  lemma EarthlingsJoin()
    ensures "hellow " + ("wor" + "ld") == "hellow world"
    ensures "hello " + ("ear" + "thlings") == "hello earthlings"
  {
    assert "ear" + "thlings" == "earthlings";
  }
}
