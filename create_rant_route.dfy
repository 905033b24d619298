/**
 * The create-rant route as a whole: the session check, then VerifyRant, then
 * VerifyRantTags, then the controller's createRant, which stores the record
 * under a freshly generated rantId.
 */
module CreateRantRoute {
  import opened Wrappers
  import opened JsValues
  import opened JsTrim
  import opened RantMessages
  import opened RantModel
  import opened RantMiddleware
  import opened RantService
  import opened PostRantController

  /** The fields of a create request's body. */
  datatype CreateBody = CreateBody(rant: JsValue, tags: JsValue, when: JsValue)

  /** How the checks in front of the controller end: the typed input, a rejection, or a host TypeError. */
  datatype Admission = Admit(rant: string, tags: seq<JsValue>) | Reject(status: nat, message: RantMessage) | Crash

  /** The `when` a body carries, if it is a number. */
  function WhenOf(v: JsValue): Option<int> {
    if v.Num? then Some(v.n) else None
  }

  /**
   * The checks in their order: logged in (401), then the body (412), then the
   * tags (412). An admitted request passes the body and tags on unchanged.
   */
  function CreateGate(session: Option<string>, body: CreateBody): (a: Admission)
    ensures session.None? ==> a == Reject(401, UserNotLoggedIn)
    ensures session.Some? && VerifyRant(body.rant).BadValue? ==> a == Reject(412, VerifyRant(body.rant).message)
    ensures session.Some? && VerifyRant(body.rant) == TypeFault ==> a == Crash
    ensures session.Some? && VerifyRant(body.rant) == Next && VerifyRantTags(body.tags).BadValue? ==>
      a == Reject(412, VerifyRantTags(body.tags).message)
    ensures a.Admit? <==> session.Some? && body.rant.Str? && |Trim(body.rant.s)| > 20 && body.tags.Arr?
    ensures a.Admit? ==> body.rant == Str(a.rant) && body.tags == Arr(a.tags)
  {
    if session.None? then Reject(401, UserNotLoggedIn)
    else
      match VerifyRant(body.rant)
      case BadValue(m) => Reject(412, m)
      case TypeFault => Crash
      case Next =>
        match VerifyRantTags(body.tags)
        case BadValue(m) => Reject(412, m)
        case TypeFault => Crash
        case Next => Admit(body.rant.s, body.tags.items)
  }

  /** POST /rant/post: the checks, then createRant with the session's user as poster. */
  method PostRant(store: RantStore, session: Option<string>, body: CreateBody, rantId: string)
    returns (admission: Admission, reply: Option<Reply>)
    requires store.Valid()
    modifies store
    ensures store.Valid()
    ensures admission == CreateGate(session, body)
    ensures !admission.Admit? ==> reply.None? && store.rants == old(store.rants) && store.order == old(store.order)
    ensures admission.Admit? && rantId !in old(store.rants) ==>
      var created := NewRant(rantId, session.value, admission.rant, admission.tags, WhenOf(body.when));
      && reply == Some(Created(created))
      && store.rants == old(store.rants)[rantId := created]
      && store.order == old(store.order) + [rantId]
    ensures admission.Admit? && rantId in old(store.rants) ==>
      reply == Some(Forwarded) && store.rants == old(store.rants) && store.order == old(store.order)
  {
    admission := CreateGate(session, body);
    if !admission.Admit? {
      return admission, None;
    }
    var r, _ := CreateRantRequest(store, session.value, admission.rant, admission.tags, WhenOf(body.when), rantId);
    reply := Some(r);
  }

  /** The body the integration test sends without tags. */
  const AbuseRant: string := "This is a rant " + "about abuse in a school"

  /** The body the integration test creates its rants with. */
  const SchoolRant: string := AbuseRant + " and how it has " + "affected students"

  /** Without a session the request is refused before its body is read; with one, a missing body comes first. */
  lemma CreateNeedsSessionThenBody(user: string)
    ensures CreateGate(None, CreateBody(Undefined, Undefined, Undefined)) == Reject(401, UserNotLoggedIn)
    ensures CreateGate(Some(user), CreateBody(Undefined, Undefined, Undefined)) == Reject(412, RantBodyUndefined)
  {
  }

  /** Any non-empty body of at most twenty characters is refused for its length, whatever its tags. */
  lemma ShortBodyRejected(user: string, s: string, tags: JsValue, when: JsValue)
    requires 0 < |s| <= MinRantLength
    ensures CreateGate(Some(user), CreateBody(Str(s), tags, when)) == Reject(412, RantLengthNotMoreThanTwenty)
  {
    VisibleBoundsTrim(s);
  }

  /** Whitespace around a short core does not count towards the length. */
  lemma PaddedBodyRejected(user: string, pad: string, core: string, tail: string, tags: JsValue, when: JsValue)
    requires AllWhitespace(pad) && AllWhitespace(tail) && |core| <= MinRantLength
    requires pad + core + tail != ""
    ensures CreateGate(Some(user), CreateBody(Str(pad + core + tail), tags, when)) == Reject(412, RantLengthNotMoreThanTwenty)
  {
    TrimIgnoresPadding(pad, core, tail);
    VisibleBoundsTrim(core);
  }

  /** The two short bodies of the integration test. */
  lemma TestBodiesRejected(user: string)
    ensures CreateGate(Some(user), CreateBody(Str("hello world"), Undefined, Undefined))
      == Reject(412, RantLengthNotMoreThanTwenty)
    ensures CreateGate(Some(user), CreateBody(Str("hello world for barz"), Undefined, Undefined))
      == Reject(412, RantLengthNotMoreThanTwenty)
  {
    ShortBodyRejected(user, "hello world", Undefined, Undefined);
    ShortBodyRejected(user, "hello world for barz", Undefined, Undefined);
  }

  /** A long enough body moves the refusal to the tags: missing, then not an array. */
  lemma TagsCheckedAfterBody(user: string, body: string)
    requires |Trim(body)| > MinRantLength
    ensures CreateGate(Some(user), CreateBody(Str(body), Undefined, Undefined)) == Reject(412, RantTagsUndefined)
    ensures CreateGate(Some(user), CreateBody(Str(body), Obj(None), Undefined)) == Reject(412, RantTagsNotAnArray("object"))
  {
  }

  /** `n` spaces. */
  function Spaces(n: nat): (r: string)
    ensures |r| == n && AllWhitespace(r)
  {
    if n == 0 then "" else Spaces(n - 1) + " "
  }

  /** The blank and space-padded bodies of the integration test: thirty spaces, and "dd" between spaces. */
  lemma TestPaddedBodiesRejected(user: string)
    ensures CreateGate(Some(user), CreateBody(Str(Spaces(30)), Undefined, Undefined))
      == Reject(412, RantLengthNotMoreThanTwenty)
    ensures CreateGate(Some(user), CreateBody(Str(Spaces(30) + "dd" + Spaces(15)), Undefined, Undefined))
      == Reject(412, RantLengthNotMoreThanTwenty)
  {
    var pad := Spaces(30);
    assert pad + "" + "" == pad;
    PaddedBodyRejected(user, pad, "", "", Undefined, Undefined);
    PaddedBodyRejected(user, pad, "dd", Spaces(15), Undefined, Undefined);
  }

  /** The integration test's two long bodies keep all of their characters under trim. */
  lemma TestBodiesLongEnough()
    ensures |Trim(AbuseRant)| == |AbuseRant| > MinRantLength
    ensures |Trim(SchoolRant)| == |SchoolRant| > MinRantLength
  {
    TrimOfTrimmed(AbuseRant);
    TrimOfTrimmed(SchoolRant);
  }

  /** The integration test's tagged creation, for any body long enough (SchoolRant is one, by TestBodiesLongEnough): the tags are kept in order. */
  method CreateTaggedScenario(user: string, body: string, rantId: string)
    requires |Trim(body)| > MinRantLength
  {
    var store := new RantStore(10);
    var tags := [Str("abuse"), Str("student"), Str("auchipoly")];
    var a, r := PostRant(store, Some(user), CreateBody(Str(body), Arr(tags), Undefined), rantId);
    assert a == Admit(body, tags);
    assert r.Some? && r.value.Created?;
    assert r.value.rant.tags == tags && r.value.rant.rant == body;
    assert r.value.rant.rantComments == [] && r.value.rant.rantId == rantId;
    assert store.rants.Keys == {rantId};
  }

  /** The integration test's creation with an empty tag array: the record is tagged "general". */
  method CreateUntaggedScenario(user: string, body: string, rantId: string)
    requires |Trim(body)| > MinRantLength
  {
    var store := new RantStore(10);
    var a, r := PostRant(store, Some(user), CreateBody(Str(body), Arr([]), Undefined), rantId);
    assert a == Admit(body, []);
    assert r.Some? && r.value.Created?;
    assert r.value.rant.tags == [Str("general")];
    assert r.value.rant.rantComments == [];
  }
}
