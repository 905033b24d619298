/**
 * The rant route validators. Each reads one request field and either calls
 * `next` or throws once: a BadValueException carrying a message (replied with
 * 412), or a TypeError raised by the host when the field's value has no such
 * method (`trim`, `startsWith`). `Guard` holds exactly one of these outcomes.
 */
module RantMiddleware {
  import opened Wrappers
  import opened JsValues
  import opened JsTrim
  import opened RantMessages

  datatype Guard = Next | BadValue(message: RantMessage) | TypeFault

  /** Bodies must have more than this many characters once trimmed. */
  const MinRantLength: nat := 20

  /** VerifyRant: a body must be present, then longer than twenty characters once trimmed. */
  function VerifyRant(rant: JsValue): (g: Guard)
    ensures !Truthy(rant) ==> g == BadValue(RantBodyUndefined)
    ensures g == TypeFault <==> Truthy(rant) && !rant.Str?
    ensures g == Next <==> rant.Str? && |Trim(rant.s)| > MinRantLength
    ensures rant.Str? && rant.s != "" && |Trim(rant.s)| <= MinRantLength ==> g == BadValue(RantLengthNotMoreThanTwenty)
  {
    if !Truthy(rant) then BadValue(RantBodyUndefined)
    else if !rant.Str? then TypeFault
    else if |Trim(rant.s)| <= MinRantLength then BadValue(RantLengthNotMoreThanTwenty)
    else Next
  }

  /** VerifyRantTags: tags must be present, then an array (any array, the empty one too). */
  function VerifyRantTags(tags: JsValue): (g: Guard)
    ensures !Truthy(tags) ==> g == BadValue(RantTagsUndefined)
    ensures Truthy(tags) && !tags.Arr? ==> g == BadValue(RantTagsNotAnArray(TypeOf(tags)))
    ensures g == Next <==> tags.Arr?
  {
    if !Truthy(tags) then BadValue(RantTagsUndefined)
    else if !tags.Arr? then BadValue(RantTagsNotAnArray(TypeOf(tags)))
    else Next
  }

  /** VerifyRantTag: the `tag` route parameter must be present and non-empty. */
  function VerifyRantTag(tag: JsValue): (g: Guard)
    ensures g == Next <==> Truthy(tag)
    ensures g != Next ==> g == BadValue(RantTagsUndefined)
  {
    if !Truthy(tag) then BadValue(RantTagsUndefined) else Next
  }

  /** VerifyRantId: the `rantId` route parameter must be present and non-empty. */
  function VerifyRantId(rantId: JsValue): (g: Guard)
    ensures g == Next <==> Truthy(rantId)
    ensures g != Next ==> g == BadValue(RantIdIsUndefined)
  {
    if !Truthy(rantId) then BadValue(RantIdIsUndefined) else Next
  }

  /**
   * Whether `new Date(n)` is a valid date: ECMA-262's TimeClip keeps a time
   * value whose magnitude is at most 8.64e15 milliseconds.
   */
  predicate ValidTimeValue(n: int) {
    -8_640_000_000_000_000 <= n <= 8_640_000_000_000_000
  }

  /** VerifyWhen: present (so not 0), then a number, then a valid timestamp. */
  function VerifyWhen(when: JsValue): (g: Guard)
    ensures !Truthy(when) ==> g == BadValue(RantWhenNoExists)
    ensures Truthy(when) && TypeOf(when) != "number" ==> g == BadValue(RantNotNumber)
    ensures when.Num? && when.n != 0 && !ValidTimeValue(when.n) ==> g == BadValue(RantNotValidTimestamp)
    ensures g == Next <==> when.Num? && when.n != 0 && ValidTimeValue(when.n)
    ensures g != TypeFault
  {
    if !Truthy(when) then BadValue(RantWhenNoExists)
    else if TypeOf(when) != "number" then BadValue(RantNotNumber)
    else if !ValidTimeValue(when.n) then BadValue(RantNotValidTimestamp)
    else Next
  }

  /** The test VerifyNumRequest applies to the converted value: anything but NaN passes. */
  function NumRequestGuard(numRequest: JsValue): (g: Guard)
    ensures g == Next <==> !numRequest.NaN?
    ensures g != Next ==> g == BadValue(RantNotValidLoadNumRequest)
  {
    if numRequest.NaN? then BadValue(RantNotValidLoadNumRequest) else Next
  }

  /** VerifyTrend: the `trend` parameter must start with '#'; a value without `startsWith` throws. */
  function VerifyTrend(trend: JsValue): (g: Guard)
    ensures g == Next <==> trend.Str? && |trend.s| > 0 && trend.s[0] == '#'
    ensures g == TypeFault <==> !trend.Str?
    ensures trend.Str? && g != Next ==> g == BadValue(RantNotValidTrend)
  {
    if !trend.Str? then TypeFault
    else if |trend.s| > 0 && trend.s[0] == '#' then Next
    else BadValue(RantNotValidTrend)
  }

  /** The query object of a feed request, whose `numRequest` VerifyNumRequest overwrites. */
  class Query {
    var numRequest: JsValue

    constructor (numRequest: JsValue)
      ensures this.numRequest == numRequest
    {
      this.numRequest := numRequest;
    }

    /**
     * VerifyNumRequest: stores `Number(numRequest)` back into the query, then
     * rejects NaN. `converted` is that conversion's result, `None` for NaN.
     */
    method VerifyNumRequest(converted: Option<int>) returns (g: Guard)
      modifies this
      ensures numRequest == if converted.Some? then Num(converted.value) else NaN
      ensures g == Next <==> converted.Some?
      ensures g != Next ==> g == BadValue(RantNotValidLoadNumRequest)
    {
      numRequest := if converted.Some? then Num(converted.value) else NaN;
      g := NumRequestGuard(numRequest);
    }
  }
}
