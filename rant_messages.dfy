/**
 * The rant and authentication messages the lifecycle reports, one constructor
 * per constant. `RantTagsNotAnArray(t)` stands for the constant followed by a
 * space and the `typeof` name `t`. `RantNotValidTrend` and `UserNotLoggedIn`
 * are referenced by the code but their text is not part of this model.
 */
module RantMessages {

  datatype RantMessage =
    | RantLengthNotMoreThanTwenty
    | RantBodyUndefined
    | RantTagsNotAnArray(typeName: string)
    | RantTagsUndefined
    | RantIdIsUndefined
    | RantDoesNotExists
    | RantNotUser
    | RantSuccessfullyDeleted
    | RantWhenNoExists
    | RantNotNumber
    | RantNotValidTimestamp
    | RantHasAlreadyBeenDeleted
    | RantUserUpvoterNotExists
    | RantUserUpvoterDeactivated
    | RantNotValidLoadNumRequest
    | RantReadExhausted
    | RantNotValidTrend
    | UserNotLoggedIn
}
