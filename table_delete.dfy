/** The table tear-down utility: its error classifier, `deleteTable` and the ending of its `main`. */
module TableDelete {
  import opened ApiErrors

  const InUsePrefix := "table is in use: "
  const NotFoundPrefix := "table not found: "

  /** Classifies the error of a DeleteTable call; an error it does not replace is passed on as it came in. */
  function HandleDeleteError(err: Err): (r: Outcome)
    ensures r.Raw? ==> r.err == err
  {
    match err
    case NoErr => Ok
    case OtherErr(_) => Raw(err)
    case ApiErr(code, message, _) =>
      if code == "TableInUseException" then Wrapped(InUsePrefix, message)
      else if code == "TableNotFoundException" || code == "ResourceNotFoundException" then Wrapped(NotFoundPrefix, message)
      else Raw(err)
  }

  /** TableInUseException becomes "table is in use: " followed by the message. */
  lemma InUseIsWrapped(message: string, text: string)
    ensures HandleDeleteError(ApiErr("TableInUseException", message, text)) == Wrapped(InUsePrefix, message)
    ensures AsError(HandleDeleteError(ApiErr("TableInUseException", message, text))) == OtherErr("table is in use: " + message)
  {
  }

  /** Both not-found codes give the same error, "table not found: " followed by the message. */
  lemma NotFoundCodesAgree(message: string, text: string)
    ensures HandleDeleteError(ApiErr("TableNotFoundException", message, text))
         == HandleDeleteError(ApiErr("ResourceNotFoundException", message, text))
         == Wrapped(NotFoundPrefix, message)
    ensures AsError(HandleDeleteError(ApiErr("ResourceNotFoundException", message, text))) == OtherErr("table not found: " + message)
  {
  }

  /** Any other API code, any non-API error, and nil, come back unchanged. */
  lemma OtherErrorsUnchanged(err: Err)
    requires !err.ApiErr? || err.code !in {"TableInUseException", "TableNotFoundException", "ResourceNotFoundException"}
    ensures HandleDeleteError(err) == Passthrough(err)
    ensures AsError(HandleDeleteError(err)) == err
  {
  }

  /** The classifier never turns a non-nil error into success, and a not-found table is never success. */
  lemma DeleteClassifierSuccessIff(err: Err)
    ensures HandleDeleteError(err).Ok? <==> err.NoErr?
    ensures AsError(HandleDeleteError(err)).NoErr? <==> err.NoErr?
  {
  }

  /** `deleteTable`: `callErr` is what DeleteTable returned for the `gamerDetails` table; the result is nil exactly when it was nil. */
  function DeleteTable(callErr: Err): (r: Err)
    ensures r.NoErr? <==> callErr.NoErr?
    ensures !callErr.ApiErr? ==> r == callErr
  {
    AsError(HandleDeleteError(callErr))
  }

  /** `main` after the configuration is loaded: success is reported only when the delete call succeeded. */
  function DeleteTableMain(callErr: Err): (exit: Exit)
    ensures exit.code == 0 <==> callErr.NoErr?
    ensures callErr.NoErr? ==> exit.message == "Table deleted successfully!"
    ensures !callErr.NoErr? ==> exit == Fatal("Failed to delete DynamoDB table: " + ErrorText(DeleteTable(callErr)))
  {
    var err := DeleteTable(callErr);
    if !err.NoErr? then Fatal("Failed to delete DynamoDB table: " + ErrorText(err))
    else Exit(0, "Table deleted successfully!")
  }
}
