/** The account lookup of main.go:63-75 (`getUserID`). The remote call is
    replaced by its decoded answer. */
module Lookup {
  import opened Api

  /** The decoded answer of the lookup endpoint: each field may be absent,
      or the call failed in transport. */
  datatype LookupResponse = Reply(id: Option<string>, notesCount: Option<int>) | LookupFailed(message: string)

  /** A resolved account: its identifier and the number of notes it reports. */
  datatype Account = Account(id: string, notesCount: int)

  datatype LookupResult = Found(account: Account) | LookupError(message: string)

  /** The lookup request's fields (main.go:65). */
  datatype LookupRequest = LookupRequest(username: string, host: string)

  /** The result `getUserID` returns: a transport failure is passed on as an
      error, and an answer missing a field reads as the empty identifier or a
      zero count, never as an error (main.go:71-72). */
  function GetUserId(response: LookupResponse): (result: LookupResult)
    ensures result.LookupError? <==> response.LookupFailed?
    ensures result.LookupError? ==> result.message == response.message
    ensures response.Reply? && response.id.None? ==> result.account.id == ""
    ensures response.Reply? && response.notesCount.None? ==> result.account.notesCount == 0
    ensures response.Reply? && response.id.Some? ==> result.account.id == response.id.value
    ensures response.Reply? && response.notesCount.Some? ==> result.account.notesCount == response.notesCount.value
  {
    match response
    case LookupFailed(message) => LookupError(message)
    case Reply(id, notesCount) =>
      Found(Account(if id.Some? then id.value else "", if notesCount.Some? then notesCount.value else 0))
  }
}
