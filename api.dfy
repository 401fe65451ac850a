/** Values exchanged with the remote note service (main.go). Responses arrive
    already decoded: a note is the pair of its `id` and `url` fields. */
module Api {

  datatype Option<+T> = None | Some(value: T)

  /** One record of a note listing (main.go:18-21). */
  datatype Note = Note(id: string, url: string)

  /** A request to the note-listing endpoint, as the fields of its JSON body:
      the account, the page limit and the optional continuation cursor. */
  datatype Request = Request(userId: string, limit: int, sinceId: Option<string>)

  /** What the note-listing endpoint answers to one request: a decoded page,
      or a transport failure carrying its message. */
  datatype PageResponse = Page(records: seq<Note>) | TransportError(message: string)

  /** Number of notes requested per full page. */
  const PageSize := 100

  /** The identifier of the last note of `notes`, if there is one. */
  function LastId(notes: seq<Note>): (r: Option<string>)
    ensures r.None? <==> notes == []
    ensures r.Some? ==> r.value == notes[|notes| - 1].id
  {
    if notes == [] then None else Some(notes[|notes| - 1].id)
  }
}
