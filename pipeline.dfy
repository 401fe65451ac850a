/** The per-link loop of `main` (main.go:33-60): for each extracted link,
    take the account name from its path, look the account up, fetch its
    notes and correlate them with the link. Any failure ends the whole run
    (a `log.Fatal` or a panic). */
module Pipeline {
  import opened Api
  import opened Handles
  import opened Lookup
  import opened Pagination
  import opened Correlation

  /** An extracted link as the regular expression and `url.Parse` hand it
      over (main.go:31-39): the matched text, its host and its path. */
  datatype Link = Link(text: string, host: string, path: string)

  /** The answers the remote service gives for one link: to the account
      lookup, and to each note-listing request in turn. */
  datatype Remote = Remote(lookup: LookupResponse, pages: seq<PageResponse>)

  /** What main logs for one link: the lookup request, the account, the
      canonical URLs of the matching notes, and the final `id`. */
  datatype Report = Report(link: string, request: LookupRequest, account: Account,
                           noteUrls: seq<string>, finalId: string)

  /** Why a run ends early: the index-out-of-range panic at main.go:40, the
      `log.Fatal` at main.go:45 or main.go:50, or the panic inside the fetch. */
  datatype Stop = NoUsername | LookupFatal(message: string) | FetchFatal(message: string) | FetchPanic

  datatype Outcome = Processed(report: Report) | Stopped(reason: Stop)

  /** The note-listing script answers every page the reported count calls for. */
  predicate Covers(remote: Remote)
  {
    GetUserId(remote.lookup).Found? ==> PageCount(GetUserId(remote.lookup).account.notesCount) <= |remote.pages|
  }

  /** What processing one link amounts to. */
  function ProcessLink(link: Link, remote: Remote): Outcome
    requires Covers(remote)
  {
    match Username(link.path)
    case None => Stopped(NoUsername)
    case Some(username) =>
      match GetUserId(remote.lookup)
      case LookupError(message) => Stopped(LookupFatal(message))
      case Found(account) =>
        var fetched := Fetch(account.id, account.notesCount, remote.pages);
        match fetched.status
        case Failed(message) => Stopped(FetchFatal(message))
        case Panicked => Stopped(FetchPanic)
        case Complete =>
          Processed(Report(link.text, LookupRequest(username, link.host), account,
                           Urls(Matching(link.text, fetched.notes)), FinalId(link.text, fetched.notes, account.id)))
  }

  /** A processed link's report: the lookup names the link's account and
      host, and every logged URL is that of a fetched note whose URL contains
      the link, in the order the notes came, one per such note. */
  lemma ReportOfLink(link: Link, remote: Remote)
    requires Covers(remote) && ProcessLink(link, remote).Processed?
    ensures var report := ProcessLink(link, remote).report;
      && report.link == link.text
      && Username(link.path) == Some(report.request.username) && report.request.host == link.host
      && GetUserId(remote.lookup) == Found(report.account)
      && var fetched := Fetch(report.account.id, report.account.notesCount, remote.pages);
         && fetched.notes == Delivered(remote.pages[..PageCount(report.account.notesCount)])
         && report.noteUrls == Urls(Matching(link.text, fetched.notes))
  {
    var account := GetUserId(remote.lookup).account;
    FetchShape(account.id, account.notesCount, remote.pages);
  }

  /** The loop of main.go:33-60, over the links in their order. */
  method Run(links: seq<Link>, remotes: seq<Remote>) returns (reports: seq<Report>, stop: Option<Stop>)
    requires |remotes| >= |links|
    requires forall i :: 0 <= i < |links| ==> Covers(remotes[i])
    ensures |reports| <= |links|
    ensures forall i :: 0 <= i < |reports| ==> ProcessLink(links[i], remotes[i]) == Processed(reports[i])
    ensures stop.None? ==> |reports| == |links|
    ensures stop.Some? ==> |reports| < |links| && ProcessLink(links[|reports|], remotes[|reports|]) == Stopped(stop.value)
  {
    reports, stop := [], None;
    for i := 0 to |links|
      invariant |reports| == i
      invariant forall k :: 0 <= k < i ==> ProcessLink(links[k], remotes[k]) == Processed(reports[k])
    {
      var link, remote := links[i], remotes[i];
      var fields := Split(link.path, '/');
      if |fields| < 2 {
        stop := Some(NoUsername);
        return;
      }
      var username := CutPrefix(fields[1], "@").0;
      var lookup := GetUserId(remote.lookup);
      if lookup.LookupError? {
        stop := Some(LookupFatal(lookup.message));
        return;
      }
      var id, notesCount := lookup.account.id, lookup.account.notesCount;
      var notes, requests, status := GetUserNotes(id, notesCount, remote.pages);
      if status.Failed? {
        stop := Some(FetchFatal(status.message));
        return;
      }
      if status.Panicked? {
        stop := Some(FetchPanic);
        return;
      }
      var finalId, noteUrls := Correlate(link.text, notes, id);
      reports := reports + [Report(link.text, LookupRequest(username, link.host), lookup.account, noteUrls, finalId)];
    }
  }
}
