/** The paginated note fetch of main.go:77-117 (`getUserNotes`). The remote
    listing call is replaced by a script of responses: the i-th request sent
    receives `responses[i]`. */
module Pagination {
  import opened Api

  /** How the fetch ends: every page fetched, a transport failure returned to
      the caller (main.go:102-105), or the index-out-of-range panic on an
      empty note list (main.go:98). */
  datatype Status = Complete | Failed(message: string) | Panicked

  /** The outcome of a fetch: the notes returned, the requests sent, and how it ended. */
  datatype Fetched = Fetched(notes: seq<Note>, requests: seq<Request>, status: Status)

  /** Number of page requests sent for an account reporting `notesCount`
      notes: the ceiling of notesCount / 100, and none for a count that is not
      positive (main.go:81, main.go:84). */
  function PageCount(notesCount: int): (pages: nat)
    ensures notesCount <= 0 ==> pages == 0
    ensures notesCount > 0 ==> (pages - 1) * PageSize < notesCount <= pages * PageSize
  {
    if notesCount <= 0 then 0 else (notesCount + PageSize - 1) / PageSize
  }

  /** The limit sent with page `i`, in closed form: the whole count for a
      single page; for several pages, a full page first, then the rest of the
      count, then zero for every later page (main.go:88-100). */
  function Limit(notesCount: int, i: nat): int
  {
    if PageCount(notesCount) == 1 then notesCount
    else if i == 0 then PageSize
    else if i == 1 then notesCount - PageSize
    else 0
  }

  /** The sum of the limits of pages 0 .. k-1. */
  function Requested(notesCount: int, k: nat): int
  {
    if k == 0 then 0 else Requested(notesCount, k - 1) + Limit(notesCount, k - 1)
  }

  /** The `passes` counter of main.go:82 after one page of a multi-page fetch
      is a full page; from the second page on it equals the reported count,
      so every page after the second requests nothing. */
  lemma {:induction false} RequestedAfterFirstPage(notesCount: int, k: nat)
    requires PageCount(notesCount) > 1 && k >= 1
    ensures Requested(notesCount, k) == if k == 1 then PageSize else notesCount
  {
    if k > 1 {
      RequestedAfterFirstPage(notesCount, k - 1);
    }
  }

  /** Over a whole fetch, the limits sent add up to the reported count. */
  lemma LimitsAddUp(notesCount: int)
    requires notesCount > 0
    ensures Requested(notesCount, PageCount(notesCount)) == notesCount
  {
    if PageCount(notesCount) > 1 {
      RequestedAfterFirstPage(notesCount, PageCount(notesCount));
    }
  }

  /** No response in `responses` is a transport failure. */
  predicate AllPages(responses: seq<PageResponse>)
  {
    forall j :: 0 <= j < |responses| ==> responses[j].Page?
  }

  /** The records of the pages of `responses`, in order; a failure contributes nothing. */
  function Delivered(responses: seq<PageResponse>): seq<Note>
  {
    if responses == [] then []
    else
      var last := responses[|responses| - 1];
      Delivered(responses[..|responses| - 1]) + (if last.Page? then last.records else [])
  }

  /** Delivered grows by one page's records per page. */
  lemma DeliveredNext(responses: seq<PageResponse>, i: nat)
    requires i < |responses|
    ensures Delivered(responses[..i + 1])
         == Delivered(responses[..i]) + (if responses[i].Page? then responses[i].records else [])
  {
    assert responses[..i + 1][..i] == responses[..i];
  }

  /** The request that the fetch sends as page `j`: the account, the limit in
      closed form, and as cursor the last note delivered by the earlier pages. */
  function ExpectedRequest(userId: string, notesCount: int, responses: seq<PageResponse>, j: nat): Request
    requires j <= |responses|
  {
    Request(userId, Limit(notesCount, j), LastId(Delivered(responses[..j])))
  }

  /** Whether the fetch hits the panic of main.go:98: several pages are due
      and the first one comes back empty. */
  predicate Panics(notesCount: int, responses: seq<PageResponse>)
    requires PageCount(notesCount) <= |responses|
  {
    PageCount(notesCount) > 1 && responses[0] == Page([])
  }

  /** The fetch from page `i` on, given the notes and requests so far: the
      specification of the loop of main.go:84-114. */
  function FetchFrom(userId: string, notesCount: int, responses: seq<PageResponse>,
                     i: nat, notes: seq<Note>, requests: seq<Request>): Fetched
    requires i <= PageCount(notesCount) <= |responses|
    decreases PageCount(notesCount) - i
  {
    if i == PageCount(notesCount) then Fetched(notes, requests, Complete)
    else if i > 0 && notes == [] then Fetched([], requests, Panicked)
    else
      var sent := requests + [Request(userId, Limit(notesCount, i), LastId(notes))];
      match responses[i]
      case TransportError(m) => Fetched(notes, sent, Failed(m))
      case Page(records) => FetchFrom(userId, notesCount, responses, i + 1, notes + records, sent)
  }

  /** The whole fetch for one account. */
  function Fetch(userId: string, notesCount: int, responses: seq<PageResponse>): Fetched
    requires PageCount(notesCount) <= |responses|
  {
    FetchFrom(userId, notesCount, responses, 0, [], [])
  }

  /** Every request of `r` is the one expected at its position, and there are
      at most as many as pages due. */
  predicate RequestsAsExpected(userId: string, notesCount: int, responses: seq<PageResponse>, r: Fetched)
    requires PageCount(notesCount) <= |responses|
  {
    && |r.requests| <= PageCount(notesCount)
    && (forall j :: 0 <= j < |r.requests| ==> r.requests[j] == ExpectedRequest(userId, notesCount, responses, j))
    && (forall j :: 0 < j < |r.requests| ==> r.requests[j].sinceId.Some?)
  }

  /** How `r` ends, in terms of the responses: complete exactly when no page
      fails and no panic is due, with every page's records; on a failure, the
      records of the pages before it; on the panic, nothing. */
  predicate EndsAsExpected(notesCount: int, responses: seq<PageResponse>, r: Fetched)
    requires PageCount(notesCount) <= |responses|
    requires |r.requests| <= PageCount(notesCount)
  {
    && (r.status == Complete <==> AllPages(responses[..PageCount(notesCount)]) && !Panics(notesCount, responses))
    && (r.status.Complete? ==>
          |r.requests| == PageCount(notesCount) && r.notes == Delivered(responses[..PageCount(notesCount)]))
    && (r.status.Failed? ==>
          && |r.requests| >= 1
          && AllPages(responses[..|r.requests| - 1])
          && responses[|r.requests| - 1] == TransportError(r.status.message)
          && r.notes == Delivered(responses[..|r.requests| - 1])
          && !Panics(notesCount, responses))
    && (r.status.Panicked? ==> Panics(notesCount, responses) && |r.requests| == 1 && r.notes == [])
  }

  /** What pages 0 .. i-1 of a fetch leave behind: each of them succeeded, the
      notes are their records, the requests the expected ones, and past the
      second page the first page was not empty. */
  predicate Progress(userId: string, notesCount: int, responses: seq<PageResponse>,
                     i: nat, notes: seq<Note>, requests: seq<Request>)
    requires i <= |responses|
  {
    && |requests| == i && AllPages(responses[..i]) && notes == Delivered(responses[..i])
    && (forall j :: 0 <= j < i ==> requests[j] == ExpectedRequest(userId, notesCount, responses, j))
    && (forall j :: 0 < j < i ==> requests[j].sinceId.Some?)
    && (i >= 2 ==> notes != [] && responses[0] != Page([]))
  }

  /** One more successful page keeps the progress. */
  lemma ProgressStep(userId: string, notesCount: int, responses: seq<PageResponse>,
                     i: nat, notes: seq<Note>, requests: seq<Request>)
    requires i < PageCount(notesCount) <= |responses|
    requires Progress(userId, notesCount, responses, i, notes, requests)
    requires i > 0 ==> notes != []
    requires responses[i].Page?
    requires !(i == 0 && Panics(notesCount, responses))
    ensures Progress(userId, notesCount, responses, i + 1, notes + responses[i].records,
                     requests + [Request(userId, Limit(notesCount, i), LastId(notes))])
  {
    var records := responses[i].records;
    var sent := requests + [Request(userId, Limit(notesCount, i), LastId(notes))];
    DeliveredNext(responses, i);
    assert Delivered(responses[..i + 1]) == notes + records;
    assert AllPages(responses[..i + 1]) by {
      assert forall j :: 0 <= j < i ==> responses[..i + 1][j] == responses[..i][j];
    }
    assert forall j :: 0 <= j < i ==> sent[j] == requests[j];
    assert sent[i] == ExpectedRequest(userId, notesCount, responses, i);
    if i == 1 {
      assert responses[..1] == [responses[0]];
      assert Delivered(responses[..1]) == Delivered(responses[..0]) + responses[0].records;
    }
  }

  /** The fetch stops with the panic only when the panic is due. */
  lemma PanicShape(notesCount: int, responses: seq<PageResponse>, i: nat, notes: seq<Note>)
    requires 0 < i < PageCount(notesCount) <= |responses|
    requires AllPages(responses[..i]) && notes == Delivered(responses[..i]) && notes == []
    requires i >= 2 ==> notes != []
    ensures i == 1 && Panics(notesCount, responses)
  {
    assert responses[..1] == [responses[0]];
    assert Delivered(responses[..1]) == Delivered(responses[..0]) + responses[0].records;
  }

  /** What the fetch does from page `i` on, given that pages 0 .. i-1 went as expected. */
  lemma {:induction false} FetchFromShape(userId: string, notesCount: int, responses: seq<PageResponse>,
                                          i: nat, notes: seq<Note>, requests: seq<Request>)
    requires i <= PageCount(notesCount) <= |responses|
    requires Progress(userId, notesCount, responses, i, notes, requests)
    ensures var r := FetchFrom(userId, notesCount, responses, i, notes, requests);
      && RequestsAsExpected(userId, notesCount, responses, r)
      && EndsAsExpected(notesCount, responses, r)
    decreases PageCount(notesCount) - i
  {
    var total := PageCount(notesCount);
    if i == total {
    } else if i > 0 && notes == [] {
      PanicShape(notesCount, responses, i, notes);
      assert !AllPages(responses[..total]) || Panics(notesCount, responses);
    } else {
      var sent := requests + [Request(userId, Limit(notesCount, i), LastId(notes))];
      match responses[i]
      case TransportError(m) =>
        assert responses[..|sent| - 1] == responses[..i];
        if i == 1 {
          assert responses[..1] == [responses[0]];
          assert Delivered(responses[..1]) == Delivered(responses[..0]) + responses[0].records;
        }
        assert !AllPages(responses[..total]) by {
          assert responses[..total][i] == responses[i];
        }
      case Page(records) =>
        if i == 0 && Panics(notesCount, responses) {
          assert FetchFrom(userId, notesCount, responses, 1, records, sent).status == Panicked;
          assert responses[..1] == [responses[0]];
          assert Delivered(responses[..1]) == Delivered(responses[..0]) + responses[0].records;
          assert Progress(userId, notesCount, responses, 1, records, sent);
        } else {
          ProgressStep(userId, notesCount, responses, i, notes, requests);
          FetchFromShape(userId, notesCount, responses, i + 1, notes + records, sent);
        }
    }
  }

  /** The shape of a whole fetch: which requests are sent, which notes come
      back, and how it ends. */
  lemma FetchShape(userId: string, notesCount: int, responses: seq<PageResponse>)
    requires PageCount(notesCount) <= |responses|
    ensures var r := Fetch(userId, notesCount, responses);
      && RequestsAsExpected(userId, notesCount, responses, r)
      && EndsAsExpected(notesCount, responses, r)
  {
    assert Delivered(responses[..0]) == [];
    FetchFromShape(userId, notesCount, responses, 0, [], []);
  }

  /** The loop of main.go:84-114, with the `passes` counter and the
      one-by-one append of main.go:108-113. */
  method GetUserNotes(userId: string, notesCount: int, responses: seq<PageResponse>)
    returns (notes: seq<Note>, requests: seq<Request>, status: Status)
    requires PageCount(notesCount) <= |responses|
    ensures Fetched(notes, requests, status) == Fetch(userId, notesCount, responses)
  {
    notes, requests, status := [], [], Complete;
    var totalPasses := PageCount(notesCount);
    var passes := 0;
    for i := 0 to totalPasses
      invariant passes == Requested(notesCount, i)
      invariant i == 0 ==> notes == []
      invariant status == Complete
      invariant FetchFrom(userId, notesCount, responses, i, notes, requests) == Fetch(userId, notesCount, responses)
    {
      var request;
      if totalPasses == 1 {
        request := Request(userId, notesCount, None);
        passes := passes + notesCount;
      } else if i == 0 {
        request := Request(userId, PageSize, None);
        passes := passes + PageSize;
      } else {
        if |notes| == 0 {
          notes, status := [], Panicked;
          return;
        }
        var lastId := notes[|notes| - 1].id;
        RequestedAfterFirstPage(notesCount, i);
        request := Request(userId, notesCount - passes, Some(lastId));
        passes := passes + (notesCount - passes);
      }
      requests := requests + [request];
      match responses[i] {
        case TransportError(m) =>
          status := Failed(m);
          return;
        case Page(records) =>
          ghost var before := notes;
          var k := 0;
          while k < |records|
            invariant k <= |records|
            invariant notes == before + records[..k]
          {
            notes := notes + [records[k]];
            k := k + 1;
          }
          assert records[..k] == records;
      }
    }
  }

  /** An account reporting no notes gets no request and an empty list (main.go:81-84). */
  lemma FetchNothingWithoutNotes(userId: string, notesCount: int, responses: seq<PageResponse>)
    requires notesCount <= 0
    ensures Fetch(userId, notesCount, responses) == Fetched([], [], Complete)
  {
  }

  /** A single page (1 to 100 notes) is one request for the whole count,
      without cursor (main.go:88-91); its records are the result. */
  lemma FetchSinglePage(userId: string, notesCount: int, responses: seq<PageResponse>)
    requires 0 < notesCount <= PageSize && |responses| >= 1
    ensures var r := Fetch(userId, notesCount, responses);
      && r.requests == [Request(userId, notesCount, None)]
      && (responses[0].Page? ==> r.notes == responses[0].records && r.status == Complete)
      && (responses[0].TransportError? ==> r.notes == [] && r.status == Failed(responses[0].message))
  {
    FetchShape(userId, notesCount, responses);
    var r := Fetch(userId, notesCount, responses);
    assert responses[..1] == [responses[0]];
    assert Delivered(responses[..1]) == Delivered(responses[..0]) + (if responses[0].Page? then responses[0].records else []);
    assert |r.requests| == 1;
  }

  /** Several pages: the first request asks for a full page without cursor
      (main.go:92-95); every later one carries as cursor the ID of the last
      note the earlier pages delivered (main.go:96-98); the second asks for
      the rest of the count and every later one for nothing, since `passes`
      already equals the count (main.go:99-100). */
  lemma FetchMultiPage(userId: string, notesCount: int, responses: seq<PageResponse>, j: nat)
    requires notesCount > PageSize && j < PageCount(notesCount) <= |responses|
    requires j < |Fetch(userId, notesCount, responses).requests|
    ensures var request := Fetch(userId, notesCount, responses).requests[j];
      && request.userId == userId
      && (j == 0 ==> request.limit == PageSize && request.sinceId == None)
      && (j == 1 ==> request.limit == notesCount - PageSize)
      && (j >= 2 ==> request.limit == 0)
      && (j > 0 ==> (Delivered(responses[..j]) != []
                    && request.sinceId == Some(Delivered(responses[..j])[|Delivered(responses[..j])| - 1].id)))
  {
    FetchShape(userId, notesCount, responses);
  }

  /** When every page due answers and the first page is not an empty one
      followed by more, the fetch completes with one request per page and
      returns all the records, page after page, in the order received
      (main.go:107-116). */
  lemma FetchCompleteConcatenates(userId: string, notesCount: int, responses: seq<PageResponse>)
    requires PageCount(notesCount) <= |responses|
    requires AllPages(responses[..PageCount(notesCount)]) && !Panics(notesCount, responses)
    ensures var r := Fetch(userId, notesCount, responses);
      && r.status == Complete
      && |r.requests| == PageCount(notesCount)
      && r.notes == Delivered(responses[..PageCount(notesCount)])
  {
    FetchShape(userId, notesCount, responses);
  }

  /** A transport failure on page k ends the fetch there: k + 1 requests were
      sent, and the notes of pages 0 .. k-1 come back with the error
      (main.go:102-105). */
  lemma FetchStopsAtFailure(userId: string, notesCount: int, responses: seq<PageResponse>, k: nat)
    requires k < PageCount(notesCount) <= |responses|
    requires AllPages(responses[..k]) && responses[k].TransportError?
    requires !Panics(notesCount, responses)
    ensures var r := Fetch(userId, notesCount, responses);
      && r.status == Failed(responses[k].message)
      && |r.requests| == k + 1
      && r.notes == Delivered(responses[..k])
  {
    FetchShape(userId, notesCount, responses);
    var r := Fetch(userId, notesCount, responses);
    assert !AllPages(responses[..PageCount(notesCount)]) by {
      assert responses[..PageCount(notesCount)][k] == responses[k];
    }
  }

  /** An empty first page of a multi-page fetch makes the second iteration
      read the last element of an empty list (main.go:98): one request was
      sent and the program panics. */
  lemma FetchPanicsOnEmptyFirstPage(userId: string, notesCount: int, responses: seq<PageResponse>)
    requires PageCount(notesCount) <= |responses| && Panics(notesCount, responses)
    ensures Fetch(userId, notesCount, responses) == Fetched([], [Request(userId, PageSize, None)], Panicked)
  {
    FetchShape(userId, notesCount, responses);
    assert Delivered(responses[..0]) == [];
  }
}
