/** The correlation loop of main.go:52-59: every fetched note whose URL
    contains the extracted link yields the note's canonical URL, and `id`
    is overwritten on each match, so it ends as the last match's ID. */
module Correlation {
  import opened Api

  /** The prefix of a note's canonical URL (main.go:56). */
  const NoteUrlPrefix := "https://blahaj.zone/notes/"

  /** `needle` occurs in `hay` starting at position `i`. */
  predicate OccursAt(hay: string, needle: string, i: nat)
  {
    i + |needle| <= |hay| && hay[i..i + |needle|] == needle
  }

  /** An occurrence past the first character is an occurrence in the rest. */
  lemma OccursInRest(hay: string, needle: string)
    requires hay != []
    ensures forall i: nat :: OccursAt(hay[1..], needle, i) <==> OccursAt(hay, needle, i + 1)
  {
    forall i: nat ensures OccursAt(hay[1..], needle, i) <==> OccursAt(hay, needle, i + 1) {
      if i + 1 + |needle| <= |hay| {
        assert hay[1..][i..i + |needle|] == hay[i + 1..i + 1 + |needle|];
      }
    }
  }

  /** `strings.Contains`: whether `needle` occurs anywhere in `hay`. */
  function Contains(hay: string, needle: string): (found: bool)
    ensures found <==> exists i: nat :: OccursAt(hay, needle, i)
    decreases |hay|
  {
    if |needle| > |hay| then false
    else if hay[..|needle|] == needle then
      assert OccursAt(hay, needle, 0);
      true
    else
      OccursInRest(hay, needle);
      assert forall i: nat :: OccursAt(hay, needle, i) ==> i > 0;
      assert forall i: nat :: OccursAt(hay, needle, i) ==> OccursAt(hay[1..], needle, i - 1);
      Contains(hay[1..], needle)
  }

  /** The containment is the note URL containing the link: a note URL that
      extends the link matches it, and a link longer than the note URL never does. */
  lemma ContainmentDirection(link: string, extra: string)
    ensures Contains(link + extra, link)
    ensures extra != [] ==> !Contains(link, link + extra)
  {
    assert (link + extra)[0..|link|] == link;
    assert OccursAt(link + extra, link, 0);
  }

  /** A stored note URL with a trailing query matches the bare link; the
      bare note URL does not match the link with the query. */
  lemma ContainmentExample()
    ensures Contains("https://example.com/notes/abc?x=1", "https://example.com/notes/abc")
    ensures !Contains("https://example.com/notes/abc", "https://example.com/notes/abc?x=1")
  {
    ContainmentDirection("https://example.com/notes/abc", "?x=1");
    assert "https://example.com/notes/abc" + "?x=1" == "https://example.com/notes/abc?x=1";
  }

  /** The canonical URL of a note (main.go:56). */
  function NoteUrl(note: Note): string
  {
    NoteUrlPrefix + note.id
  }

  /** The notes whose URL contains `link`, in their order. */
  function Matching(link: string, notes: seq<Note>): (matches: seq<Note>)
    ensures |matches| <= |notes|
    ensures forall k :: 0 <= k < |matches| ==> matches[k] in notes && Contains(matches[k].url, link)
    ensures forall k :: 0 <= k < |notes| && Contains(notes[k].url, link) ==> notes[k] in matches
  {
    if notes == [] then []
    else
      var init := notes[..|notes| - 1];
      var last := notes[|notes| - 1];
      var earlier := Matching(link, init);
      assert forall k :: 0 <= k < |notes| - 1 ==> notes[k] == init[k];
      if Contains(last.url, link) then earlier + [last] else earlier
  }

  /** Matching distributes over concatenation: nothing is dropped or reordered. */
  lemma {:induction false} MatchingAppend(link: string, a: seq<Note>, b: seq<Note>)
    ensures Matching(link, a + b) == Matching(link, a) + Matching(link, b)
    decreases |b|
  {
    if b == [] {
      assert a + b == a;
    } else {
      var b' := b[..|b| - 1];
      assert (a + b)[..|a + b| - 1] == a + b';
      MatchingAppend(link, a, b');
    }
  }

  /** The canonical URLs of `notes`, in order. */
  function Urls(notes: seq<Note>): (urls: seq<string>)
    ensures |urls| == |notes|
    ensures forall k :: 0 <= k < |notes| ==> urls[k] == NoteUrl(notes[k])
  {
    seq(|notes|, k requires 0 <= k < |notes| => NoteUrl(notes[k]))
  }

  /** The value `id` holds after the loop: the ID of the last matching note,
      or the account ID it started with when nothing matched. */
  function FinalId(link: string, notes: seq<Note>, accountId: string): string
  {
    var matches := Matching(link, notes);
    if matches == [] then accountId else matches[|matches| - 1].id
  }

  /** Notes none of whose URLs contains the link have no match. */
  lemma NoMatches(link: string, notes: seq<Note>)
    requires forall k :: 0 <= k < |notes| ==> !Contains(notes[k].url, link)
    ensures Matching(link, notes) == []
  {
    var matches := Matching(link, notes);
    assert forall k :: 0 <= k < |matches| ==> matches[k] in notes;
  }

  /** With no note matching, `id` keeps the account ID. */
  lemma FinalIdWithoutMatch(link: string, notes: seq<Note>, accountId: string)
    requires forall k :: 0 <= k < |notes| ==> !Contains(notes[k].url, link)
    ensures FinalId(link, notes, accountId) == accountId
  {
    NoMatches(link, notes);
  }

  /** `id` ends as the ID of the last note, by position, whose URL contains
      the link, whatever matched before it. */
  lemma FinalIdIsLastMatch(link: string, notes: seq<Note>, accountId: string, j: nat)
    requires j < |notes| && Contains(notes[j].url, link)
    requires forall k :: j < k < |notes| ==> !Contains(notes[k].url, link)
    ensures FinalId(link, notes, accountId) == notes[j].id
  {
    var upTo, after := notes[..j + 1], notes[j + 1..];
    assert notes == upTo + after;
    forall k | 0 <= k < |after| ensures !Contains(after[k].url, link) {
      assert after[k] == notes[j + 1 + k];
    }
    NoMatches(link, after);
    MatchingAppend(link, upTo, after);
    assert upTo[..j] == notes[..j];
    assert Matching(link, notes) == Matching(link, notes[..j]) + [notes[j]];
  }

  /** The loop of main.go:52-59: `noteUrls` lists what main.go:57 logs for
      each match, `id` is the variable the loop overwrites. */
  method Correlate(link: string, notes: seq<Note>, accountId: string) returns (id: string, noteUrls: seq<string>)
    ensures noteUrls == Urls(Matching(link, notes))
    ensures id == FinalId(link, notes, accountId)
  {
    id := accountId;
    noteUrls := [];
    for i := 0 to |notes|
      invariant noteUrls == Urls(Matching(link, notes[..i]))
      invariant id == FinalId(link, notes[..i], accountId)
    {
      var note := notes[i];
      assert notes[..i + 1][..i] == notes[..i];
      if Contains(note.url, link) {
        id := note.id;
        var noteUrl := NoteUrlPrefix + id;
        noteUrls := noteUrls + [noteUrl];
      }
    }
    assert notes[..|notes|] == notes;
  }
}
