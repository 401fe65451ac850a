/** The account name taken from a link's path (main.go:40-41): the path is
    split on `/`, the field at index 1 is taken, and one leading `@` is cut. */
module Handles {
  import opened Api

  /** `strings.Split` with a one-character separator: the fields between
      separators, one more than there are separators. */
  function Split(s: string, sep: char): (fields: seq<string>)
    ensures |fields| >= 1
    ensures forall k :: 0 <= k < |fields| ==> sep !in fields[k]
  {
    if s == [] then [""]
    else
      var rest := Split(s[1..], sep);
      if s[0] == sep then [""] + rest
      else
        assert sep !in [s[0]] + rest[0];
        [[s[0]] + rest[0]] + rest[1..]
  }

  /** There is one more field than there are separators. */
  lemma {:induction false} SplitCount(s: string, sep: char)
    ensures |Split(s, sep)| == multiset(s)[sep] + 1
  {
    if s != [] {
      SplitCount(s[1..], sep);
      assert s == [s[0]] + s[1..];
    }
  }

  /** The fields joined back with the separator between them. */
  function Join(fields: seq<string>, sep: char): string
    requires |fields| >= 1
  {
    if |fields| == 1 then fields[0] else fields[0] + [sep] + Join(fields[1..], sep)
  }

  /** Joining the fields of a split gives back the string. */
  lemma {:induction false} JoinSplit(s: string, sep: char)
    ensures Join(Split(s, sep), sep) == s
  {
    if s != [] {
      var rest := Split(s[1..], sep);
      JoinSplit(s[1..], sep);
      if s[0] == sep {
        assert Split(s, sep)[1..] == rest;
      } else {
        var fields := Split(s, sep);
        if |rest| == 1 {
          assert fields == [[s[0]] + rest[0]];
        } else {
          assert fields[1..] == rest[1..];
          assert Join(rest, sep) == rest[0] + [sep] + Join(rest[1..], sep);
        }
      }
    }
  }

  /** Splitting fields that hold no separator, joined, gives back the fields. */
  lemma {:induction false} SplitJoin(fields: seq<string>, sep: char)
    requires |fields| >= 1
    requires forall k :: 0 <= k < |fields| ==> sep !in fields[k]
    ensures Split(Join(fields, sep), sep) == fields
    decreases |fields|
  {
    NoSeparator(fields[0], sep);
    if |fields| == 1 {
      assert fields == [fields[0]];
    } else {
      SplitJoin(fields[1..], sep);
      assert Split([sep] + Join(fields[1..], sep), sep) == [""] + fields[1..] by {
        assert ([sep] + Join(fields[1..], sep))[1..] == Join(fields[1..], sep);
      }
      SplitAfterPlain(fields[0], [sep] + Join(fields[1..], sep), sep);
      assert fields[0] + [sep] + Join(fields[1..], sep) == fields[0] + ([sep] + Join(fields[1..], sep));
      assert fields[0] + "" == fields[0];
      assert fields == [fields[0]] + fields[1..];
    }
  }

  /** A string without the separator is a single field. */
  lemma {:induction false} NoSeparator(s: string, sep: char)
    requires sep !in s
    ensures Split(s, sep) == [s]
  {
    if s != [] {
      assert s == [s[0]] + s[1..] && s[0] != sep;
      NoSeparator(s[1..], sep);
      assert Split(s[1..], sep)[1..] == [];
    }
  }

  /** A prefix without the separator joins the first field of what follows. */
  lemma {:induction false} SplitAfterPlain(a: string, t: string, sep: char)
    requires sep !in a
    ensures Split(a + t, sep) == [a + Split(t, sep)[0]] + Split(t, sep)[1..]
  {
    if a != [] {
      var at := a + t;
      assert at[0] == a[0] != sep;
      assert at[1..] == a[1..] + t;
      SplitAfterPlain(a[1..], t, sep);
      var rest := Split(at[1..], sep);
      assert Split(at, sep) == [[a[0]] + rest[0]] + rest[1..];
      assert [a[0]] + (a[1..] + Split(t, sep)[0]) == a + Split(t, sep)[0];
    } else {
      assert a + t == t;
      assert a + Split(t, sep)[0] == Split(t, sep)[0];
      assert Split(t, sep) == [Split(t, sep)[0]] + Split(t, sep)[1..];
    }
  }

  /** `strings.CutPrefix`: `s` without `prefix` when it starts with it, and whether it did. */
  function CutPrefix(s: string, prefix: string): (cut: (string, bool))
    ensures cut.1 <==> prefix <= s
    ensures if cut.1 then prefix + cut.0 == s else cut.0 == s
  {
    if prefix <= s then (s[|prefix|..], true) else (s, false)
  }

  /** The account name main.go:40-41 reads from a link's path; None where
      indexing the split at 1 panics (a path without `/`). */
  function Username(path: string): Option<string>
  {
    var fields := Split(path, '/');
    if |fields| < 2 then None else Some(CutPrefix(fields[1], "@").0)
  }

  /** Username fails exactly on a path without `/`. */
  lemma UsernameDefined(path: string)
    ensures Username(path).Some? <==> '/' in path
  {
    if '/' !in path {
      NoSeparator(path, '/');
    } else {
      SplitCount(path, '/');
      assert multiset(path)['/'] > 0;
    }
  }

  /** For a path `before/segment...` the name is the segment between the
      first and the second `/` (or the end), with at most one leading `@`
      removed: `/@alice/123` names `alice`, `/@@bob` names `@bob`. */
  lemma UsernameOfPath(before: string, segment: string, rest: string)
    requires '/' !in before && '/' !in segment
    requires rest == [] || rest[0] == '/'
    ensures Username(before + "/" + segment + rest)
         == Some(if |segment| > 0 && segment[0] == '@' then segment[1..] else segment)
  {
    var path := before + "/" + segment + rest;
    assert path == before + ("/" + (segment + rest));
    SplitAfterPlain(before, "/" + (segment + rest), '/');
    assert ("/" + (segment + rest))[1..] == segment + rest;
    SplitAfterPlain(segment, rest, '/');
    if rest == [] {
      assert segment + rest == segment;
      NoSeparator(segment, '/');
    } else {
      assert rest == [rest[0]] + rest[1..];
    }
    assert Split(path, '/')[1] == segment;
  }

  /** The name never holds a `/`. */
  lemma UsernameHasNoSlash(path: string)
    requires Username(path).Some?
    ensures '/' !in Username(path).value
  {
    var field := Split(path, '/')[1];
    assert '/' !in field;
    if "@" <= field {
      assert field == "@" + field[1..];
    }
  }

  /** A link path of the usual form, a doubled `@`, and an empty path. */
  lemma UsernameExamples()
    ensures Username("/@alice/109876") == Some("alice")
    ensures Username("/@@bob") == Some("@bob")
    ensures Username("") == None
  {
    assert "" + "/" + "@alice" + "/109876" == "/@alice/109876";
    UsernameOfPath("", "@alice", "/109876");
    assert "" + "/" + "@@bob" + "" == "/@@bob";
    UsernameOfPath("", "@@bob", "");
  }
}
