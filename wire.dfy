/** The JSON bodies of note-listing requests (main.go:89, main.go:93,
    main.go:99). `Body` renders a request as a well-formed flat JSON object;
    `BodyAsWritten` is the text the three source lines build, which for a
    request with a cursor carries a stray quote after the limit. */
module Wire {
  import opened Api

  /** The decimal digit for 0 .. 9. */
  function DigitChar(d: nat): (c: char)
    requires d < 10
    ensures '0' <= c <= '9' && (c as int) - ('0' as int) == d
  {
    (('0' as int) + d) as char
  }

  /** The decimal text of a natural number, without leading zeros. */
  function NatToDecimal(n: nat): (s: string)
    ensures |s| >= 1 && IsDigits(s)
    ensures |s| == 1 <==> n < 10
    ensures s[0] == '0' <==> n == 0
    ensures |s| > 1 ==> s[0] != '0'
    decreases n
  {
    if n < 10 then [DigitChar(n)] else NatToDecimal(n / 10) + [DigitChar(n % 10)]
  }

  predicate IsDigits(s: string)
  {
    forall k :: 0 <= k < |s| ==> '0' <= s[k] <= '9'
  }

  /** The value of a string of decimal digits. */
  function DigitsValue(s: string): nat
    requires IsDigits(s)
  {
    if s == [] then 0 else DigitsValue(s[..|s| - 1]) * 10 + ((s[|s| - 1] as int) - ('0' as int))
  }

  /** Reading back the decimal text of `n` gives `n`. */
  lemma {:induction false} DecimalRoundTrip(n: nat)
    ensures DigitsValue(NatToDecimal(n)) == n
  {
    if n >= 10 {
      var s := NatToDecimal(n);
      assert s[..|s| - 1] == NatToDecimal(n / 10);
      DecimalRoundTrip(n / 10);
    }
  }

  /** The text `fmt.Sprint` gives an integer: its digits, after a minus sign when negative. */
  function Decimal(n: int): string
  {
    if n < 0 then "-" + NatToDecimal(-n) else NatToDecimal(n)
  }

  /** The number of double-quote characters in `s`. */
  function Quotes(s: string): nat
  {
    multiset(s)['"']
  }

  /** A string without double quotes. */
  predicate QuoteFree(s: string)
  {
    '"' !in s
  }

  lemma DecimalHasNoQuotes(n: int)
    ensures Quotes(Decimal(n)) == 0
  {
    var digits := NatToDecimal(if n < 0 then -n else n);
    assert QuoteFree(digits) by {
      forall k | 0 <= k < |digits| ensures digits[k] != '"' {
        assert '0' <= digits[k] <= '9';
      }
    }
    assert "-" + digits == ['-'] + digits;
  }

  /** The values of a flat JSON object: strings and integers. */
  datatype Value = Str(text: string) | Num(number: int)

  function RenderValue(v: Value): string
  {
    match v
    case Str(text) => "\"" + text + "\""
    case Num(number) => Decimal(number)
  }

  /** `"key": value` for one member of an object. */
  function RenderMember(key: string, v: Value): string
  {
    "\"" + key + "\": " + RenderValue(v)
  }

  /** The members of an object, separated by `, `. */
  function RenderMembers(members: seq<(string, Value)>): string
  {
    if members == [] then ""
    else if |members| == 1 then RenderMember(members[0].0, members[0].1)
    else RenderMember(members[0].0, members[0].1) + ", " + RenderMembers(members[1..])
  }

  /** The text of a flat JSON object. */
  function RenderObject(members: seq<(string, Value)>): string
  {
    "{" + RenderMembers(members) + "}"
  }

  /** Every key and every string value of `members` is free of double quotes. */
  predicate PlainMembers(members: seq<(string, Value)>)
  {
    forall k :: 0 <= k < |members| ==>
      QuoteFree(members[k].0) && (members[k].1.Str? ==> QuoteFree(members[k].1.text))
  }

  lemma MemberQuotes(key: string, v: Value)
    requires QuoteFree(key) && (v.Str? ==> QuoteFree(v.text))
    ensures Quotes(RenderMember(key, v)) == if v.Str? then 4 else 2
  {
    assert Quotes("\"") == 1 && Quotes("\": ") == 1;
    assert Quotes(key) == 0;
    match v
    case Str(text) =>
      assert Quotes(text) == 0;
    case Num(number) =>
      DecimalHasNoQuotes(number);
  }

  /** A rendered object whose keys and string values hold no quote has an even
      number of quotes: each key and each string value is one pair. */
  lemma RenderedObjectQuotesEven(members: seq<(string, Value)>)
    requires PlainMembers(members)
    ensures Quotes(RenderObject(members)) % 2 == 0
  {
    MembersQuotesEven(members);
    BracesQuotes();
    QuotesOfThree("{", RenderMembers(members), "}");
  }

  lemma QuotesOfThree(a: string, b: string, c: string)
    ensures Quotes(a + b + c) == Quotes(a) + Quotes(b) + Quotes(c)
  {
    assert multiset(a + b + c) == multiset(a) + multiset(b) + multiset(c);
  }

  /** The braces hold no quote; kept apart so the literal is unfolded on its own. */
  lemma BracesQuotes() ensures Quotes("{") == 0 && Quotes("}") == 0 {}

  lemma {:induction false} MembersQuotesEven(members: seq<(string, Value)>)
    requires PlainMembers(members)
    ensures Quotes(RenderMembers(members)) % 2 == 0
    decreases |members|
  {
    if members != [] {
      var first := RenderMember(members[0].0, members[0].1);
      MemberQuotes(members[0].0, members[0].1);
      assert Quotes(first) % 2 == 0;
      if |members| == 1 {
        assert RenderMembers(members) == first;
      } else {
        PlainMembersTail(members);
        MembersQuotesEven(members[1..]);
        JoinQuotesEven(first, RenderMembers(members[1..]));
      }
    }
  }

  lemma PlainMembersTail(members: seq<(string, Value)>)
    requires members != [] && PlainMembers(members)
    ensures PlainMembers(members[1..])
  {
    forall k | 0 <= k < |members| - 1
      ensures QuoteFree(members[1..][k].0) && (members[1..][k].1.Str? ==> QuoteFree(members[1..][k].1.text))
    {
      assert members[1..][k] == members[k + 1];
    }
  }

  lemma JoinQuotesEven(first: string, tail: string)
    requires Quotes(first) % 2 == 0 && Quotes(tail) % 2 == 0
    ensures Quotes(first + ", " + tail) % 2 == 0
  {
    assert multiset(first + ", " + tail) == multiset(first) + multiset(", ") + multiset(tail);
  }

  /** The members of a request body: the account, the limit, and the cursor when there is one. */
  function Members(r: Request): seq<(string, Value)>
  {
    [("userId", Str(r.userId)), ("limit", Num(r.limit))]
      + (if r.sinceId.Some? then [("sinceId", Str(r.sinceId.value))] else [])
  }

  /** The body of a note-listing request, as a well-formed JSON object. */
  function Body(r: Request): string
  {
    RenderObject(Members(r))
  }

  /** The body of a request whose identifiers hold no quote has an even number of quotes. */
  lemma BodyQuotesEven(r: Request)
    requires QuoteFree(r.userId) && (r.sinceId.Some? ==> QuoteFree(r.sinceId.value))
    ensures Quotes(Body(r)) % 2 == 0
  {
    assert PlainMembers(Members(r));
    RenderedObjectQuotesEven(Members(r));
  }

  /** The body as main.go:89, main.go:93 and main.go:99 build it. */
  function BodyAsWritten(r: Request): string
  {
    if r.sinceId.None? then
      "{\"userId\": \"" + r.userId + "\", \"limit\": " + Decimal(r.limit) + "}"
    else
      "{\"userId\": \"" + r.userId + "\", \"limit\": " + Decimal(r.limit)
        + "\", \"sinceId\": \"" + r.sinceId.value + "\"}"
  }

  /** Without a cursor (main.go:89, main.go:93) the text built is the JSON rendering. */
  lemma FirstPageBodyWellFormed(r: Request)
    requires r.sinceId.None?
    ensures BodyAsWritten(r) == Body(r)
  {
    var u, d := r.userId, Decimal(r.limit);
    var members := Members(r);
    assert members == [("userId", Str(u)), ("limit", Num(r.limit))];
    assert members[1..] == [("limit", Num(r.limit))];
    assert RenderMembers(members) == RenderMember("userId", Str(u)) + ", " + RenderMember("limit", Num(r.limit));
    FirstPageRegroup(u, d);
  }

  /** The rendering of the two members, regrouped into the pieces main.go:89 uses. */
  lemma FirstPageRegroup(u: string, d: string)
    ensures "{" + (("\"" + "userId" + "\": " + ("\"" + u + "\"")) + ", " + ("\"" + "limit" + "\": " + d)) + "}"
         == "{\"userId\": \"" + u + "\", \"limit\": " + d + "}"
  {
    UserIdPieceMerge();
    LimitPieceMerge();
  }

  /** The literal pieces of the rendering merge into the pieces of main.go:89;
      each merge is a lemma of its own so that the solver unfolds one literal at a time. */
  lemma UserIdPieceMerge() ensures "{" + "\"" + "userId" + "\": " + "\"" == "{\"userId\": \"" {}
  lemma LimitPieceMerge() ensures "\"" + ", " + "\"" + "limit" + "\": " == "\", \"limit\": " {}

  /** The quotes in the fixed pieces of the text main.go:99 builds. */
  lemma CursorPiecesQuotes()
    ensures Quotes("{\"userId\": \"") == 3 && Quotes("\", \"limit\": ") == 3
    ensures Quotes("\", \"sinceId\": \"") == 4 && Quotes("\"}") == 1
  {
    UserIdPieceQuotes();
    LimitPieceQuotes();
    SinceIdPieceQuotes();
  }

  /** The quote count of each literal piece of main.go:99, one literal per lemma
      for the same reason. */
  lemma UserIdPieceQuotes() ensures Quotes("{\"userId\": \"") == 3 {}
  lemma LimitPieceQuotes() ensures Quotes("\", \"limit\": ") == 3 {}
  lemma SinceIdPieceQuotes() ensures Quotes("\", \"sinceId\": \"") == 4 {}

  lemma QuotesOfSeven(p1: string, u: string, p2: string, d: string, p3: string, c: string, p4: string)
    ensures Quotes(p1 + u + p2 + d + p3 + c + p4)
         == Quotes(p1) + Quotes(u) + Quotes(p2) + Quotes(d) + Quotes(p3) + Quotes(c) + Quotes(p4)
  {
    assert multiset(p1 + u + p2 + d + p3 + c + p4)
        == multiset(p1) + multiset(u) + multiset(p2) + multiset(d) + multiset(p3) + multiset(c) + multiset(p4);
  }

  /** With a cursor (main.go:99) the text built has an odd number of quotes:
      three in each of the pieces before and after the account, four in the
      piece after the limit, where the rendering has two. By
      OddQuotesNoObject it is therefore not the rendering of any flat JSON
      object whose keys and strings hold no quote. */
  lemma CursorBodyQuotesOdd(r: Request)
    requires r.sinceId.Some? && QuoteFree(r.userId) && QuoteFree(r.sinceId.value)
    ensures Quotes(BodyAsWritten(r)) == 11
  {
    DecimalHasNoQuotes(r.limit);
    assert Quotes(r.userId) == 0 && Quotes(r.sinceId.value) == 0;
    CursorPiecesQuotes();
    QuotesOfSeven("{\"userId\": \"", r.userId, "\", \"limit\": ", Decimal(r.limit),
                  "\", \"sinceId\": \"", r.sinceId.value, "\"}");
  }

  /** A text with an odd number of quotes is not the rendering of any flat
      JSON object whose keys and strings hold no quote. */
  lemma OddQuotesNoObject(text: string)
    requires Quotes(text) % 2 == 1
    ensures forall members :: PlainMembers(members) ==> text != RenderObject(members)
  {
    forall members | PlainMembers(members) ensures text != RenderObject(members) {
      RenderedObjectQuotesEven(members);
    }
  }

  /** A request as the second page of a fetch sends it, and the text main.go:99 builds for it. */
  lemma CursorBodyExample()
    ensures BodyAsWritten(Request("9abc", 50, Some("9xyz")))
         == "{\"userId\": \"9abc\", \"limit\": 50\", \"sinceId\": \"9xyz\"}"
  {
    DecimalFifty();
    ExampleHead();
    ExampleTail();
  }

  /** The concrete text of the example, assembled in two literal steps. */
  lemma ExampleHead()
    ensures "{\"userId\": \"" + "9abc" + "\", \"limit\": " + "50" == "{\"userId\": \"9abc\", \"limit\": 50"
  {}

  lemma ExampleTail()
    ensures "{\"userId\": \"9abc\", \"limit\": 50" + "\", \"sinceId\": \"" + "9xyz" + "\"}"
         == "{\"userId\": \"9abc\", \"limit\": 50\", \"sinceId\": \"9xyz\"}"
  {}

  /** `fmt.Sprint(50)`. */
  lemma DecimalFifty()
    ensures Decimal(50) == "50"
  {
    assert NatToDecimal(5) == "5";
  }
}
