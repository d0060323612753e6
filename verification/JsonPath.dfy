/** The path language that addresses values inside a JSON sample (libs/core/src/json_path.cpp).
    Failure messages are reduced to their kind. */
module JsonPath {
  import opened Base
  import opened Sequences
  import opened Text

  datatype Segment = Field(name: string) | Index(index: nat) | AnyIndex

  /** lengthProjection: the path ended in `length`, asked of whatever the segments address. */
  datatype Parsed = Parsed(segments: seq<Segment>, lengthProjection: bool)

  datatype PathError = Malformed | NoSuchField

  const WORD: nat := 0x1_0000_0000_0000_0000

  // ----- parsing: a function on the text still unread -----

  function NameEnd(s: string): (k: nat)
    ensures k <= |s|
    ensures forall j | 0 <= j < k :: s[j] != '.' && s[j] != '['
    ensures k < |s| ==> s[k] == '.' || s[k] == '['
  {
    if s == "" || s[0] == '.' || s[0] == '[' then 0 else 1 + NameEnd(s[1..])
  }

  /** The content of a bracket; the digit accumulator wraps at 64 bits. */
  function BracketSegment(content: string): Result<Segment, PathError> {
    if content == "*" then Success(AnyIndex)
    else if content != "" && AllDigits(content) then Success(Index(ValueOf(content) % WORD))
    else Failure(Malformed)
  }

  function ParseToken(s: string, segments: seq<Segment>): Result<seq<Segment>, PathError>
    decreases |s|, 0
  {
    if s == "" then Success(segments)
    else if s[0] == '[' then
      var close := Find(s, ']', 0);
      if segments == [] || close == |s| then Failure(Malformed)
      else
        var segment :- BracketSegment(s[1..close]);
        ParseRest(s[close + 1..], segments + [segment])
    else
      var end := NameEnd(s);
      if end == 0 then Failure(Malformed)
      else ParseRest(s[end..], segments + [Field(s[..end])])
  }

  /** What may follow a token. */
  function ParseRest(s: string, segments: seq<Segment>): Result<seq<Segment>, PathError>
    decreases |s|, 1
  {
    if s == "" then Success(segments)
    else if s[0] == '.' then if |s| == 1 then Failure(Malformed) else ParseToken(s[1..], segments)
    else if s[0] == '[' then ParseToken(s, segments)
    else Failure(Malformed)
  }

  function Projected(segments: seq<Segment>): Parsed {
    if segments != [] && segments[|segments| - 1] == Field("length")
    then Parsed(segments[..|segments| - 1], true) else Parsed(segments, false)
  }

  function Parse(path: string): Result<Parsed, PathError> {
    var segments :- ParseToken(path, []);
    Success(Projected(segments))
  }

  // ----- parsing: the loop -----

  method ParseIndex(digits: string) returns (segment: Result<Segment, PathError>)
    requires digits != "" && digits != "*"
    ensures segment == BracketSegment(digits)
  {
    var index := 0;
    for i := 0 to |digits|
      invariant AllDigits(digits[..i]) && index == ValueOf(digits[..i]) % WORD
    {
      if !IsDigit(digits[i]) {
        assert !AllDigits(digits);
        return Failure(Malformed);
      }
      assert digits[..i + 1][..i] == digits[..i];
      var d := DigitValue(digits[i]);
      WrapStep(ValueOf(digits[..i]), d);
      index := (index * 10 + d) % WORD;
    }
    assert digits[..|digits|] == digits;
    return Success(Index(index));
  }

  lemma WrapStep(n: nat, d: nat)
    ensures (n % WORD * 10 + d) % WORD == (10 * n + d) % WORD
  {
    assert n == WORD * (n / WORD) + n % WORD;
    assert 10 * n + d == WORD * (10 * (n / WORD)) + (n % WORD * 10 + d);
  }

  /** Reads "[...]" at i; returns the position after it. */
  method ReadBracket(path: string, i: nat, segments: seq<Segment>) returns (r: Result<Segment, PathError>, next: nat)
    requires i < |path| && path[i] == '['
    ensures r.Failure? ==> ParseToken(path[i..], segments) == Failure(Malformed)
    ensures r.Success? ==>
      i < next <= |path| && ParseToken(path[i..], segments) == ParseRest(path[next..], segments + [r.value])
  {
    next := i;
    if segments == [] {
      return Failure(Malformed), i;
    }
    var close := Find(path, ']', i);
    FindInSuffix(path, ']', i);
    if close == |path| {
      return Failure(Malformed), i;
    }
    var digits := path[i + 1..close];
    assert path[i..][1..close - i] == digits;
    assert path[i..][close - i + 1..] == path[close + 1..];
    next := close + 1;
    if digits == "" {
      r := Failure(Malformed);
    } else if digits == "*" {
      r := Success(AnyIndex);
    } else {
      r := ParseIndex(digits);
    }
  }

  /** What may follow a token at i: the end, a '[', or a '.' with something after it. */
  method SkipDot(path: string, i: nat, segments: seq<Segment>) returns (next: Option<nat>)
    requires i <= |path|
    ensures next.None? ==> ParseRest(path[i..], segments) == Failure(Malformed)
    ensures next.Some? ==>
      i <= next.value <= |path| && ParseRest(path[i..], segments) == ParseToken(path[next.value..], segments)
  {
    if i < |path| && path[i] != '.' && path[i] != '[' {
      return None;
    }
    if i < |path| && path[i] == '.' {
      if i + 1 == |path| {
        return None;
      }
      assert path[i..][1..] == path[i + 1..];
      return Some(i + 1);
    }
    return Some(i);
  }

  method ParsePath(path: string) returns (parsed: Result<Parsed, PathError>)
    ensures parsed == Parse(path)
  {
    var segments: seq<Segment> := [];
    var i := 0;
    while i < |path|
      invariant i <= |path|
      invariant ParseToken(path, []) == ParseToken(path[i..], segments)
      decreases |path| - i
    {
      var end;
      if path[i] == '[' {
        var segment, next := ReadBracket(path, i, segments);
        if segment.Failure? {
          return Failure(Malformed);
        }
        segments, end := segments + [segment.value], next;
      } else {
        var length := NameEnd(path[i..]);
        if length == 0 {
          return Failure(Malformed);
        }
        end := i + length;
        assert path[i..][..length] == path[i..end] && path[i..][length..] == path[end..];
        segments := segments + [Field(path[i..end])];
      }
      var next := SkipDot(path, end, segments);
      if next.None? {
        return Failure(Malformed);
      }
      i := next.value;
    }
    return Success(Projected(segments));
  }

  // ----- the grammar -----

  /** One step as written; a bracket may be preceded by a dot. */
  datatype Token = NameToken(name: string) | BracketToken(content: string, dotted: bool)

  predicate TokenOk(t: Token) {
    match t
    case NameToken(name) => name != "" && forall i | 0 <= i < |name| :: name[i] != '.' && name[i] != '['
    case BracketToken(content, _) => content == "*" || (content != "" && AllDigits(content))
  }

  /** A path is a name followed by any tokens. */
  predicate PathOk(tokens: seq<Token>) {
    tokens != [] && tokens[0].NameToken? && forall i | 0 <= i < |tokens| :: TokenOk(tokens[i])
  }

  function Body(t: Token): string {
    match t
    case NameToken(name) => name
    case BracketToken(content, _) => "[" + content + "]"
  }

  function Separator(t: Token): string {
    if t.NameToken? || t.dotted then "." else ""
  }

  function TailText(tokens: seq<Token>): string {
    if tokens == [] then "" else Separator(tokens[0]) + Body(tokens[0]) + TailText(tokens[1..])
  }

  function PathText(tokens: seq<Token>): string
    requires tokens != []
  {
    Body(tokens[0]) + TailText(tokens[1..])
  }

  function MeaningOf(t: Token): Segment
    requires TokenOk(t)
  {
    match t
    case NameToken(name) => Field(name)
    case BracketToken(content, _) => if content == "*" then AnyIndex else Index(ValueOf(content) % WORD)
  }

  function Meaning(tokens: seq<Token>): seq<Segment>
    requires forall i | 0 <= i < |tokens| :: TokenOk(tokens[i])
  {
    if tokens == [] then [] else [MeaningOf(tokens[0])] + Meaning(tokens[1..])
  }

  lemma TailStart(tokens: seq<Token>)
    requires forall i | 0 <= i < |tokens| :: TokenOk(tokens[i])
    ensures TailText(tokens) == "" || TailText(tokens)[0] == '.' || TailText(tokens)[0] == '['
  {
    if tokens != [] {
      assert TailText(tokens)[0] == (Separator(tokens[0]) + Body(tokens[0]))[0];
    }
  }

  lemma NameEnds(name: string, rest: string)
    requires TokenOk(NameToken(name))
    requires rest == "" || rest[0] == '.' || rest[0] == '['
    ensures NameEnd(name + rest) == |name|
  {
    var s := name + rest;
    var k := NameEnd(s);
    assert k <= |name| by {
      assert rest != "" ==> s[|name|] == rest[0];
    }
    assert forall j | 0 <= j < |name| :: s[j] == name[j];
  }

  lemma BracketCloses(content: string, rest: string)
    requires content == "*" || AllDigits(content)
    ensures Find("[" + content + "]" + rest, ']', 0) == |content| + 1
  {
    var s := "[" + content + "]" + rest;
    forall j | 0 <= j < |content| + 1
      ensures s[j] != ']'
    {
      if j > 0 {
        assert s[j] == content[j - 1];
      }
    }
    FindIs(s, ']', 0, |content| + 1);
  }

  lemma NameStep(name: string, rest: string, segments: seq<Segment>)
    requires TokenOk(NameToken(name))
    requires rest == "" || rest[0] == '.' || rest[0] == '['
    ensures ParseToken(name + rest, segments) == ParseRest(rest, segments + [Field(name)])
  {
    var s := name + rest;
    NameEnds(name, rest);
    assert s[0] == name[0];
    assert s[..|name|] == name && s[|name|..] == rest;
  }

  lemma BracketStep(content: string, rest: string, segments: seq<Segment>)
    requires TokenOk(BracketToken(content, false)) && segments != []
    ensures ParseToken("[" + content + "]" + rest, segments)
      == ParseRest(rest, segments + [MeaningOf(BracketToken(content, false))])
  {
    var s := "[" + content + "]" + rest;
    BracketCloses(content, rest);
    assert s[0] == '[' && |s| == |content| + 2 + |rest|;
    assert s[1..|content| + 1] == content && s[|content| + 2..] == rest;
  }

  lemma TokenStep(t: Token, rest: string, segments: seq<Segment>)
    requires TokenOk(t) && (segments != [] || t.NameToken?)
    requires rest == "" || rest[0] == '.' || rest[0] == '['
    ensures ParseToken(Body(t) + rest, segments) == ParseRest(rest, segments + [MeaningOf(t)])
  {
    match t
    case NameToken(name) => NameStep(name, rest, segments);
    case BracketToken(content, dotted) => BracketStep(content, rest, segments);
  }

  lemma Joined(a: string, b: string, c: string)
    ensures a + b + c == a + (b + c)
    ensures "" + b == b
  {
  }

  lemma TailIs(tokens: seq<Token>)
    requires tokens != [] && TokenOk(tokens[0])
    ensures PathText(tokens) != "" && PathText(tokens)[0] == Body(tokens[0])[0]
    ensures TailText(tokens) == Separator(tokens[0]) + PathText(tokens)
  {
    Joined(Separator(tokens[0]), Body(tokens[0]), TailText(tokens[1..]));
  }

  lemma RestStep(s: string, dot: bool, segments: seq<Segment>)
    requires s != "" && (!dot ==> s[0] == '[')
    ensures ParseRest((if dot then "." else "") + s, segments) == ParseToken(s, segments)
  {
    assert ("." + s)[1..] == s;
    assert "" + s == s;
  }

  lemma TailParse(tokens: seq<Token>, segments: seq<Segment>)
    requires tokens != [] && TokenOk(tokens[0])
    ensures ParseRest(TailText(tokens), segments) == ParseToken(PathText(tokens), segments)
  {
    TailIs(tokens);
    RestStep(PathText(tokens), Separator(tokens[0]) == ".", segments);
  }

  lemma MeaningStep(tokens: seq<Token>, segments: seq<Segment>)
    requires tokens != [] && forall i | 0 <= i < |tokens| :: TokenOk(tokens[i])
    ensures segments + Meaning(tokens) == segments + [MeaningOf(tokens[0])] + Meaning(tokens[1..])
  {
    Regroup(segments, [MeaningOf(tokens[0])], Meaning(tokens[1..]));
  }

  /** Every text the grammar gives is read back as what it means. */
  lemma {:induction false} TokensParse(tokens: seq<Token>, segments: seq<Segment>)
    requires tokens != [] && forall i | 0 <= i < |tokens| :: TokenOk(tokens[i])
    requires segments != [] || tokens[0].NameToken?
    ensures ParseToken(PathText(tokens), segments) == Success(segments + Meaning(tokens))
    decreases |tokens|
  {
    var rest := tokens[1..];
    var segments' := segments + [MeaningOf(tokens[0])];
    TailStart(rest);
    TokenStep(tokens[0], TailText(rest), segments);
    MeaningStep(tokens, segments);
    assert ParseToken(PathText(tokens), segments) == ParseRest(TailText(rest), segments');
    if rest == [] {
      assert segments' + Meaning(rest) == segments';
    } else {
      TailParse(rest, segments');
      TokensParse(rest, segments');
    }
  }

  /** One token is taken off the front. */
  lemma FirstToken(s: string, segments: seq<Segment>) returns (t: Token, rest: string, segment: Segment)
    requires s != "" && ParseToken(s, segments).Success?
    ensures TokenOk(t) && Body(t) + rest == s && |rest| < |s|
    ensures ParseToken(s, segments) == ParseRest(rest, segments + [segment])
    ensures if s[0] == '[' then t.BracketToken? && segments != [] else t.NameToken?
  {
    if s[0] == '[' {
      var close := Find(s, ']', 0);
      t, rest, segment := BracketToken(s[1..close], false), s[close + 1..], BracketSegment(s[1..close]).value;
    } else {
      var end := NameEnd(s);
      t, rest, segment := NameToken(s[..end]), s[end..], Field(s[..end]);
    }
  }

  lemma Prepend(t: Token, more: seq<Token>, rest: string) returns (tokens: seq<Token>)
    requires TokenOk(t) && more != [] && forall i | 0 <= i < |more| :: TokenOk(more[i])
    requires rest == "." + PathText(more) || (rest == PathText(more) && more[0].BracketToken?)
    ensures tokens != [] && tokens[0] == t && (forall i | 0 <= i < |tokens| :: TokenOk(tokens[i]))
    ensures PathText(tokens) == Body(t) + rest
  {
    var dot := rest == "." + PathText(more);
    var next := if more[0].BracketToken? then more[0].(dotted := dot) else more[0];
    var others := [next] + more[1..];
    tokens := [t] + others;
    assert others[1..] == more[1..] && tokens[1..] == others;
    assert PathText(others) == PathText(more);
    TailIs(others);
    Joined("", PathText(more), "");
    assert TailText(others) == rest;
  }

  lemma OneToken(t: Token)
    ensures PathText([t]) == Body(t)
  {
    assert [t][1..] == [];
    assert Body(t) + "" == Body(t);
  }

  lemma RestParses(rest: string, segments: seq<Segment>)
    requires rest != "" && ParseRest(rest, segments).Success?
    ensures
      if rest[0] == '.' then
        rest[1..] != "" && ParseToken(rest[1..], segments).Success? && rest == "." + rest[1..]
      else rest[0] == '[' && ParseToken(rest, segments).Success?
  {
  }

  /** Every text that is read comes from the grammar. */
  lemma {:induction false} ParseGivesTokens(s: string, segments: seq<Segment>) returns (tokens: seq<Token>)
    requires s != "" && ParseToken(s, segments).Success?
    ensures tokens != [] && (forall i | 0 <= i < |tokens| :: TokenOk(tokens[i])) && PathText(tokens) == s
    ensures if s[0] == '[' then tokens[0].BracketToken? && segments != [] else tokens[0].NameToken?
    decreases |s|
  {
    var t, rest, segment := FirstToken(s, segments);
    if rest == "" {
      tokens := [t];
      OneToken(t);
    } else if rest[0] == '.' {
      RestParses(rest, segments + [segment]);
      var more := ParseGivesTokens(rest[1..], segments + [segment]);
      tokens := Prepend(t, more, rest);
    } else {
      RestParses(rest, segments + [segment]);
      var more := ParseGivesTokens(rest, segments + [segment]);
      tokens := Prepend(t, more, rest);
    }
  }

  /** A non-empty path is well-formed exactly when the grammar gives it, and then means what the
      grammar says. */
  lemma ParseIsTheGrammar(path: string)
    requires path != ""
    ensures Parse(path).Success? <==> exists tokens | PathOk(tokens) :: PathText(tokens) == path
    ensures forall tokens | PathOk(tokens) && PathText(tokens) == path ::
      Parse(path) == Success(Projected(Meaning(tokens)))
  {
    if Parse(path).Success? {
      var tokens := ParseGivesTokens(path, []);
      assert PathOk(tokens) && PathText(tokens) == path;
    }
    forall tokens | PathOk(tokens) && PathText(tokens) == path
      ensures Parse(path) == Success(Projected(Meaning(tokens)))
    {
      TokensParse(tokens, []);
      assert [] + Meaning(tokens) == Meaning(tokens);
    }
  }

  // ----- canonical rendering -----

  function TokenFor(segment: Segment): Token {
    match segment
    case Field(name) => NameToken(name)
    case Index(index) => BracketToken(Decimal(index), false)
    case AnyIndex => BracketToken("*", false)
  }

  function Written(parsed: Parsed): seq<Segment> {
    if parsed.lengthProjection then parsed.segments + [Field("length")] else parsed.segments
  }

  function Render(parsed: Parsed): string {
    var segments := Written(parsed);
    if segments == [] then ""
    else PathText(seq(|segments|, i requires 0 <= i < |segments| => TokenFor(segments[i])))
  }

  predicate SegmentOk(segment: Segment) {
    match segment
    case Field(name) => name != "" && forall i | 0 <= i < |name| :: name[i] != '.' && name[i] != '['
    case Index(index) => index < WORD
    case AnyIndex => true
  }

  /** A leading field, names free of '.' and '[', indices a machine word holds, and a final field
      `length` read as the projection. */
  predicate Canonical(parsed: Parsed) {
    var segments := Written(parsed);
    && (segments != [] ==> segments[0].Field?)
    && (forall i | 0 <= i < |segments| :: SegmentOk(segments[i]))
    && (!parsed.lengthProjection && segments != [] ==> segments[|segments| - 1] != Field("length"))
  }

  lemma {:induction false} RenderedMeaning(segments: seq<Segment>)
    requires forall i | 0 <= i < |segments| :: SegmentOk(segments[i])
    ensures var tokens := seq(|segments|, i requires 0 <= i < |segments| => TokenFor(segments[i]));
      (forall i | 0 <= i < |tokens| :: TokenOk(tokens[i])) && Meaning(tokens) == segments
  {
    var tokens := seq(|segments|, i requires 0 <= i < |segments| => TokenFor(segments[i]));
    forall i | 0 <= i < |tokens|
      ensures TokenOk(tokens[i]) && MeaningOf(tokens[i]) == segments[i]
    {
      if segments[i].Index? {
        assert AllDigits(Decimal(segments[i].index)) && !IsDigit("*"[0]);
      }
    }
    if segments != [] {
      RenderedMeaning(segments[1..]);
      assert tokens[1..] == seq(|segments[1..]|, i requires 0 <= i < |segments[1..]| => TokenFor(segments[1..][i]));
    }
  }

  lemma {:induction false} MeaningSound(tokens: seq<Token>)
    requires forall i | 0 <= i < |tokens| :: TokenOk(tokens[i])
    ensures |Meaning(tokens)| == |tokens|
    ensures forall i | 0 <= i < |tokens| :: SegmentOk(Meaning(tokens)[i]) && Meaning(tokens)[i] == MeaningOf(tokens[i])
  {
    if tokens != [] {
      MeaningSound(tokens[1..]);
    }
  }

  lemma ProjectedWrites(segments: seq<Segment>)
    ensures Written(Projected(segments)) == segments
    ensures !Projected(segments).lengthProjection && segments != [] ==> segments[|segments| - 1] != Field("length")
  {
  }

  lemma ProjectedIsCanonical(segments: seq<Segment>)
    requires segments != [] && segments[0].Field? && forall i | 0 <= i < |segments| :: SegmentOk(segments[i])
    ensures Canonical(Projected(segments))
  {
    ProjectedWrites(segments);
  }

  lemma MeaningIsCanonical(tokens: seq<Token>)
    requires PathOk(tokens)
    ensures Canonical(Projected(Meaning(tokens)))
  {
    MeaningSound(tokens);
    ProjectedIsCanonical(Meaning(tokens));
  }

  /** What a path parses to is always canonical. */
  lemma ParsedIsCanonical(path: string)
    requires Parse(path).Success?
    ensures Canonical(Parse(path).value)
  {
    if path != "" {
      ParseIsTheGrammar(path);
      var tokens :| PathOk(tokens) && PathText(tokens) == path;
      MeaningIsCanonical(tokens);
    }
  }

  lemma CanonicalRenders(parsed: Parsed)
    requires Canonical(parsed) && Written(parsed) != []
    ensures Parse(Render(parsed)) == Success(Projected(Written(parsed)))
  {
    var segments := Written(parsed);
    var tokens := seq(|segments|, i requires 0 <= i < |segments| => TokenFor(segments[i]));
    RenderedMeaning(segments);
    TokensParse(tokens, []);
    assert [] + Meaning(tokens) == segments;
  }

  lemma WrittenProjects(parsed: Parsed)
    requires Canonical(parsed)
    ensures Projected(Written(parsed)) == parsed
  {
  }

  /** Rendering a path and parsing it returns it exactly when it is canonical. */
  lemma RenderRoundTrip(parsed: Parsed)
    ensures Parse(Render(parsed)) == Success(parsed) <==> Canonical(parsed)
  {
    if Parse(Render(parsed)) == Success(parsed) {
      ParsedIsCanonical(Render(parsed));
    }
    if Canonical(parsed) {
      WrittenProjects(parsed);
      if Written(parsed) != [] {
        CanonicalRenders(parsed);
      }
    }
  }
}
