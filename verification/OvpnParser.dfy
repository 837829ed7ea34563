/**
  Reading the endpoints of an `.ovpn` file: `proto` sets the transport of the remotes that
  follow it, `remote` adds an endpoint, every other line is skipped. A port of more digits
  than the interpreter converts ends the reading there.
 */
module OvpnParser {
  import opened Prelude
  import opened ServerFilter
  import opened CandidateQueue

  const DEFAULT_PORT: nat := 1194

  /** The interpreter refuses to convert longer digit strings. */
  const MAX_PORT_DIGITS: nat := 4300

  datatype Endpoint = Endpoint(host: string, port: nat, proto: Proto)

  // ----- Lines and words -----

  const NEWLINES: set<char> := {'\n', '\r'}

  /** What `split` and `strip` take for space, in ASCII. */
  const SPACES: set<char> := {' ', '\t', '\n', '\r', 11 as char, 12 as char, 28 as char, 29 as char, 30 as char, 31 as char}

  predicate IsDigit(c: char) {
    '0' <= c <= '9'
  }

  /** The number of characters before the first one of `stops`. */
  function Until(s: string, stops: set<char>): (n: nat)
    ensures n <= |s|
    ensures forall i | 0 <= i < n :: s[i] !in stops
    ensures n < |s| ==> s[n] in stops
  {
    if s == "" || s[0] in stops then 0 else 1 + Until(s[1..], stops)
  }

  predicate OneLine(s: string) {
    forall i | 0 <= i < |s| :: s[i] !in NEWLINES
  }

  function Lines(text: string): seq<string>
    decreases |text|
  {
    if text == "" then []
    else
      var n := Until(text, NEWLINES);
      [text[..n]] + if n == |text| then [] else Lines(text[n + 1..])
  }

  function Words(line: string): seq<string>
    decreases |line|
  {
    if line == "" then []
    else if line[0] in SPACES then Words(line[1..])
    else
      var n := Until(line, SPACES);
      [line[..n]] + Words(line[n..])
  }

  function TrimLeft(s: string): string {
    if s != "" && s[0] in SPACES then TrimLeft(s[1..]) else s
  }

  function TrimRight(s: string): string {
    if s != "" && Last(s) in SPACES then TrimRight(s[..|s| - 1]) else s
  }

  function Strip(s: string): string {
    TrimRight(TrimLeft(s))
  }

  // ----- Tokens -----

  function NormalizeProto(token: string): Option<Proto> {
    var lowered := Lower(Strip(token));
    if "tcp" <= lowered then Some(Tcp) else if "udp" <= lowered then Some(Udp) else None
  }

  predicate AllDigits(s: string) {
    s != "" && forall i | 0 <= i < |s| :: IsDigit(s[i])
  }

  function Value(digits: string): nat
    requires forall i | 0 <= i < |digits| :: IsDigit(digits[i])
  {
    if digits == "" then 0
    else
      assert IsDigit(Last(digits));
      10 * Value(digits[..|digits| - 1]) + (Last(digits) as int - '0' as int)
  }

  function Decimal(n: nat): (s: string)
    ensures s != ""
  {
    var last := ('0' as int + n % 10) as char;
    if n < 10 then [last] else Decimal(n / 10) + [last]
  }

  // ----- One line, then all lines -----

  /** `failed`: a conversion raised, and nothing more is read. */
  datatype Progress = Progress(endpoints: seq<Endpoint>, proto: Proto, failed: bool)

  datatype Directive = Nothing | SetProto(transport: Proto) | Remote(host: string, port: nat, proto: Option<Proto>) | Raises

  /** What a `remote` line with these words declares; no third word, a port, or a transport. */
  function RemoteOf(parts: seq<string>): Directive
    requires |parts| >= 2
  {
    if |parts| >= 3 && AllDigits(parts[2]) then
      if |parts[2]| > MAX_PORT_DIGITS then Raises
      else Remote(parts[1], Value(parts[2]), if |parts| >= 4 then NormalizeProto(parts[3]) else None)
    else Remote(parts[1], DEFAULT_PORT, if |parts| >= 3 then NormalizeProto(parts[2]) else None)
  }

  predicate IsComment(line: string) {
    line != "" && (line[0] == '#' || line[0] == ';')
  }

  function Meaning(raw: string): Directive {
    var line := Strip(raw);
    var parts := Words(line);
    if IsComment(line) || parts == [] then Nothing
    else
      var key := Lower(parts[0]);
      if key == "proto" && |parts| >= 2 then
        var p := NormalizeProto(parts[1]);
        if p.Some? then SetProto(p.value) else Nothing
      else if key == "remote" && |parts| >= 2 then RemoteOf(parts)
      else Nothing
  }

  function Apply(p: Progress, d: Directive): Progress {
    if p.failed then p
    else match d
      case Nothing => p
      case SetProto(transport) => p.(proto := transport)
      case Remote(host, port, proto) => p.(endpoints := p.endpoints + [Endpoint(host, port, proto.GetOr(p.proto))])
      case Raises => p.(failed := true)
  }

  function Read(p: Progress, lines: seq<string>): Progress
    decreases |lines|
  {
    if lines == [] then p else Read(Apply(p, Meaning(lines[0])), lines[1..])
  }

  const FRESH: Progress := Progress([], Udp, false)

  function Endpoints(text: string): seq<Endpoint> {
    Read(FRESH, Lines(text)).endpoints
  }

  function Protocols(text: string): set<Proto> {
    set e | e in Endpoints(text) :: e.proto
  }

  /** The loop of the parser. */
  method ParseEndpoints(text: string) returns (endpoints: seq<Endpoint>)
    ensures endpoints == Endpoints(text)
  {
    endpoints := [];
    var fileProto := Udp;
    var lines := Lines(text);
    for k := 0 to |lines|
      invariant Read(FRESH, lines) == Read(Progress(endpoints, fileProto, false), lines[k..])
    {
      var line := Strip(lines[k]);
      assert lines[k..][0] == lines[k] && lines[k..][1..] == lines[k + 1..];
      if line == "" || line[0] == '#' || line[0] == ';' {
        assert Words("") == [];
        continue;
      }
      var parts := Words(line);
      if parts == [] {
        continue;
      }
      var key := Lower(parts[0]);
      if key == "proto" && |parts| >= 2 {
        var parsed := NormalizeProto(parts[1]);
        if parsed.Some? {
          fileProto := parsed.value;
        }
        continue;
      }
      if key != "remote" || |parts| < 2 {
        continue;
      }
      var port := DEFAULT_PORT;
      var proto := fileProto;
      if |parts| >= 3 && AllDigits(parts[2]) {
        if |parts[2]| > MAX_PORT_DIGITS {
          AfterFailure(Progress(endpoints, fileProto, true), lines[k + 1..]);
          return;
        }
        port := Value(parts[2]);
        if |parts| >= 4 {
          proto := NormalizeProto(parts[3]).GetOr(fileProto);
        }
      } else if |parts| >= 3 {
        proto := NormalizeProto(parts[2]).GetOr(fileProto);
      }
      endpoints := endpoints + [Endpoint(parts[1], port, proto)];
    }
  }

  lemma {:induction false} AfterFailure(p: Progress, lines: seq<string>)
    requires p.failed
    ensures Read(p, lines) == p
    decreases |lines|
  {
    if lines != [] {
      AfterFailure(p, lines[1..]);
    }
  }

  // ----- Concatenation and invisible lines -----

  lemma {:induction false} ReadConcat(p: Progress, a: seq<string>, b: seq<string>)
    ensures Read(p, a + b) == Read(Read(p, a), b)
    decreases |a|
  {
    if a == [] {
      assert a + b == b;
    } else {
      assert (a + b)[1..] == a[1..] + b;
      ReadConcat(Apply(p, Meaning(a[0])), a[1..], b);
    }
  }

  /** What was read before matters only through the transport in force. */
  lemma {:induction false} ReadFromProto(before: seq<Endpoint>, proto: Proto, lines: seq<string>)
    ensures var r := Read(Progress([], proto, false), lines);
            Read(Progress(before, proto, false), lines) == Progress(before + r.endpoints, r.proto, r.failed)
    decreases |lines|
  {
    if lines == [] {
      assert before + [] == before;
    } else {
      var d := Meaning(lines[0]);
      hide Meaning;
      match d
      case Nothing =>
        ReadFromProto(before, proto, lines[1..]);
      case SetProto(transport) =>
        ReadFromProto(before, transport, lines[1..]);
      case Remote(host, port, own) =>
        var e := [Endpoint(host, port, own.GetOr(proto))];
        assert [] + e == e;
        ReadFromProto(before + e, proto, lines[1..]);
        ReadFromProto(e, proto, lines[1..]);
        var r := Read(Progress([], proto, false), lines[1..]);
        assert before + (e + r.endpoints) == before + e + r.endpoints;
      case Raises =>
        AfterFailure(Progress(before, proto, true), lines[1..]);
        AfterFailure(Progress([], proto, true), lines[1..]);
        assert before + [] == before;
    }
  }

  lemma {:induction false} UntilConcat(a: string, b: string, stops: set<char>)
    requires Until(a, stops) < |a|
    ensures Until(a + b, stops) == Until(a, stops)
  {
    assert (a + b)[0] == a[0];
    if a[0] !in stops {
      assert (a + b)[1..] == a[1..] + b;
      UntilConcat(a[1..], b, stops);
    }
  }

  lemma {:induction false} UntilIs(s: string, n: nat, stops: set<char>)
    requires n <= |s| && (forall i | 0 <= i < n :: s[i] !in stops) && (n < |s| ==> s[n] in stops)
    ensures Until(s, stops) == n
  {
    if n > 0 {
      UntilIs(s[1..], n - 1, stops);
    }
  }

  predicate EndsLine(text: string) {
    text == "" || Last(text) in NEWLINES
  }

  lemma FirstLine(a: string, b: string)
    requires a != "" && EndsLine(a)
    ensures var n := Until(a, NEWLINES);
            && n < |a| && Until(a + b, NEWLINES) == n
            && (a + b)[..n] == a[..n] && (a + b)[n + 1..] == a[n + 1..] + b && EndsLine(a[n + 1..])
  {
    var n := Until(a, NEWLINES);
    assert n < |a|;
    UntilConcat(a, b, NEWLINES);
    hide Until;
    if n + 1 < |a| {
      assert Last(a[n + 1..]) == Last(a);
    }
  }

  /** A text that ends its last line splits independently of what follows it. */
  lemma {:induction false} LinesConcat(a: string, b: string)
    requires EndsLine(a)
    ensures Lines(a + b) == Lines(a) + Lines(b)
    decreases |a|
  {
    if a == "" {
      assert a + b == b;
    } else {
      FirstLine(a, b);
      LinesUnfold(a + b);
      LinesUnfold(a);
      hide Lines, Until, NEWLINES, EndsLine;
      var rest := a[Until(a, NEWLINES) + 1..];
      LinesConcat(rest, b);
      Regroup([a[..Until(a, NEWLINES)]], Lines(rest), Lines(b));
    }
  }

  lemma Regroup<T>(a: seq<T>, b: seq<T>, c: seq<T>)
    ensures a + (b + c) == a + b + c
  {
  }

  lemma LinesUnfold(text: string)
    requires text != "" && Until(text, NEWLINES) < |text|
    ensures var n := Until(text, NEWLINES);
            Lines(text) == [text[..n]] + Lines(text[n + 1..])
  {
    hide Until, NEWLINES;
  }

  /** Where the reading of a text leaves off: the transport in force, or nothing more to read. */
  function Continue(a: string, b: string): seq<Endpoint> {
    var p := Read(FRESH, Lines(a));
    if p.failed then [] else Read(Progress([], p.proto, false), Lines(b)).endpoints
  }

  /** Parsing a concatenation is parsing the second part from the state the first one leaves. */
  lemma ConcatenationParses(a: string, b: string)
    requires EndsLine(a)
    ensures Endpoints(a + b) == Endpoints(a) + Continue(a, b)
  {
    var p := Read(FRESH, Lines(a));
    LinesConcat(a, b);
    ReadConcat(FRESH, Lines(a), Lines(b));
    if p.failed {
      AfterFailure(p, Lines(b));
    } else {
      ReadFromProto(p.endpoints, p.proto, Lines(b));
    }
  }

  /** Comments and blank lines mean nothing. */
  lemma CommentsMeanNothing(raw: string)
    requires Strip(raw) == "" || Strip(raw)[0] == '#' || Strip(raw)[0] == ';'
    ensures Meaning(raw).Nothing?
  {
    assert Words("") == [];
  }

  /** A line that means nothing can be put anywhere. */
  lemma InvisibleLine(a: string, line: string, b: string)
    requires EndsLine(a)
    requires OneLine(line) && Meaning(line).Nothing?
    ensures Endpoints(a + (line + "\n" + b)) == Endpoints(a + b)
  {
    var p := Read(FRESH, Lines(a));
    LineThenRest(line, b);
    LinesConcat(a, b);
    LinesConcat(a, line + "\n" + b);
    ReadConcat(FRESH, Lines(a), Lines(b));
    ReadConcat(FRESH, Lines(a), [line] + Lines(b));
    assert ([line] + Lines(b))[1..] == Lines(b);
  }

  lemma LineThenRest(line: string, rest: string)
    requires OneLine(line)
    ensures Lines(line + "\n" + rest) == [line] + Lines(rest)
  {
    var text := line + "\n" + rest;
    UntilIs(text, |line|, NEWLINES);
    assert text[..|line|] == line && text[|line| + 1..] == rest;
    if |line| + 1 == |text| {
      assert rest == "";
    }
  }

  /** A line ends at a newline or at a carriage return. */
  lemma LineEnds(line: string, c: char, rest: string)
    requires OneLine(line) && (c == '\n' || c == '\r')
    ensures Lines(line + [c] + rest) == [line] + Lines(rest)
  {
    var text := line + [c] + rest;
    UntilIs(text, |line|, NEWLINES);
    assert text[..|line|] == line && text[|line| + 1..] == rest;
    if |line| + 1 == |text| {
      assert rest == "";
    }
  }

  /** At both, it leaves a blank line behind. */
  lemma ReturnAndNewline(line: string, rest: string)
    requires OneLine(line)
    ensures Lines(line + "\r\n" + rest) == [line] + ([""] + Lines(rest))
  {
    assert "" + ['\n'] + rest == "\n" + rest;
    assert line + ['\r'] + ("\n" + rest) == line + "\r\n" + rest;
    hide Lines;
    LineEnds("", '\n', rest);
    LineEnds(line, '\r', "\n" + rest);
  }

  /** White space is the space, tab to carriage return, and the four separators. */
  lemma SpacesAre(c: char)
    ensures c in SPACES <==> c == ' ' || 9 <= c as int <= 13 || 28 <= c as int <= 31
  {
  }

  // ----- Numbers -----

  lemma {:induction false} DecimalReadsBack(n: nat)
    ensures AllDigits(Decimal(n)) && Value(Decimal(n)) == n
  {
    var last := ('0' as int + n % 10) as char;
    if n < 10 {
      assert Value([last]) == 10 * Value([]) + n;
    } else {
      DecimalReadsBack(n / 10);
      assert Decimal(n)[..|Decimal(n)| - 1] == Decimal(n / 10);
      assert Last(Decimal(n)) == last;
    }
  }

  /** Printing never needs more digits than were read. */
  lemma {:induction false} DecimalIsShortest(digits: string)
    requires AllDigits(digits)
    ensures |Decimal(Value(digits))| <= |digits|
  {
    var front := digits[..|digits| - 1];
    var v := Value(digits);
    assert IsDigit(Last(digits));
    if front == "" {
      assert Value(front) == 0;
      assert v < 10;
    } else {
      assert AllDigits(front);
      DecimalIsShortest(front);
      assert v / 10 == Value(front);
    }
  }

  // ----- The normal form -----

  predicate IsWord(s: string) {
    s != "" && forall i | 0 <= i < |s| :: s[i] !in SPACES
  }

  function ProtoWord(p: Proto): string {
    match p
    case Tcp => "tcp"
    case Udp => "udp"
  }

  function RenderLine(e: Endpoint): string {
    Phrase(FullWords(e))
  }

  function Render(endpoints: seq<Endpoint>): string {
    if endpoints == [] then "" else RenderLine(endpoints[0]) + "\n" + Render(endpoints[1..])
  }

  /** What every parsed endpoint satisfies, and what rendering needs. */
  predicate Printable(e: Endpoint) {
    IsWord(e.host) && |Decimal(e.port)| <= MAX_PORT_DIGITS
  }

  predicate AllPrintable(endpoints: seq<Endpoint>) {
    forall i | 0 <= i < |endpoints| :: Printable(endpoints[i])
  }

  lemma FirstWord(w: string, rest: string)
    requires IsWord(w)
    ensures Words(w + (" " + rest)) == [w] + Words(rest)
  {
    var line := w + (" " + rest);
    UntilIs(line, |w|, SPACES);
    assert line[..|w|] == w && line[|w|..] == " " + rest;
    assert (" " + rest)[1..] == rest;
  }

  lemma OnlyWord(w: string)
    requires IsWord(w)
    ensures Words(w) == [w]
  {
    UntilIs(w, |w|, SPACES);
    assert w[..|w|] == w && w[|w|..] == "";
  }

  lemma DigitsAreWords(s: string)
    requires AllDigits(s)
    ensures IsWord(s)
  {
  }

  /** Words with one space between them. */
  function Phrase(words: seq<string>): string
    requires words != []
  {
    if |words| == 1 then words[0] else words[0] + (" " + Phrase(words[1..]))
  }

  predicate AllWords(words: seq<string>) {
    words != [] && forall i | 0 <= i < |words| :: IsWord(words[i])
  }

  lemma RestAreWords(words: seq<string>)
    requires AllWords(words) && |words| > 1
    ensures IsWord(words[0]) && AllWords(words[1..])
  {
  }

  lemma {:induction false} PhraseSplits(words: seq<string>)
    requires AllWords(words)
    ensures Words(Phrase(words)) == words
    decreases |words|
  {
    if |words| == 1 {
      OnlyWord(words[0]);
    } else {
      RestAreWords(words);
      hide AllWords;
      PhraseSplits(words[1..]);
      FirstWord(words[0], Phrase(words[1..]));
      hide Words, IsWord;
      assert [words[0]] + words[1..] == words;
    }
  }

  lemma {:induction false} PhraseEnds(words: seq<string>)
    requires AllWords(words)
    ensures words[0] != "" && Last(words) != ""
    ensures Phrase(words) != "" && Phrase(words)[0] == words[0][0] && Last(Phrase(words)) == Last(Last(words))
    ensures OneLine(Phrase(words))
    decreases |words|
  {
    NoNewline(words[0]);
    if |words| > 1 {
      RestAreWords(words);
      hide AllWords;
      PhraseEnds(words[1..]);
      assert words[0] != "";
      JoinedEnds(words[0], Phrase(words[1..]));
      hide IsWord;
      assert Last(words) == Last(words[1..]);
    }
  }

  lemma NoNewline(w: string)
    requires IsWord(w)
    ensures OneLine(w)
  {
    assert NEWLINES <= SPACES;
  }

  lemma JoinedEnds(a: string, b: string)
    requires a != "" && b != "" && OneLine(a) && OneLine(b)
    ensures var line := a + (" " + b);
            line[0] == a[0] && Last(line) == Last(b) && OneLine(line)
  {
  }

  function FullWords(e: Endpoint): seq<string> {
    ["remote", e.host, Decimal(e.port), ProtoWord(e.proto)]
  }

  lemma FullWordsAreWords(e: Endpoint)
    requires IsWord(e.host)
    ensures AllWords(FullWords(e))
  {
    DecimalReadsBack(e.port);
    DigitsAreWords(Decimal(e.port));
    assert IsWord("remote") && IsWord("tcp") && IsWord("udp");
    hide IsWord;
  }

  lemma RenderedLine(e: Endpoint)
    requires Printable(e)
    ensures Words(RenderLine(e)) == FullWords(e)
    ensures Strip(RenderLine(e)) == RenderLine(e) && !IsComment(RenderLine(e))
    ensures OneLine(RenderLine(e))
  {
    FullWordsAreWords(e);
    PhraseSplits(FullWords(e));
    PhraseEnds(FullWords(e));
    hide Phrase, Words, Decimal, IsWord;
    assert Last(ProtoWord(e.proto)) == 'p';
  }

  lemma RenderedMeaning(e: Endpoint)
    requires Printable(e)
    ensures Meaning(RenderLine(e)) == Remote(e.host, e.port, Some(e.proto))
  {
    RenderedLine(e);
    DecimalReadsBack(e.port);
    KeywordsRead();
    ProtoReadsBack(e.proto);
    hide RenderLine, NormalizeProto, Lower, Strip, Words, Decimal, Value;
  }

  lemma KeywordsRead()
    ensures Lower("remote") == "remote" && "remote" != "proto"
  {
  }

  lemma ProtoReadsBack(p: Proto)
    ensures NormalizeProto(ProtoWord(p)) == Some(p)
  {
    assert Strip("tcp") == "tcp" && Strip("udp") == "udp";
    assert Lower("tcp") == "tcp" && Lower("udp") == "udp";
  }

  /** Rewriting every endpoint as one full line and reading again gives the same endpoints. */
  lemma {:induction false} RenderReadsBack(endpoints: seq<Endpoint>, p: Progress)
    requires AllPrintable(endpoints) && !p.failed
    ensures Read(p, Lines(Render(endpoints))) == p.(endpoints := p.endpoints + endpoints)
    decreases |endpoints|
  {
    if endpoints == [] {
      assert p.endpoints + endpoints == p.endpoints;
    } else {
      ReadFirst(endpoints, p);
      hide Lines, Render, Read, Printable;
      RenderReadsBack(endpoints[1..], p.(endpoints := p.endpoints + [endpoints[0]]));
      FirstThenRest(p.endpoints, endpoints);
    }
  }

  lemma FirstThenRest(before: seq<Endpoint>, endpoints: seq<Endpoint>)
    requires endpoints != []
    ensures before + [endpoints[0]] + endpoints[1..] == before + endpoints
  {
  }

  lemma ReadFirst(endpoints: seq<Endpoint>, p: Progress)
    requires endpoints != [] && Printable(endpoints[0]) && !p.failed
    ensures Read(p, Lines(Render(endpoints))) == Read(p.(endpoints := p.endpoints + [endpoints[0]]), Lines(Render(endpoints[1..])))
  {
    var e := endpoints[0];
    assert Render(endpoints) == RenderLine(e) + "\n" + Render(endpoints[1..]);
    hide Lines, RenderLine, Read, Meaning, Render;
    RenderedLine(e);
    RenderedMeaning(e);
    LineThenRest(RenderLine(e), Render(endpoints[1..]));
    ReadOne(p, RenderLine(e), Lines(Render(endpoints[1..])));
  }

  lemma ReadOne(p: Progress, line: string, rest: seq<string>)
    ensures Read(p, [line] + rest) == Read(Apply(p, Meaning(line)), rest)
  {
    assert ([line] + rest)[1..] == rest;
  }

  // ----- What the parser yields is printable -----

  lemma {:induction false} WordsAreWords(line: string, k: nat)
    requires k < |Words(line)|
    ensures IsWord(Words(line)[k])
    decreases |line|
  {
    if line[0] in SPACES {
      WordsAreWords(line[1..], k);
    } else {
      var n := Until(line, SPACES);
      if k > 0 {
        WordsAreWords(line[n..], k - 1);
      }
    }
  }

  lemma MeaningIsPrintable(raw: string, p: Proto)
    requires Meaning(raw).Remote?
    ensures Printable(Endpoint(Meaning(raw).host, Meaning(raw).port, p))
  {
    var parts := Words(Strip(raw));
    WordsAreWords(Strip(raw), 1);
    if |parts| >= 3 && AllDigits(parts[2]) {
      DecimalIsShortest(parts[2]);
    }
    assert Decimal(DEFAULT_PORT) == "1194" by {
      assert Decimal(1) == "1" && Decimal(11) == "11" && Decimal(119) == "119";
    }
  }

  lemma {:induction false} ReadIsPrintable(p: Progress, lines: seq<string>)
    requires AllPrintable(p.endpoints)
    ensures AllPrintable(Read(p, lines).endpoints)
    decreases |lines|
  {
    if lines != [] {
      var d := Meaning(lines[0]);
      if d.Remote? && !p.failed {
        MeaningIsPrintable(lines[0], d.proto.GetOr(p.proto));
      }
      hide Meaning, Printable;
      ReadIsPrintable(Apply(p, d), lines[1..]);
    }
  }

  /** The normal form of any text parses to the same endpoints, and parsing it again changes nothing. */
  lemma NormalForm(text: string)
    ensures Endpoints(Render(Endpoints(text))) == Endpoints(text)
  {
    ReadIsPrintable(FRESH, Lines(text));
    RenderReadsBack(Endpoints(text), FRESH);
    assert [] + Endpoints(text) == Endpoints(text);
  }

  /** A configuration is shown under a protocol filter exactly when it has a remote of that protocol. */
  lemma ShownUnderItsProtocols(text: string, name: string, search: string, mode: Mode, favorites: set<string>, latencies: Latencies, p: Proto)
    requires MatchesServerFilter(name, search, mode, favorites, latencies, None, Protocols(text))
    ensures MatchesServerFilter(name, search, mode, favorites, latencies, Some(p), Protocols(text))
            <==> exists k | 0 <= k < |Endpoints(text)| :: Endpoints(text)[k].proto == p
  {
    FiltersAreIndependent(name, search, favorites, latencies, Protocols(text), mode, p);
    hide MatchesServerFilter;
    if p in Protocols(text) {
      var e :| e in Endpoints(text) && e.proto == p;
    }
  }

  /** A configuration with a remote is shown under the TCP or the UDP filter, and one without under neither. */
  lemma RemoteIsVisible(text: string, name: string, search: string, mode: Mode, favorites: set<string>, latencies: Latencies)
    requires MatchesServerFilter(name, search, mode, favorites, latencies, None, Protocols(text))
    ensures Endpoints(text) != [] <==>
              (|| MatchesServerFilter(name, search, mode, favorites, latencies, Some(Tcp), Protocols(text))
               || MatchesServerFilter(name, search, mode, favorites, latencies, Some(Udp), Protocols(text)))
  {
    var ps := Protocols(text);
    if Endpoints(text) != [] {
      assert Endpoints(text)[0].proto in ps;
    }
    SomeProtocolShows(name, search, mode, favorites, latencies, ps);
  }

  // ----- White space -----

  lemma WordsUnfold(line: string)
    requires line != "" && line[0] !in SPACES
    ensures var n := Until(line, SPACES);
            Words(line) == [line[..n]] + Words(line[n..]) && n > 0
  {
  }

  /** A space anywhere separates the words before it from the words after it. */
  lemma {:induction false} SpaceSplits(a: string, c: char, b: string)
    requires c in SPACES
    ensures Words(a + [c] + b) == Words(a) + Words(b)
    decreases |a|
  {
    var whole := a + [c] + b;
    if a == "" {
      assert whole[1..] == b;
    } else if a[0] in SPACES {
      assert whole[1..] == a[1..] + [c] + b;
      SpaceSplits(a[1..], c, b);
    } else {
      var n := Until(a, SPACES);
      UntilIs(whole, n, SPACES);
      assert whole[..n] == a[..n];
      assert whole[n..] == a[n..] + [c] + b;
      WordsUnfold(a);
      WordsUnfold(whole);
      hide Words, SPACES, Until;
      SpaceSplits(a[n..], c, b);
      Regroup([a[..n]], Words(a[n..]), Words(b));
    }
  }

  lemma {:induction false} TrimLeftKeepsWords(s: string)
    ensures Words(TrimLeft(s)) == Words(s)
    ensures TrimLeft(s) == "" || TrimLeft(s)[0] !in SPACES
  {
    if s != "" && s[0] in SPACES {
      TrimLeftKeepsWords(s[1..]);
    }
  }

  lemma {:induction false} TrimRightKeepsWords(s: string)
    requires s == "" || s[0] !in SPACES
    ensures Words(TrimRight(s)) == Words(s)
    ensures (TrimRight(s) == "" <==> s == "") && (s != "" ==> TrimRight(s)[0] == s[0])
  {
    if s != "" && Last(s) in SPACES {
      var front := s[..|s| - 1];
      assert s == front + [Last(s)] + "";
      assert front != "" && front[0] == s[0];
      SpaceSplits(front, Last(s), "");
      TrimRightKeepsWords(front);
    }
  }

  lemma StripKeepsWords(s: string)
    ensures Words(Strip(s)) == Words(s)
    ensures Words(s) == [] <==> Strip(s) == ""
    ensures Words(s) != [] ==> Words(s)[0] != "" && Strip(s)[0] == Words(s)[0][0]
  {
    TrimLeftKeepsWords(s);
    TrimRightKeepsWords(TrimLeft(s));
    var t := Strip(s);
    if t != "" {
      WordsUnfold(t);
    }
    hide TrimLeft, TrimRight;
  }

  /** Only the words of a line matter, not the white space around and between them. */
  lemma SpacingIsInvisible(x: string, y: string)
    requires Words(x) == Words(y)
    ensures Meaning(x) == Meaning(y)
  {
    StripKeepsWords(x);
    StripKeepsWords(y);
    hide Strip, Words, NormalizeProto, RemoteOf, Lower;
  }

  // ----- Statements -----

  /** The lines that say something, with their words as they are written. */
  datatype Statement =
    | ProtoLine(key: string, word: string, more: seq<string>)
    | RemoteHost(key: string, host: string)
    | RemotePort(key: string, host: string, port: nat)
    | RemoteProto(key: string, host: string, word: string, more: seq<string>)
    | RemoteFull(key: string, host: string, port: nat, word: string, more: seq<string>)

  function StatementWords(st: Statement): seq<string> {
    match st
    case ProtoLine(key, word, more) => [key, word] + more
    case RemoteHost(key, host) => [key, host]
    case RemotePort(key, host, port) => [key, host, Decimal(port)]
    case RemoteProto(key, host, word, more) => [key, host, word] + more
    case RemoteFull(key, host, port, word, more) => [key, host, Decimal(port), word] + more
  }

  predicate Surplus(more: seq<string>) {
    forall i | 0 <= i < |more| :: IsWord(more[i])
  }

  /** The keyword in any letter case, words for words, a port that can be converted; `more` are words beyond those that count. */
  predicate Proper(st: Statement) {
    match st
    case ProtoLine(key, word, more) => Lower(key) == "proto" && IsWord(word) && Surplus(more)
    case RemoteHost(key, host) => Lower(key) == "remote" && IsWord(host)
    case RemotePort(key, host, port) => Lower(key) == "remote" && IsWord(host) && |Decimal(port)| <= MAX_PORT_DIGITS
    case RemoteProto(key, host, word, more) =>
      Lower(key) == "remote" && IsWord(host) && IsWord(word) && !AllDigits(word) && Surplus(more)
    case RemoteFull(key, host, port, word, more) =>
      Lower(key) == "remote" && IsWord(host) && |Decimal(port)| <= MAX_PORT_DIGITS && IsWord(word) && Surplus(more)
  }

  predicate BeginsWith(word: string, prefix: string) {
    |prefix| <= |word| && Lower(word[..|prefix|]) == prefix
  }

  /** A transport is named by any word that begins with tcp or udp, in any letter case. */
  function TransportOf(word: string): Option<Proto> {
    if BeginsWith(word, "tcp") then Some(Tcp) else if BeginsWith(word, "udp") then Some(Udp) else None
  }

  /** What statements declare: a proto line holds for the remotes after it, until the next one that names a transport. */
  function Declared(sts: seq<Statement>, running: Proto): seq<Endpoint> {
    if sts == [] then []
    else match sts[0]
      case ProtoLine(_, word, _) => Declared(sts[1..], TransportOf(word).GetOr(running))
      case RemoteHost(_, host) => [Endpoint(host, 1194, running)] + Declared(sts[1..], running)
      case RemotePort(_, host, port) => [Endpoint(host, port, running)] + Declared(sts[1..], running)
      case RemoteProto(_, host, word, _) => [Endpoint(host, 1194, TransportOf(word).GetOr(running))] + Declared(sts[1..], running)
      case RemoteFull(_, host, port, word, _) => [Endpoint(host, port, TransportOf(word).GetOr(running))] + Declared(sts[1..], running)
  }

  function Written(sts: seq<Statement>): string {
    if sts == [] then "" else Phrase(StatementWords(sts[0])) + "\n" + Written(sts[1..])
  }

  lemma NormalizeIsTransport(word: string)
    requires IsWord(word)
    ensures NormalizeProto(word) == TransportOf(word)
  {
    assert Strip(word) == word;
    var l := Lower(word);
    assert |l| == |word|;
    forall prefix: string | |prefix| <= |word|
      ensures Lower(word[..|prefix|]) == l[..|prefix|]
    {
    }
    hide Strip, Lower;
    assert "tcp" <= l <==> |l| >= 3 && l[..3] == "tcp";
    assert "udp" <= l <==> |l| >= 3 && l[..3] == "udp";
  }

  lemma KeyIsWord(key: string)
    requires Lower(key) == "proto" || Lower(key) == "remote"
    ensures IsWord(key) && !IsComment(key)
  {
    forall i | 0 <= i < |key|
      ensures key[i] !in SPACES && key[i] != '#' && key[i] != ';'
    {
      assert LowerChar(key[i]) == Lower(key)[i];
      assert 'a' <= Lower(key)[i] <= 'z';
    }
  }

  lemma StatementWordsAreWords(st: Statement)
    requires Proper(st)
    ensures AllWords(StatementWords(st))
  {
    KeyIsWord(st.key);
    match st {
      case RemotePort(_, _, port) =>
        DecimalReadsBack(port);
        DigitsAreWords(Decimal(port));
      case RemoteFull(_, _, port, _, _) =>
        DecimalReadsBack(port);
        DigitsAreWords(Decimal(port));
      case _ =>
    }
    hide IsWord, Lower;
  }

  lemma StatementLine(st: Statement)
    requires Proper(st)
    ensures var line := Phrase(StatementWords(st));
            Words(line) == StatementWords(st) && Strip(line) == line && !IsComment(line) && OneLine(line)
  {
    StatementWordsAreWords(st);
    var words := StatementWords(st);
    PhraseSplits(words);
    PhraseEnds(words);
    KeyIsWord(st.key);
    assert words[0] == st.key;
    assert IsWord(words[0]) && IsWord(Last(words));
    hide Phrase, Words, StatementWords, Proper, Lower, AllWords, OneLine;
  }

  function DirectiveOf(st: Statement): Directive {
    match st
    case ProtoLine(_, word, _) => if TransportOf(word).Some? then SetProto(TransportOf(word).value) else Nothing
    case RemoteHost(_, host) => Remote(host, 1194, None)
    case RemotePort(_, host, port) => Remote(host, port, None)
    case RemoteProto(_, host, word, _) => Remote(host, 1194, TransportOf(word))
    case RemoteFull(_, host, port, word, _) => Remote(host, port, TransportOf(word))
  }

  lemma StatementMeaning(st: Statement)
    requires Proper(st)
    ensures Meaning(Phrase(StatementWords(st))) == DirectiveOf(st)
  {
    StatementLine(st);
    if st.ProtoLine? || st.RemoteProto? || st.RemoteFull? {
      NormalizeIsTransport(st.word);
    }
    if st.RemotePort? || st.RemoteFull? {
      DecimalReadsBack(st.port);
    }
    hide Phrase, Words, Strip, Lower, NormalizeProto, TransportOf, Decimal, Value, IsWord, AllDigits;
  }

  lemma {:induction false} StatementsReadFrom(sts: seq<Statement>, p: Progress)
    requires (forall i | 0 <= i < |sts| :: Proper(sts[i])) && !p.failed
    ensures Read(p, Lines(Written(sts))).endpoints == p.endpoints + Declared(sts, p.proto)
    decreases |sts|
  {
    if sts == [] {
      assert p.endpoints + [] == p.endpoints;
    } else {
      var line := Phrase(StatementWords(sts[0]));
      StatementLine(sts[0]);
      StatementMeaning(sts[0]);
      LineThenRest(line, Written(sts[1..]));
      var n := Apply(p, DirectiveOf(sts[0]));
      hide Meaning, Lines, Phrase, StatementWords, Proper;
      ReadOne(p, line, Lines(Written(sts[1..])));
      StatementsReadFrom(sts[1..], n);
      hide Read, Written;
      DeclaredOne(sts, p);
    }
  }

  lemma DeclaredOne(sts: seq<Statement>, p: Progress)
    requires sts != [] && !p.failed
    ensures var n := Apply(p, DirectiveOf(sts[0]));
            n.endpoints + Declared(sts[1..], n.proto) == p.endpoints + Declared(sts, p.proto)
  {
    hide TransportOf;
    if !sts[0].ProtoLine? {
      var rest := Declared(sts[1..], p.proto);
      var d := DirectiveOf(sts[0]);
      var e := Endpoint(d.host, d.port, d.proto.GetOr(p.proto));
      assert Declared(sts, p.proto) == [e] + rest;
      hide Declared, DirectiveOf;
      Regroup(p.endpoints, [e], rest);
    }
  }

  /** Any lines of this kind are read as what they declare, with udp until a proto line names a transport. */
  lemma StatementsRead(sts: seq<Statement>)
    requires forall i | 0 <= i < |sts| :: Proper(sts[i])
    ensures Endpoints(Written(sts)) == Declared(sts, Udp)
  {
    StatementsReadFrom(sts, FRESH);
    assert [] + Declared(sts, Udp) == Declared(sts, Udp);
  }

  /** Every other directive, and a proto or remote line without a second word, means nothing. */
  lemma OtherLinesMeanNothing(raw: string)
    requires var parts := Words(raw);
             parts == [] || |parts| == 1 || (Lower(parts[0]) != "proto" && Lower(parts[0]) != "remote")
    ensures Meaning(raw).Nothing?
  {
    StripKeepsWords(raw);
    hide Strip, Words, Lower, NormalizeProto, RemoteOf;
  }

  lemma LongPortRaises(key: string, host: string, digits: string, more: seq<string>)
    requires Lower(key) == "remote" && IsWord(host) && AllDigits(digits) && |digits| > 4300 && Surplus(more)
    ensures var line := Phrase([key, host, digits] + more);
            Meaning(line).Raises? && OneLine(line)
  {
    var words := [key, host, digits] + more;
    var line := Phrase(words);
    KeyIsWord(key);
    DigitsAreWords(digits);
    assert AllWords(words);
    PhraseSplits(words);
    PhraseEnds(words);
    StripKeepsWords(line);
    assert IsComment(line) <==> IsComment(key) by {
      assert line[0] == key[0];
    }
    hide AllWords, Phrase, IsWord, AllDigits;
    assert Words(Strip(line)) == words;
    assert !IsComment(Strip(line)) by {
      assert Strip(line)[0] == key[0];
    }
    assert Meaning(line).Raises? by { hide Words, Strip, Lower, NormalizeProto; }
  }

  /** A port with more digits than are converted ends the reading: what was read before it is the result. */
  lemma LongPortEndsReading(a: string, key: string, host: string, digits: string, more: seq<string>, b: string)
    requires EndsLine(a) && Lower(key) == "remote" && IsWord(host) && AllDigits(digits) && |digits| > 4300 && Surplus(more)
    ensures Endpoints(a + (Phrase([key, host, digits] + more) + "\n" + b)) == Endpoints(a)
  {
    var line := Phrase([key, host, digits] + more);
    LongPortRaises(key, host, digits, more);
    hide Phrase, IsWord, AllDigits, Surplus;
    var p := Read(FRESH, Lines(a));
    LineThenRest(line, b);
    LinesConcat(a, line + "\n" + b);
    hide Meaning, Lines, Words, Strip, Lower, OneLine;
    ReadConcat(FRESH, Lines(a), [line] + Lines(b));
    ReadOne(p, line, Lines(b));
    if p.failed {
      AfterFailure(p, [line] + Lines(b));
    } else {
      AfterFailure(p.(failed := true), Lines(b));
    }
  }
}
