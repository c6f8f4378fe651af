/** HTTP/1 request heads as text: the C string searches the parser uses, what it
    accepts, and a printer. A text is the received bytes up to, and not
    including, the terminating NUL. */
module HttpText {

  const NUL: char := '\0'
  const CRLF: string := "\r\n"
  const MAX_REQUEST_LINE: nat := 2048
  const MAX_HEADERS: nat := 20

  datatype Header = Header(field: string, value: string)
  datatype Request = Request(method_: string, path: string, version: string, headers: seq<Header>)

  /** `rest` is the text from where the parser's cursor ends. */
  datatype Outcome = Bad | Good(request: Request, rest: string)
  datatype RequestLine = BadLine | GoodLine(method_: string, path: string, version: string)
  datatype HeaderBlock = BadHeaders | GoodHeaders(headers: seq<Header>, rest: string)

  // ----- searches ------------------------------------------------------------

  predicate CrlfAt(s: string, i: int) {
    0 <= i && i + 1 < |s| && s[i] == '\r' && s[i + 1] == '\n'
  }

  predicate NoCrlf(s: string) {
    forall i :: 0 <= i < |s| ==> !CrlfAt(s, i)
  }

  /** A text cut at a line end or at a character. */
  datatype Cut = NoCut | Cut(before: string, after: string)

  /** No NUL and no line end starts before `k`. */
  ghost predicate Plain(s: string, k: nat) {
    k <= |s| && forall j :: 0 <= j < k ==> s[j] != NUL && !CrlfAt(s, j)
  }

  /** Where the search for a line end stops: there, at a NUL, or at the end. */
  ghost predicate IsStop(s: string, k: nat) {
    Plain(s, k) && (k < |s| ==> s[k] == NUL || CrlfAt(s, k))
  }

  lemma StopExists(s: string, k: nat)
    requires Plain(s, k)
    ensures exists n: nat :: IsStop(s, n)
    decreases |s| - k
  {
    if k < |s| && s[k] != NUL && !CrlfAt(s, k) {
      StopExists(s, k + 1);
    } else {
      assert IsStop(s, k);
    }
  }

  ghost function LineStop(s: string): (k: nat)
    ensures IsStop(s, k)
  {
    StopExists(s, 0);
    var k: nat :| IsStop(s, k);
    k
  }

  lemma StopIs(s: string, k: nat)
    requires IsStop(s, k)
    ensures LineStop(s) == k
  {
  }

  /** strstr for a line end: it does not look past a NUL. */
  ghost function CutLine(s: string): (r: Cut) {
    var k := LineStop(s);
    if CrlfAt(s, k) then Cut(s[..k], s[k + 2..]) else NoCut
  }

  lemma CutLineParts(s: string)
    requires CutLine(s).Cut?
    ensures s == CutLine(s).before + (CRLF + CutLine(s).after)
  {
    assert CRLF == s[LineStop(s)..LineStop(s) + 2];
  }

  /** The line that was cut off has no NUL and no line end in it. */
  lemma CutOffLine(s: string)
    ensures CutLine(s).Cut? ==> NUL !in CutLine(s).before && NoCrlf(CutLine(s).before)
    ensures CutLine(s).NoCut? ==> forall j: nat :: CrlfAt(s, j) ==> NUL in s[..j]
  {
    var k := LineStop(s);
    if CrlfAt(s, k) {
      assert forall j :: CrlfAt(s[..k], j) ==> CrlfAt(s, j);
    } else {
      forall j: nat | CrlfAt(s, j) ensures NUL in s[..j] {
        assert j > k;
        assert s[..j][k] == NUL;
      }
    }
  }

  /** Where the search for a character stops: there, or at the end. */
  ghost predicate IsFirst(s: string, c: char, k: nat) {
    k <= |s| && (k < |s| ==> s[k] == c) && forall j :: 0 <= j < k ==> s[j] != c
  }

  lemma FirstExists(s: string, c: char, k: nat)
    requires k <= |s| && forall j :: 0 <= j < k ==> s[j] != c
    ensures exists n: nat :: IsFirst(s, c, n)
    decreases |s| - k
  {
    if k < |s| && s[k] != c {
      FirstExists(s, c, k + 1);
    } else {
      assert IsFirst(s, c, k);
    }
  }

  ghost function First(s: string, c: char): (k: nat)
    ensures IsFirst(s, c, k)
  {
    FirstExists(s, c, 0);
    var k: nat :| IsFirst(s, c, k);
    k
  }

  lemma FirstIs(s: string, c: char, k: nat)
    requires IsFirst(s, c, k)
    ensures First(s, c) == k
  {
  }

  /** strchr within a line. */
  ghost function CutAt(s: string, c: char): (r: Cut) {
    var k := First(s, c);
    if k < |s| then Cut(s[..k], s[k + 1..]) else NoCut
  }

  lemma CutAtIff(s: string, c: char)
    ensures CutAt(s, c).Cut? <==> c in s
    ensures CutAt(s, c).Cut? ==> s == CutAt(s, c).before + [c] + CutAt(s, c).after && c !in CutAt(s, c).before
  {
  }

  predicate IsUpper(c: char) { 'A' <= c <= 'Z' }

  predicate IsSpace(c: char) { c == ' ' || '\t' <= c <= '\r' }

  predicate AllUpper(s: string) {
    forall i :: 0 <= i < |s| ==> IsUpper(s[i])
  }

  const UPPER_CASE: string := "ABCDEFGHIJKLMNOPQRSTUVWXYZ"

  /** The characters that isupper and isspace know. */
  lemma UpperCaseIff(c: char)
    ensures IsUpper(c) <==> c in UPPER_CASE
  {
    assert forall i :: 0 <= i < 26 ==> UPPER_CASE[i] as int == 'A' as int + i;
    if IsUpper(c) { assert c == UPPER_CASE[c as int - 'A' as int]; }
  }

  lemma WhiteSpaceIff(c: char)
    ensures IsSpace(c) <==> c in [' ', '\t', '\n', 11 as char, 12 as char, '\r']
  {
  }

  /** Where a value starts: at its first character that is not white space. */
  ghost predicate IsTrimmed(s: string, k: nat) {
    k <= |s| && (k < |s| ==> !IsSpace(s[k])) && forall i :: 0 <= i < k ==> IsSpace(s[i])
  }

  lemma TrimExists(s: string, k: nat)
    requires k <= |s| && forall i :: 0 <= i < k ==> IsSpace(s[i])
    ensures exists n: nat :: IsTrimmed(s, n)
    decreases |s| - k
  {
    if k < |s| && IsSpace(s[k]) {
      TrimExists(s, k + 1);
    } else {
      assert IsTrimmed(s, k);
    }
  }

  ghost function ValueStart(s: string): (k: nat)
    ensures IsTrimmed(s, k)
  {
    TrimExists(s, 0);
    var k: nat :| IsTrimmed(s, k);
    k
  }

  /** A value without its leading white space. */
  ghost function Trim(s: string): string {
    s[ValueStart(s)..]
  }

  lemma TrimIs(s: string, k: nat)
    requires IsTrimmed(s, k)
    ensures Trim(s) == s[k..]
  {
  }

  // ----- what the parser accepts ---------------------------------------------

  predicate GoodMethod(a: Cut) {
    a.Cut? && a.before != "" && AllUpper(a.before)
  }

  predicate GoodTarget(b: Cut) {
    b.Cut? && "HTTP/" <= b.after
  }

  ghost function ParseLine(line: string): RequestLine {
    var a := CutAt(line, ' ');
    if !GoodMethod(a) then BadLine
    else
      var b := CutAt(a.after, ' ');
      if !GoodTarget(b) then BadLine
      else GoodLine(a.before, b.before, b.after)
  }

  ghost function ParseHeader(line: string): Header
    requires ':' in line
  {
    CutAtIff(line, ':');
    var c := CutAt(line, ':');
    Header(c.before, Trim(c.after))
  }

  /** The header loop: it stops at a blank line, at the end of the text, or
      where no further line end can be found. */
  ghost function ParseHeaders(rest: string, headers: seq<Header>): HeaderBlock
    decreases |rest|
  {
    var cut := CutLine(rest);
    if CrlfAt(rest, 0) || cut.NoCut? then GoodHeaders(headers, rest)
    else if ':' !in cut.before || |headers| >= MAX_HEADERS then BadHeaders
    else ParseHeaders(cut.after, headers + [ParseHeader(cut.before)])
  }

  /** There is a first line, it is not too long, and it is a request line. */
  ghost predicate HeadOk(text: string) {
    var cut := CutLine(text);
    cut.Cut? && |cut.before| <= MAX_REQUEST_LINE && ParseLine(cut.before).GoodLine?
  }

  ghost function Parse(text: string): Outcome {
    if !HeadOk(text) then Bad
    else
      var line, block := ParseLine(CutLine(text).before), ParseHeaders(CutLine(text).after, []);
      if block.BadHeaders? then Bad
      else Good(Request(line.method_, line.path, line.version, block.headers), block.rest)
  }

  lemma ParseParts(text: string)
    requires Parse(text).Good?
    ensures var cut := CutLine(text);
            && HeadOk(text) && ParseHeaders(cut.after, []).GoodHeaders?
            && Parse(text).rest == ParseHeaders(cut.after, []).rest
            && Parse(text).request.headers == ParseHeaders(cut.after, []).headers
  {
  }

  lemma ParseIs(text: string, line: string, after: string, l: RequestLine, block: HeaderBlock)
    requires CutLine(text) == Cut(line, after) && |line| <= MAX_REQUEST_LINE
    requires ParseLine(line) == l && l.GoodLine? && ParseHeaders(after, []) == block && block.GoodHeaders?
    ensures Parse(text) == Good(Request(l.method_, l.path, l.version, block.headers), block.rest)
  {
  }

  // One round of the header loop, case by case.

  lemma LoopContinues(rest: string, done: seq<Header>)
    requires !CrlfAt(rest, 0) && CutLine(rest).Cut? && ':' in CutLine(rest).before && |done| < MAX_HEADERS
    ensures ParseHeaders(rest, done)
         == ParseHeaders(CutLine(rest).after, done + [ParseHeader(CutLine(rest).before)])
  {
  }

  lemma LoopFails(rest: string, done: seq<Header>)
    requires !CrlfAt(rest, 0) && CutLine(rest).Cut?
    requires ':' !in CutLine(rest).before || |done| >= MAX_HEADERS
    ensures ParseHeaders(rest, done).BadHeaders?
  {
  }

  lemma LoopEnds(rest: string, done: seq<Header>)
    requires CrlfAt(rest, 0) || CutLine(rest).NoCut?
    ensures ParseHeaders(rest, done) == GoodHeaders(done, rest)
  {
  }

  // ----- the printer ---------------------------------------------------------

  function PrintLine(r: Request): string {
    r.method_ + [' '] + (r.path + [' '] + r.version)
  }

  function PrintHeader(h: Header): string {
    h.field + [':'] + ([' '] + h.value)
  }

  function PrintHeaders(hs: seq<Header>): string {
    if hs == [] then "" else PrintHeader(hs[0]) + CRLF + PrintHeaders(hs[1..])
  }

  /** A request head up to its blank line. */
  function Print(r: Request): string {
    PrintLine(r) + CRLF + PrintHeaders(r.headers)
  }

  predicate CleanHeader(h: Header) {
    && ':' !in h.field && NUL !in h.field && NUL !in h.value
    && (h.value == "" || !IsSpace(h.value[0]))
    && NoCrlf(PrintHeader(h))
  }

  predicate CleanLine(r: Request) {
    && r.method_ != "" && AllUpper(r.method_)
    && ' ' !in r.path && NUL !in r.path
    && "HTTP/" <= r.version && NUL !in r.version
    && NoCrlf(PrintLine(r)) && |PrintLine(r)| <= 2048
  }

  predicate CleanHeaders(hs: seq<Header>) {
    |hs| <= 20 && forall i :: 0 <= i < |hs| ==> CleanHeader(hs[i])
  }

  predicate Clean(r: Request) {
    CleanLine(r) && CleanHeaders(r.headers)
  }

  // ----- cutting what was joined ---------------------------------------------

  lemma CutAtJoined(before: string, c: char, after: string)
    requires c !in before
    ensures CutAt(before + [c] + after, c) == Cut(before, after)
  {
    var s := before + [c] + after;
    assert s[..|before|] == before && s[|before| + 1..] == after;
    FirstIs(s, c, |before|);
  }

  lemma CutLineJoined(line: string, after: string)
    requires NoCrlf(line) && NUL !in line
    ensures CutLine(line + CRLF + after) == Cut(line, after)
  {
    var s := line + CRLF + after;
    assert s[..|line|] == line && s[|line| + 2..] == after;
    forall j | 0 <= j < |line| ensures s[j] != NUL && !CrlfAt(s, j) {
      assert s[j] == line[j] && !CrlfAt(line, j);
    }
    StopIs(s, |line|);
  }

  // ----- round trip ----------------------------------------------------------

  lemma PrintedLineParses(r: Request)
    requires CleanLine(r)
    ensures ParseLine(PrintLine(r)) == GoodLine(r.method_, r.path, r.version)
  {
    assert ' ' !in r.method_;
    CutAtJoined(r.method_, ' ', r.path + [' '] + r.version);
    CutAtJoined(r.path, ' ', r.version);
  }

  lemma HeaderIs(line: string, field: string, after: string)
    requires CutAt(line, ':') == Cut(field, after)
    ensures ':' in line && ParseHeader(line) == Header(field, Trim(after))
  {
    CutAtIff(line, ':');
  }

  lemma TrimOneBlank(value: string)
    requires value == "" || !IsSpace(value[0])
    ensures Trim([' '] + value) == value
  {
    TrimIs([' '] + value, 1);
    assert ([' '] + value)[1..] == value;
  }

  lemma PrintedHeaderParses(h: Header)
    requires CleanHeader(h)
    ensures ':' in PrintHeader(h) && ParseHeader(PrintHeader(h)) == h
  {
    CutAtJoined(h.field, ':', [' '] + h.value);
    HeaderIs(PrintHeader(h), h.field, [' '] + h.value);
    TrimOneBlank(h.value);
  }

  lemma PrintedHeaderIsLine(h: Header)
    requires CleanHeader(h)
    ensures NUL !in PrintHeader(h)
  {
  }

  /** One round of the header loop on a line that is neither blank nor bad. */
  lemma HeaderRound(line: string, after: string, done: seq<Header>)
    requires NoCrlf(line) && NUL !in line && ':' in line && |done| < MAX_HEADERS
    ensures ParseHeaders(line + CRLF + after, done) == ParseHeaders(after, done + [ParseHeader(line)])
  {
    CutLineJoined(line, after);
    var s := line + CRLF + after;
    assert line != [] && !CrlfAt(line, 0);
    assert !CrlfAt(s, 0) by {
      if |line| == 1 { assert s[0] == ':'; }
    }
  }

  lemma PrintHeadersSplit(hs: seq<Header>, tail: string)
    requires hs != []
    ensures PrintHeaders(hs) + tail == PrintHeader(hs[0]) + CRLF + (PrintHeaders(hs[1..]) + tail)
  {
  }

  lemma PrintedHeaderRound(done: seq<Header>, hs: seq<Header>, end: string)
    requires hs != [] && CleanHeader(hs[0]) && |done| < MAX_HEADERS
    ensures ParseHeaders(PrintHeaders(hs) + end, done) == ParseHeaders(PrintHeaders(hs[1..]) + end, done + [hs[0]])
  {
    PrintHeadersSplit(hs, end);
    PrintedHeaderParses(hs[0]);
    PrintedHeaderIsLine(hs[0]);
    HeaderRound(PrintHeader(hs[0]), PrintHeaders(hs[1..]) + end, done);
  }

  /** The header loop goes no further. */
  ghost predicate Stops(end: string) {
    CrlfAt(end, 0) || CutLine(end).NoCut?
  }

  lemma FirstMoves<T>(a: seq<T>, b: seq<T>)
    requires b != []
    ensures a + b == (a + [b[0]]) + b[1..]
  {
  }

  lemma {:induction false} PrintedHeadersParse(done: seq<Header>, hs: seq<Header>, end: string)
    requires |done| + |hs| <= MAX_HEADERS && (forall i :: 0 <= i < |hs| ==> CleanHeader(hs[i])) && Stops(end)
    ensures ParseHeaders(PrintHeaders(hs) + end, done) == GoodHeaders(done + hs, end)
    decreases |hs|
  {
    if hs == [] {
      assert PrintHeaders(hs) + end == end && done + hs == done;
      LoopEnds(end, done);
    } else {
      PrintedHeaderRound(done, hs, end);
      FirstMoves(done, hs);
      PrintedHeadersParse(done + [hs[0]], hs[1..], end);
    }
  }

  lemma PrintSplit(r: Request, tail: string)
    ensures Print(r) + tail == PrintLine(r) + CRLF + (PrintHeaders(r.headers) + tail)
  {
  }

  lemma CleanLineIsLine(r: Request)
    requires CleanLine(r)
    ensures NUL !in PrintLine(r)
  {
    assert NUL !in r.method_;
  }

  lemma PrintedHeadParses(r: Request, tail: string)
    requires CleanLine(r)
    ensures CutLine(PrintLine(r) + CRLF + tail) == Cut(PrintLine(r), tail)
    ensures ParseLine(PrintLine(r)) == GoodLine(r.method_, r.path, r.version)
  {
    CleanLineIsLine(r);
    CutLineJoined(PrintLine(r), tail);
    PrintedLineParses(r);
  }

  lemma PrintedParses(r: Request, end: string)
    requires Clean(r) && Stops(end)
    ensures Parse(Print(r) + end) == Good(r, end)
  {
    var tail := PrintHeaders(r.headers) + end;
    PrintSplit(r, end);
    PrintedHeadParses(r, tail);
    assert ParseHeaders(tail, []) == GoodHeaders(r.headers, end) by {
      PrintedHeadersParse([], r.headers, end);
      assert [] + r.headers == r.headers;
    }
    ParseIs(Print(r) + end, PrintLine(r), tail, ParseLine(PrintLine(r)), GoodHeaders(r.headers, end));
  }

  /** Parsing a printed request gives the request back, whatever body follows,
      and stops at the blank line. */
  lemma RoundTrip(r: Request, body: string)
    requires Clean(r)
    ensures Parse(Print(r) + (CRLF + body)) == Good(r, CRLF + body)
  {
    assert CrlfAt(CRLF + body, 0);
    PrintedParses(r, CRLF + body);
  }

  // ----- what comes out is clean ---------------------------------------------

  lemma ParsedLineIsClean(line: string, headers: seq<Header>)
    requires NoCrlf(line) && NUL !in line && |line| <= MAX_REQUEST_LINE && ParseLine(line).GoodLine?
    ensures var l := ParseLine(line); CleanLine(Request(l.method_, l.path, l.version, headers))
  {
    var a := CutAt(line, ' ');
    var b := CutAt(a.after, ' ');
    var r := Request(a.before, b.before, b.after, headers);
    assert PrintLine(r) == line;
    assert NUL !in a.after && NUL !in b.before && NUL !in b.after by {
      assert forall c :: c in b.before || c in b.after ==> c in a.after;
      assert forall c :: c in a.after ==> c in line;
    }
  }

  /** Joining two line-end-free texts around a colon and a blank makes none. */
  lemma NoCrlfJoin(a: string, b: string)
    requires NoCrlf(a) && NoCrlf(b)
    ensures NoCrlf(a + [':'] + ([' '] + b))
  {
    var s := a + [':'] + ([' '] + b);
    forall j | 0 <= j < |s| ensures !CrlfAt(s, j) {
      assert !CrlfAt(a, j) && !CrlfAt(b, j - |a| - 2);
    }
  }

  lemma NoCrlfParts(line: string, i: nat, j: nat)
    requires NoCrlf(line) && i <= |line| && j <= |line|
    ensures NoCrlf(line[..i]) && NoCrlf(line[j..])
  {
    assert forall k :: CrlfAt(line[..i], k) ==> CrlfAt(line, k);
    assert forall k :: CrlfAt(line[j..], k) ==> CrlfAt(line, j + k);
  }

  lemma TrimmedIsClean(before: string, after: string, k: nat)
    requires var line := before + [':'] + after; NoCrlf(line) && NUL !in line
    requires ':' !in before && IsTrimmed(after, k)
    ensures CleanHeader(Header(before, after[k..]))
  {
    var line := before + [':'] + after;
    var n := |before| + 1 + k;
    assert before == line[..|before|] && after[k..] == line[n..];
    NoCrlfParts(line, |before|, n);
    NoCrlfJoin(before, after[k..]);
  }

  lemma ParsedHeaderIsClean(line: string)
    requires NoCrlf(line) && NUL !in line && ':' in line
    ensures CleanHeader(ParseHeader(line))
  {
    CutAtIff(line, ':');
    var c := CutAt(line, ':');
    TrimmedIsClean(c.before, c.after, ValueStart(c.after));
  }

  lemma CleanAppend(hs: seq<Header>, h: Header)
    requires CleanHeaders(hs) && CleanHeader(h) && |hs| < MAX_HEADERS
    ensures CleanHeaders(hs + [h])
  {
  }

  lemma {:induction false} ParsedHeadersAreClean(rest: string, done: seq<Header>)
    requires ParseHeaders(rest, done).GoodHeaders? && CleanHeaders(done)
    ensures CleanHeaders(ParseHeaders(rest, done).headers)
    decreases |rest|
  {
    var cut := CutLine(rest);
    if CrlfAt(rest, 0) || cut.NoCut? {
      LoopEnds(rest, done);
    } else {
      if ':' !in cut.before || |done| >= MAX_HEADERS { LoopFails(rest, done); }
      LoopContinues(rest, done);
      CutOffLine(rest);
      var h := ParseHeader(cut.before);
      ParsedHeaderIsClean(cut.before);
      CleanAppend(done, h);
      ParsedHeadersAreClean(cut.after, done + [h]);
    }
  }

  lemma ParsedIsClean(text: string)
    requires Parse(text).Good?
    ensures Clean(Parse(text).request)
  {
    var cut := CutLine(text);
    ParseParts(text);
    CutOffLine(text);
    ParsedHeadersAreClean(cut.after, []);
    ParsedLineIsClean(cut.before, Parse(text).request.headers);
  }

  ghost predicate ParsesTo(text: string, r: Request) {
    Parse(text).Good? && Parse(text).request == r
  }

  /** The clean requests are exactly those the parser can produce. */
  lemma CleanIffParsed(r: Request)
    ensures Clean(r) <==> exists text :: ParsesTo(text, r)
  {
    if Clean(r) {
      RoundTrip(r, "");
      assert ParsesTo(Print(r) + (CRLF + ""), r);
    }
    if text: string :| ParsesTo(text, r) {
      ParsedIsClean(text);
    }
  }

  // ----- the two scanners ----------------------------------------------------

  predicate BlankLineAt(s: string, i: int) {
    CrlfAt(s, i) && CrlfAt(s, i + 2)
  }

  ghost predicate FirstBlankLine(s: string, i: nat) {
    BlankLineAt(s, i) && forall j :: 0 <= j < i ==> !BlankLineAt(s, j)
  }

  lemma CrlfShift(p: string, s: string, j: int)
    ensures j >= |p| ==> (CrlfAt(p + s, j) <==> CrlfAt(s, j - |p|))
    ensures j >= |p| ==> (BlankLineAt(p + s, j) <==> BlankLineAt(s, j - |p|))
  {
  }

  lemma BlankShift(p: string, s: string, i: nat)
    requires FirstBlankLine(p + s, i) && i >= |p|
    ensures FirstBlankLine(s, i - |p|)
  {
    CrlfShift(p, s, i);
    forall j | 0 <= j < i - |p| ensures !BlankLineAt(s, j) {
      CrlfShift(p, s, |p| + j);
    }
  }

  /** The first blank line behind a line that has no line end inside. */
  lemma BlankBehind(line: string, after: string, i: nat)
    requires NoCrlf(line) && NUL !in line && FirstBlankLine(line + (CRLF + after), i)
    ensures i >= |line| && FirstBlankLine(CRLF + after, i - |line|)
    ensures NUL in (line + (CRLF + after))[..i] <==> NUL in (CRLF + after)[..i - |line|]
  {
    var tail := CRLF + after;
    var s := line + tail;
    assert !CrlfAt(line, i) && s[|line|] == '\r';
    BlankShift(line, tail, i);
    assert s[..i] == line + tail[..i - |line|];
  }

  /** A blank line right behind a line end, or further on. */
  lemma BlankAhead(rest: string, i: nat)
    requires FirstBlankLine(CRLF + rest, i)
    ensures CrlfAt(rest, 0) ==> i == 0
    ensures !CrlfAt(rest, 0) ==> i >= 2 && FirstBlankLine(rest, i - 2)
    ensures i >= 2 ==> (NUL in (CRLF + rest)[..i] <==> NUL in rest[..i - 2])
  {
    var s := CRLF + rest;
    CrlfShift(CRLF, rest, 2);
    assert BlankLineAt(s, 0) <==> CrlfAt(rest, 0);
    assert s[1] == '\n';
    if i >= 2 {
      BlankShift(CRLF, rest, i);
      assert s[..i] == CRLF + rest[..i - 2];
    }
  }

  /** A NUL comes before the blank line at `i`, counted from the line end just
      before `rest`. */
  ghost predicate Hidden(rest: string, i: nat)
    requires i <= |rest| + 2
  {
    NUL in (CRLF + rest)[..i]
  }

  lemma BlankStep(rest: string, i: nat)
    requires FirstBlankLine(CRLF + rest, i) && !CrlfAt(rest, 0) && CutLine(rest).Cut?
    ensures var cut := CutLine(rest);
            && i >= 2 + |cut.before| && FirstBlankLine(CRLF + cut.after, i - 2 - |cut.before|)
            && |cut.after| - (i - 2 - |cut.before|) == |rest| - i
            && (Hidden(rest, i) <==> Hidden(cut.after, i - 2 - |cut.before|))
  {
    var cut := CutLine(rest);
    CutOffLine(rest);
    CutLineParts(rest);
    BlankAhead(rest, i);
    BlankBehind(cut.before, cut.after, i - 2);
  }

  lemma BlankCutOff(rest: string, i: nat)
    requires FirstBlankLine(CRLF + rest, i) && !CrlfAt(rest, 0) && CutLine(rest).NoCut?
    ensures i >= 2 && Hidden(rest, i)
  {
    CutOffLine(rest);
    BlankAhead(rest, i);
    assert CrlfAt(rest, i - 2);
  }

  /** The header loop stops at the first blank line, counted from the line end
      before it, if and only if no NUL comes first. */
  ghost predicate StopsThere(rest: string, block: HeaderBlock, i: nat) {
    block.GoodHeaders? && i <= |rest| + 2 && (|block.rest| == |rest| - i <==> !Hidden(rest, i))
  }

  lemma StopsHere(rest: string, done: seq<Header>, i: nat)
    requires FirstBlankLine(CRLF + rest, i) && (CrlfAt(rest, 0) || CutLine(rest).NoCut?)
    ensures StopsThere(rest, ParseHeaders(rest, done), i)
  {
    LoopEnds(rest, done);
    if CrlfAt(rest, 0) {
      BlankAhead(rest, i);
    } else {
      BlankCutOff(rest, i);
    }
  }

  lemma StopsFurther(rest: string, block: HeaderBlock, i: nat)
    requires FirstBlankLine(CRLF + rest, i) && !CrlfAt(rest, 0) && CutLine(rest).Cut?
    requires i >= 2 + |CutLine(rest).before|
    requires StopsThere(CutLine(rest).after, block, i - 2 - |CutLine(rest).before|)
    ensures StopsThere(rest, block, i)
  {
    BlankStep(rest, i);
  }

  lemma LoopGoesOn(rest: string, done: seq<Header>)
    requires ParseHeaders(rest, done).GoodHeaders? && !CrlfAt(rest, 0) && CutLine(rest).Cut?
    ensures ':' in CutLine(rest).before && |done| < MAX_HEADERS
    ensures ParseHeaders(rest, done)
         == ParseHeaders(CutLine(rest).after, done + [ParseHeader(CutLine(rest).before)])
    ensures |CutLine(rest).after| < |rest|
  {
  }

  lemma {:induction false} HeadersStop(rest: string, done: seq<Header>, i: nat)
    requires ParseHeaders(rest, done).GoodHeaders? && FirstBlankLine(CRLF + rest, i)
    ensures StopsThere(rest, ParseHeaders(rest, done), i)
    decreases |rest|
  {
    var cut := CutLine(rest);
    if CrlfAt(rest, 0) || cut.NoCut? {
      StopsHere(rest, done, i);
    } else {
      LoopGoesOn(rest, done);
      BlankStep(rest, i);
      HeadersStop(cut.after, done + [ParseHeader(cut.before)], i - 2 - |cut.before|);
      StopsFurther(rest, ParseHeaders(rest, done), i);
    }
  }

  ghost predicate IsSuffix(r: string, s: string) {
    |r| <= |s| && r == s[|s| - |r|..]
  }

  lemma SuffixOfSuffix(r: string, s: string, t: string)
    requires IsSuffix(r, s) && IsSuffix(s, t)
    ensures IsSuffix(r, t)
  {
  }

  lemma CutOffSuffix(s: string)
    requires CutLine(s).Cut?
    ensures IsSuffix(CutLine(s).after, s)
  {
  }

  /** The header loop moves forward through the text. */
  lemma {:induction false} HeadersRest(rest: string, done: seq<Header>)
    requires ParseHeaders(rest, done).GoodHeaders?
    ensures IsSuffix(ParseHeaders(rest, done).rest, rest)
    decreases |rest|
  {
    var cut := CutLine(rest);
    if CrlfAt(rest, 0) || cut.NoCut? {
      LoopEnds(rest, done);
    } else {
      if ':' !in cut.before || |done| >= MAX_HEADERS { LoopFails(rest, done); }
      LoopContinues(rest, done);
      var done' := done + [ParseHeader(cut.before)];
      HeadersRest(cut.after, done');
      CutOffSuffix(rest);
      SuffixOfSuffix(ParseHeaders(cut.after, done').rest, cut.after, rest);
    }
  }

  lemma ParsedRest(text: string)
    requires Parse(text).Good?
    ensures IsSuffix(Parse(text).rest, text)
  {
    var after := CutLine(text).after;
    ParseParts(text);
    CutOffSuffix(text);
    HeadersRest(after, []);
    SuffixOfSuffix(ParseHeaders(after, []).rest, after, text);
  }

  lemma StopsBehindLine(text: string, head: string, after: string, rest: string, i: nat)
    requires text == head + (CRLF + after) && NoCrlf(head) && NUL !in head && FirstBlankLine(text, i)
    requires ParseHeaders(after, []).GoodHeaders? && ParseHeaders(after, []).rest == rest
    ensures |rest| == |text| - (i + 2) <==> NUL !in text[..i]
  {
    BlankBehind(head, after, i);
    HeadersStop(after, [], i - |head|);
  }

  lemma StopsAtBlankLine(text: string, i: nat)
    requires Parse(text).Good? && FirstBlankLine(text, i)
    ensures |Parse(text).rest| == |text| - (i + 2) <==> NUL !in text[..i]
  {
    ParseParts(text);
    CutOffLine(text);
    CutLineParts(text);
    StopsBehindLine(text, CutLine(text).before, CutLine(text).after, Parse(text).rest, i);
  }

  /** The parser and the header-end scanner agree exactly on NUL-free heads: a
      successful parse of a text with a blank line stops at the first one if and
      only if no NUL comes before it. */
  lemma ScannersAgree(text: string, i: nat)
    requires Parse(text).Good? && FirstBlankLine(text, i)
    ensures Parse(text).rest == text[i + 2..] <==> NUL !in text[..i]
  {
    StopsAtBlankLine(text, i);
    ParsedRest(text);
  }

  // ----- a NUL in the head ---------------------------------------------------

  /** A line with a NUL in it hides every line end behind it. */
  lemma HiddenStops(line: string, tail: string)
    requires NoCrlf(line)
    ensures var s := line + [NUL] + tail; !CrlfAt(s, 0) && CutLine(s).NoCut?
  {
    var s := line + [NUL] + tail;
    assert !CrlfAt(s, 0) by { assert !CrlfAt(line, 0); }
    forall j | 0 <= j < |line| ensures !CrlfAt(s, j) {
      assert !CrlfAt(line, j);
    }
    var k := LineStop(s);
    assert k <= |line| && s[|line|] == NUL;
  }

  lemma LeastBlankLine(s: string, j: nat)
    requires BlankLineAt(s, j)
    ensures exists i: nat :: FirstBlankLine(s, i)
    decreases j
  {
    if i :| 0 <= i < j && BlankLineAt(s, i) {
      LeastBlankLine(s, i);
    } else {
      assert FirstBlankLine(s, j);
    }
  }

  lemma BlankLineInside(before: string, body: string)
    ensures exists i: nat :: FirstBlankLine(before + (CRLF + (CRLF + body)), i)
  {
    assert BlankLineAt(before + (CRLF + (CRLF + body)), |before|);
    LeastBlankLine(before + (CRLF + (CRLF + body)), |before|);
  }

  lemma NotBeforeBlankLine(text: string, i: nat, rest: string)
    requires BlankLineAt(text, i) && !CrlfAt(rest, 0)
    ensures rest != text[i + 2..]
  {
    assert CrlfAt(text[i + 2..], 0);
  }

  /** A line with a NUL in it, and a blank line behind it. */
  function HiddenBlank(line: string, body: string): string {
    line + [NUL] + (CRLF + (CRLF + body))
  }

  lemma HiddenBlankSplit(head: string, line: string, body: string)
    ensures head + HiddenBlank(line, body) == (head + line + [NUL]) + (CRLF + (CRLF + body))
  {
  }

  /** The scanners do disagree: behind any clean head put a line with a NUL in it
      and a blank line. It parses, and the parser stops before that line. */
  lemma ScannersDisagree(r: Request, line: string, body: string) returns (i: nat)
    requires Clean(r) && NoCrlf(line)
    ensures var text := Print(r) + HiddenBlank(line, body);
            && Parse(text) == Good(r, HiddenBlank(line, body))
            && FirstBlankLine(text, i) && Parse(text).rest != text[i + 2..]
  {
    var hidden := HiddenBlank(line, body);
    HiddenStops(line, CRLF + (CRLF + body));
    PrintedParses(r, hidden);
    HiddenBlankSplit(Print(r), line, body);
    BlankLineInside(Print(r) + line + [NUL], body);
    i :| FirstBlankLine(Print(r) + hidden, i);
    NotBeforeBlankLine(Print(r) + hidden, i, hidden);
  }

  lemma SomeCleanRequest()
    ensures Clean(Request("G", "/", "HTTP/", []))
  {
    assert PrintLine(Request("G", "/", "HTTP/", [])) == "G / HTTP/";
  }
}
