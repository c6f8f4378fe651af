/** The in-place request parser: it cuts the receive buffer into C strings by
    writing NULs, and the request it fills in is a set of offsets into that
    buffer. The buffer ends with a NUL at `len`, as the server leaves it. */
module HttpParser {
  import opened HttpText

  /** What an HttpRequest stores, as offsets into the buffer. */
  datatype RawHeader = RawHeader(field: nat, value: nat)
  datatype RawRequest = RawRequest(method_: nat, path: nat, version: nat, headers: seq<RawHeader>)

  /** The C string at an offset. */
  ghost predicate StringAt(b: seq<char>, at: nat, s: string) {
    && at + |s| < |b|
    && b[at..at + |s|] == s
    && b[at + |s|] == NUL
    && NUL !in s
  }

  ghost predicate HeadersAt(b: seq<char>, raw: seq<RawHeader>, hs: seq<Header>) {
    && |raw| == |hs|
    && forall i :: 0 <= i < |hs| ==>
         StringAt(b, raw[i].field, hs[i].field) && StringAt(b, raw[i].value, hs[i].value)
  }

  ghost predicate LineAt(b: seq<char>, path: nat, version: nat, line: RequestLine) {
    line.GoodLine? && StringAt(b, 0, line.method_) && StringAt(b, path, line.path) && StringAt(b, version, line.version)
  }

  ghost predicate RequestAt(b: seq<char>, raw: RawRequest, r: Request) {
    && raw.method_ == 0
    && LineAt(b, raw.path, raw.version, GoodLine(r.method_, r.path, r.version))
    && HeadersAt(b, raw.headers, r.headers)
  }

  // ----- stretches of the buffer ---------------------------------------------

  lemma StringStays(b: seq<char>, b': seq<char>, at: nat, s: string)
    requires StringAt(b, at, s) && b <= b'
    ensures StringAt(b', at, s)
  {
    assert b'[at..at + |s|] == b[at..at + |s|];
  }

  lemma StringIs(b: seq<char>, at: nat, end: nat, top: nat, s: string)
    requires at <= end < top <= |b| && b[at..end] == s && b[end] == NUL && NUL !in s
    ensures StringAt(b[..top], at, s)
  {
    assert b[..top][at..end] == b[at..end];
  }

  lemma HeadersStay(b: seq<char>, b': seq<char>, raw: seq<RawHeader>, hs: seq<Header>)
    requires HeadersAt(b, raw, hs) && b <= b'
    ensures HeadersAt(b', raw, hs)
  {
    forall i | 0 <= i < |hs|
      ensures StringAt(b', raw[i].field, hs[i].field) && StringAt(b', raw[i].value, hs[i].value)
    {
      StringStays(b, b', raw[i].field, hs[i].field);
      StringStays(b, b', raw[i].value, hs[i].value);
    }
  }

  lemma HeadersGrow(b: seq<char>, b': seq<char>, raw: seq<RawHeader>, hs: seq<Header>, x: RawHeader, h: Header)
    requires HeadersAt(b, raw, hs) && b <= b'
    requires StringAt(b', x.field, h.field) && StringAt(b', x.value, h.value)
    ensures HeadersAt(b', raw + [x], hs + [h])
  {
    HeadersStay(b, b', raw, hs);
  }

  lemma SameTail(b: seq<char>, was: seq<char>, cursor: nat, len: nat)
    requires |b| == |was| && cursor <= len < |b| && b[cursor..] == was[cursor..]
    ensures b[cursor..len] == was[cursor..len] && b[len] == was[len]
    ensures forall i :: cursor <= i < |b| ==> b[i] == was[i]
  {
    assert forall i :: cursor <= i < |b| ==> b[i] == b[cursor..][i - cursor];
  }

  lemma SamePrefix(b: seq<char>, was: seq<char>, cursor: nat, start: nat)
    requires |b| == |was| && start <= cursor <= |b| && b[..cursor] == was[..cursor]
    ensures b[..start] == was[..start]
  {
    assert b[..start] == b[..cursor][..start];
    assert was[..start] == was[..cursor][..start];
  }

  lemma SameSuffix(b: seq<char>, was: seq<char>, cursor: nat, next: nat)
    requires |b| == |was| && cursor <= next <= |b| && b[cursor..] == was[cursor..]
    ensures b[next..] == was[next..]
  {
    assert b[next..] == b[cursor..][next - cursor..];
    assert was[next..] == was[cursor..][next - cursor..];
  }

  /** Cutting a stretch of the buffer in two. */
  lemma PutNul(b: seq<char>, start: nat, k: nat, end: nat)
    requires start <= k < end < |b|
    ensures var b' := b[k := NUL];
            && b'[..start] == b[..start] && b'[end..] == b[end..]
            && b'[start..k] == b[start..k] && b'[k + 1..end] == b[k + 1..end]
  {
  }

  // ----- searches ------------------------------------------------------------

  /** What the scan for a line end has found when it stops. */
  lemma LineEndFound(b: seq<char>, start: nat, k: nat, len: nat)
    requires start <= k <= len <= |b| && IsStop(b[start..len], k - start)
    ensures var s := b[start..len];
            CutLine(s) == if CrlfAt(s, k - start) then Cut(b[start..k], b[k + 2..len]) else NoCut
  {
    var s := b[start..len];
    StopIs(s, k - start);
    assert s[..k - start] == b[start..k];
    assert k + 2 <= len ==> s[k - start + 2..] == b[k + 2..len];
  }

  /** strstr from `start` for a line end: its index, or `len`. */
  method FindCrlf(buffer: array<char>, start: nat, len: nat) returns (end: nat)
    requires start <= len < buffer.Length && buffer[len] == NUL
    ensures start <= end <= len
    ensures end == len <==> CutLine(buffer[start..len]).NoCut?
    ensures end < len ==> end + 2 <= len && CutLine(buffer[start..len]) == Cut(buffer[start..end], buffer[end + 2..len])
    ensures end < len ==> NUL !in buffer[start..end]
  {
    ghost var s := buffer[start..len];
    end := start;
    while buffer[end] != NUL && !(buffer[end] == '\r' && buffer[end + 1] == '\n')
      invariant start <= end <= len && Plain(s, end - start)
      decreases len - end
    {
      assert s[end - start] == buffer[end];
      end := end + 1;
    }
    LineEndFound(buffer[..], start, end, len);
    if buffer[end] == NUL {
      end := len;
    } else {
      assert buffer[start..end] == s[..end - start];
    }
  }

  /** What the scan for a character has found when it stops. */
  lemma CharFound(b: seq<char>, start: nat, k: nat, end: nat, c: char)
    requires start <= k <= end <= |b| && c !in b[start..k] && (k < end ==> b[k] == c)
    ensures k < end ==> CutAt(b[start..end], c) == Cut(b[start..k], b[k + 1..end])
    ensures k == end ==> CutAt(b[start..end], c).NoCut?
  {
    if k < end {
      assert b[start..end] == b[start..k] + [c] + b[k + 1..end];
      CutAtJoined(b[start..k], c, b[k + 1..end]);
    } else {
      CutAtIff(b[start..end], c);
    }
  }

  /** strchr from `start` within a line that ends at `end`: its index, or `end`. */
  method FindChar(buffer: array<char>, start: nat, end: nat, c: char) returns (k: nat)
    requires start <= end < buffer.Length && buffer[end] == NUL && NUL !in buffer[start..end] && c != NUL
    ensures start <= k <= end
    ensures k == end <==> CutAt(buffer[start..end], c).NoCut?
    ensures k < end ==> CutAt(buffer[start..end], c) == Cut(buffer[start..k], buffer[k + 1..end])
  {
    k := start;
    while buffer[k] != NUL && buffer[k] != c
      invariant start <= k <= end && c !in buffer[start..k]
      decreases end - k
    {
      assert buffer[start..k + 1] == buffer[start..k] + [buffer[k]];
      k := k + 1;
    }
    assert k < end ==> buffer[start..end][k - start] == buffer[k];
    CharFound(buffer[..], start, k, end, c);
  }

  /** The loop that skips white space before a value; it ends at the NUL. */
  method SkipSpaces(buffer: array<char>, start: nat, end: nat) returns (value: nat)
    requires start <= end < buffer.Length && buffer[end] == NUL && NUL !in buffer[start..end]
    ensures start <= value <= end && buffer[value..end] == Trim(buffer[start..end])
    ensures NUL !in buffer[value..end]
  {
    ghost var s := buffer[start..end];
    assert forall i :: start <= i < end ==> buffer[i] == s[i - start];
    value := start;
    while buffer[value] != NUL && IsSpace(buffer[value])
      invariant start <= value <= end
      invariant forall i :: 0 <= i < value - start ==> IsSpace(s[i])
      decreases end - value
    {
      assert IsSpace(s[value - start]);
      value := value + 1;
    }
    TrimIs(s, value - start);
    assert buffer[value..end] == s[value - start..];
  }

  /** The loop that checks the method name. */
  method CheckUpper(buffer: array<char>, end: nat) returns (ok: bool)
    requires end < buffer.Length && buffer[end] == NUL && NUL !in buffer[..end]
    ensures ok <==> AllUpper(buffer[..end])
  {
    ghost var s := buffer[..end];
    assert forall i :: 0 <= i < end ==> buffer[i] == s[i];
    var p := 0;
    while buffer[p] != NUL
      invariant 0 <= p <= end && forall i :: 0 <= i < p ==> IsUpper(s[i])
      decreases end - p
    {
      if !IsUpper(buffer[p]) { return false; }
      p := p + 1;
    }
    return true;
  }

  /** strncmp against a prefix; a shorter string differs at its NUL. */
  method StartsWith(buffer: array<char>, at: nat, end: nat, prefix: string) returns (ok: bool)
    requires at <= end < buffer.Length && buffer[end] == NUL && NUL !in prefix
    ensures ok <==> prefix <= buffer[at..end]
  {
    ghost var s := buffer[at..end];
    var i := 0;
    while i < |prefix|
      invariant 0 <= i <= |prefix| && i <= end - at && prefix[..i] == s[..i]
    {
      if buffer[at + i] != prefix[i] {
        assert i < end - at ==> s[i] != prefix[i];
        return false;
      }
      assert prefix[i] in prefix;
      i := i + 1;
    }
    assert prefix[..i] == prefix;
    return true;
  }

  // ----- cutting in place ----------------------------------------------------

  lemma NulFreeParts(b: seq<char>, start: nat, k: nat, end: nat)
    requires start <= k < end <= |b| && NUL !in b[start..end]
    ensures NUL !in b[start..k] && NUL !in b[k + 1..end]
  {
    assert b[start..end] == b[start..k] + [b[k]] + b[k + 1..end];
  }

  /** Finds `c` in a line and ends a string there. */
  method SplitAt(buffer: array<char>, start: nat, end: nat, c: char) returns (k: nat)
    requires start <= end < buffer.Length && buffer[end] == NUL && NUL !in buffer[start..end] && c != NUL
    modifies buffer
    ensures start <= k <= end
    ensures buffer[..start] == old(buffer[..start]) && buffer[end..] == old(buffer[end..])
    ensures k == end <==> c !in old(buffer[start..end])
    ensures k < end ==> CutAt(old(buffer[start..end]), c) == Cut(buffer[start..k], buffer[k + 1..end])
    ensures k < end ==> buffer[k] == NUL && NUL !in buffer[start..k] && NUL !in buffer[k + 1..end]
  {
    k := FindChar(buffer, start, end, c);
    CutAtIff(buffer[start..end], c);
    if k < end {
      ghost var b := buffer[..];
      PutNul(b, start, k, end);
      NulFreeParts(b, start, k, end);
      buffer[k] := NUL;
      assert buffer[..] == b[k := NUL];
    }
  }

  /** The method name: ended at the first space, not empty, all upper case. */
  method SplitMethod(buffer: array<char>, end: nat) returns (ok: bool, path: nat)
    requires end < buffer.Length && buffer[end] == NUL && NUL !in buffer[..end]
    modifies buffer
    ensures path <= end && buffer[end..] == old(buffer[end..])
    ensures var a := CutAt(old(buffer[..end]), ' ');
            && (ok <==> GoodMethod(a))
            && (ok ==> StringAt(buffer[..path], 0, a.before) && buffer[path..end] == a.after && NUL !in a.after)
  {
    var space := SplitAt(buffer, 0, end, ' ');
    path := 0;
    CutAtIff(old(buffer[..end]), ' ');
    if space == end { return false, 0; }
    assert space > 0 ==> buffer[0..space][0] == buffer[0];
    if buffer[0] == NUL { return false, 0; }
    ok := CheckUpper(buffer, space);
    path := space + 1;
    StringIs(buffer[..], 0, space, path, buffer[..space]);
  }

  /** The path, ended at the second space, and the version. */
  method SplitTarget(buffer: array<char>, path: nat, end: nat) returns (ok: bool, version: nat)
    requires path <= end < buffer.Length && buffer[end] == NUL && NUL !in buffer[path..end]
    modifies buffer
    ensures buffer[..path] == old(buffer[..path]) && buffer[end..] == old(buffer[end..])
    ensures path <= version <= end
    ensures var b := CutAt(old(buffer[path..end]), ' ');
            && (ok <==> GoodTarget(b))
            && (ok ==> StringAt(buffer[..version], path, b.before) && StringAt(buffer[..end + 1], version, b.after))
  {
    var space := SplitAt(buffer, path, end, ' ');
    CutAtIff(old(buffer[path..end]), ' ');
    if space == end { return false, path; }
    version := space + 1;
    ok := StartsWith(buffer, version, end, "HTTP/");
    StringIs(buffer[..], path, space, version, buffer[path..space]);
    StringIs(buffer[..], version, end, end + 1, buffer[version..end]);
  }

  /** The whole request line, already ended at `end`. */
  method SplitRequestLine(buffer: array<char>, end: nat) returns (ok: bool, path: nat, version: nat)
    requires end < buffer.Length && buffer[end] == NUL && NUL !in buffer[..end]
    modifies buffer
    ensures buffer[end..] == old(buffer[end..])
    ensures var line := ParseLine(old(buffer[..end]));
            && (ok <==> line.GoodLine?)
            && (ok ==> LineAt(buffer[..end + 1], path, version, line))
  {
    ghost var line := buffer[..end];
    ok, path := SplitMethod(buffer, end);
    version := path;
    if !ok { return; }
    ghost var a, name := CutAt(line, ' '), buffer[..path];
    assert buffer[end] == buffer[end..][0];
    ok, version := SplitTarget(buffer, path, end);
    if !ok { return; }
    StringStays(name, buffer[..end + 1], 0, a.before);
    StringStays(buffer[..version], buffer[..end + 1], path, CutAt(a.after, ' ').before);
  }

  /** The two strings of a header line are in the buffer below `top`. */
  ghost predicate HeaderAt(b: seq<char>, top: nat, h: RawHeader, line: string) {
    && top <= |b| && ':' in line
    && StringAt(b[..top], h.field, ParseHeader(line).field)
    && StringAt(b[..top], h.value, ParseHeader(line).value)
  }

  lemma HeaderStrings(b: seq<char>, start: nat, colon: nat, value: nat, end: nat, line: string, h: Header)
    requires start <= colon < value <= end < |b| && b[colon] == NUL && b[end] == NUL
    requires NUL !in h.field && NUL !in h.value && b[start..colon] == h.field && b[value..end] == h.value
    requires ':' in line && ParseHeader(line) == h
    ensures HeaderAt(b, end + 1, RawHeader(start, value), line)
  {
    StringIs(b, start, colon, end + 1, h.field);
    StringIs(b, value, end, end + 1, h.value);
  }

  lemma HeaderStays(b: seq<char>, end: nat, top: nat, h: RawHeader, line: string)
    requires HeaderAt(b, end, h, line) && end <= top <= |b|
    ensures HeaderAt(b, top, h, line)
  {
    StringStays(b[..end], b[..top], h.field, ParseHeader(line).field);
    StringStays(b[..end], b[..top], h.value, ParseHeader(line).value);
  }

  /** Field and value of a line that has been cut at its colon. */
  method FieldAndValue(buffer: array<char>, start: nat, colon: nat, end: nat, ghost line: string) returns (h: RawHeader)
    requires start <= colon < end < buffer.Length && buffer[colon] == NUL && buffer[end] == NUL
    requires NUL !in buffer[start..colon] && NUL !in buffer[colon + 1..end]
    requires CutAt(line, ':') == Cut(buffer[start..colon], buffer[colon + 1..end])
    ensures HeaderAt(buffer[..], end + 1, h, line)
  {
    var value := SkipSpaces(buffer, colon + 1, end);
    ghost var field, text := buffer[start..colon], buffer[value..end];
    HeaderIs(line, field, buffer[colon + 1..end]);
    HeaderStrings(buffer[..], start, colon, value, end, line, Header(field, text));
    h := RawHeader(start, value);
  }

  /** One header line, already ended at `end`. */
  method SplitHeader(buffer: array<char>, start: nat, end: nat) returns (ok: bool, h: RawHeader)
    requires start <= end < buffer.Length && buffer[end] == NUL && NUL !in buffer[start..end]
    modifies buffer
    ensures buffer[..start] == old(buffer[..start]) && buffer[end..] == old(buffer[end..])
    ensures ok <==> ':' in old(buffer[start..end])
    ensures ok ==> HeaderAt(buffer[..], end + 1, h, old(buffer[start..end]))
  {
    var colon := SplitAt(buffer, start, end, ':');
    if colon == end { return false, RawHeader(0, 0); }
    assert buffer[end] == buffer[end..][0];
    h := FieldAndValue(buffer, start, colon, end, old(buffer[start..end]));
    ok := true;
  }

  /** One turn of the header loop: the line from `cursor` is found, ended and cut. */
  method NextHeader(buffer: array<char>, cursor: nat, len: nat) returns (found: bool, ok: bool, h: RawHeader, next: nat)
    requires cursor <= len < buffer.Length && buffer[len] == NUL
    modifies buffer
    ensures cursor <= next <= len && buffer[..cursor] == old(buffer[..cursor]) && buffer[next..] == old(buffer[next..])
    ensures var cut := CutLine(old(buffer[cursor..len]));
            && (found <==> cut.Cut?)
            && (!found ==> next == cursor)
            && (found ==>
                  && cursor < next && cut.after == buffer[next..len]
                  && (ok <==> ':' in cut.before)
                  && (ok ==> HeaderAt(buffer[..], next, h, cut.before)))
  {
    var end := FindCrlf(buffer, cursor, len);
    if end == len { return false, false, RawHeader(0, 0), cursor; }
    ghost var b := buffer[..];
    PutNul(b, cursor, end, len);
    buffer[end] := NUL;
    assert buffer[..] == b[end := NUL];
    found, next := true, end + 2;
    label Ended:
    assert buffer[next..] == b[next..];
    ok, h := SplitHeader(buffer, cursor, end);
    SameSuffix(buffer[..], old@Ended(buffer[..]), end, next);
    SameTail(buffer[..], b, next, len);
    if ok { HeaderStays(buffer[..], end + 1, next, h, b[cursor..end]); }
  }

  /** Halfway through the header loop: the headers so far are strings in the
      buffer, and what is left reads as the rest of `block`. */
  ghost predicate Reading(b: seq<char>, cursor: nat, len: nat, raw: seq<RawHeader>, done: seq<Header>,
                          block: HeaderBlock) {
    && cursor <= len < |b| && b[len] == NUL
    && HeadersAt(b[..cursor], raw, done)
    && block == ParseHeaders(b[cursor..len], done)
  }

  lemma ReadingStep(was: seq<char>, b: seq<char>, cursor: nat, next: nat, len: nat, raw: seq<RawHeader>,
                    done: seq<Header>, block: HeaderBlock, h: RawHeader)
    requires Reading(was, cursor, len, raw, done, block) && !CrlfAt(was[cursor..len], 0)
    requires |b| == |was| && cursor < next <= len && b[..cursor] == was[..cursor] && b[next..] == was[next..]
    requires var cut := CutLine(was[cursor..len]);
             && cut.Cut? && cut.after == b[next..len] && |raw| < MAX_HEADERS
             && HeaderAt(b, next, h, cut.before)
    ensures Reading(b, next, len, raw + [h], done + [ParseHeader(CutLine(was[cursor..len]).before)], block)
  {
    var rest := was[cursor..len];
    LoopContinues(rest, done);
    HeadersGrow(was[..cursor], b[..next], raw, done, h, ParseHeader(CutLine(rest).before));
    SameTail(b, was, next, len);
  }

  /** The header loop. */
  method SplitHeaders(buffer: array<char>, start: nat, len: nat) returns (ok: bool, raw: seq<RawHeader>, cursor: nat)
    requires start <= len < buffer.Length && buffer[len] == NUL
    modifies buffer
    ensures buffer[..start] == old(buffer[..start])
    ensures var block := ParseHeaders(old(buffer[start..len]), []);
            && (ok <==> block.GoodHeaders?)
            && (ok ==>
                  && start <= cursor <= len && buffer[cursor..len] == block.rest
                  && HeadersAt(buffer[..cursor], raw, block.headers))
  {
    raw, cursor := [], start;
    ghost var done: seq<Header> := [];
    ghost var block := ParseHeaders(buffer[start..len], []);
    while cursor < len && !(buffer[cursor] == '\r' && buffer[cursor + 1] == '\n')
      invariant start <= cursor <= len
      invariant buffer[..start] == old(buffer[..start])
      invariant Reading(buffer[..], cursor, len, raw, done, block)
      decreases len - cursor
    {
      ghost var b := buffer[..];
      assert !CrlfAt(b[cursor..len], 0);
      var found, good, h, next := NextHeader(buffer, cursor, len);
      SamePrefix(buffer[..], b, cursor, start);
      if !found {
        LoopEnds(b[cursor..len], done);
        SameTail(buffer[..], b, cursor, len);
        return true, raw, cursor;
      }
      if !good || |raw| >= MAX_HEADERS {
        LoopFails(b[cursor..len], done);
        return false, raw, cursor;
      }
      ReadingStep(b, buffer[..], cursor, next, len, raw, done, block, h);
      raw, done, cursor := raw + [h], done + [ParseHeader(CutLine(b[cursor..len]).before)], next;
    }
    AtHeadersEnd(buffer[..], cursor, len);
    LoopEnds(buffer[cursor..len], done);
    ok := true;
  }

  lemma AtHeadersEnd(b: seq<char>, cursor: nat, len: nat)
    requires cursor <= len < |b| && b[len] == NUL
    requires cursor == len || (b[cursor] == '\r' && b[cursor + 1] == '\n')
    ensures CrlfAt(b[cursor..len], 0) || CutLine(b[cursor..len]).NoCut?
  {
    var rest := b[cursor..len];
    if cursor < len {
      assert cursor + 1 < len;
      assert CrlfAt(rest, 0);
    } else {
      assert rest == [];
    }
  }

  /** The first line is found, measured, ended and cut. */
  method FirstLine(buffer: array<char>, len: nat) returns (ok: bool, path: nat, version: nat, next: nat)
    requires len < buffer.Length && buffer[len] == NUL
    modifies buffer
    ensures next <= len && (ok ==> buffer[next..] == old(buffer[next..]))
    ensures var cut := CutLine(old(buffer[..len]));
            && (ok <==> HeadOk(old(buffer[..len])))
            && (ok ==> cut.after == buffer[next..len] && LineAt(buffer[..next], path, version, ParseLine(cut.before)))
  {
    ok, path, version, next := false, 0, 0, 0;
    assert buffer[..len] == buffer[0..len];
    var end := FindCrlf(buffer, 0, len);
    if end == len || end > MAX_REQUEST_LINE { return; }
    ghost var b := buffer[..];
    PutNul(b, 0, end, len);
    buffer[end] := NUL;
    assert buffer[..] == b[end := NUL];
    assert buffer[..end] == b[0..end];
    label Ended:
    assert buffer[end + 2..] == b[end + 2..];
    ok, path, version := SplitRequestLine(buffer, end);
    if !ok { return; }
    next := end + 2;
    SameSuffix(buffer[..], old@Ended(buffer[..]), end, next);
    SameTail(buffer[..], b, next, len);
    LineStays(buffer[..end + 1], buffer[..next], path, version, ParseLine(b[0..end]));
  }

  /** What parse_http_request promises: it succeeds exactly when the text parses,
      and then the request found in the buffer, after all the writes, is the one
      the text reads as, and `cursor` stands at the rest. */
  ghost predicate ParsedInto(text: string, ok: bool, b: seq<char>, cursor: nat, req: RawRequest) {
    && (ok <==> Parse(text).Good?)
    && (ok ==>
          && cursor <= |text| <= |b| && b[cursor..|text|] == Parse(text).rest
          && RequestAt(b[..cursor], req, Parse(text).request))
  }

  lemma RefusedLine(text: string, b: seq<char>, cursor: nat, req: RawRequest)
    requires !HeadOk(text)
    ensures ParsedInto(text, false, b, cursor, req)
  {
  }

  lemma RefusedHeaders(text: string, b: seq<char>, cursor: nat, req: RawRequest)
    requires HeadOk(text) && ParseHeaders(CutLine(text).after, []).BadHeaders?
    ensures ParsedInto(text, false, b, cursor, req)
  {
  }

  lemma ParsedHeaders(text: string, head: seq<char>, b: seq<char>, cursor: nat, req: RawRequest)
    requires HeadOk(text) && cursor <= |text| <= |b| && head <= b[..cursor] && req.method_ == 0
    requires LineAt(head, req.path, req.version, ParseLine(CutLine(text).before))
    requires var block := ParseHeaders(CutLine(text).after, []);
             block.GoodHeaders? && b[cursor..|text|] == block.rest && HeadersAt(b[..cursor], req.headers, block.headers)
    ensures ParsedInto(text, true, b, cursor, req)
  {
    LineStays(head, b[..cursor], req.path, req.version, ParseLine(CutLine(text).before));
  }

  /** parse_http_request. */
  method ParseHttpRequest(buffer: array<char>, len: nat) returns (ok: bool, req: RawRequest, cursor: nat)
    requires len < buffer.Length && buffer[len] == NUL
    modifies buffer
    ensures ParsedInto(old(buffer[..len]), ok, buffer[..], cursor, req)
  {
    req := RawRequest(0, 0, 0, []);
    ghost var b, text := buffer[..], buffer[..len];
    var path, version;
    ok, path, version, cursor := FirstLine(buffer, len);
    if !ok {
      RefusedLine(text, buffer[..], cursor, req);
      return;
    }
    SameTail(buffer[..], b, cursor, len);
    ghost var head := buffer[..cursor];
    var raw;
    ok, raw, cursor := SplitHeaders(buffer, cursor, len);
    if !ok {
      RefusedHeaders(text, buffer[..], cursor, req);
      return;
    }
    req := RawRequest(0, path, version, raw);
    assert head <= buffer[..cursor];
    ParsedHeaders(text, head, buffer[..], cursor, req);
  }

  lemma LineStays(b: seq<char>, b': seq<char>, path: nat, version: nat, line: RequestLine)
    requires LineAt(b, path, version, line) && b <= b'
    ensures LineAt(b', path, version, line)
  {
    StringStays(b, b', 0, line.method_);
    StringStays(b, b', path, line.path);
    StringStays(b, b', version, line.version);
  }

  /** find_header_end: the index just past the first blank line, or -1. */
  method FindHeaderEnd(buffer: array<char>, len: nat) returns (end: int)
    requires len <= buffer.Length
    ensures end == -1 || (4 <= end <= len && FirstBlankLine(buffer[..len], end - 4))
    ensures end == -1 <==> forall i: nat :: !FirstBlankLine(buffer[..len], i)
  {
    if len < 4 { return -1; }
    var i := 0;
    while i + 3 < len
      invariant 0 <= i <= len - 3
      invariant forall j :: 0 <= j < i ==> !BlankLineAt(buffer[..len], j)
    {
      if buffer[i] == '\r' && buffer[i + 1] == '\n' && buffer[i + 2] == '\r' && buffer[i + 3] == '\n' {
        assert FirstBlankLine(buffer[..len], i);
        return i + 4;
      }
      i := i + 1;
    }
    return -1;
  }
}
