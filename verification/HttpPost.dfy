/** A snapshot posted to the simulated web server: the request the CLI prints, and the server that reads it
    back from a byte stream cut into any chunks.
 */
module HttpPost {
  import opened CLang
  import opened Decimal
  import opened LineFraming
  import opened Pixels
  import opened Text
  import Multipart

  const MAX_REQUEST := 15000
  const MAX_REQ := 262144
  const CHUNK := 16384
  const NPOS := ULONG_MAX

  const MARKER := "content-length:"

  /** From the path to the length header. */
  const BETWEEN := " HTTP/1.1" + CRLF + "Host: x" + CRLF + "X-Agentgauge: 1" + CRLF

  /** The bytes `sim_wifi_post` sends. */
  function PostText(path: string, body: string): string {
    "POST " + path + BETWEEN + "Content-Length:" + (" " + Print(|body|)) + BLANK + body
  }

  // ---- What the server makes of a request ----

  datatype Request = Request(verb: string, path: string, body: string, headers: map<string, string>)

  /** The declared body length, as the accumulating loop finds it; NPOS when there is none. */
  function LengthSeen(head: string): nat {
    var low := Lower(head);
    var cp := Find(low, MARKER, 0);
    if cp == -1 then NPOS else Strtoul(CString(low[cp + |MARKER|..]))
  }

  /** The loop's test that nothing more need be read. */
  predicate Complete(req: string) {
    var he := Find(req, BLANK, 0);
    he != -1 && var n := LengthSeen(req[..he]); n == NPOS || |req| - (he + 4) >= n
  }

  function TrimLeft(s: string): string {
    if s != "" && (s[0] == ' ' || s[0] == '\t') then TrimLeft(s[1..]) else s
  }

  function AddHeader(m: map<string, string>, line: string): map<string, string> {
    var colon := Find(line, ":", 0);
    if colon == -1 then m else m[Lower(line[..colon]) := TrimLeft(line[colon + 1..])]
  }

  /** The header lines from a position up to the limit; a repeated key keeps its last value. */
  function Collect(req: string, at: nat, limit: nat, m: map<string, string>): map<string, string>
    decreases limit - at
  {
    if at >= limit then m
    else
      var eol := Find(req, CRLF, at);
      if eol == -1 || eol > limit then m else Collect(req, eol + 2, limit, AddHeader(m, req[at..eol]))
  }

  function Cut(s: string, i: nat, n: nat): string
    requires i <= |s|
  {
    if n <= |s| - i then s[i..i + n] else s[i..]
  }

  function Parse(req: string, length: nat): Request {
    var sp, he := Find(req, " ", 0), Find(req, BLANK, 0);
    var verb := if sp == -1 then req else req[..sp];
    var path := if sp == -1 then "" else
                  var p2 := Find(req, " ", sp + 1); if p2 == -1 then req[sp + 1..] else req[sp + 1..p2];
    var body := if he == -1 then "" else if length == NPOS then req[he + 4..] else Cut(req, he + 4, length);
    var start := Find(req, CRLF, 0);
    Request(verb, path, body, if start == -1 then map[] else Collect(req, start + 2, if he == -1 then |req| else he, map[]))
  }

  // ---- Heads made of clean lines ----

  predicate Clean(line: string) { line != "" && '\r' !in line && '\n' !in line }

  ghost predicate AllClean(lines: seq<string>) {
    forall i :: 0 <= i < |lines| ==> Clean(lines[i])
  }

  function Head(lines: seq<string>): string {
    if lines == [] then CRLF else lines[0] + CRLF + Head(lines[1..])
  }

  /** The line break after a clean line is the first one there. */
  lemma FirstBreak(line: string, tail: string)
    requires Clean(line)
    ensures line != "" && Find(line + CRLF + tail, CRLF, 0) == |line|
  {
    var t := line + CRLF + tail;
    assert t[|line|..|line| + 2] == CRLF;
    assert At(t, CRLF, |line|);
    assert forall k :: 0 <= k < |line| ==> t[k] == line[k] && line[k] in line;
    forall k | 0 <= k < |line|
      ensures !At(t, CRLF, k)
    {
      if At(t, CRLF, k) {
        StartsThere(t, CRLF, k);
      }
    }
  }

  /** The first blank line is the one that ends the head, whatever the body holds. */
  lemma {:induction false} HeadEnds(lines: seq<string>, body: string)
    requires lines != [] && AllClean(lines)
    ensures |Head(lines)| >= 4 && Find(Head(lines) + body, BLANK, 0) == |Head(lines)| - 4
  {
    hide Find, At;
    var line, tail := lines[0], Head(lines[1..]) + body;
    var t := Head(lines) + body;
    assert t == line + CRLF + tail;
    NoBlankBefore(line, tail);
    if |lines| == 1 {
      assert tail == CRLF + body;
      BlankHere(line, body);
    } else {
      HeadEnds(lines[1..], body);
      assert tail[0] == lines[1][0] && lines[1][0] in lines[1];
      FindShift(line + CRLF, tail, BLANK, 0);
      SkipTo(t, BLANK, |line| + 2);
    }
  }

  lemma BlankHere(line: string, body: string)
    requires Clean(line)
    ensures Find(line + CRLF + (CRLF + body), BLANK, 0) == |line|
  {
    hide Find;
    var t := line + CRLF + (CRLF + body);
    NoBlankBefore(line, CRLF + body);
    BlankJoins(line, CRLF, CRLF, body);
    AtShift(line, BLANK + body, BLANK, 0);
    hide At;
    FoundAt(t, BLANK, |line|);
  }

  lemma BlankJoins(line: string, a: string, b: string, body: string)
    requires a + b == BLANK
    ensures line + a + (b + body) == line + (BLANK + body) && At(BLANK + body, BLANK, 0)
  {
    assert a + (b + body) == BLANK + body;
    assert (BLANK + body)[0..4] == BLANK;
  }

  lemma SkipTo(t: string, pat: string, from: nat)
    requires forall k :: 0 <= k < from ==> !At(t, pat, k)
    ensures Find(t, pat, 0) == Find(t, pat, from)
  {
  }

  lemma NoBlankBefore(line: string, tail: string)
    requires Clean(line)
    ensures var t := line + CRLF + tail;
            && (forall k :: 0 <= k < |line| ==> !At(t, BLANK, k)) && !At(t, BLANK, |line| + 1)
            && (tail != "" && tail[0] != '\r' ==> !At(t, BLANK, |line|))
  {
    var t := line + CRLF + tail;
    assert forall k :: 0 <= k < |line| ==> t[k] == line[k] && line[k] in line;
    assert t[|line| + 1] == '\n' && (tail != "" ==> t[|line| + 2] == tail[0]);
    forall k | 0 <= k <= |line| + 1
      ensures At(t, BLANK, k) ==> k == |line| && tail != "" && tail[0] == '\r'
    {
      if At(t, BLANK, k) {
        StartsThere(t, BLANK, k);
        assert k < |line| || k == |line| || k == |line| + 1;
        assert k == |line| ==> t[k + 2] == t[k..k + 4][2];
      }
    }
  }

  /** What a list of header lines means. */
  function Fold(lines: seq<string>, m: map<string, string>): map<string, string> {
    if lines == [] then m else Fold(lines[1..], AddHeader(m, lines[0]))
  }

  /** The server collects exactly the header lines, body or no body. */
  lemma {:induction false} CollectsLines(pre: string, lines: seq<string>, body: string, m: map<string, string>)
    requires lines != [] && AllClean(lines)
    ensures |Head(lines)| >= 4
    ensures Collect(pre + Head(lines) + body, |pre|, |pre| + |Head(lines)| - 4, m) == Fold(lines, m)
    decreases |lines|
  {
    hide Find, AddHeader, At, Clean;
    var line, tail := lines[0], Head(lines[1..]) + body;
    var req, limit, m1 := pre + Head(lines) + body, |pre| + |Head(lines)| - 4, AddHeader(m, line);
    HeadEnds(lines, body);
    assert req == pre + (line + CRLF + tail);
    FirstBreak(line, tail);
    FindShift(pre, line + CRLF + tail, CRLF, 0);
    var next := pre + line + CRLF;
    assert req == next + Head(lines[1..]) + body;
    assert req[|pre|..|pre| + |line|] == line;
    assert Collect(req, |pre|, limit, m) == Collect(req, |next|, limit, m1);
    if |lines| > 1 {
      CollectsLines(next, lines[1..], body, m1);
    } else {
      assert Fold(lines[1..], m1) == m1;
    }
  }

  lemma AddsHeader(m: map<string, string>, key: string, value: string)
    requires ':' !in key && value != "" && value[0] != ' ' && value[0] != '\t'
    ensures AddHeader(m, key + ": " + value) == m[Lower(key) := value]
  {
    var line := key + ": " + value;
    assert line[|key|..|key| + 1] == ":";
    assert At(line, ":", |key|);
    assert forall k :: 0 <= k < |key| ==> line[k] == key[k] && key[k] in key;
    forall k | 0 <= k < |key|
      ensures !At(line, ":", k)
    {
      if At(line, ":", k) {
        StartsThere(line, ":", k);
      }
    }
    assert Find(line, ":", 0) == |key|;
    assert line[..|key|] == key && line[|key| + 1..] == " " + value;
    assert (" " + value)[1..] == value;
    assert TrimLeft(" " + value) == TrimLeft(value) == value;
  }

  function PostLines(path: string, n: nat): seq<string> {
    ["POST " + path + " HTTP/1.1"] + HeaderLines(n)
  }

  function HeaderLines(n: nat): seq<string> {
    ["Host: x", "X-Agentgauge: 1", "Content-Length:" + (" " + Print(n))]
  }

  function PostHeaders(n: nat): map<string, string> {
    map["host" := "x", "x-agentgauge" := "1", "content-length" := Print(n)]
  }

  lemma KnownKeys()
    ensures Lower("Host") == "host" && Lower("X-Agentgauge") == "x-agentgauge" && Lower("Content-Length") == "content-length"
    ensures ':' !in "Host" && ':' !in "X-Agentgauge" && ':' !in "Content-Length"
  {
  }

  /** The printed headers come back, keys in lower case. */
  lemma HeadersComeBack(n: nat)
    ensures Fold(HeaderLines(n), map[]) == PostHeaders(n)
  {
    hide AddHeader, Lower;
    KnownKeys();
    var lines := HeaderLines(n);
    var m1: map<string, string> := map["host" := "x"];
    var m2 := m1["x-agentgauge" := "1"];
    assert IsDigit(Print(n)[0]);
    AddsHeader(map[], "Host", "x");
    assert lines[0] == "Host" + ": " + "x";
    AddsHeader(m1, "X-Agentgauge", "1");
    assert lines[1] == "X-Agentgauge" + ": " + "1";
    AddsHeader(m2, "Content-Length", Print(n));
    assert lines[2] == "Content-Length" + ": " + Print(n) by {
      assert "Content-Length:" == "Content-Length" + ":" && ": " == ":" + " ";
    }
    assert lines == [lines[0], lines[1], lines[2]];
    assert Fold(lines, map[]) == Fold(lines[1..], m1) == Fold(lines[2..], m2);
    assert lines[2..] == [lines[2]] && lines[3..] == [];
    assert Fold(lines[2..], m2) == Fold(lines[3..], m2["content-length" := Print(n)]);
  }

  // ---- The posted request ----

  /** A path the request line can carry. */
  predicate CleanPath(path: string) { ' ' !in path && '\r' !in path && '\n' !in path }

  lemma HeadOfFour(a: string, b: string, c: string, d: string)
    ensures Head([a, b, c, d]) == a + CRLF + b + CRLF + c + CRLF + d + BLANK
  {
    assert CRLF + CRLF == BLANK;
    assert [a, b, c, d][1..] == [b, c, d] && [b, c, d][1..] == [c, d] && [c, d][1..] == [d] && [d][1..] == [];
    assert Head([d]) == d + CRLF + CRLF;
    assert Head([c, d]) == c + CRLF + Head([d]);
    assert Head([b, c, d]) == b + CRLF + Head([c, d]);
  }

  lemma Regroup(verb: string, path: string, version: string, host: string, tag: string, name: string, number: string)
    ensures (verb + path + version) + CRLF + host + CRLF + tag + CRLF + (name + number) + BLANK ==
            verb + path + (version + CRLF + host + CRLF + tag + CRLF) + name + number + BLANK
  {
  }

  /** The posted text is a head of four clean lines and the body. */
  lemma PostIsHead(path: string, body: string)
    ensures PostText(path, body) == Head(PostLines(path, |body|)) + body
  {
    var number := " " + Print(|body|);
    HeadOfFour("POST " + path + " HTTP/1.1", "Host: x", "X-Agentgauge: 1", "Content-Length:" + number);
    Regroup("POST ", path, " HTTP/1.1", "Host: x", "X-Agentgauge: 1", "Content-Length:", number);
  }

  lemma PostLinesClean(path: string, n: nat)
    requires CleanPath(path)
    ensures AllClean(PostLines(path, n)) && AllClean(HeaderLines(n))
  {
    assert forall i :: 0 <= i < |Print(n)| ==> IsDigit(Print(n)[i]);
    assert Clean(Print(n));
    CleanJoin("POST ", path + " HTTP/1.1");
    CleanJoin("Content-Length:", " " + Print(n));
    FixedLinesClean();
    assert Clean("POST " + path + " HTTP/1.1") by {
      assert "POST " + path + " HTTP/1.1" == "POST " + (path + " HTTP/1.1");
      assert forall c: char :: c in path + " HTTP/1.1" <==> c in path || c in " HTTP/1.1";
    }
    var lines := HeaderLines(n);
    assert Clean(lines[0]) && Clean(lines[1]) && Clean(lines[2]);
    assert forall i :: 1 <= i < 4 ==> PostLines(path, n)[i] == lines[i - 1];
  }

  lemma FixedLinesClean()
    ensures Clean("Host: x") && Clean("X-Agentgauge: 1") && Clean("POST ") && Clean("Content-Length:") && Clean(" HTTP/1.1")
  {
  }

  lemma CleanJoin(a: string, b: string)
    requires a != ""
    ensures '\r' !in a && '\r' !in b && '\n' !in a && '\n' !in b ==> Clean(a + b)
  {
    assert forall c: char :: c in a + b <==> c in a || c in b;
  }

  /** The request line gives back the verb and the path. */
  lemma StartLine(path: string, tail: string)
    requires CleanPath(path)
    ensures var t := "POST " + path + " HTTP/1.1" + tail;
            && Find(t, " ", 0) == 4 && Find(t, " ", 5) == 5 + |path|
            && t[..4] == "POST" && t[5..5 + |path|] == path
  {
    var t := "POST " + path + " HTTP/1.1" + tail;
    assert t[4..5] == " " && t[5 + |path|..6 + |path|] == " ";
    assert At(t, " ", 4) && At(t, " ", 5 + |path|);
    assert forall k :: 0 <= k < 4 ==> t[k] == "POST"[k];
    assert forall k :: 5 <= k < 5 + |path| ==> t[k] == path[k - 5] && path[k - 5] in path;
    forall k | 0 <= k < 5 + |path| && k != 4
      ensures !At(t, " ", k)
    {
      if At(t, " ", k) {
        StartsThere(t, " ", k);
      }
    }
  }

  /** The marker cannot start before it without starting inside the path. */
  lemma MarkerAt(a: string, p: string, m: string, rest: string)
    requires 'c' !in a && 'c' !in m && m != "" && m[0] == ' ' && !Contains(p, MARKER)
    ensures Find(a + p + m + MARKER + rest, MARKER, 0) == |a| + |p| + |m|
  {
    var t := a + p + m + MARKER + rest;
    var end := |a| + |p| + |m|;
    assert t[end..end + |MARKER|] == MARKER;
    assert At(t, MARKER, end);
    assert forall k :: 0 <= k < |a| ==> t[k] == a[k] && a[k] in a;
    assert forall k :: |a| + |p| <= k < end ==> t[k] == m[k - |a| - |p|] && m[k - |a| - |p|] in m;
    forall k | 0 <= k < end
      ensures !At(t, MARKER, k)
    {
      if |a| <= k < |a| + |p| {
        NotInPath(a, p, m + MARKER + rest, k - |a|);
        assert t == a + (p + (m + MARKER + rest));
      } else if At(t, MARKER, k) {
        StartsThere(t, MARKER, k);
      }
    }
  }

  lemma NotInPath(a: string, p: string, rest: string, k: nat)
    requires k < |p| && !Contains(p, MARKER) && rest != "" && rest[0] == ' '
    ensures !At(a + (p + rest), MARKER, |a| + k)
  {
    AtShift(a, p + rest, MARKER, k);
    if k + |MARKER| <= |p| {
      AtInPrefix(p, p + rest, MARKER, k);
    } else if At(p + rest, MARKER, k) {
      SpaceNotInMarker();
      InsideOccurrence(p + rest, MARKER, k, |p|);
    }
  }

  lemma SpaceNotInMarker()
    ensures ' ' !in MARKER && Lower("Content-Length:") == MARKER
    ensures 'c' !in Lower("POST ") && 'c' !in Lower(" HTTP/1.1") && 'c' !in Lower("Host: x") && 'c' !in Lower("X-Agentgauge: 1")
    ensures 'c' !in Lower(CRLF) && Lower(" HTTP/1.1")[0] == ' '
  {
  }

  lemma BetweenHasNoC()
    ensures 'c' !in Lower(BETWEEN) && BETWEEN != "" && Lower(BETWEEN)[0] == ' '
  {
    hide Lower;
    SpaceNotInMarker();
    LowerJoin(" HTTP/1.1", CRLF);
    LowerJoin(" HTTP/1.1" + CRLF, "Host: x");
    LowerJoin(" HTTP/1.1" + CRLF + "Host: x", CRLF);
    LowerJoin(" HTTP/1.1" + CRLF + "Host: x" + CRLF, "X-Agentgauge: 1");
    LowerJoin(" HTTP/1.1" + CRLF + "Host: x" + CRLF + "X-Agentgauge: 1", CRLF);
  }

  /** The part of a posted request before its blank line. */
  function PostStart(path: string, n: nat): string {
    "POST " + path + BETWEEN + "Content-Length:" + (" " + Print(n))
  }

  lemma LowerNumber(n: nat)
    requires n < NPOS
    ensures Strtoul(CString(Lower(" " + Print(n)))) == n
  {
    var s := " " + Print(n);
    assert forall i :: 1 <= i < |s| ==> s[i] == Print(n)[i - 1] && IsDigit(s[i]);
    assert Lower(s) == s && NUL !in s;
    CStringWhole(s);
    SpacedPrintReads(n);
  }

  /** The loop reads the length header, unless the path itself holds the marker. */
  lemma LengthRead(path: string, n: nat)
    requires !Contains(Lower(path), MARKER) && n < NPOS
    ensures LengthSeen(PostStart(path, n)) == n
  {
    hide Lower, Strtoul, CString, Find;
    var number := " " + Print(n);
    LowerJoin("POST ", path);
    LowerJoin("POST " + path, BETWEEN);
    LowerJoin("POST " + path + BETWEEN, "Content-Length:");
    LowerJoin("POST " + path + BETWEEN + "Content-Length:", number);
    SpaceNotInMarker();
    BetweenHasNoC();
    var a, p, m, rest := Lower("POST "), Lower(path), Lower(BETWEEN), Lower(number);
    MarkerAt(a, p, m, rest);
    var low := Lower(PostStart(path, n));
    assert low == a + p + m + MARKER + rest;
    assert low[|a| + |p| + |m| + |MARKER|..] == rest;
    LowerNumber(n);
  }

  lemma HeadText(path: string, n: nat)
    ensures Head(PostLines(path, n)) == PostStart(path, n) + BLANK
  {
    var number := " " + Print(n);
    HeadOfFour("POST " + path + " HTTP/1.1", "Host: x", "X-Agentgauge: 1", "Content-Length:" + number);
    Regroup("POST ", path, " HTTP/1.1", "Host: x", "X-Agentgauge: 1", "Content-Length:", number);
  }

  lemma CutsBody(head: string, part: string, length: nat)
    ensures Cut(head + part, |head|, length) == Cut(part, 0, length)
  {
  }

  lemma PostBlank(path: string, n: nat, part: string)
    requires CleanPath(path)
    ensures var head := Head(PostLines(path, n));
            |head| >= 4 && Find(head + part, BLANK, 0) == |head| - 4 && (head + part)[..|head| - 4] == PostStart(path, n)
  {
    hide Find, Head, PostLines, PostStart;
    PostLinesClean(path, n);
    assert PostLines(path, n) != [] by {
      SomeLines(path, n);
    }
    HeadEnds(PostLines(path, n), part);
    HeadText(path, n);
  }

  lemma SomeLines(path: string, n: nat)
    ensures PostLines(path, n) != [] && PostLines(path, n)[0] == "POST " + path + " HTTP/1.1"
    ensures PostLines(path, n)[1..] == HeaderLines(n)
  {
  }

  lemma PostLineAndHeaders(path: string, n: nat, part: string)
    requires CleanPath(path)
    ensures var req, limit := Head(PostLines(path, n)) + part, |Head(PostLines(path, n))| - 4;
            && Find(req, " ", 0) == 4 && Find(req, " ", 5) == 5 + |path| && req[..4] == "POST" && req[5..5 + |path|] == path
            && Find(req, CRLF, 0) == |"POST " + path + " HTTP/1.1"|
            && limit >= 0 && Collect(req, Find(req, CRLF, 0) + 2, limit, map[]) == PostHeaders(n)
  {
    hide Find, Fold, Collect, HeaderLines, PostLines, PostHeaders;
    SomeLines(path, n);
    PostLinesClean(path, n);
    var start, head := "POST " + path + " HTTP/1.1", Head(PostLines(path, n));
    var rest := Head(HeaderLines(n)) + part;
    assert head == start + CRLF + Head(HeaderLines(n));
    assert head + part == start + CRLF + rest;
    assert head + part == start + (CRLF + rest);
    assert head + part == (start + CRLF) + Head(HeaderLines(n)) + part;
    StartIsClean(path);
    FirstBreak(start, rest);
    StartLine(path, CRLF + rest);
    SomeHeaders(n);
    CollectsLines(start + CRLF, HeaderLines(n), part, map[]);
    HeadersComeBack(n);
  }

  lemma SomeHeaders(n: nat)
    ensures HeaderLines(n) != []
  {
  }

  lemma StartIsClean(path: string)
    requires CleanPath(path)
    ensures Clean("POST " + path + " HTTP/1.1")
  {
    PostLinesClean(path, 0);
    SomeLines(path, 0);
  }

  /** A posted request of which the head and some of the body arrived: everything but the body is exact. */
  lemma PostParses(path: string, n: nat, part: string, length: nat)
    requires CleanPath(path)
    ensures Parse(Head(PostLines(path, n)) + part, length) ==
            Request("POST", path, if length == NPOS then part else Cut(part, 0, length), PostHeaders(n))
  {
    hide Find, Fold, Collect, PostLines, PostHeaders, PostStart, Head;
    PostBlank(path, n, part);
    PostLineAndHeaders(path, n, part);
    CutsBody(Head(PostLines(path, n)), part, length);
  }

  /** Arrived bytes the loop can stop at without a failed read, short of its size limit. */
  predicate Stops(wire: string, received: nat)
    requires received <= |wire|
  {
    received == |wire| || Complete(wire[..received])
  }

  /** Wherever the loop stops in a posted request, the head is in, and the server sees the verb, the path and the
      headers. The body is what the length it read leaves of it; without a length, what has arrived. */
  lemma PostArrives(path: string, body: string, received: nat)
    requires CleanPath(path)
    requires received <= |PostText(path, body)| && Stops(PostText(path, body), received)
    ensures var length, head := LengthSeen(PostStart(path, |body|)), |PostText(path, body)| - |body|;
            && 0 <= head <= received
            && Parse(PostText(path, body)[..received], length) ==
               Request("POST", path, if length == NPOS then body[..received - head] else Cut(body, 0, length),
                       PostHeaders(|body|))
  {
    hide Parse, LengthSeen, Find, PostHeaders, PostStart, Head, PostLines;
    var wire, head := PostText(path, body), Head(PostLines(path, |body|));
    var length := LengthSeen(PostStart(path, |body|));
    PostIsHead(path, body);
    var req := wire[..received];
    PostBlank(path, |body|, body);
    FindInPrefix(req, wire, BLANK);
    assert received >= |head|;
    var part := body[..received - |head|];
    assert wire == head + body && req == head + part;
    PostParses(path, |body|, part, length);
    PostBlank(path, |body|, part);
    assert length != NPOS ==> Cut(part, 0, length) == Cut(body, 0, length);
  }

  /** Without a length the loop can stop as soon as the head is in. */
  lemma StopsAtHead(path: string, body: string)
    requires CleanPath(path) && LengthSeen(PostStart(path, |body|)) == NPOS
    ensures var head := |PostText(path, body)| - |body|; head >= 0 && Stops(PostText(path, body), head)
  {
    hide LengthSeen, Find, PostStart, Head, PostLines;
    PostIsHead(path, body);
    PostBlank(path, |body|, "");
    var head := Head(PostLines(path, |body|));
    assert head + "" == head;
    assert PostText(path, body)[..|head|] == head;
  }

  /** The body is exact wherever the loop stops. */
  ghost predicate AlwaysExact(path: string, body: string) {
    forall received :: 0 <= received <= |PostText(path, body)| && Stops(PostText(path, body), received) ==>
      Parse(PostText(path, body)[..received], LengthSeen(PostStart(path, |body|))).body == body
  }

  /** That is so exactly when the length read is one and at least the real one, or there is no body. */
  lemma ExactExactly(path: string, body: string)
    requires CleanPath(path)
    ensures AlwaysExact(path, body) <==> body == "" || |body| <= LengthSeen(PostStart(path, |body|)) < NPOS
  {
    hide Parse, LengthSeen, PostStart, PostText;
    var length := LengthSeen(PostStart(path, |body|));
    LengthInRange(PostStart(path, |body|));
    forall received | 0 <= received <= |PostText(path, body)| && Stops(PostText(path, body), received)
      ensures body == "" || |body| <= length < NPOS ==>
                Parse(PostText(path, body)[..received], length).body == body
    {
      PostArrives(path, body, received);
    }
    var some := |PostText(path, body)|;
    if length == NPOS {
      StopsAtHead(path, body);
      some := |PostText(path, body)| - |body|;
    }
    PostArrives(path, body, some);
  }

  lemma LengthInRange(head: string)
    ensures LengthSeen(head) <= NPOS
  {
  }

  /** For a path that does not hold the marker, the body is exact. */
  lemma PostIsExact(path: string, body: string, received: nat)
    requires CleanPath(path) && !Contains(Lower(path), MARKER) && |body| < NPOS
    requires received <= |PostText(path, body)| && Stops(PostText(path, body), received)
    ensures LengthSeen(PostStart(path, |body|)) == |body|
    ensures Parse(PostText(path, body)[..received], |body|) == Request("POST", path, body, PostHeaders(|body|))
  {
    hide Parse, LengthSeen, Contains, PostHeaders, PostStart, PostText;
    LengthRead(path, |body|);
    PostArrives(path, body, received);
  }

  lemma MarkerPaths()
    ensures CleanPath("/content-length:0") && Lower("/content-length:0") == "/content-length:0" == "/" + MARKER + "0"
    ensures CleanPath("/content-length:-1") && Lower("/content-length:-1") == "/content-length:-1" == "/" + MARKER + "-1"
  {
  }

  /** A length is read out of the path, in front of the real header. */
  lemma MarkerPathLength(path: string, number: string, n: nat)
    requires Lower(path) == "/" + MARKER + number
    ensures exists rest :: rest != "" && rest[0] == ' ' && LengthSeen(PostStart(path, n)) == Strtoul(CString(number + rest))
  {
    hide Find, Lower, LengthSeen, Strtoul, CString;
    var printed := " " + Print(n);
    SpaceNotInMarker();
    BetweenHasNoC();
    Grouped("POST ", path, BETWEEN, "Content-Length:", printed);
    var rest := BETWEEN + "Content-Length:" + printed;
    LowerJoin(BETWEEN, "Content-Length:" + printed);
    assert rest == BETWEEN + ("Content-Length:" + printed);
    assert Lower(rest)[0] == ' ';
    MarkerFirst("POST ", path, number, rest, PostStart(path, n));
  }

  lemma Grouped(a: string, b: string, c: string, d: string, e: string)
    ensures a + b + c + d + e == a + b + (c + d + e)
  {
  }

  lemma MarkerFirst(verb: string, path: string, number: string, rest: string, head: string)
    requires head == verb + path + rest && Lower(path) == "/" + MARKER + number && 'c' !in Lower(verb)
    ensures LengthSeen(head) == Strtoul(CString(number + Lower(rest)))
  {
    hide Find, Strtoul, CString;
    LowerJoin(verb, path);
    LowerJoin(verb + path, rest);
    var a, low := Lower(verb) + "/", Lower(head);
    assert low == a + (MARKER + (number + Lower(rest)));
    FirstMarker(a, number + Lower(rest));
    assert low[|a| + |MARKER|..] == number + Lower(rest);
  }

  lemma FirstMarker(a: string, rest: string)
    requires 'c' !in a
    ensures Find(a + (MARKER + rest), MARKER, 0) == |a|
  {
    hide Find;
    var t := a + (MARKER + rest);
    AtShift(a, MARKER + rest, MARKER, 0);
    AtStart(MARKER, rest);
    assert forall k :: 0 <= k < |a| ==> t[k] == a[k] && a[k] in a;
    forall k | 0 <= k < |a|
      ensures !At(t, MARKER, k)
    {
      if At(t, MARKER, k) {
        StartsThere(t, MARKER, k);
      }
    }
    FoundAt(t, MARKER, |a|);
  }

  lemma AtStart(pat: string, rest: string)
    ensures At(pat + rest, pat, 0)
  {
  }

  lemma ZeroThenSpace(rest: string)
    requires rest != "" && rest[0] == ' '
    ensures Strtoul(CString("0" + rest)) == 0
  {
    var c := CString("0" + rest);
    assert ("0" + rest)[1..] == rest;
    assert c == ['0'] + CString(rest) && CString(rest) == [' '] + CString(rest[1..]);
    assert c[0] == '0' && c[1] == ' ';
    assert SkipSpaces(c, 0) == 0 && DigitsEnd(c, 0) == 1;
    assert c[0..1] == "0" && c[0..1][..0] == "" && Value("") == 0;
  }

  lemma MinusOneThenSpace(rest: string)
    requires rest != "" && rest[0] == ' '
    ensures Strtoul(CString("-1" + rest)) == NPOS
  {
    var c := CString("-1" + rest);
    assert ("-1" + rest)[1..] == "1" + rest && ("1" + rest)[1..] == rest;
    assert c == ['-'] + (['1'] + CString(rest)) && CString(rest) == [' '] + CString(rest[1..]);
    assert c[0] == '-' && c[1] == '1' && c[2] == ' ';
    assert SkipSpaces(c, 0) == 0 && DigitsEnd(c, 1) == 2;
    assert c[1..2] == "1" && Value("1") == 1;
  }

  /** For one that does, it can be cut. */
  lemma MarkerInPathCuts(body: string, received: nat)
    requires received <= |PostText("/content-length:0", body)| && Stops(PostText("/content-length:0", body), received)
    ensures CleanPath("/content-length:0")
    ensures Parse(PostText("/content-length:0", body)[..received], 0).body == ""
  {
    hide Parse, LengthSeen, PostStart, PostText, CString, Strtoul;
    MarkerPaths();
    MarkerPathLength("/content-length:0", "0", |body|);
    forall rest | rest != "" && rest[0] == ' '
      ensures Strtoul(CString("0" + rest)) == 0
    {
      ZeroThenSpace(rest);
    }
    PostArrives("/content-length:0", body, received);
  }

  /** A negative number wraps to the value that stands for "no length": the loop stops behind the head, and the
      whole body is lost. */
  lemma NegativeLengthLosesBody(body: string)
    ensures CleanPath("/content-length:-1") && LengthSeen(PostStart("/content-length:-1", |body|)) == NPOS
    ensures var wire := PostText("/content-length:-1", body);
            Stops(wire, |wire| - |body|) && Parse(wire[..|wire| - |body|], NPOS).body == ""
  {
    hide Parse, LengthSeen, PostStart, PostText, CString, Strtoul;
    MarkerPaths();
    MarkerPathLength("/content-length:-1", "-1", |body|);
    forall rest | rest != "" && rest[0] == ' '
      ensures Strtoul(CString("-1" + rest)) == NPOS
    {
      MinusOneThenSpace(rest);
    }
    StopsAtHead("/content-length:-1", body);
    PostArrives("/content-length:-1", body, |PostText("/content-length:-1", body)| - |body|);
  }

  predicate LengthKnown(req: string, length: nat) {
    var he := Find(req, BLANK, 0); he != -1 && length == LengthSeen(req[..he])
  }

  /** More bytes do not move the head's end. */
  lemma HeadStays(req: string, longer: string, length: nat)
    requires req <= longer
    ensures LengthKnown(req, length) ==> LengthKnown(longer, length)
  {
    hide Find, LengthSeen;
    FindInPrefix(req, longer, BLANK);
    if LengthKnown(req, length) {
      var he := Find(req, BLANK, 0);
      assert req[..he] == longer[..he];
    }
  }

  /** What the server calls into the firmware for. */
  datatype Call = UploadStage(seen: Multipart.Upload) | Finish(path: string) | NotFound

  function StageCalls(f: Multipart.File): seq<Call> {
    var s := Multipart.Stages(f);
    [UploadStage(s[0]), UploadStage(s[1]), UploadStage(s[2])]
  }

  class WebServer {
    // Routes registered for POST and for the rest, and the POST routes with an upload handler.
    const posts: set<string>
    const gets: set<string>
    const uploads: set<string>
    var headers: map<string, string>
    var body: string
    var upload: Multipart.Upload
    var calls: seq<Call>

    constructor (postRoutes: set<string>, getRoutes: set<string>, uploadRoutes: set<string>)
      ensures headers == map[] && body == "" && calls == []
      ensures posts == postRoutes && gets == getRoutes && uploads == uploadRoutes
    {
      posts, gets, uploads := postRoutes, getRoutes, uploadRoutes;
      headers, body, calls := map[], "", [];
      upload := Multipart.Upload(Multipart.End, None, 0, 0, "", "");
    }

    /** Drives the upload callback over the body's first file part: started, written and ended once each. */
    method DriveUpload()
      modifies this`upload, this`calls
      ensures var file := Multipart.UploadOf(headers, body);
              calls == old(calls) + if file.None? then [] else StageCalls(file.value)
    {
      hide Find, Contains, Multipart.FilePart;
      if "content-type" !in headers || !Contains(headers["content-type"], "multipart/form-data") {
        return;
      }
      var found, data, name := Multipart.ExtractFilePart(body, headers["content-type"]);
      if !found {
        return;
      }
      upload := Multipart.Upload(Multipart.End, None, 0, 0, "", "");
      upload := upload.(filename := CString(name), name := "firmware", status := Multipart.Start);
      calls := calls + [UploadStage(upload)];
      upload := upload.(status := Multipart.Write, buf := Some(data), currentSize := |data|);
      calls := calls + [UploadStage(upload)];
      upload := upload.(status := Multipart.End, buf := None, totalSize := |data|, currentSize := 0);
      calls := calls + [UploadStage(upload)];
    }

    /** A POST route's upload runs before its finish handler; an unknown route runs nothing. */
    method Dispatch(verb: string, path: string)
      modifies this`upload, this`calls
      ensures calls == old(calls) + CallsFor(verb, path)
    {
      if path in (if verb == "POST" then posts else gets) {
        if verb == "POST" && path in uploads {
          DriveUpload();
        }
        calls := calls + [Finish(path)];
      } else {
        calls := calls + [NotFound];
      }
    }

    function CallsFor(verb: string, path: string): seq<Call>
      reads this`headers, this`body
    {
      if path !in (if verb == "POST" then posts else gets) then [NotFound]
      else
        var file := if verb == "POST" && path in uploads then Multipart.UploadOf(headers, body) else None;
        (if file.None? then [] else StageCalls(file.value)) + [Finish(path)]
    }

    /** A known POST route with an upload handler sees the form's file started, written and ended, with its size where
        it belongs, and then finishes; any other known route only finishes. */
    lemma RouteRuns(verb: string, path: string)
      ensures path !in (if verb == "POST" then posts else gets) ==> CallsFor(verb, path) == [NotFound]
      ensures path in (if verb == "POST" then posts else gets) && !(verb == "POST" && path in uploads) ==>
                CallsFor(verb, path) == [Finish(path)]
      ensures path in (if verb == "POST" then posts else gets)
              && !("content-type" in headers && Contains(headers["content-type"], "multipart/form-data")) ==>
                CallsFor(verb, path) == [Finish(path)]
      ensures verb == "POST" && path in posts && path in uploads && "content-type" in headers
              && Contains(headers["content-type"], "multipart/form-data") ==>
                match Multipart.FilePart(body, headers["content-type"])
                case None => CallsFor(verb, path) == [Finish(path)]
                case Some(f) =>
                  var size, name := |f.data|, CString(f.name);
                  CallsFor(verb, path) ==
                    [UploadStage(Multipart.Upload(Multipart.Start, None, 0, 0, name, "firmware")),
                     UploadStage(Multipart.Upload(Multipart.Write, Some(f.data), size, 0, name, "firmware")),
                     UploadStage(Multipart.Upload(Multipart.End, None, 0, size, name, "firmware")), Finish(path)]
    {
      hide Find, Contains, Multipart.FilePart, CString;
    }

    /** Drops leading blanks one at a time. */
    method TrimValue(s: string) returns (val: string)
      ensures val == TrimLeft(s)
    {
      val := s;
      while val != "" && (val[0] == ' ' || val[0] == '\t')
        invariant TrimLeft(val) == TrimLeft(s)
        decreases |val|
      {
        val := val[1..];
      }
    }

    /** One header line: everything before the first colon in lower case, the value without its leading blanks. */
    method ParseLine(line: string, headers: map<string, string>) returns (m: map<string, string>)
      ensures m == AddHeader(headers, line)
    {
      m := headers;
      var colon := Find(line, ":", 0);
      if colon != -1 {
        var val := TrimValue(line[colon + 1..]);
        m := m[Lower(line[..colon]) := val];
      }
    }

    /** The header lines between the request line and the blank one. */
    method ParseHeaders(req: string) returns (m: map<string, string>)
      ensures m == Parse(req, NPOS).headers
    {
      hide Find, AddHeader;
      m := map[];
      var he, start := Find(req, BLANK, 0), Find(req, CRLF, 0);
      var limit := if he == -1 then |req| else he;
      if start == -1 {
        return;
      }
      var at := start + 2;
      ghost var all := Collect(req, at, limit, m);
      assert all == Parse(req, NPOS).headers;
      while at < limit
        invariant at >= 0 && Collect(req, at, limit, m) == all
        decreases limit - at
      {
        var eol := Find(req, CRLF, at);
        if eol == -1 || eol > limit {
          return;
        }
        m := ParseLine(req[at..eol], m);
        at := eol + 2;
      }
    }

    /** Accepts one connection whose peer sends `wire` and closes: reads until the body is complete, the peer has
        closed, a receive fails or the size limit is reached, then parses what came. It takes the request exactly
        when the first receive brings something, and loses part of it only when the receives fall short. */
    method HandleClient(wire: string, recvs: seq<Wait>) returns (taken: bool, verb: string, path: string,
                                                                 received: nat, length: nat, lost: bool)
      requires forall w :: w in recvs && w.Moved? ==> w.n <= CHUNK
      modifies this
      ensures received <= |wire| && (taken ==> received > 0)
      ensures taken <==> wire != "" && Total(recvs, false) > 0
      ensures lost ==> received == Total(recvs, false) < |wire|
      ensures !taken ==> headers == old(headers) && body == old(body) && calls == old(calls)
      ensures taken ==> calls == old(calls) + CallsFor(verb, path)
      ensures taken ==> Parse(wire[..received], length) == Request(verb, path, body, headers)
      ensures taken && received < MAX_REQ ==> var he := Find(wire[..received], BLANK, 0);
              length == if he == -1 then NPOS else LengthSeen(wire[..received][..he])
      ensures taken && !lost && received < MAX_REQ ==> Stops(wire, received)
    {
      hide LengthSeen, Find, Collect;
      verb, path, received, length, lost := "", "", 0, NPOS, false;
      var rest := recvs;
      if wire == "" || rest == [] || !rest[0].Moved? || rest[0].n == 0 {
        return false, "", "", 0, NPOS, wire != "";
      }
      received, rest := Min(rest[0].n, |wire|), rest[1..];
      var req := wire[..received];
      while |req| < MAX_REQ
        invariant 0 < received <= |wire| && req == wire[..received]
        invariant Min(|wire|, received + Total(rest, false)) == Min(|wire|, Total(recvs, false))
        invariant length == NPOS || LengthKnown(req, length)
        invariant calls == old(calls)
        decreases |wire| - received
      {
        var he := Find(req, BLANK, 0);
        if he != -1 {
          if length == NPOS {
            length := LengthSeen(req[..he]);
          }
          if length == NPOS || |req| - (he + 4) >= length {
            break;
          }
        }
        if received == |wire| {
          break;
        }
        if rest == [] || !rest[0].Moved? || rest[0].n == 0 {
          lost := true;
          break;
        }
        var n := Min(rest[0].n, |wire| - received);
        HeadStays(req, wire[..received + n], length);
        req, received, rest := req + wire[received..received + n], received + n, rest[1..];
      }
      taken := true;
      var r := Parse(req, length);
      verb, path, body := r.verb, r.path, r.body;
      headers := ParseHeaders(req);
      Dispatch(verb, path);
    }
  }

  /** The CLI's post and the server's turn after it. It is reported delivered exactly when the target is
      reachable, the request within the limit and the sends take all of it; and once the receives bring it, the
      handler sees the path, the headers and the exact body. */
  method SimWifiPost(port: int, reachable: bool, server: WebServer, path: string, body: string,
                     sends: seq<Wait>, recvs: seq<Wait>)
    returns (ok: bool, taken: bool, verb: string, seen: string, lost: bool)
    requires forall w :: w in recvs && w.Moved? ==> w.n <= CHUNK
    modifies server
    ensures ok <==> port > 0 && reachable && |PostText(path, body)| <= MAX_REQUEST
                    && Total(sends, false) >= |PostText(path, body)|
    ensures ok ==> (taken <==> Total(recvs, false) > 0) && (lost ==> Total(recvs, false) < |PostText(path, body)|)
    ensures port <= 0 || !reachable || |PostText(path, body)| > MAX_REQUEST ==> !taken
    ensures !taken ==> server.headers == old(server.headers) && server.body == old(server.body)
    ensures ok && taken && !lost && CleanPath(path) ==>
              && (!Contains(Lower(path), MARKER) || body == "" || |body| <= LengthSeen(PostStart(path, |body|)) < NPOS ==>
                    server.body == body)
              && verb == "POST" && seen == path && server.headers == PostHeaders(|body|)
              && server.calls == old(server.calls) + [if path in server.posts then Finish(path) else NotFound]
  {
    hide Parse, LengthSeen, Find, PostText, PostHeaders, Contains, PostStart, Complete;
    if port <= 0 || !reachable {
      return false, false, "", "", false;
    }
    var req, off, rest := PostText(path, body), 0, sends;
    PostNotEmpty(path, body);
    if |req| <= MAX_REQUEST {
      while off < |req|
        invariant 0 <= off <= |req|
        invariant Min(|req|, Total(sends, false)) == Min(|req|, off + Total(rest, false))
        decreases rest
      {
        if rest == [] || !rest[0].Moved? || rest[0].n == 0 {
          break;
        }
        off, rest := off + Min(rest[0].n, |req| - off), rest[1..];
      }
    }
    ok := off == |req|;
    var received, length;
    taken, verb, seen, received, length, lost := server.HandleClient(req[..off], recvs);
    if ok && taken && !lost && CleanPath(path) {
      assert req[..off] == req;
      PostArrives(path, body, received);
      LengthIsRead(path, body, received);
      NoUpload(|body|);
      if !Contains(Lower(path), MARKER) {
        LengthRead(path, |body|);
      }
    }
  }

  /** A snapshot never drives an upload: its headers name no content type. */
  lemma NoUpload(n: nat)
    ensures "content-type" !in PostHeaders(n)
  {
    assert "content-type"[8] != "content-length"[8];
    assert "content-type"[0] != "host"[0] && "content-type"[0] != "x-agentgauge"[0];
  }

  lemma PostNotEmpty(path: string, body: string)
    ensures |body| < |PostText(path, body)|
  {
  }

  /** Where the loop stops, the head is in. */
  lemma LengthIsRead(path: string, body: string, received: nat)
    requires CleanPath(path) && received <= |PostText(path, body)| && Stops(PostText(path, body), received)
    ensures LengthKnown(PostText(path, body)[..received], LengthSeen(PostStart(path, |body|)))
  {
    hide LengthSeen, Find, PostHeaders, PostStart, Head, PostLines;
    var wire, head := PostText(path, body), Head(PostLines(path, |body|));
    PostIsHead(path, body);
    var req := wire[..received];
    PostBlank(path, |body|, body);
    FindInPrefix(req, wire, BLANK);
    var part := body[..received - |head|];
    assert req == head + part;
    PostBlank(path, |body|, part);
  }
}
