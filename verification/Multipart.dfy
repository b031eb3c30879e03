/** Multipart uploads: finding the file part of a form body, and the upload callback's life cycle. */
module Multipart {
  import opened CLang
  import opened Pixels
  import opened Text

  const FILENAME := "filename="
  const QUOTED := "filename=\""

  // ---- The boundary ----

  function StopAt(s: string, i: nat): (e: nat)
    requires i <= |s|
    ensures i <= e <= |s| && (forall k :: i <= k < e ==> s[k] !in "; \r\n") && (e < |s| ==> s[e] in "; \r\n")
    decreases |s| - i
  {
    if i < |s| && s[i] !in "; \r\n" then StopAt(s, i + 1) else i
  }

  /** The boundary parameter of a content type; "" when there is none to use. */
  function Boundary(ctype: string): string {
    var bp := Find(ctype, "boundary=", 0);
    if bp == -1 then ""
    else
      var b := ctype[bp + 9..];
      if b != "" && b[0] == '"' then
        var q := Find(b[1..], "\"", 0); if q == -1 then b[1..] else b[1..][..q]
      else b[..StopAt(b, 0)]
  }

  // ---- Parts ----

  datatype File = File(data: string, name: string)

  function DropBreak(content: string): string {
    if |content| >= 2 && content[|content| - 2..] == CRLF then content[..|content| - 2] else content
  }

  function NameIn(head: string): string {
    var f := Find(head, QUOTED, 0);
    if f == -1 then ""
    else
      var e := Find(head, "\"", f + |QUOTED|);
      if e == -1 then head[f + |QUOTED|..] else head[f + |QUOTED|..e]
  }

  /** The text between two delimiters, when it is a file part. */
  function FileOf(part: string): Option<File> {
    var hend := Find(part, BLANK, 0);
    if hend == -1 || !Contains(part[..hend], FILENAME) then None
    else Some(File(DropBreak(part[hend + 4..]), NameIn(part[..hend])))
  }

  /** The first file part from a delimiter on. */
  function FileFrom(body: string, delim: string, pos: int): Option<File>
    requires delim != "" && (pos == -1 || At(body, delim, pos))
    decreases |body| - pos
  {
    if pos == -1 then None
    else
      var start := pos + |delim|;
      var next := Find(body, delim, start);
      if next == -1 then None
      else if FileOf(body[start..next]).Some? then FileOf(body[start..next])
      else FileFrom(body, delim, next)
  }

  function FilePart(body: string, ctype: string): Option<File> {
    if Boundary(ctype) == "" then None
    else
      var delim := "--" + Boundary(ctype);
      FileFrom(body, delim, Find(body, delim, 0))
  }

  /** One stretch between delimiters. */
  method ReadPart(part: string) returns (found: bool, data: string, name: string)
    ensures found == FileOf(part).Some?
    ensures found ==> FileOf(part) == Some(File(data, name))
    ensures !found ==> data == "" && name == ""
  {
    hide Find;
    found, data, name := false, "", "";
    var hend := Find(part, BLANK, 0);
    if hend != -1 {
      var head := part[..hend];
      if Contains(head, FILENAME) {
        data := part[hend + 4..];
        if |data| >= 2 && data[|data| - 2..] == CRLF {
          data := data[..|data| - 2];
        }
        var fn := Find(head, QUOTED, 0);
        if fn != -1 {
          var fe := Find(head, "\"", fn + |QUOTED|);
          name := if fe == -1 then head[fn + |QUOTED|..] else head[fn + |QUOTED|..fe];
        }
        found := true;
      }
    }
  }

  /** The parsing loop, as the server runs it. */
  method ExtractFilePart(body: string, ctype: string) returns (found: bool, data: string, name: string)
    ensures found == FilePart(body, ctype).Some?
    ensures found ==> FilePart(body, ctype) == Some(File(data, name))
  {
    hide Find, Boundary, FileOf;
    found, data, name := false, "", "";
    var boundary := Boundary(ctype);
    if boundary == "" {
      return;
    }
    var delim := "--" + boundary;
    var pos := Find(body, delim, 0);
    while pos != -1
      invariant pos == -1 || At(body, delim, pos)
      invariant FileFrom(body, delim, pos) == FilePart(body, ctype)
      decreases if pos == -1 then 0 else |body| - pos + 1
    {
      var start := pos + |delim|;
      var next := Find(body, delim, start);
      if next == -1 {
        return;
      }
      found, data, name := ReadPart(body[start..next]);
      if found {
        return;
      }
      pos := next;
    }
  }

  // ---- What the senders write ----

  datatype Part = Part(head: string, content: string)

  /** A part as section 5.1.1 of RFC 2046 lays it out, behind its delimiter. */
  function PartText(p: Part): string { CRLF + p.head + BLANK + p.content + CRLF }

  function Form(delim: string, parts: seq<Part>, rest: string): string {
    if parts == [] then delim + rest else delim + PartText(parts[0]) + Form(delim, parts[1..], rest)
  }

  predicate IsHead(head: string) {
    head != "" && head[0] != '\r' && head[|head| - 1] != '\n' && !Contains(head, BLANK)
  }

  /** The blank line after the part's own head is the first one. */
  lemma HeadOfPart(p: Part)
    requires IsHead(p.head)
    ensures Find(PartText(p), BLANK, 0) == 2 + |p.head|
  {
    hide Find;
    var head, t := p.head, PartText(p);
    var tail := p.content + CRLF;
    assert t == (CRLF + head) + (BLANK + tail);
    assert (BLANK + tail)[0..4] == BLANK;
    AtShift(CRLF + head, BLANK + tail, BLANK, 0);
    forall k | 0 <= k < 2 + |head|
      ensures !At(t, BLANK, k)
    {
      BlankOnlyThere(head, tail, k);
      assert t == CRLF + head + BLANK + tail;
    }
    FoundAt(t, BLANK, 2 + |head|);
  }

  lemma BlankOnlyThere(head: string, tail: string, k: nat)
    requires IsHead(head) && k < 2 + |head|
    ensures !At(CRLF + head + BLANK + tail, BLANK, k)
  {
    hide Find;
    var t := CRLF + head + BLANK + tail;
    if At(t, BLANK, k) {
      var got := t[k..k + 4];
      assert got[0] == t[k] && got[1] == t[k + 1] && got[2] == t[k + 2] && got[3] == t[k + 3];
      assert t[0] == '\r' && t[1] == '\n' && t[2] == head[0];
      assert t[2 + |head| - 1] == head[|head| - 1] && t[2 + |head|] == '\r' && t[2 + |head| + 1] == '\n' && t[2 + |head| + 2] == '\r';
      assert k >= 2;
      assert k + 4 <= 2 + |head|;
      InHead(head, tail, k);
    }
  }

  lemma InHead(head: string, tail: string, k: nat)
    requires 2 <= k && k + 4 <= 2 + |head| && At(CRLF + head + BLANK + tail, BLANK, k)
    ensures Contains(head, BLANK)
  {
    var t := CRLF + head + BLANK + tail;
    assert t[k..k + 4] == head[k - 2..k + 2];
    assert At(head, BLANK, k - 2);
  }

  /** Text without the delimiter, ending in a newline or empty, cannot start one that ends behind it. */
  lemma NextDelim(pre: string, text: string, delim: string, tail: string)
    requires delim != "" && '\n' !in delim && !Contains(text, delim)
    requires text == "" || text[|text| - 1] == '\n'
    ensures Find(pre + text + delim + tail, delim, |pre|) == |pre| + |text|
  {
    hide Find;
    var t, rest := pre + text + delim + tail, text + (delim + tail);
    assert t == pre + rest;
    assert (delim + tail)[0..|delim|] == delim;
    AtShift(text, delim + tail, delim, 0);
    assert text != "" ==> rest[|text| - 1] == '\n';
    forall k | 0 <= k < |text|
      ensures !At(rest, delim, k)
    {
      if k + |delim| <= |text| {
        AtInPrefix(text, rest, delim, k);
      } else if At(rest, delim, k) {
        InsideOccurrence(rest, delim, k, |text| - 1);
      }
    }
    FoundAt(rest, delim, |text|);
    FindShift(pre, rest, delim, 0);
  }

  predicate NamesFile(p: Part) { Contains(p.head, FILENAME) }

  lemma PartHead(p: Part)
    requires IsHead(p.head)
    ensures PartText(p)[..2 + |p.head|] == CRLF + p.head && PartText(p)[6 + |p.head|..] == p.content + CRLF
  {
  }

  /** A part without a file name is passed over; one with it gives up its content and name exactly. */
  lemma PartMeans(p: Part)
    requires IsHead(p.head)
    ensures FileOf(PartText(p)) == if NamesFile(p) then Some(File(p.content, NameIn(p.head))) else None
  {
    hide Find, PartText, NameIn, DropBreak, Contains;
    HeadOfPart(p);
    PartHead(p);
    FileNamed(p.head);
    NameShifts(p.head);
    ContentKept(p.content);
  }

  lemma NoneBefore(head: string, pat: string)
    requires pat != "" && pat[0] != '\r' && pat[0] != '\n'
    ensures Find(CRLF + head, pat, 0) == Find(CRLF + head, pat, 2)
  {
    forall k | 0 <= k < 2
      ensures !At(CRLF + head, pat, k)
    {
      if At(CRLF + head, pat, k) {
        StartsThere(CRLF + head, pat, k);
      }
    }
  }

  lemma BehindBreak(head: string, pat: string)
    requires pat != "" && pat[0] != '\r' && pat[0] != '\n'
    ensures Find(CRLF + head, pat, 0) == if Find(head, pat, 0) == -1 then -1 else 2 + Find(head, pat, 0)
  {
    hide Find;
    FindShift(CRLF, head, pat, 0);
    NoneBefore(head, pat);
  }

  lemma FileNamed(head: string)
    ensures Contains(CRLF + head, FILENAME) <==> Contains(head, FILENAME)
  {
    hide Find;
    BehindBreak(head, FILENAME);
  }

  lemma ContentKept(content: string)
    ensures DropBreak(content + CRLF) == content
  {
    assert (content + CRLF)[..|content|] == content;
  }

  lemma NameShifts(head: string)
    ensures NameIn(CRLF + head) == NameIn(head)
  {
    hide Find;
    BehindBreak(head, QUOTED);
    var f := Find(head, QUOTED, 0);
    if f != -1 {
      FindShift(CRLF, head, "\"", f + |QUOTED|);
      assert (CRLF + head)[2 + f + |QUOTED|..] == head[f + |QUOTED|..];
      var e := Find(head, "\"", f + |QUOTED|);
      if e != -1 {
        assert (CRLF + head)[2 + f + |QUOTED|..2 + e] == head[f + |QUOTED|..e];
      }
    }
  }

  /** The name is what stands between the quotes of the first quoted attribute. */
  lemma NameIsExact(head: string, f: nat, name: string)
    requires Find(head, QUOTED, 0) == f && '"' !in name
    requires At(head, name + "\"", f + |QUOTED|)
    ensures NameIn(head) == name
  {
    var from := f + |QUOTED|;
    var got := head[from..from + |name| + 1];
    assert forall k :: from <= k < from + |name| ==> head[k] == got[k - from] == name[k - from];
    assert head[from + |name|] == got[|name|];
    assert head[from + |name|..from + |name| + 1] == "\"";
    assert At(head, "\"", from + |name|);
    forall k | from <= k < from + |name|
      ensures !At(head, "\"", k)
    {
      if At(head, "\"", k) {
        StartsThere(head, "\"", k);
      }
    }
    assert head[from..from + |name|] == name;
  }

  ghost predicate Separable(delim: string, parts: seq<Part>) {
    && delim != "" && '\n' !in delim
    && forall i :: 0 <= i < |parts| ==> IsHead(parts[i].head) && !Contains(PartText(parts[i]), delim)
  }

  /** One stretch of the walk. */
  lemma NextPart(pre: string, delim: string, p: Part, more: string)
    requires delim != "" && '\n' !in delim && !Contains(PartText(p), delim) && delim <= more
    ensures var body, next := pre + delim + PartText(p) + more, pre + delim + PartText(p);
            && At(body, delim, |pre|) && At(body, delim, |next|)
            && FileFrom(body, delim, |pre|) == if FileOf(PartText(p)).Some? then FileOf(PartText(p)) else FileFrom(body, delim, |next|)
  {
    hide Find, FileOf, PartText;
    var text := PartText(p);
    var body, next := pre + delim + text + more, pre + delim + text;
    assert body[|pre|..|pre| + |delim|] == delim;
    EndsInNewline(p);
    NextDelim(pre + delim, text, delim, more[|delim|..]);
    assert pre + delim + text + delim + more[|delim|..] == body;
    assert body[|pre + delim|..|next|] == text;
  }

  /** Any parts without a file name in front, the file comes back byte for byte, whatever stands behind it. */
  lemma {:induction false} FindsTheFile(pre: string, delim: string, parts: seq<Part>, rest: string)
    requires Separable(delim, parts) && parts != []
    requires forall i :: 0 <= i < |parts| ==> (NamesFile(parts[i]) <==> i == |parts| - 1)
    ensures At(pre + Form(delim, parts, rest), delim, |pre|)
    ensures var file := parts[|parts| - 1];
            FileFrom(pre + Form(delim, parts, rest), delim, |pre|) == Some(File(file.content, NameIn(file.head)))
    decreases |parts|
  {
    hide Find, FileOf, PartText, NameIn, FileFrom, Contains, NamesFile, IsHead;
    var text, more := PartText(parts[0]), Form(delim, parts[1..], rest);
    FormStarts(delim, parts[1..], rest);
    NextPart(pre, delim, parts[0], more);
    PartMeans(parts[0]);
    assert pre + Form(delim, parts, rest) == pre + delim + text + more;
    if |parts| > 1 {
      FindsTheFile(pre + delim + text, delim, parts[1..], rest);
    }
  }

  lemma EndsInNewline(p: Part)
    ensures PartText(p) != "" && PartText(p)[|PartText(p)| - 1] == '\n'
  {
  }

  lemma FormStarts(delim: string, parts: seq<Part>, rest: string)
    ensures delim <= Form(delim, parts, rest)
  {
  }

  /** A whole form body: a preamble of lines, parts without a file, the file, and anything behind it. */
  lemma FormGivesFile(ctype: string, preamble: string, parts: seq<Part>, rest: string)
    requires Boundary(ctype) != "" && Separable("--" + Boundary(ctype), parts) && parts != []
    requires forall i :: 0 <= i < |parts| ==> (NamesFile(parts[i]) <==> i == |parts| - 1)
    requires !Contains(preamble, "--" + Boundary(ctype))
    requires preamble == "" || preamble[|preamble| - 1] == '\n'
    ensures var file := parts[|parts| - 1];
            FilePart(preamble + Form("--" + Boundary(ctype), parts, rest), ctype) == Some(File(file.content, NameIn(file.head)))
  {
    hide Find, Boundary, Form, NameIn, FileFrom, NamesFile, Contains;
    var delim := "--" + Boundary(ctype);
    var form := Form(delim, parts, rest);
    FormStarts(delim, parts, rest);
    NextDelim("", preamble, delim, form[|delim|..]);
    assert "" + preamble + delim + form[|delim|..] == preamble + form;
    FindsTheFile(preamble, delim, parts, rest);
  }

  const FORM_DATA := "multipart/form-data; boundary="

  lemma BoundaryMark(b: string)
    ensures Find(FORM_DATA + b, "boundary=", 0) + 9 == |FORM_DATA| && (FORM_DATA + b)[|FORM_DATA|..] == b
  {
    var t := FORM_DATA + b;
    assert t[21..30] == "boundary=";
    assert At(t, "boundary=", 21);
    assert forall k :: 0 <= k < 21 ==> t[k] == FORM_DATA[k] && FORM_DATA[k] != 'b';
    forall k | 0 <= k < 21
      ensures !At(t, "boundary=", k)
    {
      if At(t, "boundary=", k) {
        StartsThere(t, "boundary=", k);
      }
    }
  }

  /** The boundary is read back bare, up to a separator, ... */
  lemma BareBoundary(b: string, tail: string)
    requires b != "" && b[0] != '"' && (forall k :: 0 <= k < |b| ==> b[k] !in "; \r\n")
    requires tail == "" || tail[0] in "; \r\n"
    ensures Boundary(FORM_DATA + (b + tail)) == b
  {
    hide Find;
    BoundaryMark(b + tail);
    var e := StopAt(b + tail, 0);
    assert forall k :: 0 <= k < |b| ==> (b + tail)[k] == b[k];
    assert e >= |b|;
    assert tail != "" ==> (b + tail)[|b|] == tail[0];
    assert e == |b|;
  }

  /** ... or quoted, up to the closing quote. */
  lemma QuotedBoundary(b: string, tail: string)
    requires '"' !in b
    ensures Boundary(FORM_DATA + ("\"" + b + "\"" + tail)) == b
  {
    hide Find;
    BoundaryMark("\"" + b + "\"" + tail);
    var inner := b + "\"" + tail;
    assert ("\"" + b + "\"" + tail)[1..] == inner;
    assert inner[|b|..|b| + 1] == "\"";
    forall k | 0 <= k < |b|
      ensures !At(inner, "\"", k)
    {
      assert inner[k] == b[k] && b[k] in b;
      if At(inner, "\"", k) {
        StartsThere(inner, "\"", k);
      }
    }
    FoundAt(inner, "\"", |b|);
    assert inner[..|b|] == b;
  }

  // ---- The upload callback's life cycle ----

  datatype Status = Start | Write | End | Aborted

  datatype Upload = Upload(status: Status, buf: Option<string>, currentSize: nat, totalSize: nat, filename: string, name: string)

  /** What the callback sees of a file: each stage once, in order, with matching sizes. */
  function Stages(f: File): seq<Upload> {
    var shown := CString(f.name);
    [Upload(Start, None, 0, 0, shown, "firmware"),
     Upload(Write, Some(f.data), |f.data|, 0, shown, "firmware"),
     Upload(End, None, 0, |f.data|, shown, "firmware")]
  }

  /** The file an upload request carries, if its handler is to be driven at all. */
  function UploadOf(headers: map<string, string>, body: string): Option<File> {
    if "content-type" in headers && Contains(headers["content-type"], "multipart/form-data")
    then FilePart(body, headers["content-type"]) else None
  }
}
