/** JSON string escaping, and the brace scanner that cuts an array of objects into pages.

    Text is a sequence of byte-valued characters. The scanner is proved against a grammar of objects whose
    strings went through the escaper, so braces, quotes and backslashes in the text cannot mislead it.
 */
module JsonPages {
  import opened CLang
  import opened Decimal
  import opened Pixels
  import opened Text

  // ---- Escaping ----

  function HexDigit(d: int): char
    requires 0 <= d < 16
  {
    if d < 10 then '0' + d as char else 'a' + (d - 10) as char
  }

  function EscapeChar(c: char): string {
    if c == '"' then "\\\""
    else if c == '\\' then "\\\\"
    else if c == '\n' then "\\n"
    else if c == '\r' then "\\r"
    else if c == '\t' then "\\t"
    else if c as int < 32 then ['\\', 'u', '0', '0', HexDigit(c as int / 16), HexDigit(c as int % 16)]
    else [c]
  }

  function Escape(s: string): string {
    if s == "" then "" else Escape(s[..|s| - 1]) + EscapeChar(s[|s| - 1])
  }

  /** The two-character escapes, and the four hexadecimal digits of any other control byte. */
  lemma EscapesAre(c: char)
    ensures Escape("\"") == "\\\"" && Escape("\\") == "\\\\" && Escape("\n") == "\\n" && Escape("\r") == "\\r" && Escape("\t") == "\\t"
    ensures Escape([8 as char]) == "\\u0008" && Escape([31 as char]) == "\\u001f"
    ensures c as int >= 32 && c != '"' && c != '\\' ==> Escape([c]) == [c]
  {
    forall d: char
      ensures Escape([d]) == EscapeChar(d)
    {
      EscapeOne(d);
    }
  }

  method JsonEsc(s: string) returns (o: string)
    ensures o == Escape(s)
  {
    o := "";
    var i := 0;
    while i < |s|
      invariant 0 <= i <= |s| && o == Escape(s[..i])
    {
      var c := s[i];
      assert s[..i + 1][..i] == s[..i];
      match c {
        case '"' => o := o + "\\\"";
        case '\\' => o := o + "\\\\";
        case '\n' => o := o + "\\n";
        case '\r' => o := o + "\\r";
        case '\t' => o := o + "\\t";
        case _ =>
          if c as int < 32 {
            o := o + ['\\', 'u', '0', '0', HexDigit(c as int / 16), HexDigit(c as int % 16)];
          } else {
            o := o + [c];
          }
      }
      i := i + 1;
    }
    assert s[..i] == s;
  }

  lemma {:induction false} EscapeAppend(a: string, b: string)
    ensures Escape(a + b) == Escape(a) + Escape(b)
    decreases |b|
  {
    hide EscapeChar;
    if b == "" {
      assert a + b == a;
    } else {
      EscapeAppend(a, b[..|b| - 1]);
      assert (a + b)[..|a + b| - 1] == a + b[..|b| - 1];
    }
  }

  lemma EscapeOne(c: char)
    ensures Escape([c]) == EscapeChar(c)
  {
    hide EscapeChar;
    assert [c][..0] == "" && Escape("") == "";
  }

  lemma EscapeFirst(s: string)
    requires s != ""
    ensures Escape(s) == EscapeChar(s[0]) + Escape(s[1..])
  {
    hide EscapeChar, Escape;
    EscapeAppend([s[0]], s[1..]);
    EscapeOne(s[0]);
    assert [s[0]] + s[1..] == s;
  }

  /** No control byte: in particular, one line. */
  predicate Printable(s: string) { forall i :: 0 <= i < |s| ==> s[i] as int >= 32 }

  lemma PrintableJoin(a: string, b: string)
    ensures Printable(a + b) <==> Printable(a) && Printable(b)
  {
    assert forall i :: 0 <= i < |a| ==> (a + b)[i] == a[i];
    assert forall i :: 0 <= i < |b| ==> (a + b)[|a| + i] == b[i];
  }

  /** The escaped text is printable whatever the text holds. */
  lemma {:induction false} EscapedIsPrintable(s: string)
    ensures Printable(Escape(s))
  {
    if s != "" {
      EscapedIsPrintable(s[..|s| - 1]);
      OneCharPrintable(s[|s| - 1]);
    }
  }

  lemma OneCharPrintable(c: char)
    ensures forall i :: 0 <= i < |EscapeChar(c)| ==> EscapeChar(c)[i] as int >= 32
  {
  }

  // Reading a JSON string body, as section 7 of RFC 8259 defines it.

  function HexValue(c: char): Option<int> {
    if '0' <= c <= '9' then Some(c as int - 48)
    else if 'a' <= c <= 'f' then Some(c as int - 87)
    else if 'A' <= c <= 'F' then Some(c as int - 55)
    else None
  }

  /** One character of a body and how much text it took; None for the closing quote or malformed text. */
  function ReadChar(t: string): (r: Option<(char, nat)>)
    ensures r.Some? ==> 1 <= r.value.1 <= |t|
  {
    if t == "" || t[0] == '"' || t[0] as int < 32 then None
    else if t[0] != '\\' then Some((t[0], 1))
    else if |t| < 2 then None
    else match t[1]
      case '"' => Some(('"', 2))
      case '\\' => Some(('\\', 2))
      case '/' => Some(('/', 2))
      case 'b' => Some((8 as char, 2))
      case 'f' => Some((12 as char, 2))
      case 'n' => Some(('\n', 2))
      case 'r' => Some(('\r', 2))
      case 't' => Some(('\t', 2))
      case 'u' =>
        if |t| < 6 then None
        else
          var (a, b, c, d) := (HexValue(t[2]), HexValue(t[3]), HexValue(t[4]), HexValue(t[5]));
          if a.None? || b.None? || c.None? || d.None? then None
          else
            var code := ((a.value * 16 + b.value) * 16 + c.value) * 16 + d.value;
            if 0 <= code < 0xD800 then Some((code as char, 6)) else None
      case _ => None
  }

  /** The text up to the closing quote, and where that quote is. */
  function ReadBody(t: string): (string, nat)
    decreases |t|
  {
    match ReadChar(t)
    case None => ("", 0)
    case Some((c, n)) => var (s, m) := ReadBody(t[n..]); ([c] + s, n + m)
  }

  lemma ReadsEscape(c: char, rest: string)
    requires c as int < 256
    ensures ReadChar(EscapeChar(c) + rest) == Some((c, |EscapeChar(c)|))
  {
    var t := EscapeChar(c) + rest;
    if c as int < 32 && c !in "\n\r\t" {
      assert t[4] == HexDigit(c as int / 16) && t[5] == HexDigit(c as int % 16);
    }
  }

  /** Reading inverts escaping and stops at the closing quote, for every byte string. */
  lemma {:induction false} UnescapeInverts(s: string, rest: string)
    requires Bytes(s)
    ensures ReadBody(Escape(s) + "\"" + rest) == (s, |Escape(s)|)
    decreases |s|
  {
    hide ReadChar, EscapeChar;
    if s == "" {
      QuoteEnds(rest);
      assert Escape(s) + "\"" + rest == "\"" + rest;
    } else {
      var tail := Escape(s[1..]) + "\"" + rest;
      EscapeFirst(s);
      ReadsEscape(s[0], tail);
      UnescapeInverts(s[1..], rest);
      var e := EscapeChar(s[0]);
      assert Escape(s) + "\"" + rest == e + tail;
      assert (e + tail)[|e|..] == tail;
      assert [s[0]] + s[1..] == s;
    }
  }

  lemma QuoteEnds(rest: string)
    ensures ReadChar("\"" + rest) == None
  {
  }

  // ---- The scanner ----

  /** The scanner's variables; `start` is where the current top-level object began. */
  datatype Scan = Scan(depth: int, start: Option<nat>, inStr: bool, esc: bool, elems: seq<string>)

  const IDLE := Scan(0, None, false, false, [])

  function ScanChar(arr: string, i: nat, sc: Scan): Scan
    requires i < |arr|
  {
    var c := arr[i];
    if sc.esc then sc.(esc := false)
    else if sc.inStr then
      if c == '\\' then sc.(esc := true) else if c == '"' then sc.(inStr := false) else sc
    else if c == '"' then sc.(inStr := true)
    else if c == '{' then sc.(depth := sc.depth + 1, start := if sc.depth == 0 then Some(i) else sc.start)
    else if c == '}' then
      if sc.depth - 1 == 0 && sc.start.Some? && sc.start.value <= i then
        sc.(depth := 0, start := None, elems := sc.elems + [arr[sc.start.value..i + 1]])
      else sc.(depth := sc.depth - 1)
    else sc
  }

  function ScanTo(arr: string, lo: int, hi: int, sc: Scan): Scan
    requires 0 <= lo <= hi <= |arr|
    decreases hi - lo
  {
    if lo == hi then sc else ScanTo(arr, lo + 1, hi, ScanChar(arr, lo, sc))
  }

  /** The top-level objects of a text. */
  function Elements(arr: string): seq<string> { ScanTo(arr, 0, |arr|, IDLE).elems }

  lemma {:induction false} ScanSplits(arr: string, lo: nat, mid: nat, hi: nat, sc: Scan)
    requires lo <= mid <= hi <= |arr|
    ensures ScanTo(arr, lo, hi, sc) == ScanTo(arr, mid, hi, ScanTo(arr, lo, mid, sc))
    decreases mid - lo
  {
    hide ScanChar;
    if lo < mid {
      ScanSplits(arr, lo + 1, mid, hi, ScanChar(arr, lo, sc));
    }
  }

  /** `t` stands in `arr` at i. */
  lemma AtParts(arr: string, i: nat, a: string, b: string)
    requires At(arr, a + b, i)
    ensures At(arr, a, i) && At(arr, b, i + |a|)
  {
    var whole := arr[i..i + |a + b|];
    assert whole[..|a|] == a && whole[|a|..] == b;
  }

  // ---- What is scanned ----

  /** Object text: bare characters, strings given by their unescaped content, and nested objects. */
  datatype Token = Bare(c: char) | Str(content: string) | Obj(items: seq<Token>)

  function Show(t: Token): string
    decreases t
  {
    match t
    case Bare(c) => [c]
    case Str(content) => "\"" + Escape(content) + "\""
    case Obj(items) => "{" + ShowAll(items) + "}"
  }

  function ShowAll(ts: seq<Token>): string
    decreases ts
  {
    if ts == [] then "" else Show(ts[0]) + ShowAll(ts[1..])
  }

  predicate WellFormed(t: Token)
    decreases t
  {
    match t
    case Bare(c) => c != '"' && c != '{' && c != '}'
    case Str(_) => true
    case Obj(items) => forall i :: 0 <= i < |items| ==> WellFormed(items[i])
  }

  /** Inside a string the scanner sees nothing of an escaped content. */
  lemma {:induction false} SkipsEscaped(arr: string, i: nat, s: string, sc: Scan)
    requires At(arr, Escape(s), i) && sc.inStr && !sc.esc
    ensures ScanTo(arr, i, i + |Escape(s)|, sc) == sc
    decreases |s|
  {
    hide EscapeChar;
    if s != "" {
      var front, c := s[..|s| - 1], s[|s| - 1];
      var mid := i + |Escape(front)|;
      AtParts(arr, i, Escape(front), EscapeChar(c));
      ScanSplits(arr, i, mid, mid + |EscapeChar(c)|, sc);
      SkipsEscaped(arr, i, front, sc);
      SkipsOne(arr, mid, c, sc);
    }
  }

  lemma SkipsOne(arr: string, i: nat, c: char, sc: Scan)
    requires At(arr, EscapeChar(c), i) && sc.inStr && !sc.esc
    ensures ScanTo(arr, i, i + |EscapeChar(c)|, sc) == sc
  {
    var e := EscapeChar(c);
    assert forall k :: i <= k < i + |e| ==> arr[k] == e[k - i];
    if |e| == 1 {
      SkipsPlain(arr, i, i + 1, sc);
    } else {
      SkipsPair(arr, i, sc);
      ScanSplits(arr, i, i + 2, i + |e|, sc);
      SkipsPlain(arr, i + 2, i + |e|, sc);
    }
  }

  lemma SkipsPair(arr: string, i: nat, sc: Scan)
    requires i + 2 <= |arr| && arr[i] == '\\' && sc.inStr && !sc.esc
    ensures ScanTo(arr, i, i + 2, sc) == sc
  {
    assert ScanTo(arr, i + 1, i + 2, ScanChar(arr, i, sc)) == ScanChar(arr, i + 1, ScanChar(arr, i, sc));
  }

  lemma SkipsPlain(arr: string, lo: nat, hi: nat, sc: Scan)
    requires lo <= hi <= |arr| && sc.inStr && !sc.esc
    requires forall k :: lo <= k < hi ==> arr[k] != '\\' && arr[k] != '"'
    ensures ScanTo(arr, lo, hi, sc) == sc
    decreases hi - lo
  {
  }

  lemma SkipsString(arr: string, i: nat, content: string, sc: Scan)
    requires At(arr, Show(Str(content)), i) && !sc.inStr && !sc.esc
    ensures ScanTo(arr, i, i + |Show(Str(content))|, sc) == sc
  {
    hide Escape;
    var e := Escape(content);
    AtParts(arr, i, "\"" + e, "\"");
    AtParts(arr, i, "\"", e);
    var close := i + 1 + |e|;
    var inside := sc.(inStr := true);
    assert arr[i] == arr[i..i + 1][0] && arr[close] == arr[close..close + 1][0];
    assert ScanChar(arr, i, sc) == inside;
    ScanSplits(arr, i + 1, close, close + 1, inside);
    SkipsEscaped(arr, i + 1, content, inside);
    assert ScanTo(arr, close, close + 1, inside) == ScanChar(arr, close, inside);
  }

  /** Within an object the scanner passes over any token, nested objects included, and forgets it. */
  lemma {:induction false} SkipsToken(arr: string, i: nat, t: Token, sc: Scan)
    requires WellFormed(t) && At(arr, Show(t), i) && !sc.inStr && !sc.esc && sc.depth >= 1
    ensures ScanTo(arr, i, i + |Show(t)|, sc) == sc
    decreases t
  {
    hide Escape;
    match t {
      case Bare(c) =>
        assert arr[i] == arr[i..i + 1][0];
        assert ScanTo(arr, i, i + 1, sc) == ScanChar(arr, i, sc);
      case Str(content) => SkipsString(arr, i, content, sc);
      case Obj(items) =>
        var body := ShowAll(items);
        AtParts(arr, i, "{" + body, "}");
        AtParts(arr, i, "{", body);
        var close := i + 1 + |body|;
        var inside := sc.(depth := sc.depth + 1);
        assert arr[i] == arr[i..i + 1][0] && arr[close] == arr[close..close + 1][0];
        assert ScanChar(arr, i, sc) == inside;
        SkipsTokens(arr, i + 1, items, inside);
        ScanSplits(arr, i + 1, close, close + 1, inside);
        assert ScanTo(arr, close, close + 1, inside) == ScanChar(arr, close, inside);
    }
  }

  lemma {:induction false} SkipsTokens(arr: string, i: nat, ts: seq<Token>, sc: Scan)
    requires (forall k :: 0 <= k < |ts| ==> WellFormed(ts[k])) && At(arr, ShowAll(ts), i)
    requires !sc.inStr && !sc.esc && sc.depth >= 1
    ensures ScanTo(arr, i, i + |ShowAll(ts)|, sc) == sc
    decreases ts
  {
    hide Show, Escape, ScanChar;
    if ts != [] {
      var head, rest := Show(ts[0]), ShowAll(ts[1..]);
      AtParts(arr, i, head, rest);
      SkipsToken(arr, i, ts[0], sc);
      SkipsTokens(arr, i + |head|, ts[1..], sc);
      ScanSplits(arr, i, i + |head|, i + |head| + |rest|, sc);
    }
  }

  /** At the top level an object is collected, whole. */
  lemma CollectsObject(arr: string, i: nat, t: Token, sc: Scan)
    requires t.Obj? && WellFormed(t) && At(arr, Show(t), i)
    requires !sc.inStr && !sc.esc && sc.depth == 0
    ensures ScanTo(arr, i, i + |Show(t)|, sc) == sc.(start := None, elems := sc.elems + [Show(t)])
  {
    var body := ShowAll(t.items);
    AtParts(arr, i, "{" + body, "}");
    AtParts(arr, i, "{", body);
    var close := i + 1 + |body|;
    var inside := sc.(depth := 1, start := Some(i));
    assert arr[i] == arr[i..i + 1][0] && arr[close] == arr[close..close + 1][0];
    assert ScanChar(arr, i, sc) == inside;
    SkipsTokens(arr, i + 1, t.items, inside);
    ScanSplits(arr, i + 1, close, close + 1, inside);
    assert ScanTo(arr, close, close + 1, inside) == ScanChar(arr, close, inside);
    assert arr[i..close + 1] == Show(t);
  }

  /** An array's elements, comma separated. */
  function Commas(ss: seq<string>): string {
    if ss == [] then "" else if |ss| == 1 then ss[0] else Commas(ss[..|ss| - 1]) + "," + ss[|ss| - 1]
  }

  function Shown(ts: seq<Token>): seq<string> { seq(|ts|, i requires 0 <= i < |ts| => Show(ts[i])) }

  ghost predicate Objects(ts: seq<Token>) {
    forall i :: 0 <= i < |ts| ==> ts[i].Obj? && WellFormed(ts[i])
  }

  lemma {:induction false} CollectsAll(arr: string, i: nat, ts: seq<Token>, sc: Scan)
    requires Objects(ts) && At(arr, Commas(Shown(ts)), i) && sc == IDLE.(elems := sc.elems)
    ensures ScanTo(arr, i, i + |Commas(Shown(ts))|, sc) == sc.(elems := sc.elems + Shown(ts))
    decreases |ts|
  {
    if |ts| == 1 {
      CollectsObject(arr, i, ts[0], sc);
      assert Shown(ts) == [Show(ts[0])];
    } else if |ts| > 1 {
      var front, last := ts[..|ts| - 1], ts[|ts| - 1];
      assert Shown(ts) == Shown(front) + [Show(last)];
      var text := Commas(Shown(front));
      AtParts(arr, i, text + ",", Show(last));
      AtParts(arr, i, text, ",");
      CollectsAll(arr, i, front, sc);
      var mid := i + |text|;
      var got := sc.(elems := sc.elems + Shown(front));
      assert arr[mid] == arr[mid..mid + 1][0];
      assert ScanChar(arr, mid, got) == got;
      CollectsObject(arr, mid + 1, last, got);
      ScanSplits(arr, i, mid, mid + 1 + |Show(last)|, sc);
    }
  }

  /** The scanner recovers a printed array of objects exactly, whatever bytes its strings hold. */
  lemma ElementsExact(ts: seq<Token>)
    requires Objects(ts)
    ensures Elements("[" + Commas(Shown(ts)) + "]") == Shown(ts)
  {
    var body := Commas(Shown(ts));
    var arr := "[" + body + "]";
    assert arr[1..1 + |body|] == body;
    var close := 1 + |body|;
    assert ScanChar(arr, 0, IDLE) == IDLE;
    CollectsAll(arr, 1, ts, IDLE);
    ScanSplits(arr, 1, close, close + 1, IDLE);
    var got := IDLE.(elems := [] + Shown(ts));
    assert ScanTo(arr, close, close + 1, got) == ScanChar(arr, close, got) == got;
  }

  // ---- Pages ----

  datatype Page = Page(items: seq<string>, total: nat, offset: nat, count: nat, truncated: bool)

  /** The elements from `offset` on, at most `limit` of them; a negative limit means no limit. */
  function PageOf(elems: seq<string>, offset: int, limit: int): (p: Page)
    ensures p.offset == (if offset < 0 then 0 else offset) && p.total == |elems| && p.count == |p.items|
    ensures p.truncated <==> p.offset + p.count < p.total
    ensures limit >= 0 ==> p.count <= limit
    ensures p.truncated ==> p.count == limit
    ensures p.count > 0 ==> p.offset + p.count <= |elems|
    ensures forall k :: 0 <= k < p.count ==> p.offset + k < |elems| && p.items[k] == elems[p.offset + k]
  {
    var off := if offset < 0 then 0 else offset;
    var left := if off < |elems| then |elems| - off else 0;
    var count := if limit < 0 || left < limit then left else limit;
    Page(if count == 0 then [] else elems[off..off + count], |elems|, off, count, off + count < |elems|)
  }

  function Bool(b: bool): string { if b then "true" else "false" }

  function Render(p: Page): string {
    "{\"items\":" + ("[" + Commas(p.items) + "]") + ",\"total\":" + Print(p.total) + ",\"offset\":" + Print(p.offset) +
    ",\"count\":" + Print(p.count) + ",\"truncated\":" + Bool(p.truncated) + "}"
  }

  /** A page of one of three elements, as it is printed. */
  lemma PagePrints()
    ensures Render(Page(["{}"], 3, 2, 1, true)) ==
            "{\"items\":[{}],\"total\":3,\"offset\":2,\"count\":1,\"truncated\":true}"
  {
    assert Print(3) == "3" && Print(2) == "2" && Print(1) == "1";
    assert Commas(["{}"]) == "{}";
    hide Commas, Print;
    PageStarts();
    PageEnds();
  }

  lemma PageStarts()
    ensures "{\"items\":" + ("[" + "{}" + "]") + ",\"total\":" + "3" == "{\"items\":[{}],\"total\":3"
  {
    assert "{\"items\":" + ("[" + "{}" + "]") == "{\"items\":[{}]";
  }

  lemma PageEnds()
    ensures "{\"items\":[{}],\"total\":3" + ",\"offset\":" + "2" + ",\"count\":" + "1" + ",\"truncated\":" + "true" + "}" ==
            "{\"items\":[{}],\"total\":3,\"offset\":2,\"count\":1,\"truncated\":true}"
  {
    assert "{\"items\":[{}],\"total\":3" + ",\"offset\":" + "2" == "{\"items\":[{}],\"total\":3,\"offset\":2";
  }

  /** Scan, slice and wrap, as the source's two loops do. */
  method BoundedArray(arr: string, offset: int, limit: int) returns (out: string)
    ensures out == Render(PageOf(Elements(arr), offset, limit))
  {
    hide PageOf, Commas;
    var elems := ScanElements(arr);
    var off := if offset < 0 then 0 else offset;
    var items, shown := JoinPage(elems, off, limit);
    ghost var page := PageOf(elems, offset, limit);
    assert PageOf(elems, off, limit) == page by {
      SameOffset(elems, offset, limit);
    }
    var truncated := off + shown < |elems|;
    out := "{\"items\":" + items + ",\"total\":" + Print(|elems|) + ",\"offset\":" + Print(off) +
           ",\"count\":" + Print(shown) + ",\"truncated\":" + Bool(truncated) + "}";
  }

  lemma SameOffset(elems: seq<string>, offset: int, limit: int)
    ensures PageOf(elems, if offset < 0 then 0 else offset, limit) == PageOf(elems, offset, limit)
  {
  }

  method JoinPage(elems: seq<string>, off: nat, limit: int) returns (items: string, shown: nat)
    ensures var p := PageOf(elems, off, limit); items == "[" + Commas(p.items) + "]" && shown == p.count
  {
    var i := off;
    shown, items := 0, "[";
    ghost var page := PageOf(elems, off, limit);
    while i < |elems| && (limit < 0 || shown < limit)
      invariant i == off + shown && 0 <= shown <= page.count
      invariant items == "[" + Commas(page.items[..shown])
    {
      assert page.items[..shown + 1][..shown] == page.items[..shown];
      items := items + (if shown != 0 then "," else "") + elems[i];
      i, shown := i + 1, shown + 1;
    }
    assert page.items[..shown] == page.items;
    items := items + "]";
  }

  method ScanElements(arr: string) returns (elems: seq<string>)
    ensures elems == Elements(arr)
  {
    var sc := IDLE;
    var i := 0;
    while i < |arr|
      invariant 0 <= i <= |arr| && ScanTo(arr, 0, |arr|, IDLE) == ScanTo(arr, i, |arr|, sc)
    {
      sc := ScanChar(arr, i, sc);
      i := i + 1;
    }
    elems := sc.elems;
  }

  /** Asking for page after page until one is not truncated. */
  function AllPages(elems: seq<string>, offset: nat, limit: nat): seq<string>
    requires limit >= 1
    decreases |elems| - offset
  {
    var p := PageOf(elems, offset, limit);
    p.items + (if p.truncated then AllPages(elems, offset + p.count, limit) else [])
  }

  /** Successive pages of any positive size put the whole list back together. */
  lemma {:induction false} PagesConcatenate(elems: seq<string>, offset: nat, limit: nat)
    requires limit >= 1 && offset <= |elems|
    ensures AllPages(elems, offset, limit) == elems[offset..]
    decreases |elems| - offset
  {
    hide PageOf;
    var p := PageOf(elems, offset, limit);
    var next := offset + p.count;
    assert p.items == elems[offset..next];
    if p.truncated {
      PagesConcatenate(elems, next, limit);
    }
    Halves(elems, offset, next);
  }

  lemma Halves(s: seq<string>, a: nat, b: nat)
    requires a <= b <= |s|
    ensures s[a..b] + s[b..] == s[a..]
  {
  }

  // ---- The user-interface snapshot ----

  datatype Kind = Label | Bar | Arc | Button | Image | Line | Other {
    function Name(): string {
      match this
      case Label => "label"
      case Bar => "bar"
      case Arc => "arc"
      case Button => "button"
      case Image => "image"
      case Line => "line"
      case Other => "obj"
    }
  }

  /** One widget of the screen. Labels print their text, bars and arcs their value. */
  datatype Widget = Widget(ref: nat, kind: Kind, x: int, y: int, w: int, h: int, text: string, value: int)

  function PrintInt(v: int): string { if v < 0 then "-" + Print(-v) else Print(v) }

  /** A printed object is quoted strings with plain text before each and after the last. Only a widget's own text
      is escaped; names are printed as they are. */
  datatype Piece = Piece(before: string, quoted: string, escaped: bool) {
    function Show(): string { before + "\"" + (if escaped then Escape(quoted) else quoted) + "\"" }
  }

  function PiecesText(ps: seq<Piece>): string {
    if ps == [] then "" else PiecesText(ps[..|ps| - 1]) + ps[|ps| - 1].Show()
  }

  function Name(before: string, name: string): Piece { Piece(before, name, false) }

  function WidgetPieces(o: Widget): seq<Piece> {
    [Name("", "ref"), Name(":", "e" + Print(o.ref)), Name(",", "type"), Name(":", o.kind.Name()), Name(",", "x"),
     Name(":" + PrintInt(o.x) + ",", "y"), Name(":" + PrintInt(o.y) + ",", "w"), Name(":" + PrintInt(o.w) + ",", "h")] +
    (if o.kind.Label? then [Name(":" + PrintInt(o.h) + ",", "text"), Piece(":", o.text, true)]
     else if o.kind.Bar? || o.kind.Arc? then [Name(":" + PrintInt(o.h) + ",", "value")] else [])
  }

  function WidgetTail(o: Widget): string {
    if o.kind.Label? then "" else if o.kind.Bar? || o.kind.Arc? then ":" + PrintInt(o.value) else ":" + PrintInt(o.h)
  }

  function WidgetText(o: Widget): string { "{" + (PiecesText(WidgetPieces(o)) + WidgetTail(o)) + "}" }

  /** The members every printed widget starts with. */
  function WidgetFront(ref: string, kind: string, x: string, y: string, w: string, h: string): string {
    "{\"ref\":\"e" + ref + "\",\"type\":\"" + kind + "\",\"x\":" + x + ",\"y\":" + y + ",\"w\":" + w + ",\"h\":" + h
  }

  /** Two literals that meet behind a text become one. */
  lemma Meet(text: string, last: string, a: string, rest: string, merged: string)
    requires last + a == merged
    ensures (text + last) + (a + rest) == (text + merged) + rest
  {
  }

  lemma ShownNames(v: string)
    ensures Name("", "ref").Show() == "\"ref\"" && Name(",", "type").Show() == ",\"type\"" && Name(",", "x").Show() == ",\"x\""
    ensures Name(":", v).Show() == ":\"" + (v + "\"") && Name(":", "e" + v).Show() == ":\"e" + (v + "\"")
    ensures Name(":" + v + ",", "y").Show() == ":" + (v + ",\"y\"")
    ensures Name(":" + v + ",", "w").Show() == ":" + (v + ",\"w\"")
    ensures Name(":" + v + ",", "h").Show() == ":" + (v + ",\"h\"")
  {
  }

  lemma Behind(text: string, a: string, b: string)
    ensures text + (a + b) == (text + a) + b
  {
  }

  lemma FourShown(ps: seq<Piece>, k: nat)
    requires k + 4 <= |ps|
    ensures PiecesText(ps[..k + 4]) == PiecesText(ps[..k]) + ps[k].Show() + ps[k + 1].Show() + ps[k + 2].Show() + ps[k + 3].Show()
  {
    PrefixText(ps, k);
    PrefixText(ps, k + 1);
    PrefixText(ps, k + 2);
    PrefixText(ps, k + 3);
    hide PiecesText, Piece.Show;
  }

  lemma NothingShown(p: Piece)
    ensures PiecesText([]) == "" && "" + p.Show() == p.Show()
  {
  }

  lemma EightShown(ps: seq<Piece>)
    requires |ps| == 8
    ensures PiecesText(ps) == ps[0].Show() + ps[1].Show() + ps[2].Show() + ps[3].Show() + ps[4].Show() + ps[5].Show() +
                              ps[6].Show() + ps[7].Show()
  {
    hide PiecesText, Piece.Show;
    FourShown(ps, 0);
    FourShown(ps, 4);
    NothingShown(ps[0]);
    assert ps[..8] == ps && ps[..0] == [];
  }

  lemma PrefixText(ps: seq<Piece>, k: nat)
    requires k < |ps|
    ensures PiecesText(ps[..k + 1]) == PiecesText(ps[..k]) + ps[k].Show()
  {
    assert ps[..k + 1][..k] == ps[..k];
  }

  lemma FrontStarts(ref: string, kind: string)
    ensures "{" + Name("", "ref").Show() + Name(":", "e" + ref).Show() + Name(",", "type").Show() + Name(":", kind).Show() ==
            "{\"ref\":\"e" + ref + "\",\"type\":\"" + kind + "\""
  {
    ShownNames(ref);
    ShownNames(kind);
    hide Name, Piece.Show;
    assert "{" + "\"ref\"" == "{\"ref\"";
    Meet("", "{\"ref\"", ":\"e", ref + "\"", "{\"ref\":\"e");
    assert "" + "{\"ref\"" == "{\"ref\"" && "" + "{\"ref\":\"e" == "{\"ref\":\"e";
    var t := "{\"ref\":\"e" + ref;
    Behind("{\"ref\":\"e", ref, "\"");
    Meet(t, "\"", ",\"type\"", "", "\",\"type\"");
    assert ",\"type\"" + "" == ",\"type\"" && (t + "\",\"type\"") + "" == t + "\",\"type\"";
    Meet(t, "\",\"type\"", ":\"", kind + "\"", "\",\"type\":\"");
    Behind(t + "\",\"type\":\"", kind, "\"");
  }

  lemma FrontEnds(t: string, x: string, y: string, w: string)
    ensures (t + "\"") + Name(",", "x").Show() + Name(":" + x + ",", "y").Show() + Name(":" + y + ",", "w").Show() +
            Name(":" + w + ",", "h").Show() ==
            t + "\",\"x\":" + x + ",\"y\":" + y + ",\"w\":" + w + ",\"h\""
  {
    ShownNames(x);
    ShownNames(y);
    ShownNames(w);
    hide Name, Piece.Show;
    Meet(t, "\"", ",\"x\"", "", "\",\"x\"");
    assert ",\"x\"" + "" == ",\"x\"" && (t + "\",\"x\"") + "" == t + "\",\"x\"";
    Meet(t, "\",\"x\"", ":", x + ",\"y\"", "\",\"x\":");
    var u := t + "\",\"x\":" + x;
    Behind(t + "\",\"x\":", x, ",\"y\"");
    Meet(u, ",\"y\"", ":", y + ",\"w\"", ",\"y\":");
    var v := u + ",\"y\":" + y;
    Behind(u + ",\"y\":", y, ",\"w\"");
    Meet(v, ",\"w\"", ":", w + ",\"h\"", ",\"w\":");
    Behind(v + ",\"w\":", w, ",\"h\"");
  }

  lemma BehindAll(o: string, a: string, b: string, c: string, d: string, e: string, f: string, g: string, h: string)
    ensures o + (a + b + c + d + e + f + g + h) == o + a + b + c + d + e + f + g + h
  {
    Behind(o, a + b + c + d + e + f + g, h);
    Behind(o, a + b + c + d + e + f, g);
    Behind(o, a + b + c + d + e, f);
    Behind(o, a + b + c + d, e);
    Behind(o, a + b + c, d);
    Behind(o, a + b, c);
    Behind(o, a, b);
  }

  function FrontList(ref: string, kind: string, x: string, y: string, w: string): seq<Piece> {
    [Name("", "ref"), Name(":", "e" + ref), Name(",", "type"), Name(":", kind), Name(",", "x"),
     Name(":" + x + ",", "y"), Name(":" + y + ",", "w"), Name(":" + w + ",", "h")]
  }

  /** A printed widget up to the value of its last common member. */
  lemma FrontReads(ref: string, kind: string, x: string, y: string, w: string)
    ensures "{" + PiecesText(FrontList(ref, kind, x, y, w)) ==
            "{\"ref\":\"e" + ref + "\",\"type\":\"" + kind + "\",\"x\":" + x + ",\"y\":" + y + ",\"w\":" + w + ",\"h\""
  {
    EightShown(FrontList(ref, kind, x, y, w));
    FrontStarts(ref, kind);
    FrontEnds("{\"ref\":\"e" + ref + "\",\"type\":\"" + kind, x, y, w);
    hide PiecesText, Name, Piece.Show;
    BehindAll("{", Name("", "ref").Show(), Name(":", "e" + ref).Show(), Name(",", "type").Show(), Name(":", kind).Show(),
              Name(",", "x").Show(), Name(":" + x + ",", "y").Show(), Name(":" + y + ",", "w").Show(), Name(":" + w + ",", "h").Show());
  }

  /** What stands in a printed widget, member by member. */
  lemma WidgetReads(o: Widget)
    ensures WidgetText(o) ==
            WidgetFront(Print(o.ref), o.kind.Name(), PrintInt(o.x), PrintInt(o.y), PrintInt(o.w), PrintInt(o.h)) +
            (if o.kind.Label? then ",\"text\":\"" + Escape(o.text) + "\"}"
             else if o.kind.Bar? || o.kind.Arc? then ",\"value\":" + PrintInt(o.value) + "}" else "}")
  {
    hide PiecesText, Escape, Print, PrintInt, Kind.Name;
    var ref, kind, x, y, w, h := Print(o.ref), o.kind.Name(), PrintInt(o.x), PrintInt(o.y), PrintInt(o.w), PrintInt(o.h);
    var ps, front := WidgetPieces(o), FrontList(ref, kind, x, y, w);
    FrontReads(ref, kind, x, y, w);
    assert ps[..8] == front;
    var u := "{\"ref\":\"e" + ref + "\",\"type\":\"" + kind + "\",\"x\":" + x + ",\"y\":" + y + ",\"w\":" + w;
    if o.kind.Label? {
      PrefixText(ps, 8);
      PrefixText(ps, 9);
      assert ps[..10] == ps;
      LabelEnds(u, PiecesText(front), h, o.text);
    } else if o.kind.Bar? || o.kind.Arc? {
      PrefixText(ps, 8);
      assert ps[..9] == ps;
      ValueEnds(u, PiecesText(front), h, PrintInt(o.value));
    } else {
      assert ps[..8] == ps;
      PlainEnds(u, PiecesText(front), h);
    }
  }

  lemma PlainEnds(u: string, front: string, h: string)
    requires "{" + front == u + ",\"h\""
    ensures "{" + (front + (":" + h)) + "}" == u + ",\"h\":" + h + "}"
  {
    Behind("{", front, ":" + h);
    Meet(u, ",\"h\"", ":", h, ",\"h\":");
  }

  lemma ValueEnds(u: string, front: string, h: string, value: string)
    requires "{" + front == u + ",\"h\""
    ensures "{" + (front + Name(":" + h + ",", "value").Show() + (":" + value)) + "}" ==
            u + ",\"h\":" + h + (",\"value\":" + value + "}")
  {
    var shown := Name(":" + h + ",", "value").Show();
    assert shown == ":" + (h + ",\"value\"");
    hide Name, Piece.Show;
    Behind("{", front + shown, ":" + value);
    Behind("{", front, shown);
    Meet(u, ",\"h\"", ":", h + ",\"value\"", ",\"h\":");
    var v := u + ",\"h\":" + h;
    Behind(u + ",\"h\":", h, ",\"value\"");
    Meet(v, ",\"value\"", ":", value, ",\"value\":");
    Behind(v, ",\"value\":", value);
    Behind(v, ",\"value\":" + value, "}");
  }

  lemma LabelEnds(u: string, front: string, h: string, text: string)
    requires "{" + front == u + ",\"h\""
    ensures "{" + (front + Name(":" + h + ",", "text").Show() + Piece(":", text, true).Show() + "") + "}" ==
            u + ",\"h\":" + h + (",\"text\":\"" + Escape(text) + "\"}")
  {
    hide Escape;
    var shown, e := Name(":" + h + ",", "text").Show(), Escape(text);
    assert shown == ":" + (h + ",\"text\"");
    assert Piece(":", text, true).Show() == ":\"" + (e + "\"");
    hide Name, Piece.Show;
    var last := Piece(":", text, true).Show();
    assert front + shown + last + "" == front + shown + last;
    Behind("{", front + shown, last);
    Behind("{", front, shown);
    Meet(u, ",\"h\"", ":", h + ",\"text\"", ",\"h\":");
    var v := u + ",\"h\":" + h;
    Behind(u + ",\"h\":", h, ",\"text\"");
    Meet(v, ",\"text\"", ":\"", e + "\"", ",\"text\":\"");
    var lit := ",\"text\":\"";
    Behind(v, lit, e);
    Behind(v + lit, e, "\"");
    assert "\"" + "}" == "\"}";
    Behind(v + lit + e, "\"", "}");
    Behind(v, lit + e, "\"}");
  }

  /** Text the escaper leaves alone. */
  predicate Safe(s: string) { forall i :: 0 <= i < |s| ==> s[i] as int >= 32 && s[i] != '"' && s[i] != '\\' }

  lemma {:induction false} SafeUnescaped(s: string)
    requires Safe(s)
    ensures Escape(s) == s
    decreases |s|
  {
    if s != "" {
      SafeUnescaped(s[..|s| - 1]);
    }
  }

  // The same text as object tokens.

  predicate PlainText(s: string) { forall i :: 0 <= i < |s| ==> s[i] as int >= 32 && WellFormed(Bare(s[i])) }

  predicate Sound(p: Piece) { PlainText(p.before) && (p.escaped || Safe(p.quoted)) }

  function Bares(s: string): seq<Token> { seq(|s|, i requires 0 <= i < |s| => Bare(s[i])) }

  function PieceTokens(ps: seq<Piece>): seq<Token> {
    if ps == [] then [] else PieceTokens(ps[..|ps| - 1]) + (Bares(ps[|ps| - 1].before) + [Str(ps[|ps| - 1].quoted)])
  }

  lemma {:induction false} ShowAllAppend(a: seq<Token>, b: seq<Token>)
    ensures ShowAll(a + b) == ShowAll(a) + ShowAll(b)
    decreases |a|
  {
    hide Show;
    if a == [] {
      assert a + b == b;
    } else {
      ShowAllAppend(a[1..], b);
      assert (a + b)[1..] == a[1..] + b;
    }
  }

  lemma {:induction false} ShowBares(s: string)
    ensures ShowAll(Bares(s)) == s
    decreases |s|
  {
    if s != "" {
      ShowBares(s[1..]);
      assert Bares(s)[1..] == Bares(s[1..]);
    }
  }

  lemma {:induction false} PiecesShow(ps: seq<Piece>)
    requires forall i :: 0 <= i < |ps| ==> Sound(ps[i])
    ensures ShowAll(PieceTokens(ps)) == PiecesText(ps)
    decreases |ps|
  {
    hide Show, Bares, Sound, Piece.Show;
    if ps != [] {
      var front, last := ps[..|ps| - 1], ps[|ps| - 1];
      PiecesShow(front);
      PieceShows(last);
      ShowAllAppend(PieceTokens(front), Bares(last.before) + [Str(last.quoted)]);
    }
  }

  lemma PieceShows(p: Piece)
    requires Sound(p)
    ensures ShowAll(Bares(p.before) + [Str(p.quoted)]) == p.Show()
  {
    hide Bares, Escape, Safe;
    ShowAllAppend(Bares(p.before), [Str(p.quoted)]);
    ShowBares(p.before);
    ShowOne(p.quoted);
    if !p.escaped {
      SafeUnescaped(p.quoted);
    }
    Grouped(p.before, "\"", Escape(p.quoted), "\"");
  }

  lemma ShowOne(content: string)
    ensures ShowAll([Str(content)]) == "\"" + Escape(content) + "\""
  {
    hide Escape;
    assert [Str(content)][1..] == [] && ShowAll([]) == "";
  }

  lemma Grouped(a: string, b: string, c: string, d: string)
    ensures a + (b + c + d) == a + b + c + d
  {
  }

  lemma {:induction false} PiecesWellFormed(ps: seq<Piece>)
    requires forall i :: 0 <= i < |ps| ==> Sound(ps[i])
    ensures forall t :: t in PieceTokens(ps) ==> WellFormed(t)
    decreases |ps|
  {
    if ps != [] {
      PiecesWellFormed(ps[..|ps| - 1]);
    }
  }

  lemma NumberPlain(v: int)
    ensures PlainText(PrintInt(v)) && PlainText(":" + PrintInt(v)) && PlainText(":" + PrintInt(v) + ",")
  {
    var digits := Print(if v < 0 then -v else v);
    assert forall i :: 0 <= i < |digits| ==> IsDigit(digits[i]);
  }

  lemma RefIsSafe(n: nat)
    ensures Safe("e" + Print(n))
  {
    assert forall i :: 0 <= i < |Print(n)| ==> IsDigit(Print(n)[i]);
  }

  lemma NamesAreSafe(k: Kind)
    ensures Safe(k.Name())
    ensures Safe("ref") && Safe("type") && Safe("x") && Safe("y") && Safe("w") && Safe("h") && Safe("text") && Safe("value")
    ensures PlainText("") && PlainText(":") && PlainText(",")
  {
  }

  lemma PiecesSound(o: Widget)
    ensures forall i :: 0 <= i < |WidgetPieces(o)| ==> Sound(WidgetPieces(o)[i])
    ensures PlainText(WidgetTail(o))
  {
    hide PlainText, Safe, PrintInt, Kind.Name;
    NumberPlain(o.x);
    NumberPlain(o.y);
    NumberPlain(o.w);
    NumberPlain(o.h);
    NumberPlain(o.value);
    RefIsSafe(o.ref);
    NamesAreSafe(o.kind);
  }

  function WidgetToken(o: Widget): Token { Obj(PieceTokens(WidgetPieces(o)) + Bares(WidgetTail(o))) }

  /** A printed widget is a well-formed object, whatever its text holds. */
  lemma WidgetIsObject(o: Widget)
    ensures WellFormed(WidgetToken(o)) && Show(WidgetToken(o)) == WidgetText(o)
  {
    hide PieceTokens, WidgetPieces, WidgetTail, Sound;
    var ps, tail := WidgetPieces(o), WidgetTail(o);
    PiecesSound(o);
    PiecesShow(ps);
    PiecesWellFormed(ps);
    ShowAllAppend(PieceTokens(ps), Bares(tail));
    ShowBares(tail);
    assert forall t :: t in Bares(tail) ==> WellFormed(t);
  }

  function Numbered(widgets: seq<Widget>): seq<Widget> {
    seq(|widgets|, i requires 0 <= i < |widgets| => widgets[i].(ref := i))
  }

  function Texts(widgets: seq<Widget>): seq<string> {
    seq(|widgets|, i requires 0 <= i < |widgets| => WidgetText(widgets[i]))
  }

  /** Paging a snapshot works on its widgets: the scanner finds exactly them, and the pages of any
      positive size give them all back in order. */
  lemma SnapshotPages(widgets: seq<Widget>, limit: nat)
    requires limit >= 1
    ensures var texts := Texts(widgets);
            && Elements("[" + Commas(texts) + "]") == texts
            && AllPages(Elements("[" + Commas(texts) + "]"), 0, limit) == texts
  {
    hide WidgetText, WidgetToken;
    var texts := Texts(widgets);
    var tokens := seq(|widgets|, i requires 0 <= i < |widgets| => WidgetToken(widgets[i]));
    forall i | 0 <= i < |widgets|
      ensures tokens[i].Obj? && WellFormed(tokens[i]) && Show(tokens[i]) == texts[i]
    {
      WidgetIsObject(widgets[i]);
      WidgetTokenIsObj(widgets[i]);
    }
    assert Shown(tokens) == texts;
    ElementsExact(tokens);
    PagesConcatenate(texts, 0, limit);
  }

  lemma WidgetTokenIsObj(o: Widget)
    ensures WidgetToken(o).Obj?
  {
  }

  /** The snapshot's own escaper: the same text, for a C string. */
  method JsonEscape(s: string) returns (o: string)
    ensures o == Escape(CString(s))
  {
    hide EscapeChar;
    o := "";
    var i := 0;
    while i < |s| && s[i] != NUL
      invariant 0 <= i <= |s| && o == Escape(s[..i]) && CString(s) == s[..i] + CString(s[i..])
    {
      o := o + EscapeChar(s[i]);
      assert s[..i + 1][..i] == s[..i] && s[i..][1..] == s[i + 1..];
      i := i + 1;
    }
    assert CString(s[i..]) == "" && s[..i] + "" == s[..i];
  }

  /** A tap on a reference goes to the middle of its widget. */
  function Centre(o: Widget): (int, int) {
    (TruncDiv(o.x + (o.x + o.w - 1), 2), TruncDiv(o.y + (o.y + o.h - 1), 2))
  }

  /** The tap point is the middle of the widget, to half a pixel on either axis. */
  lemma CentreIsMiddle(o: Widget)
    ensures -1 <= 2 * Centre(o).0 - (o.x + (o.x + o.w - 1)) <= 1
    ensures -1 <= 2 * Centre(o).1 - (o.y + (o.y + o.h - 1)) <= 1
  {
  }

  lemma CentreInside(o: Widget)
    requires o.w >= 1 && o.h >= 1
    ensures o.x <= Centre(o).0 < o.x + o.w && o.y <= Centre(o).1 < o.y + o.h
  {
  }

  lemma RefsDiffer(i: nat, j: nat)
    ensures "e" + Print(i) == "e" + Print(j) ==> i == j
  {
    assert ("e" + Print(i))[1..] == Print(i) && ("e" + Print(j))[1..] == Print(j);
    ValueOfPrint(i);
    ValueOfPrint(j);
  }

  /** The snapshot of the visible widgets in walking order: numbered, printed, and each reference bound to its
      own widget's middle. */
  method SnapshotJson(widgets: seq<Widget>) returns (out: string, refs: map<string, (int, int)>)
    ensures out == "[" + Commas(Texts(Numbered(widgets))) + "]"
    ensures forall i :: 0 <= i < |widgets| ==> "e" + Print(i) in refs && refs["e" + Print(i)] == Centre(widgets[i])
  {
    hide WidgetText, Print;
    ghost var texts := Texts(Numbered(widgets));
    out, refs := "[", map[];
    var counter := 0;
    while counter < |widgets|
      invariant 0 <= counter <= |widgets| && out == "[" + Commas(texts[..counter])
      invariant forall i :: 0 <= i < counter ==> "e" + Print(i) in refs && refs["e" + Print(i)] == Centre(widgets[i])
    {
      forall i | 0 <= i < counter
        ensures "e" + Print(i) != "e" + Print(counter)
      {
        RefsDiffer(i, counter);
      }
      refs := refs["e" + Print(counter) := Centre(widgets[counter])];
      if counter > 0 {
        out := out + ",";
      }
      out := out + WidgetText(widgets[counter].(ref := counter));
      assert texts[..counter + 1][..counter] == texts[..counter];
      counter := counter + 1;
    }
    assert texts[..counter] == texts;
    out := out + "]";
  }

  /** A snapshot is one line whatever its labels hold. */
  lemma WidgetIsPrintable(o: Widget)
    ensures Printable(WidgetText(o))
  {
    hide Printable, Sound, WidgetPieces, WidgetTail, PlainText;
    PiecesSound(o);
    PiecesArePrintable(WidgetPieces(o));
    PlainIsPrintable(WidgetTail(o));
    Braces();
    PrintableJoin(PiecesText(WidgetPieces(o)), WidgetTail(o));
    PrintableJoin("{", PiecesText(WidgetPieces(o)) + WidgetTail(o));
    PrintableJoin("{" + (PiecesText(WidgetPieces(o)) + WidgetTail(o)), "}");
  }

  lemma Braces()
    ensures Printable("{") && Printable("}") && Printable("[") && Printable("]") && Printable("\"") && Printable(",") && Printable("")
  {
  }

  lemma PlainIsPrintable(s: string)
    requires PlainText(s)
    ensures Printable(s)
  {
  }

  lemma {:induction false} PiecesArePrintable(ps: seq<Piece>)
    requires forall i :: 0 <= i < |ps| ==> Sound(ps[i])
    ensures Printable(PiecesText(ps))
    decreases |ps|
  {
    hide Printable, Safe, PlainText;
    Braces();
    if ps != [] {
      var p := ps[|ps| - 1];
      var quoted := if p.escaped then Escape(p.quoted) else p.quoted;
      PiecesArePrintable(ps[..|ps| - 1]);
      PlainIsPrintable(p.before);
      EscapedIsPrintable(p.quoted);
      SafeIsPrintable(p.quoted);
      PrintableJoin(p.before, "\"");
      PrintableJoin(p.before + "\"", quoted);
      PrintableJoin(p.before + "\"" + quoted, "\"");
      PrintableJoin(PiecesText(ps[..|ps| - 1]), p.Show());
    }
  }

  lemma SafeIsPrintable(s: string)
    ensures Safe(s) ==> Printable(s)
  {
  }

  lemma {:induction false} CommasArePrintable(ss: seq<string>)
    requires forall i :: 0 <= i < |ss| ==> Printable(ss[i])
    ensures Printable(Commas(ss))
    decreases |ss|
  {
    hide Printable;
    Braces();
    if |ss| > 1 {
      var front, last := ss[..|ss| - 1], ss[|ss| - 1];
      CommasArePrintable(front);
      PrintableJoin(Commas(front), ",");
      PrintableJoin(Commas(front) + ",", last);
    }
  }
}
