/** Display captures: the screenshot's expansion of RGB565 to 8-bit channels, and the decoder that turns a
    binary PPM dump back into RGB565.

    A file is a sequence of byte-valued characters. The source's shifts and ors combine disjoint bit fields,
    so they are written as sums here.
 */
module Ppm {
  import opened CLang
  import opened Decimal
  import opened Pixels

  const MAX_SIDE := 4096

  // ---- Pixels ----

  function Widen5(c: int): int { 8 * c + c / 4 }

  function Widen6(c: int): int { 4 * c + c / 16 }

  function Red(p: Color): int { Widen5(p / 0x800 % 0x20) }

  function Green(p: Color): int { Widen6(p / 0x20 % 0x40) }

  function Blue(p: Color): int { Widen5(p % 0x20) }

  function Narrow(r: int, g: int, b: int): int { r / 8 * 0x800 + g / 4 * 0x20 + b / 8 }

  lemma Fields(p: Color)
    ensures var r, g, b := p / 0x800 % 0x20, p / 0x20 % 0x40, p % 0x20;
            p == r * 0x800 + g * 0x20 + b && 0 <= r < 0x20 && 0 <= g < 0x40 && 0 <= b < 0x20
  {
    var q := p / 0x20;
    assert p == 0x20 * q + p % 0x20 && q == 0x40 * (q / 0x40) + q % 0x40;
    assert q / 0x40 == p / 0x800 < 0x20;
  }

  lemma Widens(c: int)
    ensures 0 <= c < 0x20 ==> Widen5(c) / 8 == c && 0 <= Widen5(c) < 256
    ensures 0 <= c < 0x40 ==> Widen6(c) / 4 == c && 0 <= Widen6(c) < 256
  {
  }

  /** Widening and narrowing again loses nothing, and every channel is a byte. */
  lemma ChannelsComeBack(p: Color)
    ensures Narrow(Red(p), Green(p), Blue(p)) == p
    ensures 0 <= Red(p) < 256 && 0 <= Green(p) < 256 && 0 <= Blue(p) < 256
  {
    hide Widen5, Widen6;
    Fields(p);
    Widens(p / 0x800 % 0x20);
    Widens(p / 0x20 % 0x40);
    Widens(p % 0x20);
  }

  /** Red is the upper five bits, green the middle six, blue the lower five; each is spread over 0 to 255 to within one
      of its steps. Narrowing puts them back where they came from. */
  lemma ChannelFields(p: Color)
    ensures var r, g, b := p / 2048, p / 32 % 64, p % 32;
            && Red(p) / 8 == r && Green(p) / 4 == g && Blue(p) / 8 == b
            && -31 < 31 * Red(p) - 255 * r < 31 && -63 < 63 * Green(p) - 255 * g < 63 && -31 < 31 * Blue(p) - 255 * b < 31
  {
    hide Widen5, Widen6;
    assert p / 2048 % 0x20 == p / 2048;
    Widens(p / 2048);
    Widens(p / 32 % 64);
    Widens(p % 32);
    Spreads(p / 2048);
    Spreads(p / 32 % 64);
    Spreads(p % 32);
  }

  lemma Spreads(c: int)
    ensures 0 <= c < 32 ==> -31 < 31 * Widen5(c) - 255 * c < 31
    ensures 0 <= c < 64 ==> -63 < 63 * Widen6(c) - 255 * c < 63
  {
  }

  /** Pure red, green and blue, and the colours without them. */
  lemma PureColours()
    ensures Red(0xF800) == 255 && Green(0x07E0) == 255 && Blue(0x001F) == 255
    ensures Red(0x07FF) == 0 && Green(0xF81F) == 0 && Blue(0xFFE0) == 0
  {
  }

  lemma NarrowFields(r: int, g: int, b: int)
    requires 0 <= r < 256 && 0 <= g < 256 && 0 <= b < 256
    ensures var p := Narrow(r, g, b);
            0 <= p < 0x10000 && p / 2048 == r / 8 && p / 32 % 64 == g / 4 && p % 32 == b / 8
  {
  }

  /** The three bytes of every pixel, in order. */
  function Expand(px: seq<Color>): (s: string)
    ensures |s| == 3 * |px|
  {
    if px == [] then ""
    else
      var p := px[|px| - 1];
      ChannelsComeBack(p);
      Expand(px[..|px| - 1]) + [Red(p) as char, Green(p) as char, Blue(p) as char]
  }

  lemma {:induction false} ExpandedAt(px: seq<Color>, i: nat)
    requires i < |px|
    ensures var s := Expand(px);
            s[3 * i] as int == Red(px[i]) && s[3 * i + 1] as int == Green(px[i]) && s[3 * i + 2] as int == Blue(px[i])
  {
    ChannelsComeBack(px[i]);
    if i < |px| - 1 {
      ExpandedAt(px[..|px| - 1], i);
    }
  }

  method Channels(p: Color) returns (r: char, g: char, b: char)
    ensures 0 <= Red(p) < 256 && 0 <= Green(p) < 256 && 0 <= Blue(p) < 256
    ensures r == Red(p) as char && g == Green(p) as char && b == Blue(p) as char
  {
    ChannelsComeBack(p);
    var r5, g6, b5 := p / 0x800 % 0x20, p / 0x20 % 0x40, p % 0x20;
    r, g, b := (8 * r5 + r5 / 4) as char, (4 * g6 + g6 / 16) as char, (8 * b5 + b5 / 4) as char;
  }

  /** The screenshot's loop over the framebuffer. */
  method ExpandPixels(px: seq<Color>) returns (rgb: array<char>)
    ensures rgb[..] == Expand(px)
  {
    hide Red, Green, Blue;
    rgb := new char[3 * |px|](_ => 0 as char);
    var i := 0;
    while i < |px|
      invariant 0 <= i <= |px| && rgb[..3 * i] == Expand(px[..i])
    {
      ghost var before := rgb[..3 * i];
      var at := 3 * i;
      var r, g, b := Channels(px[i]);
      rgb[at], rgb[at + 1], rgb[at + 2] := r, g, b;
      assert rgb[..at] == before;
      assert rgb[..at + 3] == before + [r, g, b];
      assert px[..i + 1][..i] == px[..i];
      i := i + 1;
    }
    assert px[..i] == px && rgb[..3 * i] == rgb[..];
  }

  // ---- Header tokens ----

  predicate Blank(c: char) { c in " \t\r\n" }

  function LineEnd(s: string, i: nat): (e: nat)
    requires i <= |s|
    ensures i <= e <= |s| && (e < |s| ==> s[e] == '\n') && (forall k :: i <= k < e ==> s[k] != '\n')
    decreases |s| - i
  {
    if i < |s| && s[i] != '\n' then LineEnd(s, i + 1) else i
  }

  /** Past blanks and comments. */
  function Skip(s: string, i: nat): (e: nat)
    requires i <= |s|
    ensures i <= e <= |s| && (e < |s| ==> !Blank(s[e]) && s[e] != '#')
    decreases |s| - i
  {
    if i < |s| && Blank(s[i]) then Skip(s, i + 1)
    else if i < |s| && s[i] == '#' then Skip(s, LineEnd(s, i))
    else i
  }

  function TokenEnd(s: string, i: nat): (e: nat)
    requires i <= |s|
    ensures i <= e <= |s| && (e < |s| ==> Blank(s[e])) && (forall k :: i <= k < e ==> !Blank(s[k]))
    decreases |s| - i
  {
    if i < |s| && !Blank(s[i]) then TokenEnd(s, i + 1) else i
  }

  datatype Token = Token(text: string, end: nat)

  function NextToken(s: string, pos: nat): (t: Option<Token>)
    requires pos <= |s|
    ensures t.Some? ==> pos <= t.value.end <= |s|
  {
    var start := Skip(s, pos);
    if start == |s| then None else Some(Token(s[start..TokenEnd(s, start)], TokenEnd(s, start)))
  }

  method ReadToken(s: string, pos: nat) returns (t: Option<Token>)
    requires pos <= |s|
    ensures t == NextToken(s, pos)
  {
    var i := pos;
    while true
      invariant pos <= i <= |s| && Skip(s, i) == Skip(s, pos)
      decreases |s| - i
    {
      while i < |s| && Blank(s[i])
        invariant pos <= i <= |s| && Skip(s, i) == Skip(s, pos)
      {
        i := i + 1;
      }
      if i < |s| && s[i] == '#' {
        ghost var hash := i;
        while i < |s| && s[i] != '\n'
          invariant hash <= i <= |s| && LineEnd(s, i) == LineEnd(s, hash)
        {
          i := i + 1;
        }
        continue;
      }
      break;
    }
    if i >= |s| {
      return None;
    }
    var start := i;
    while i < |s| && !Blank(s[i])
      invariant start <= i <= |s| && TokenEnd(s, i) == TokenEnd(s, start)
    {
      i := i + 1;
    }
    t := Some(Token(s[start..i], i));
  }

  /** A side in 1..4096 written in at most five digits. */
  function Dimension(tok: string): Option<nat> {
    if tok == "" || |tok| > 5 || exists i :: 0 <= i < |tok| && !IsDigit(tok[i]) then None
    else
      var v := Value(tok);
      if 1 <= v <= MAX_SIDE then Some(v) else None
  }

  method ParseDim(tok: string) returns (d: Option<nat>)
    ensures d == Dimension(tok)
  {
    if tok == "" || |tok| > 5 {
      return None;
    }
    var v, i := 0, 0;
    while i < |tok|
      invariant 0 <= i <= |tok| && (forall k :: 0 <= k < i ==> IsDigit(tok[..i][k])) && v == Value(tok[..i])
    {
      if tok[i] < '0' || tok[i] > '9' {
        return None;
      }
      assert tok[..i + 1][..i] == tok[..i];
      v := v * 10 + (tok[i] - '0') as nat;
      i := i + 1;
    }
    assert tok[..i] == tok;
    d := if v < 1 || v > MAX_SIDE then None else Some(v);
  }

  // ---- The decoder ----

  datatype Decoded = Image(w: nat, h: nat, px: seq<Color>) | NotPpm | TruncatedHeader | BadSize | BadMaxval | TruncatedPixels

  datatype Header = Header(w: nat, h: nat, start: nat) | Bad(why: Decoded)

  /** The four tokens, and the one whitespace byte behind them. */
  function ReadHeader(s: string): (r: Header)
    ensures r.Header? ==> 1 <= r.w <= MAX_SIDE && 1 <= r.h <= MAX_SIDE
    ensures r.Bad? ==> !r.why.Image?
  {
    var magic := NextToken(s, 0);
    if magic.None? || magic.value.text != "P6" then Bad(NotPpm)
    else
      var w := NextToken(s, magic.value.end);
      if w.None? then Bad(TruncatedHeader)
      else
        var h := NextToken(s, w.value.end);
        if h.None? then Bad(TruncatedHeader)
        else
          var maxval := NextToken(s, h.value.end);
          if maxval.None? then Bad(TruncatedHeader)
          else if Dimension(w.value.text).None? || Dimension(h.value.text).None? then Bad(BadSize)
          else if maxval.value.text != "255" then Bad(BadMaxval)
          else Header(Dimension(w.value.text).value, Dimension(h.value.text).value, maxval.value.end + 1)
  }

  function PixelAt(s: string, at: nat): Color
    requires Bytes(s) && at + 2 < |s|
  {
    Narrow(s[at] as int, s[at + 1] as int, s[at + 2] as int)
  }

  /** The first n pixels of the data behind `start`. */
  function PixelData(s: string, start: nat, n: nat): (px: seq<Color>)
    requires Bytes(s) && start + 3 * n <= |s|
    ensures |px| == n
  {
    seq(n, i requires 0 <= i < n => PixelAt(s, start + 3 * i))
  }

  function Decode(s: string): Decoded
    requires Bytes(s)
  {
    var head := ReadHeader(s);
    if head.Bad? then head.why
    else
      Area(head.w, head.h);
      if |s| < head.start + head.w * head.h * 3 then TruncatedPixels
      else Image(head.w, head.h, PixelData(s, head.start, head.w * head.h))
  }

  lemma Area(w: nat, h: nat)
    ensures w * h >= 0 && (w >= 1 && h >= 1 ==> w * h >= 1)
  {
  }

  /** The decoder, as the capture path runs it. */
  method DecodeRgb565(ppm: string) returns (d: Decoded)
    requires Bytes(ppm)
    ensures d == Decode(ppm)
  {
    hide NextToken, Dimension, Narrow;
    var magic := ReadToken(ppm, 0);
    if magic.None? || magic.value.text != "P6" {
      return NotPpm;
    }
    var ws := ReadToken(ppm, magic.value.end);
    if ws.None? {
      return TruncatedHeader;
    }
    var hs := ReadToken(ppm, ws.value.end);
    if hs.None? {
      return TruncatedHeader;
    }
    var maxval := ReadToken(ppm, hs.value.end);
    if maxval.None? {
      return TruncatedHeader;
    }
    var w := ParseDim(ws.value.text);
    var h: Option<nat> := None;
    if w.Some? {
      h := ParseDim(hs.value.text);
    }
    if h.None? {
      assert w == Dimension(ws.value.text);
      return BadSize;
    }
    if maxval.value.text != "255" {
      return BadMaxval;
    }
    var pos := maxval.value.end + 1;
    Area(w.value, h.value);
    var n := w.value * h.value;
    if |ppm| < pos + n * 3 {
      return TruncatedPixels;
    }
    var px := ReadPixels(ppm, pos, n);
    d := Image(w.value, h.value, px);
  }

  /** The loop over the pixel bytes. */
  method ReadPixels(s: string, start: nat, n: nat) returns (px: seq<Color>)
    requires Bytes(s) && start + 3 * n <= |s|
    ensures px == PixelData(s, start, n)
  {
    px := [];
    var i, p := 0, start;
    while i < n
      invariant 0 <= i <= n && p == start + 3 * i && px == PixelData(s, start, i)
    {
      px := px + [PixelAt(s, p)];
      i, p := i + 1, p + 3;
    }
  }

  // ---- Every prefix too short for its own header is refused ----

  lemma {:induction false} LineEndStable(p: string, s: string, i: nat)
    requires p <= s && i <= |p| && LineEnd(p, i) < |p|
    ensures LineEnd(s, i) == LineEnd(p, i)
    decreases |p| - i
  {
    if i < |p| && p[i] != '\n' {
      LineEndStable(p, s, i + 1);
    }
  }

  lemma {:induction false} SkipStable(p: string, s: string, i: nat)
    requires p <= s && i <= |p| && Skip(p, i) < |p|
    ensures Skip(s, i) == Skip(p, i)
    decreases |p| - i
  {
    if i < |p| {
      assert p[i] == s[i];
      if Blank(p[i]) {
        SkipStable(p, s, i + 1);
      } else if p[i] == '#' {
        LineEndStable(p, s, i);
        SkipStable(p, s, LineEnd(p, i));
      }
    }
  }

  lemma {:induction false} TokenEndStable(p: string, s: string, i: nat)
    requires p <= s && i <= |p| && TokenEnd(p, i) < |p|
    ensures TokenEnd(s, i) == TokenEnd(p, i)
    decreases |p| - i
  {
    if i < |p| {
      assert p[i] == s[i];
      if !Blank(p[i]) {
        TokenEndStable(p, s, i + 1);
      }
    }
  }

  /** A token with text behind it is read the same from any longer text. */
  lemma TokenStable(p: string, s: string, pos: nat)
    requires p <= s && pos <= |p| && NextToken(p, pos).Some? && NextToken(p, pos).value.end < |p|
    ensures NextToken(s, pos) == NextToken(p, pos)
  {
    var start := Skip(p, pos);
    SkipStable(p, s, pos);
    TokenEndStable(p, s, start);
    assert p[start..TokenEnd(p, start)] == s[start..TokenEnd(p, start)];
  }

  lemma HeaderStable(p: string, s: string)
    requires p <= s && ReadHeader(p).Header? && ReadHeader(p).start <= |p|
    ensures ReadHeader(s) == ReadHeader(p)
  {
    hide NextToken, Dimension;
    TokenStable(p, s, 0);
    var a := NextToken(p, 0).value.end;
    TokenStable(p, s, a);
    var b := NextToken(p, a).value.end;
    TokenStable(p, s, b);
    TokenStable(p, s, NextToken(p, b).value.end);
  }

  /** An image cut anywhere before its last pixel byte is refused, in the header or in the data. */
  lemma TruncatedIsRefused(s: string, k: nat)
    requires Bytes(s) && Decode(s).Image?
    requires k < ReadHeader(s).start + ReadHeader(s).w * ReadHeader(s).h * 3 && k <= |s|
    ensures !Decode(s[..k]).Image?
  {
    hide ReadHeader;
    if Decode(s[..k]).Image? {
      Area(ReadHeader(s[..k]).w, ReadHeader(s[..k]).h);
      HeaderStable(s[..k], s);
    }
  }

  // ---- What a PPM writer can put in a header ----

  datatype Piece = Space(c: char) | Comment(text: string) {
    predicate Good() {
      match this
      case Space(c) => Blank(c)
      case Comment(text) => '\n' !in text && Bytes(text)
    }

    function Show(): string {
      match this case Space(c) => [c] case Comment(text) => "#" + text + "\n"
    }
  }

  function GapText(gap: seq<Piece>): string {
    if gap == [] then "" else gap[0].Show() + GapText(gap[1..])
  }

  /** Blanks and comments in any mix. */
  ghost predicate IsGap(gap: seq<Piece>) { forall i :: 0 <= i < |gap| ==> gap[i].Good() }

  /** One that separates two tokens: it starts with a blank. */
  ghost predicate Separates(gap: seq<Piece>) { IsGap(gap) && gap != [] && gap[0].Space? }

  lemma SkipsBlank(s: string, at: nat)
    requires at < |s| && Blank(s[at])
    ensures Skip(s, at) == Skip(s, at + 1)
  {
  }

  lemma SkipsComment(s: string, at: nat, end: nat)
    requires at < end < |s| && s[at] == '#' && s[end] == '\n' && forall k :: at < k < end ==> s[k] != '\n'
    ensures Skip(s, at) == Skip(s, end + 1)
  {
    assert LineEnd(s, at) == end;
    SkipsBlank(s, end);
  }

  lemma SkipsPiece(pre: string, piece: Piece, rest: string)
    requires piece.Good()
    ensures Skip(pre + piece.Show() + rest, |pre|) == Skip(pre + piece.Show() + rest, |pre + piece.Show()|)
  {
    hide Skip, Blank, Bytes;
    var show, s := piece.Show(), pre + piece.Show() + rest;
    assert forall k :: 0 <= k < |show| ==> s[|pre| + k] == show[k];
    match piece {
      case Space(c) => SkipsBlank(s, |pre|);
      case Comment(text) =>
        assert forall k :: 1 <= k < |show| - 1 ==> show[k] == text[k - 1] && text[k - 1] in text;
        assert forall k :: |pre| < k < |pre| + |show| - 1 ==> s[k] == show[k - |pre|];
        SkipsComment(s, |pre|, |pre| + |show| - 1);
    }
  }

  lemma Regroups(a: string, b: string, c: string, d: string)
    ensures a + (b + c) + d == a + b + (c + d) == (a + b) + c + d
  {
  }

  lemma {:induction false} SkipsGap(pre: string, gap: seq<Piece>, rest: string)
    requires IsGap(gap)
    ensures Skip(pre + GapText(gap) + rest, |pre|) == Skip(pre + GapText(gap) + rest, |pre| + |GapText(gap)|)
    decreases |gap|
  {
    hide Skip, Piece.Show, Piece.Good;
    if gap != [] {
      var show, more := gap[0].Show(), GapText(gap[1..]);
      Regroups(pre, show, more, rest);
      SkipsPiece(pre, gap[0], more + rest);
      SkipsGap(pre + show, gap[1..], rest);
    }
  }

  predicate IsToken(tok: string) { tok != "" && tok[0] != '#' && forall i :: 0 <= i < |tok| ==> !Blank(tok[i]) }

  /** A token behind a gap and in front of a blank is read exactly. */
  lemma ReadsToken(pre: string, gap: seq<Piece>, tok: string, rest: string)
    requires IsGap(gap) && IsToken(tok) && rest != "" && Blank(rest[0])
    ensures NextToken(pre + GapText(gap) + tok + rest, |pre|) ==
            Some(Token(tok, |pre| + |GapText(gap)| + |tok|))
  {
    hide GapText, Blank, Skip, TokenEnd, IsToken, IsGap;
    var lead, start := pre + GapText(gap), |pre| + |GapText(gap)|;
    var s := lead + tok + rest;
    assert s == lead + (tok + rest);
    SkipsGap(pre, gap, tok + rest);
    TokenHere(lead, tok, rest);
    assert s[start..start + |tok|] == tok;
  }

  lemma TokenHere(lead: string, tok: string, rest: string)
    requires IsToken(tok) && rest != "" && Blank(rest[0])
    ensures var s, start := lead + tok + rest, |lead|;
            Skip(s, start) == start && TokenEnd(s, start) == start + |tok|
  {
    hide Blank;
    var s, start, end := lead + tok + rest, |lead|, |lead| + |tok|;
    assert forall k :: start <= k < end ==> s[k] == tok[k - start] && !Blank(s[k]);
    assert s[end] == rest[0];
  }

  lemma NumbersAreTokens(n: nat)
    ensures IsToken(Print(n))
  {
    assert forall i :: 0 <= i < |Print(n)| ==> IsDigit(Print(n)[i]);
  }

  lemma SideComesBack(n: nat)
    requires 1 <= n <= MAX_SIDE
    ensures Dimension(Print(n)) == Some(n)
  {
    assert forall i :: 0 <= i < |Print(n)| ==> IsDigit(Print(n)[i]);
    assert Power10(4) == 10 * Power10(3) == 100 * Power10(2) == 1000 * Power10(1) == 10000 * Power10(0);
    PrintLength(n, 4, 10000);
    ValueOfPrint(n);
  }

  /** The largest side, the next number, and the digits that are too many. */
  lemma SidesEnd()
    ensures Dimension("4096") == Some(4096) && Dimension("4097") == None && Dimension("0") == None && Dimension("") == None
    ensures Dimension("000001") == None && Dimension("1x") == None
  {
    assert forall s: string :: |s| == 4 ==> s[..3][..2] == s[..2] && s[..2][..1] == s[..1] && s[..1][..0] == "";
    var a, b := "4096", "4097";
    assert a[..3] == "409" && b[..3] == "409" && a[..2] == "40" && a[..1] == "4";
    assert Value("4") == 4 && Value("40") == 40 && Value("409") == 409 && Value("4096") == 4096 && Value("4097") == 4097;
    assert Value("0") == 0;
  }

  /** A writer's free choices: what stands around the four tokens. */
  datatype Style = Style(lead: seq<Piece>, a: seq<Piece>, b: seq<Piece>, c: seq<Piece>, last: char) {
    ghost predicate Good() { IsGap(lead) && Separates(a) && Separates(b) && Separates(c) && Blank(last) }
  }

  /** Four tokens, and what a writer puts around them. */
  function TokensText(style: Style, magic: string, w: string, h: string, maxval: string): string {
    GapText(style.lead) + magic + GapText(style.a) + w + GapText(style.b) + h + GapText(style.c) + maxval + [style.last]
  }

  function HeaderText(style: Style, w: nat, h: nat): string { TokensText(style, "P6", Print(w), Print(h), "255") }

  lemma SeparatorStarts(gap: seq<Piece>)
    requires Separates(gap)
    ensures GapText(gap) != "" && Blank(GapText(gap)[0])
  {
  }

  lemma FixedTokens()
    ensures IsToken("P6") && IsToken("255")
  {
  }

  // Where each token of a header ends.

  function MagicEnd(style: Style, magic: string): nat { |GapText(style.lead)| + |magic| }

  function WidthEnd(style: Style, magic: string, w: string): nat { MagicEnd(style, magic) + |GapText(style.a)| + |w| }

  function HeightEnd(style: Style, magic: string, w: string, h: string): nat {
    WidthEnd(style, magic, w) + |GapText(style.b)| + |h|
  }

  ghost predicate AllTokens(magic: string, w: string, h: string, maxval: string) {
    IsToken(magic) && IsToken(w) && IsToken(h) && IsToken(maxval)
  }

  lemma MagicToken(style: Style, magic: string, w: string, h: string, maxval: string, data: string)
    requires style.Good() && AllTokens(magic, w, h, maxval)
    ensures NextToken(TokensText(style, magic, w, h, maxval) + data, 0) == Some(Token(magic, MagicEnd(style, magic)))
  {
    hide NextToken, GapText, IsGap, IsToken, Blank;
    var lead, a := GapText(style.lead), GapText(style.a);
    var rest := a + (w + GapText(style.b) + h + GapText(style.c) + maxval + [style.last] + data);
    SeparatorStarts(style.a);
    ReadsToken("", style.lead, magic, rest);
    assert TokensText(style, magic, w, h, maxval) + data == "" + lead + magic + rest;
  }

  lemma WidthToken(style: Style, magic: string, w: string, h: string, maxval: string, data: string)
    requires style.Good() && AllTokens(magic, w, h, maxval)
    ensures NextToken(TokensText(style, magic, w, h, maxval) + data, MagicEnd(style, magic)) ==
            Some(Token(w, WidthEnd(style, magic, w)))
  {
    hide NextToken, GapText, IsGap, IsToken, Blank;
    var pre, a := GapText(style.lead) + magic, GapText(style.a);
    var rest := GapText(style.b) + (h + GapText(style.c) + maxval + [style.last] + data);
    SeparatorStarts(style.b);
    ReadsToken(pre, style.a, w, rest);
    assert TokensText(style, magic, w, h, maxval) + data == pre + a + w + rest;
  }

  lemma HeightToken(style: Style, magic: string, w: string, h: string, maxval: string, data: string)
    requires style.Good() && AllTokens(magic, w, h, maxval)
    ensures NextToken(TokensText(style, magic, w, h, maxval) + data, WidthEnd(style, magic, w)) ==
            Some(Token(h, HeightEnd(style, magic, w, h)))
  {
    hide NextToken, GapText, IsGap, IsToken, Blank;
    var b, pre := GapText(style.b), GapText(style.lead) + magic + GapText(style.a) + w;
    var rest := GapText(style.c) + (maxval + [style.last] + data);
    SeparatorStarts(style.c);
    ReadsToken(pre, style.b, h, rest);
    assert TokensText(style, magic, w, h, maxval) + data == pre + b + h + rest;
  }

  lemma MaxvalToken(style: Style, magic: string, w: string, h: string, maxval: string, data: string)
    requires style.Good() && AllTokens(magic, w, h, maxval)
    ensures NextToken(TokensText(style, magic, w, h, maxval) + data, HeightEnd(style, magic, w, h)) ==
            Some(Token(maxval, |TokensText(style, magic, w, h, maxval)| - 1))
  {
    hide NextToken, GapText, IsGap, IsToken, Blank;
    var c, pre := GapText(style.c), GapText(style.lead) + magic + GapText(style.a) + w + GapText(style.b) + h;
    var rest := [style.last] + data;
    ReadsToken(pre, style.c, maxval, rest);
    assert TokensText(style, magic, w, h, maxval) + data == pre + c + maxval + rest;
  }

  /** Of any four tokens: the first must be P6, the next two sides, the last 255, and the first fault found is the one
      reported. */
  lemma HeaderDecided(style: Style, magic: string, w: string, h: string, maxval: string, data: string)
    requires style.Good() && AllTokens(magic, w, h, maxval)
    ensures ReadHeader(TokensText(style, magic, w, h, maxval) + data) ==
            if magic != "P6" then Bad(NotPpm)
            else if Dimension(w).None? || Dimension(h).None? then Bad(BadSize)
            else if maxval != "255" then Bad(BadMaxval)
            else Header(Dimension(w).value, Dimension(h).value, |TokensText(style, magic, w, h, maxval)|)
  {
    hide NextToken, Dimension, TokensText, MagicEnd, WidthEnd, HeightEnd, IsToken;
    MagicToken(style, magic, w, h, maxval, data);
    WidthToken(style, magic, w, h, maxval, data);
    HeightToken(style, magic, w, h, maxval, data);
    MaxvalToken(style, magic, w, h, maxval, data);
  }

  /** Any header a writer can choose is read as its width, height and end. */
  lemma HeaderComesBack(style: Style, w: nat, h: nat, data: string)
    requires style.Good() && 1 <= w <= MAX_SIDE && 1 <= h <= MAX_SIDE
    ensures ReadHeader(HeaderText(style, w, h) + data) == Header(w, h, |HeaderText(style, w, h)|)
  {
    hide ReadHeader, Dimension, TokensText, IsToken;
    FixedTokens();
    NumbersAreTokens(w);
    NumbersAreTokens(h);
    SideComesBack(w);
    SideComesBack(h);
    HeaderDecided(style, "P6", Print(w), Print(h), "255", data);
  }

  lemma BytesJoin(a: string, b: string)
    ensures Bytes(a + b) <==> Bytes(a) && Bytes(b)
  {
    assert forall i :: 0 <= i < |a| ==> (a + b)[i] == a[i];
    assert forall i :: 0 <= i < |b| ==> (a + b)[|a| + i] == b[i];
  }

  lemma {:induction false} ExpandIsBytes(px: seq<Color>)
    ensures Bytes(Expand(px))
  {
    if px != [] {
      ExpandIsBytes(px[..|px| - 1]);
      ChannelsComeBack(px[|px| - 1]);
    }
  }

  lemma PixelComesBack(text: string, px: seq<Color>, tail: string, i: nat)
    requires Bytes(text + Expand(px) + tail) && i < |px|
    ensures PixelAt(text + Expand(px) + tail, |text| + 3 * i) == px[i]
  {
    hide Red, Green, Blue, Narrow, Expand, Bytes;
    var s, data := text + Expand(px) + tail, Expand(px);
    ExpandedAt(px, i);
    ChannelsComeBack(px[i]);
    assert forall k :: 0 <= k < |data| ==> s[|text| + k] == data[k];
    assert s[|text| + 3 * i] == data[3 * i];
    assert s[|text| + (3 * i + 1)] == data[3 * i + 1];
    assert s[|text| + (3 * i + 2)] == data[3 * i + 2];
  }

  /** The pixel bytes behind any text decode to the pixels. */
  lemma PixelsComeBack(text: string, px: seq<Color>, tail: string)
    requires Bytes(text + Expand(px) + tail)
    ensures PixelData(text + Expand(px) + tail, |text|, |px|) == px
  {
    hide Expand, Bytes, PixelAt;
    var data := PixelData(text + Expand(px) + tail, |text|, |px|);
    forall i | 0 <= i < |px|
      ensures data[i] == px[i]
    {
      PixelComesBack(text, px, tail, i);
    }
  }

  lemma {:induction false} GapIsBytes(gap: seq<Piece>)
    requires IsGap(gap)
    ensures Bytes(GapText(gap))
    decreases |gap|
  {
    if gap != [] {
      GapIsBytes(gap[1..]);
      BytesJoin(gap[0].Show(), GapText(gap[1..]));
    }
  }

  lemma TokensAreBytes(w: nat)
    ensures Bytes(Print(w)) && Bytes("P6") && Bytes("255")
  {
    assert forall i :: 0 <= i < |Print(w)| ==> IsDigit(Print(w)[i]);
  }

  lemma HeaderIsBytes(style: Style, w: nat, h: nat)
    requires style.Good()
    ensures Bytes(HeaderText(style, w, h))
  {
    hide GapText, Bytes, IsGap;
    var lead, a, b, c := GapText(style.lead), GapText(style.a), GapText(style.b), GapText(style.c);
    GapIsBytes(style.lead);
    GapIsBytes(style.a);
    GapIsBytes(style.b);
    GapIsBytes(style.c);
    TokensAreBytes(w);
    TokensAreBytes(h);
    BlankIsByte(style.last);
    BytesJoin(lead, "P6");
    BytesJoin(lead + "P6", a);
    BytesJoin(lead + "P6" + a, Print(w));
    BytesJoin(lead + "P6" + a + Print(w), b);
    BytesJoin(lead + "P6" + a + Print(w) + b, Print(h));
    BytesJoin(lead + "P6" + a + Print(w) + b + Print(h), c);
    BytesJoin(lead + "P6" + a + Print(w) + b + Print(h) + c, "255");
    BytesJoin(lead + "P6" + a + Print(w) + b + Print(h) + c + "255", [style.last]);
  }

  lemma BlankIsByte(c: char)
    requires Blank(c)
    ensures Bytes([c])
  {
  }

  /** Expand, write with any header, decode: the same image, whatever stands behind the pixels. */
  lemma RoundTrip(style: Style, w: nat, h: nat, px: seq<Color>, tail: string)
    requires style.Good() && 1 <= w <= MAX_SIDE && 1 <= h <= MAX_SIDE && |px| == w * h && Bytes(tail)
    ensures var file := HeaderText(style, w, h) + Expand(px) + tail; Bytes(file) && Decode(file) == Image(w, h, px)
  {
    hide HeaderText, ReadHeader, Expand, Bytes, PixelData;
    var head := HeaderText(style, w, h);
    HeaderIsBytes(style, w, h);
    ExpandIsBytes(px);
    BytesJoin(head, Expand(px));
    BytesJoin(head + Expand(px), tail);
    HeaderComesBack(style, w, h, Expand(px) + tail);
    assert head + (Expand(px) + tail) == head + Expand(px) + tail;
    PixelsComeBack(head, px, tail);
  }

  /** ... and cut anywhere before the last pixel byte it is refused. */
  lemma CutFileIsRefused(style: Style, w: nat, h: nat, px: seq<Color>, k: nat)
    requires style.Good() && 1 <= w <= MAX_SIDE && 1 <= h <= MAX_SIDE && |px| == w * h
    requires k < |HeaderText(style, w, h) + Expand(px)|
    ensures var cut := (HeaderText(style, w, h) + Expand(px))[..k]; Bytes(cut) && !Decode(cut).Image?
  {
    hide HeaderText, ReadHeader, Expand, PixelData, Decode;
    var s := HeaderText(style, w, h) + Expand(px);
    assert s + "" == s;
    RoundTrip(style, w, h, px, "");
    HeaderComesBack(style, w, h, Expand(px));
    assert forall i :: 0 <= i < k ==> s[..k][i] == s[i];
    TruncatedIsRefused(s, k);
  }
}
