// The plain-text run footer: rendering it, appending it to a reply, and stripping it
// again from whatever a mail client sends back.
module RunFooter {
  import opened Metering

  const FOOTER_MARKER := "-- email-agent run footer --"

  // ---------------------------------------------------------------- text primitives

  /** The characters at which `str.splitlines` ends a line ("\r\n" counts as one break). */
  predicate IsLineBreak(c: char)
  {
    || c == '\n' || c == '\r' || c == '\U{000B}' || c == '\U{000C}'
    || '\U{001C}' <= c <= '\U{001E}' || c == '\U{0085}' || c == '\U{2028}' || c == '\U{2029}'
  }

  /** The characters removed by `str.strip()`. */
  predicate IsSpace(c: char)
  {
    || '\U{0009}' <= c <= '\U{000D}' || '\U{001C}' <= c <= '\U{0020}' || c == '\U{0085}'
    || c == '\U{00A0}' || c == '\U{1680}' || '\U{2000}' <= c <= '\U{200A}' || c == '\U{2028}'
    || c == '\U{2029}' || c == '\U{202F}' || c == '\U{205F}' || c == '\U{3000}'
  }

  /** Length of the first line, its break included. */
  function LineLen(s: string): (n: nat)
    requires s != ""
    ensures 1 <= n <= |s|
  {
    if IsLineBreak(s[0]) then
      if s[0] == '\r' && |s| > 1 && s[1] == '\n' then 2 else 1
    else if |s| == 1 then 1
    else 1 + LineLen(s[1..])
  }

  /** `body.splitlines(keepends=True)`. */
  function Lines(s: string): seq<string>
  {
    if s == "" then [] else [s[..LineLen(s)]] + Lines(s[LineLen(s)..])
  }

  function Concat(lines: seq<string>): string
  {
    if lines == [] then "" else lines[0] + Concat(lines[1..])
  }

  /** `line.rstrip("\r\n")`. */
  function RStripBreaks(s: string): string
  {
    if s != "" && (s[|s| - 1] == '\r' || s[|s| - 1] == '\n') then RStripBreaks(s[..|s| - 1]) else s
  }

  /** One quote level removed: ">" and one following blank. */
  function PeelOnce(s: string): (r: string)
    requires s != "" && s[0] == '>'
    ensures |r| < |s|
  {
    if |s| > 1 && s[1] == ' ' then s[2..] else s[1..]
  }

  function Peel(s: string): string
    decreases |s|
  {
    if s != "" && s[0] == '>' then Peel(PeelOnce(s)) else s
  }

  /** `s.strip()`. */
  function Trim(s: string): string
    decreases |s|
  {
    if s != "" && IsSpace(s[0]) then Trim(s[1..])
    else if s != "" && IsSpace(s[|s| - 1]) then Trim(s[..|s| - 1])
    else s
  }

  predicate IsMarker(line: string)
  {
    Trim(Peel(RStripBreaks(line))) == FOOTER_MARKER
  }

  predicate MarkerFree(lines: seq<string>)
  {
    forall i :: 0 <= i < |lines| ==> !IsMarker(lines[i])
  }

  /** The lines before the first marker line. */
  function Clean(lines: seq<string>): seq<string>
  {
    if lines == [] || IsMarker(lines[0]) then [] else [lines[0]] + Clean(lines[1..])
  }

  lemma {:induction false} CleanPrefix(lines: seq<string>)
    ensures Clean(lines) <= lines && MarkerFree(Clean(lines))
    ensures |Clean(lines)| < |lines| ==> IsMarker(lines[|Clean(lines)|])
  {
    if lines != [] && !IsMarker(lines[0]) {
      CleanPrefix(lines[1..]);
      assert lines == [lines[0]] + lines[1..];
    }
  }

  function Strip(body: string): string
  {
    Concat(Clean(Lines(body)))
  }

  // ---------------------------------------------------------------- what a marker line is

  /** The characters of the two classes, one by one. */
  lemma CharacterClasses(c: char)
    ensures IsLineBreak(c) <==>
            c in {'\n', '\r', '\U{000B}', '\U{000C}', '\U{001C}', '\U{001D}', '\U{001E}', '\U{0085}',
                  '\U{2028}', '\U{2029}'}
    ensures IsSpace(c) <==>
            || IsLineBreak(c)
            || c in {' ', '\t', '\U{001F}', '\U{00A0}', '\U{1680}', '\U{202F}', '\U{205F}', '\U{3000}',
                     '\U{2000}', '\U{2001}', '\U{2002}', '\U{2003}', '\U{2004}', '\U{2005}', '\U{2006}', '\U{2007}',
                     '\U{2008}', '\U{2009}', '\U{200A}'}
  {
  }

  predicate AllSpace(s: string)
  {
    forall i :: 0 <= i < |s| ==> IsSpace(s[i])
  }

  predicate AllEnds(s: string)
  {
    forall i :: 0 <= i < |s| ==> s[i] == '\r' || s[i] == '\n'
  }

  predicate AllQuotes(quotes: seq<string>)
  {
    forall i :: 0 <= i < |quotes| ==> quotes[i] == ">" || quotes[i] == "> "
  }

  /** Quote prefixes with or without a blank, then the marker between white space, then ends of line. */
  predicate Shaped(line: string, quotes: seq<string>, left: string, right: string, ends: string)
  {
    && AllQuotes(quotes) && AllSpace(left) && AllSpace(right) && AllEnds(ends)
    && line == Concat(quotes) + left + FOOTER_MARKER + right + ends
  }

  ghost predicate HoldsMarker(line: string)
  {
    exists quotes, left, right, ends :: Shaped(line, quotes, left, right, ends)
  }

  lemma {:induction false} RStripSplit(s: string) returns (ends: string)
    ensures s == RStripBreaks(s) + ends && AllEnds(ends)
  {
    if s != "" && (s[|s| - 1] == '\r' || s[|s| - 1] == '\n') {
      var rest := RStripSplit(s[..|s| - 1]);
      ends := rest + [s[|s| - 1]];
      assert s == s[..|s| - 1] + [s[|s| - 1]];
    } else {
      ends := "";
    }
  }

  lemma {:induction false} PeelSplit(s: string) returns (quotes: seq<string>)
    ensures AllQuotes(quotes) && s == Concat(quotes) + Peel(s)
    decreases |s|
  {
    if s != "" && s[0] == '>' {
      var rest := PeelSplit(PeelOnce(s));
      var q := s[..|s| - |PeelOnce(s)|];
      quotes := [q] + rest;
      assert quotes[1..] == rest && s == q + PeelOnce(s);
    } else {
      quotes := [];
    }
  }

  lemma {:induction false} TrimSplit(s: string) returns (left: string, right: string)
    ensures AllSpace(left) && AllSpace(right) && s == left + Trim(s) + right
    decreases |s|
  {
    left, right := "", "";
    if s != "" && IsSpace(s[0]) {
      var l, r := TrimSplit(s[1..]);
      left, right := [s[0]] + l, r;
      assert s == [s[0]] + s[1..];
    } else if s != "" && IsSpace(s[|s| - 1]) {
      var l, r := TrimSplit(s[..|s| - 1]);
      left, right := l, r + [s[|s| - 1]];
      assert s == s[..|s| - 1] + [s[|s| - 1]];
    }
  }

  lemma {:induction false} RStripAfter(a: string, right: string) returns (kept: string)
    requires a != "" && a[|a| - 1] != '\r' && a[|a| - 1] != '\n'
    ensures RStripBreaks(a + right) == a + kept && kept <= right
    decreases |right|
  {
    var s := a + right;
    if right != "" && (right[|right| - 1] == '\r' || right[|right| - 1] == '\n') {
      kept := RStripAfter(a, right[..|right| - 1]);
      assert s[..|s| - 1] == a + right[..|right| - 1];
    } else {
      kept := right;
      assert right == "" ==> s == a;
    }
  }

  lemma {:induction false} RStripEnds(a: string, ends: string)
    requires AllEnds(ends)
    ensures RStripBreaks(a + ends) == RStripBreaks(a)
    decreases |ends|
  {
    if ends == "" {
      assert a + ends == a;
    } else {
      var s := a + ends;
      assert s[..|s| - 1] == a + ends[..|ends| - 1];
      RStripEnds(a, ends[..|ends| - 1]);
    }
  }

  lemma {:induction false} PeelQuotes(quotes: seq<string>, left: string, text: string) returns (kept: string)
    requires AllQuotes(quotes) && AllSpace(left) && text != "" && text[0] != '>' && text[0] != ' '
    ensures Peel(Concat(quotes) + left + text) == kept + text && AllSpace(kept)
    decreases |quotes|
  {
    var s := Concat(quotes) + left + text;
    if quotes == [] {
      assert s == left + text;
      kept := left;
    } else {
      var rest := Concat(quotes[1..]) + left + text;
      assert s == quotes[0] + rest;
      if quotes[0] == ">" && rest[0] == ' ' {
        assert quotes[1..] == [] && rest == left + text && left != "";
        assert PeelOnce(s) == left[1..] + text == Concat([]) + left[1..] + text;
        kept := PeelQuotes([], left[1..], text);
      } else {
        assert PeelOnce(s) == rest;
        kept := PeelQuotes(quotes[1..], left, text);
      }
    }
  }

  lemma {:induction false} TrimAround(left: string, text: string, right: string)
    requires AllSpace(left) && AllSpace(right)
    requires text != "" && !IsSpace(text[0]) && !IsSpace(text[|text| - 1])
    ensures Trim(left + text + right) == text
    decreases |left| + |right|
  {
    var s := left + text + right;
    if left != "" {
      assert s[1..] == left[1..] + text + right;
      TrimAround(left[1..], text, right);
    } else if right != "" {
      assert s[..|s| - 1] == left + text + right[..|right| - 1];
      TrimAround(left, text, right[..|right| - 1]);
    } else {
      assert s == text;
    }
  }

  lemma MarkerIsShaped(line: string)
    requires IsMarker(line)
    ensures HoldsMarker(line)
  {
    hide Peel, Trim, RStripBreaks, Concat, IsSpace;
    var ends := RStripSplit(line);
    var quotes := PeelSplit(RStripBreaks(line));
    var left, right := TrimSplit(Peel(RStripBreaks(line)));
    calc {
      line;
      RStripBreaks(line) + ends;
      Concat(quotes) + Peel(RStripBreaks(line)) + ends;
      Concat(quotes) + (left + FOOTER_MARKER + right) + ends;
      { Associate(Concat(quotes), left, FOOTER_MARKER, right, ends); }
      Concat(quotes) + left + FOOTER_MARKER + right + ends;
    }
    assert Shaped(line, quotes, left, right, ends);
  }

  lemma Associate(a: string, b: string, c: string, d: string, e: string)
    ensures a + (b + c + d) + e == a + b + c + d + e
  {
  }

  /** A line is a marker line exactly when it holds the marker below any quote prefixes, with any
      white space around it and any ends of line behind it. */
  lemma MarkerIs(line: string)
    ensures IsMarker(line) <==> HoldsMarker(line)
  {
    hide IsMarker, AllSpace, AllEnds, AllQuotes, Concat;
    if IsMarker(line) { MarkerIsShaped(line); }
    if quotes, left, right, ends :| Shaped(line, quotes, left, right, ends) {
      ShapedIsMarker(quotes, left, right, ends);
    }
  }

  lemma ShapedIsMarker(quotes: seq<string>, left: string, right: string, ends: string)
    requires AllQuotes(quotes) && AllSpace(left) && AllSpace(right) && AllEnds(ends)
    ensures IsMarker(Concat(quotes) + left + FOOTER_MARKER + right + ends)
  {
    hide Peel, Trim, RStripBreaks, Concat;
    var head := Concat(quotes) + left + FOOTER_MARKER;
    assert head[|head| - 1] == FOOTER_MARKER[|FOOTER_MARKER| - 1] == '-';
    RStripEnds(head + right, ends);
    var kept := RStripAfter(head, right);
    assert head + kept == Concat(quotes) + left + (FOOTER_MARKER + kept);
    var before := PeelQuotes(quotes, left, FOOTER_MARKER + kept);
    assert before + (FOOTER_MARKER + kept) == before + FOOTER_MARKER + kept;
    TrimAround(before, FOOTER_MARKER, kept);
  }

  // ---------------------------------------------------------------- the source's loops

  method IsMarkerLine(line: string) returns (r: bool)
    ensures r == IsMarker(line)
    ensures r <==> HoldsMarker(line)
  {
    MarkerIs(line);
    var stripped := RStripBreaks(line);
    while stripped != "" && stripped[0] == '>'
      invariant Peel(stripped) == Peel(RStripBreaks(line))
      decreases |stripped|
    {
      stripped := stripped[1..];
      if stripped != "" && stripped[0] == ' ' {
        stripped := stripped[1..];
      }
    }
    r := Trim(stripped) == FOOTER_MARKER;
  }

  /** `r` is the first `k` lines of the text: none of them holds the marker, and the next, if there
      is one, does. */
  ghost predicate CutsAt(body: string, r: string, k: nat)
  {
    var lines := Lines(body);
    && k <= |lines| && r == Concat(lines[..k]) && (k < |lines| ==> HoldsMarker(lines[k]))
    && forall i :: 0 <= i < k ==> !HoldsMarker(lines[i])
  }

  lemma StripCuts(body: string)
    ensures exists k :: CutsAt(body, Strip(body), k)
    ensures Strip(body) <= body
  {
    hide IsMarker, HoldsMarker;
    var lines := Lines(body);
    var k := |Clean(lines)|;
    CleanPrefix(lines);
    assert lines[..k] == Clean(lines);
    forall i | 0 <= i < |lines| ensures IsMarker(lines[i]) <==> HoldsMarker(lines[i]) { MarkerIs(lines[i]); }
    forall i | 0 <= i < k ensures !HoldsMarker(lines[i]) { assert lines[i] == Clean(lines)[i]; }
    ConcatLines(body);
    PrefixOfConcat(lines, k);
    assert CutsAt(body, Strip(body), k);
  }

  /** Everything up to, and not including, the first marker line: the result is a prefix of
      the body, it ends at a line boundary, and no line of it is a marker line. */
  method StripFooter(body: string) returns (r: string)
    ensures r == Strip(body)
    ensures r <= body && exists k :: CutsAt(body, r, k)
  {
    StripCuts(body);
    var lines := Lines(body);
    ConcatLines(body);
    var offset, i := 0, 0;
    while i < |lines|
      invariant 0 <= i <= |lines|
      invariant MarkerFree(lines[..i])
      invariant offset == |Concat(lines[..i])|
    {
      var marker := IsMarkerLine(lines[i]);
      if marker {
        PrefixOfConcat(lines, i);
        CleanIs(lines, i);
        r := body[..offset];
        return;
      }
      ConcatAppend(lines[..i], [lines[i]]);
      assert lines[..i + 1] == lines[..i] + [lines[i]];
      assert Concat([lines[i]]) == lines[i];
      offset := offset + |lines[i]|;
      i := i + 1;
    }
    assert lines[..i] == lines;
    CleanIs(lines, i);
    r := body;
  }

  // ---------------------------------------------------------------- lines and concatenation

  lemma {:induction false} ConcatLines(s: string)
    ensures Concat(Lines(s)) == s
  {
    if s != "" {
      ConcatLines(s[LineLen(s)..]);
      assert Lines(s)[1..] == Lines(s[LineLen(s)..]);
    }
  }

  lemma {:induction false} ConcatAppend(a: seq<string>, b: seq<string>)
    ensures Concat(a + b) == Concat(a) + Concat(b)
  {
    if a == [] {
      assert a + b == b;
    } else {
      ConcatAppend(a[1..], b);
      assert (a + b)[1..] == a[1..] + b;
    }
  }

  lemma PrefixOfConcat(lines: seq<string>, k: nat)
    requires k <= |lines|
    ensures Concat(lines[..k]) <= Concat(lines)
    ensures Concat(lines)[..|Concat(lines[..k])|] == Concat(lines[..k])
  {
    ConcatAppend(lines[..k], lines[k..]);
    assert lines == lines[..k] + lines[k..];
  }

  lemma {:induction false} CleanIs(lines: seq<string>, k: nat)
    requires k <= |lines|
    requires MarkerFree(lines[..k])
    requires k < |lines| ==> IsMarker(lines[k])
    ensures Clean(lines) == lines[..k]
  {
    if k > 0 {
      assert lines[..k][0] == lines[0];
      assert lines[1..][..k - 1] == lines[..k][1..];
      CleanIs(lines[1..], k - 1);
      assert lines[..k] == [lines[0]] + lines[1..][..k - 1];
    }
  }

  /** Sequences of lines that a text can be cut into. */
  ghost predicate ValidLines(lines: seq<string>)
  {
    && (forall i :: 0 <= i < |lines| ==> IsLine(lines[i]))
    && (forall i, j :: 0 <= i && j == i + 1 && j < |lines| ==> Breaks(lines[i], lines[j]))
  }

  predicate IsLine(l: string)
  {
    l != "" && LineLen(l) == |l|
  }

  /** A line has no break but the one it ends in. */
  lemma {:induction false} LineIs(l: string)
    ensures IsLine(l) <==>
            && l != ""
            && forall i :: 0 <= i < |l| - 1 && IsLineBreak(l[i]) ==> i == |l| - 2 && l[i] == '\r' && l[i + 1] == '\n'
  {
    if l != "" && !IsLineBreak(l[0]) && |l| > 1 {
      LineIs(l[1..]);
      assert forall i :: 0 < i < |l| ==> l[i] == l[1..][i - 1];
    }
  }

  /** `l` ends in a break that `next` does not join. */
  predicate Breaks(l: string, next: string)
  {
    l != "" && IsLineBreak(l[|l| - 1]) && (next == "" || l[|l| - 1] != '\r' || next[0] != '\n')
  }

  /** Where a text goes on past its first line, the line stands on its own. */
  lemma {:induction false} FirstLineStands(s: string)
    requires s != ""
    ensures IsLine(s[..LineLen(s)])
    ensures LineLen(s) < |s| ==> Breaks(s[..LineLen(s)], s[LineLen(s)..])
  {
    if !IsLineBreak(s[0]) && |s| > 1 {
      FirstLineStands(s[1..]);
      assert s[..LineLen(s)][1..] == s[1..][..LineLen(s[1..])];
    }
  }

  /** A line stays the first line when what follows does not join its break. */
  lemma {:induction false} FirstLineStays(l: string, t: string)
    requires IsLine(l) && Breaks(l, t)
    ensures LineLen(l + t) == |l|
  {
    if !IsLineBreak(l[0]) {
      assert |l| > 1;
      FirstLineStays(l[1..], t);
      assert (l + t)[1..] == l[1..] + t;
    }
  }

  lemma {:induction false} LinesValid(s: string)
    ensures ValidLines(Lines(s))
    ensures s != "" ==> Lines(s) != [] && Lines(s)[0][0] == s[0]
    decreases |s|
  {
    if s != "" {
      var rest := s[LineLen(s)..];
      FirstLineStands(s);
      LinesValid(rest);
      var lines := Lines(s);
      assert lines == [s[..LineLen(s)]] + Lines(rest);
      assert forall i :: 0 < i < |lines| ==> lines[i] == Lines(rest)[i - 1];
    }
  }

  /** `str.splitlines`: nothing is lost, a line has no break but at its end, every line but the
      last ends in one, and no "\r\n" is torn apart. */
  lemma LinesAre(s: string)
    ensures Concat(Lines(s)) == s
    ensures forall k, i :: 0 <= k < |Lines(s)| && 0 <= i < |Lines(s)[k]| - 1 && IsLineBreak(Lines(s)[k][i]) ==>
              i == |Lines(s)[k]| - 2 && Lines(s)[k][i] == '\r' && Lines(s)[k][i + 1] == '\n'
    ensures forall k, l :: 0 <= k && l == k + 1 && l < |Lines(s)| ==> Breaks(Lines(s)[k], Lines(s)[l])
  {
    ConcatLines(s);
    LinesValid(s);
    forall k | 0 <= k < |Lines(s)| ensures IsLine(Lines(s)[k]) { LineIs(Lines(s)[k]); }
    forall k, i | 0 <= k < |Lines(s)| && 0 <= i < |Lines(s)[k]| - 1 && IsLineBreak(Lines(s)[k][i])
      ensures i == |Lines(s)[k]| - 2 && Lines(s)[k][i] == '\r' && Lines(s)[k][i + 1] == '\n'
    {
      LineIs(Lines(s)[k]);
    }
  }

  lemma TailValid(lines: seq<string>)
    requires ValidLines(lines) && lines != []
    ensures ValidLines(lines[1..])
    ensures lines[1..] != [] ==> Breaks(lines[0], lines[1]) && IsLine(lines[1])
  {
  }

  /** Such a sequence is exactly what its concatenation is cut into again. */
  lemma {:induction false} LinesOfConcat(lines: seq<string>)
    requires ValidLines(lines)
    ensures Lines(Concat(lines)) == lines
  {
    if lines != [] {
      var l, t := lines[0], Concat(lines[1..]);
      TailValid(lines);
      LinesOfConcat(lines[1..]);
      if lines[1..] == [] {
        assert t == "" && l + t == l;
      } else {
        assert t[0] == lines[1][0];
        FirstLineStays(l, t);
      }
      assert (l + t)[..|l|] == l && (l + t)[|l|..] == t;
      assert lines == [l] + lines[1..];
    }
  }

  lemma {:induction false} LastChar(lines: seq<string>)
    requires ValidLines(lines) && lines != []
    ensures Concat(lines) != "" && lines[|lines| - 1] != ""
    ensures Concat(lines)[|Concat(lines)| - 1] == lines[|lines| - 1][|lines[|lines| - 1]| - 1]
  {
    TailValid(lines);
    if |lines| > 1 {
      LastChar(lines[1..]);
    } else {
      assert Concat(lines[1..]) == "";
    }
  }

  lemma LinesAppend(a: string, b: string)
    requires a != "" ==> Breaks(a, b)
    ensures Lines(a + b) == Lines(a) + Lines(b)
  {
    var p, q := Lines(a), Lines(b);
    LinesValid(a);
    LinesValid(b);
    ConcatLines(a);
    ConcatLines(b);
    ConcatAppend(p, q);
    if p != [] && q != [] {
      LastChar(p);
    }
    ValidAppend(p, q);
    LinesOfConcat(p + q);
  }

  lemma ValidAppend(p: seq<string>, q: seq<string>)
    requires ValidLines(p) && ValidLines(q)
    requires p != [] && q != [] ==> Breaks(p[|p| - 1], q[0])
    ensures ValidLines(p + q)
  {
  }

  /** Cutting a text after some of its lines leaves exactly those lines. */
  lemma LinesOfPrefix(s: string, k: nat)
    requires k <= |Lines(s)|
    ensures Lines(Concat(Lines(s)[..k])) == Lines(s)[..k]
  {
    LinesValid(s);
    var p := Lines(s)[..k];
    assert forall i, j :: 0 <= i && j == i + 1 && j < |p| ==> Breaks(Lines(s)[i], Lines(s)[j]) ==> Breaks(p[i], p[j]);
    LinesOfConcat(p);
  }

  // ---------------------------------------------------------------- quoting

  function QuoteLines(lines: seq<string>): (q: seq<string>)
    ensures |q| == |lines|
    ensures forall i :: 0 <= i < |q| ==> q[i] == "> " + lines[i]
  {
    seq(|lines|, i requires 0 <= i < |lines| => "> " + lines[i])
  }

  /** What a mail client does to a text it quotes: every line gets a "> " prefix. */
  function Quote(s: string): string
  {
    Concat(QuoteLines(Lines(s)))
  }

  function QuoteTimes(s: string, n: nat): string
  {
    if n == 0 then s else Quote(QuoteTimes(s, n - 1))
  }

  lemma LinesOfQuote(s: string)
    ensures Lines(Quote(s)) == QuoteLines(Lines(s))
  {
    var lines, q := Lines(s), QuoteLines(Lines(s));
    LinesValid(s);
    forall i | 0 <= i < |q|
      ensures IsLine(q[i])
    {
      assert IsLine(lines[i]);
      assert q[i][1..] == " " + lines[i] && (" " + lines[i])[1..] == lines[i];
    }
    forall i, j | 0 <= i && j == i + 1 && j < |q|
      ensures Breaks(q[i], q[j])
    {
      assert Breaks(lines[i], lines[j]) && q[j][0] == '>';
    }
    LinesOfConcat(q);
  }

  lemma QuoteStart(s: string)
    ensures s == "" ==> Quote(s) == ""
    ensures s != "" ==> Quote(s) != "" && Quote(s)[0] == '>'
  {
  }

  lemma {:induction false} RStripUnderQuote(l: string)
    ensures RStripBreaks("> " + l) == "> " + RStripBreaks(l)
    decreases |l|
  {
    if l != "" && (l[|l| - 1] == '\r' || l[|l| - 1] == '\n') {
      RStripUnderQuote(l[..|l| - 1]);
      assert ("> " + l)[..|l| + 1] == "> " + l[..|l| - 1];
    }
  }

  /** Quoting a line does not change whether it is a marker line. */
  lemma MarkerUnderQuote(l: string)
    ensures IsMarker("> " + l) <==> IsMarker(l)
  {
    RStripUnderQuote(l);
    var x := RStripBreaks(l);
    assert PeelOnce("> " + x) == x;
  }

  lemma {:induction false} RStripUnderBareQuote(l: string)
    ensures RStripBreaks(">" + l) == ">" + RStripBreaks(l)
    decreases |l|
  {
    if l != "" && (l[|l| - 1] == '\r' || l[|l| - 1] == '\n') {
      RStripUnderBareQuote(l[..|l| - 1]);
      assert (">" + l)[..|l|] == ">" + l[..|l| - 1];
    }
  }

  /** Nor does quoting it without a blank, as long as it does not start with one. */
  lemma MarkerUnderBareQuote(l: string)
    requires l == "" || l[0] != ' '
    ensures IsMarker(">" + l) <==> IsMarker(l)
  {
    RStripUnderBareQuote(l);
    RStripPrefix(l);
    var x := RStripBreaks(l);
    assert PeelOnce(">" + x) == x;
  }

  lemma RStripPrefix(l: string)
    ensures RStripBreaks(l) <= l
  {
    var ends := RStripSplit(l);
  }

  lemma {:induction false} CleanUnderQuote(lines: seq<string>)
    ensures Clean(QuoteLines(lines)) == QuoteLines(Clean(lines))
  {
    if lines != [] {
      MarkerUnderQuote(lines[0]);
      CleanUnderQuote(lines[1..]);
      assert QuoteLines(lines)[1..] == QuoteLines(lines[1..]);
      if !IsMarker(lines[0]) {
        assert Clean(lines) == [lines[0]] + Clean(lines[1..]);
      }
    }
  }

  lemma LinesOfStrip(s: string)
    ensures Lines(Strip(s)) == Clean(Lines(s))
  {
    CleanPrefix(Lines(s));
    LinesOfPrefix(s, |Clean(Lines(s))|);
    assert Clean(Lines(s)) == Lines(s)[..|Clean(Lines(s))|];
  }

  /** Stripping twice is stripping once. */
  lemma StripIdempotent(s: string)
    ensures Strip(Strip(s)) == Strip(s)
    ensures MarkerFree(Lines(Strip(s)))
  {
    var c := Clean(Lines(s));
    LinesOfStrip(s);
    CleanPrefix(Lines(s));
    assert c[..|c|] == c;
    CleanIs(c, |c|);
  }

  lemma StripUnderQuote(s: string)
    ensures Strip(Quote(s)) == Quote(Strip(s))
  {
    LinesOfQuote(s);
    CleanUnderQuote(Lines(s));
    LinesOfStrip(s);
  }

  /** Stripping commutes with any number of quote levels. */
  lemma {:induction false} StripUnderQuotes(s: string, n: nat)
    ensures Strip(QuoteTimes(s, n)) == QuoteTimes(Strip(s), n)
  {
    hide IsMarker;
    if n > 0 {
      StripUnderQuotes(s, n - 1);
      StripUnderQuote(QuoteTimes(s, n - 1));
    }
  }

  // ---------------------------------------------------------------- rendering and replies

  function Decimal(n: nat): string
  {
    if n < 10 then ["0123456789"[n]] else Decimal(n / 10) + ["0123456789"[n % 10]]
  }

  /** A cost in units of $0.0001 as `${cost:.4f}`. */
  function Dollars(cost: int): string
  {
    var q := if cost < 0 then -cost else cost;
    "$" + (if cost < 0 then "-" else "") + Decimal(q / 10000) + "." + Decimal(q / 1000 % 10) + Decimal(q / 100 % 10)
      + Decimal(q / 10 % 10) + Decimal(q % 10)
  }

  function RStripSlashes(s: string): (r: string)
    ensures r <= s && (r != "" ==> r[|r| - 1] != '/')
    ensures forall i :: |r| <= i < |s| ==> s[i] == '/'
  {
    if s != "" && s[|s| - 1] == '/' then RStripSlashes(s[..|s| - 1]) else s
  }

  datatype AdminBase = NoAdmin | AdminAt(url: string)

  function AdminLine(runId: string, admin: AdminBase): string
  {
    match admin
    case NoAdmin => ""
    case AdminAt(url) => "Admin: " + RStripSlashes(url) + "/admin/runs/" + runId + "\n"
  }

  function FooterTail(u: Usage, runId: string, admin: AdminBase): string
  {
    "Run: " + runId + "\n"
    + ("Tokens: in=" + Decimal(u.inputTokens) + " out=" + Decimal(u.outputTokens) + "\n"
       + ("Cost: " + Dollars(u.cost) + "\n" + AdminLine(runId, admin)))
  }

  function RenderFooter(u: Usage, runId: string, admin: AdminBase): string
  {
    "\n" + (FOOTER_MARKER + "\n" + FooterTail(u, runId, admin))
  }

  function Digit(c: char): int
  {
    c as int - '0' as int
  }

  /** The number that a row of digits stands for. */
  function ValueOf(digits: string): int
  {
    if digits == "" then 0 else 10 * ValueOf(digits[..|digits| - 1]) + Digit(digits[|digits| - 1])
  }

  predicate AllDigits(s: string)
  {
    forall i :: 0 <= i < |s| ==> '0' <= s[i] <= '9'
  }

  /** The decimal numeral of a number: digits that stand for it, without a leading zero. */
  lemma {:induction false} DecimalReads(n: nat)
    ensures ValueOf(Decimal(n)) == n && AllDigits(Decimal(n)) && (n < 10 ==> |Decimal(n)| == 1)
    ensures Decimal(n) != "" && (n > 0 ==> Decimal(n)[0] != '0')
  {
    assert Digit("0123456789"[n % 10]) == n % 10;
    if n < 10 {
      assert ValueOf(Decimal(n)[..0]) == 0;
    } else {
      DecimalReads(n / 10);
      assert Decimal(n)[..|Decimal(n)| - 1] == Decimal(n / 10);
    }
  }

  lemma FourDigits(a: string, b: string, c: string, d: string)
    requires |a| == |b| == |c| == |d| == 1
    ensures ValueOf(a + b + c + d) == 1000 * ValueOf(a) + 100 * ValueOf(b) + 10 * ValueOf(c) + ValueOf(d)
  {
    var s := a + b + c + d;
    assert s[..3] == a + b + c && s[..3][..2] == a + b && s[..2][..1] == a;
    assert ValueOf(s) == 10 * ValueOf(s[..3]) + Digit(d[0]);
    assert ValueOf(s[..3]) == 10 * ValueOf(s[..2]) + Digit(c[0]);
    assert ValueOf(s[..2]) == 10 * ValueOf(s[..1]) + Digit(b[0]);
    assert forall x: string :: |x| == 1 ==> x[..0] == "" && ValueOf(x) == Digit(x[0]);
  }

  lemma Regroup(p: string, a: string, b: string, c: string, d: string)
    ensures p + a + b + c + d == p + (a + b + c + d)
  {
  }

  lemma DigitsAdd(q: nat)
    ensures 10000 * (q / 10000) + 1000 * (q / 1000 % 10) + 100 * (q / 100 % 10) + 10 * (q / 10 % 10) + q % 10 == q
  {
    assert q / 100 == q / 10 / 10 && q / 1000 == q / 10 / 10 / 10 && q / 10000 == q / 10 / 10 / 10 / 10;
  }

  /** A cost reads back as it was: its sign, then dollars and four decimals. */
  lemma DollarsRead(cost: int) returns (sign: string, dollars: string, decimals: string)
    ensures Dollars(cost) == "$" + sign + dollars + "." + decimals
    ensures sign == if cost < 0 then "-" else ""
    ensures |decimals| == 4 && AllDigits(dollars + decimals)
    ensures 10000 * ValueOf(dollars) + ValueOf(decimals) == if cost < 0 then -cost else cost
  {
    hide Decimal, ValueOf;
    var q := if cost < 0 then -cost else cost;
    var a, b, c, d := Decimal(q / 1000 % 10), Decimal(q / 100 % 10), Decimal(q / 10 % 10), Decimal(q % 10);
    DecimalReads(q / 10000);
    DecimalReads(q / 1000 % 10);
    DecimalReads(q / 100 % 10);
    DecimalReads(q / 10 % 10);
    DecimalReads(q % 10);
    FourDigits(a, b, c, d);
    DigitsAdd(q);
    sign, dollars, decimals := if cost < 0 then "-" else "", Decimal(q / 10000), a + b + c + d;
    Regroup("$" + sign + dollars + ".", a, b, c, d);
  }

  /** The text part of a built reply: the body, a newline, then the footer. */
  function ReplyText(body: string, footer: string): string
  {
    if body == "" then footer else body + "\n" + footer
  }

  lemma {:induction false} LineLenPlain(x: string, t: string)
    requires Plain(x)
    ensures LineLen(x + "\n" + t) == |x| + 1
  {
    var s := x + "\n" + t;
    if x == "" {
      assert s[0] == '\n';
    } else {
      LineLenPlain(x[1..], t);
      assert s[1..] == x[1..] + "\n" + t;
    }
  }

  lemma LinesStep(x: string, t: string)
    requires Plain(x)
    ensures Lines(x + "\n" + t) == [x + "\n"] + Lines(t)
  {
    LineLenPlain(x, t);
    var s := x + "\n" + t;
    assert s[..|x| + 1] == x + "\n" && s[|x| + 1..] == t;
  }

  predicate Plain(s: string)
  {
    forall i :: 0 <= i < |s| ==> !IsLineBreak(s[i])
  }

  lemma NumbersPlain(n: nat, cost: int)
    ensures Plain(Decimal(n)) && Plain(Dollars(cost))
  {
    DecimalReads(n);
    var sign, dollars, decimals := DollarsRead(cost);
    forall i | 0 <= i < |dollars| + |decimals| ensures !IsLineBreak((dollars + decimals)[i]) {}
    assert Plain(dollars) by { forall i | 0 <= i < |dollars| ensures dollars[i] == (dollars + decimals)[i] {} }
    assert Plain(decimals) by {
      forall i | 0 <= i < |decimals| ensures decimals[i] == (dollars + decimals)[|dollars| + i] {}
    }
  }

  lemma AdminLineIs(runId: string, admin: AdminBase)
    requires Plain(runId) && (admin.AdminAt? ==> Plain(admin.url))
    ensures Lines(AdminLine(runId, admin)) ==
            if admin.NoAdmin? then [] else ["Admin: " + RStripSlashes(admin.url) + "/admin/runs/" + runId + "\n"]
  {
    if admin.AdminAt? {
      var x := "Admin: " + RStripSlashes(admin.url) + "/admin/runs/" + runId;
      assert x + "\n" + "" == AdminLine(runId, admin);
      LinesStep(x, "");
      assert Lines("") == [];
    }
  }

  lemma TailLines(u: Usage, runId: string, admin: AdminBase)
    requires Plain(runId)
    ensures Lines(FooterTail(u, runId, admin)) ==
            ["Run: " + runId + "\n"]
            + (["Tokens: in=" + Decimal(u.inputTokens) + " out=" + Decimal(u.outputTokens) + "\n"]
               + (["Cost: " + Dollars(u.cost) + "\n"] + Lines(AdminLine(runId, admin))))
  {
    hide Lines, Decimal, Dollars, AdminLine;
    NumbersPlain(u.inputTokens, u.cost);
    NumbersPlain(u.outputTokens, u.cost);
    var run, cost := "Run: " + runId, "Cost: " + Dollars(u.cost);
    var tokens := "Tokens: in=" + Decimal(u.inputTokens) + " out=" + Decimal(u.outputTokens);
    LinesStep(cost, AdminLine(runId, admin));
    LinesStep(tokens, cost + "\n" + AdminLine(runId, admin));
    LinesStep(run, tokens + "\n" + (cost + "\n" + AdminLine(runId, admin)));
  }

  /** A rendered footer, line by line. */
  lemma FooterLines(u: Usage, runId: string, admin: AdminBase)
    requires Plain(runId) && (admin.AdminAt? ==> Plain(admin.url))
    ensures var lines := Lines(RenderFooter(u, runId, admin));
            && |lines| == (if admin.NoAdmin? then 5 else 6)
            && lines[0] == "\n" && lines[1] == FOOTER_MARKER + "\n" && lines[2] == "Run: " + runId + "\n"
            && lines[3] == "Tokens: in=" + Decimal(u.inputTokens) + " out=" + Decimal(u.outputTokens) + "\n"
            && lines[4] == "Cost: " + Dollars(u.cost) + "\n"
            && (admin.AdminAt? ==> lines[5] == "Admin: " + RStripSlashes(admin.url) + "/admin/runs/" + runId + "\n")
  {
    hide Lines, Decimal, Dollars, AdminLine, FooterTail, RStripSlashes;
    var tail := FooterTail(u, runId, admin);
    AdminLineIs(runId, admin);
    TailLines(u, runId, admin);
    LinesStep(FOOTER_MARKER, tail);
    LinesStep("", FOOTER_MARKER + "\n" + tail);
    assert "" + "\n" == "\n";
  }

  lemma MarkerLine()
    ensures IsMarker(FOOTER_MARKER + "\n")
  {
    var l := FOOTER_MARKER + "\n";
    assert l[..|l| - 1] == FOOTER_MARKER;
    assert RStripBreaks(l) == FOOTER_MARKER;
    assert Trim(FOOTER_MARKER) == FOOTER_MARKER;
  }

  /** A text that starts with the marker line strips to nothing. */
  lemma MarkerFirst(t: string)
    ensures Clean(Lines(FOOTER_MARKER + "\n" + t)) == []
  {
    hide IsMarker;
    MarkerLine();
    LineLenPlain(FOOTER_MARKER, t);
    assert (FOOTER_MARKER + "\n" + t)[..|FOOTER_MARKER| + 1] == FOOTER_MARKER + "\n";
  }

  lemma SplitMarkerFree(l: string, rest: seq<string>)
    ensures MarkerFree([l] + rest) <==> !IsMarker(l) && MarkerFree(rest)
  {
    assert ([l] + rest)[0] == l;
    assert forall i :: 0 <= i < |rest| ==> ([l] + rest)[i + 1] == rest[i];
  }

  /** Ending a text with one more newline neither makes nor removes a marker line. */
  lemma CloseLine(s: string)
    ensures MarkerFree(Lines(s + "\n")) <==> MarkerFree(Lines(s))
  {
    hide IsMarker;
    var lines, k := Lines(s), |Lines(s)| - 1;
    if s == "" {
      NewlineAlone();
      assert s + "\n" == "\n";
    } else if Breaks(s, "\n") {
      NewlineAlone();
      LinesAppend(s, "\n");
      MarkerFreeAppend(lines, ["\n"]);
    } else {
      LengthenLast(s);
      var last := lines[k];
      MarkerWithBreak(last);
      assert lines == lines[..k] + [last];
      MarkerFreeAppend(lines[..k], [last]);
      MarkerFreeAppend(lines[..k], [last + "\n"]);
      assert MarkerFree([last]) <==> !IsMarker([last][0]);
      assert MarkerFree([last + "\n"]) <==> !IsMarker([last + "\n"][0]);
    }
  }

  lemma LengthenLast(s: string)
    requires s != "" && !Breaks(s, "\n")
    ensures Lines(s) != []
    ensures var k := |Lines(s)| - 1; Lines(s + "\n") == Lines(s)[..k] + [Lines(s)[k] + "\n"]
  {
    hide LineLen, IsLine, ValidLines, IsMarker, Lines, Concat;
    var lines, k := Lines(s), |Lines(s)| - 1;
    LinesValid(s);
    ConcatLines(s);
    LastChar(lines);
    ValidLengthened(lines[..k], lines[k]);
    ConcatLengthened(lines[..k], lines[k]);
    assert lines == lines[..k] + [lines[k]];
    LinesOfConcat(lines[..k] + [lines[k] + "\n"]);
  }

  lemma ValidLengthened(p: seq<string>, last: string)
    requires ValidLines(p + [last]) && !Breaks(last, "\n")
    ensures ValidLines(p + [last + "\n"])
  {
    var lines, closed := p + [last], p + [last + "\n"];
    assert lines[|p|] == last;
    CloseOnlyLine(last);
    forall i | 0 <= i < |closed|
      ensures IsLine(closed[i])
    {
      assert IsLine(lines[i]);
    }
    forall i, j | 0 <= i && j == i + 1 && j < |closed|
      ensures Breaks(closed[i], closed[j])
    {
      assert Breaks(lines[i], lines[j]) && closed[j][0] == lines[j][0];
    }
  }

  lemma ConcatLengthened(p: seq<string>, last: string)
    ensures Concat(p + [last + "\n"]) == Concat(p + [last]) + "\n"
  {
    ConcatAppend(p, [last]);
    ConcatAppend(p, [last + "\n"]);
    assert Concat([last]) == last + Concat([]) && Concat([last + "\n"]) == last + "\n" + Concat([]);
  }

  lemma MarkerFreeAppend(p: seq<string>, q: seq<string>)
    ensures MarkerFree(p + q) <==> MarkerFree(p) && MarkerFree(q)
  {
    assert forall i :: 0 <= i < |p| ==> (p + q)[i] == p[i];
    assert forall i :: 0 <= i < |q| ==> (p + q)[|p| + i] == q[i];
  }

  lemma NewlineAlone()
    ensures Lines("\n") == ["\n"] && !IsMarker("\n") && MarkerFree(Lines("\n"))
  {
    assert LineLen("\n") == 1 && "\n"[..1] == "\n" && "\n"[1..] == "" && Lines("") == [];
    assert RStripBreaks("\n") == "" by { assert "\n"[..0] == ""; }
    assert Trim(Peel("")) == "";
  }

  /** A line without a break, or with the break "\r", is still one line with "\n" added. */
  lemma {:induction false} CloseOnlyLine(l: string)
    requires IsLine(l) && !Breaks(l, "\n")
    ensures IsLine(l + "\n")
  {
    if !IsLineBreak(l[0]) && |l| > 1 {
      CloseOnlyLine(l[1..]);
      assert (l + "\n")[1..] == l[1..] + "\n";
    } else if !IsLineBreak(l[0]) {
      assert (l + "\n")[1..] == "\n";
    }
  }

  lemma MarkerWithBreak(s: string)
    ensures IsMarker(s + "\n") <==> IsMarker(s)
  {
  }

  lemma {:induction false} CleanAppend(a: seq<string>, b: seq<string>)
    ensures MarkerFree(a) ==> Clean(a + b) == a + Clean(b)
    ensures !MarkerFree(a) ==> Clean(a + b) == Clean(a) && Clean(a) != a
  {
    if a == [] {
      assert a + b == b;
    } else {
      assert (a + b)[1..] == a[1..] + b && a == [a[0]] + a[1..];
      SplitMarkerFree(a[0], a[1..]);
      CleanAppend(a[1..], b);
    }
  }

  /** `Strip` cuts right behind `head` exactly when `head` has no marker line of its own. */
  lemma StripAt(head: string, tail: string)
    requires head != "" && head[|head| - 1] == '\n'
    requires Clean(Lines(tail)) == []
    ensures MarkerFree(Lines(head)) <==> Strip(head + tail) == head
  {
    LinesAppend(head, tail);
    CleanAppend(Lines(head), Lines(tail));
    ConcatLines(head);
    if MarkerFree(Lines(head)) {
      assert Lines(head) + [] == Lines(head);
    } else {
      ShorterConcat(head);
    }
  }

  lemma ShorterConcat(s: string)
    requires Clean(Lines(s)) != Lines(s)
    ensures Concat(Clean(Lines(s))) != s
  {
  }

  lemma FooterStartsAtMarker(u: Usage, runId: string, admin: AdminBase) returns (tail: string)
    ensures RenderFooter(u, runId, admin) == "\n" + tail
    ensures Clean(Lines(tail)) == []
  {
    tail := FOOTER_MARKER + "\n" + FooterTail(u, runId, admin);
    MarkerFirst(FooterTail(u, runId, admin));
  }

  lemma StripBody(body: string, tail: string)
    requires Clean(Lines(tail)) == []
    ensures Strip(body + "\n\n" + tail) == body + "\n\n" <==> MarkerFree(Lines(body))
  {
    CloseLine(body);
    CloseLine(body + "\n");
    assert body + "\n" + "\n" == body + "\n\n";
    StripAt(body + "\n\n", tail);
  }

  /** Stripping a built reply gives the body back, followed by the blank the builder put in,
      exactly when no line of the body is itself a marker line. */
  lemma StripReply(body: string, u: Usage, runId: string, admin: AdminBase)
    ensures body == "" ==> Strip(ReplyText(body, RenderFooter(u, runId, admin))) == "\n"
    ensures body != "" ==>
              (Strip(ReplyText(body, RenderFooter(u, runId, admin))) == body + "\n\n" <==> MarkerFree(Lines(body)))
  {
    var tail := FooterStartsAtMarker(u, runId, admin);
    StripText(body, RenderFooter(u, runId, admin), tail);
  }

  lemma StripText(body: string, footer: string, tail: string)
    requires footer == "\n" + tail && Clean(Lines(tail)) == []
    ensures body == "" ==> Strip(ReplyText(body, footer)) == "\n"
    ensures body != "" ==> (Strip(ReplyText(body, footer)) == body + "\n\n" <==> MarkerFree(Lines(body)))
  {
    if body == "" {
      NewlineAlone();
      StripAt("\n", tail);
    } else {
      StripBody(body, tail);
      assert ReplyText(body, footer) == body + "\n\n" + tail;
    }
  }

  lemma QuoteInjective(a: string, b: string)
    requires Quote(a) == Quote(b)
    ensures a == b
  {
    LinesOfQuote(a);
    LinesOfQuote(b);
    var p, q := Lines(a), Lines(b);
    assert |p| == |QuoteLines(p)| == |QuoteLines(q)| == |q|;
    forall i | 0 <= i < |p| ensures p[i] == q[i] {
      assert ("> " + p[i])[2..] == p[i] && ("> " + q[i])[2..] == q[i];
    }
    assert p == q;
    ConcatLines(a);
    ConcatLines(b);
  }

  lemma {:induction false} QuoteTimesInjective(a: string, b: string, n: nat)
    requires QuoteTimes(a, n) == QuoteTimes(b, n)
    ensures a == b
  {
    if n > 0 {
      QuoteInjective(QuoteTimes(a, n - 1), QuoteTimes(b, n - 1));
      QuoteTimesInjective(a, b, n - 1);
    }
  }

  /** The same when the reply comes back quoted any number of times below new text: exactly the new
      text and the quoted body survive if and only if neither has a marker line of its own. */
  lemma StripQuotedReply(top: string, body: string, n: nat, u: Usage, runId: string, admin: AdminBase)
    requires n > 0
    requires top != "" ==> IsLineBreak(top[|top| - 1])
    ensures Strip(top + QuoteTimes(ReplyText(body, RenderFooter(u, runId, admin)), n))
            == top + QuoteTimes(if body == "" then "\n" else body + "\n\n", n)
            <==> MarkerFree(Lines(top)) && MarkerFree(Lines(body))
  {
    hide IsMarker, RenderFooter, ReplyText, Strip;
    var reply := ReplyText(body, RenderFooter(u, runId, admin));
    var kept := if body == "" then "\n" else body + "\n\n";
    if MarkerFree(Lines(top)) {
      StripReply(body, u, runId, admin);
      StripUnderQuotes(reply, n);
      StripBelow(top, QuoteTimes(reply, n - 1));
      var a, b := QuoteTimes(Strip(reply), n), QuoteTimes(kept, n);
      assert (top + a)[|top|..] == a && (top + b)[|top|..] == b;
      if a == b { QuoteTimesInjective(Strip(reply), kept, n); }
    } else {
      StripInside(top, QuoteTimes(reply, n - 1));
    }
  }

  /** A marker line in the new text cuts there already. */
  lemma StripInside(top: string, s: string)
    requires top != "" ==> IsLineBreak(top[|top| - 1])
    requires !MarkerFree(Lines(top))
    ensures |Strip(top + Quote(s))| < |top|
  {
    hide IsMarker, Lines, Clean, Concat, Quote, MarkerFree;
    var lines := Lines(top);
    QuoteStart(s);
    LinesAppend(top, Quote(s));
    CleanAppend(lines, Lines(Quote(s)));
    CleanPrefix(lines);
    assert lines[..|Clean(lines)|] == Clean(lines);
    PrefixOfConcat(lines, |Clean(lines)|);
    ConcatLines(top);
    ShorterConcat(top);
  }

  lemma StripBelow(top: string, s: string)
    requires top != "" ==> IsLineBreak(top[|top| - 1])
    requires MarkerFree(Lines(top))
    ensures Strip(top + Quote(s)) == top + Strip(Quote(s))
  {
    QuoteStart(s);
    LinesAppend(top, Quote(s));
    CleanAppend(Lines(top), Lines(Quote(s)));
    ConcatAppend(Lines(top), Clean(Lines(Quote(s))));
    ConcatLines(top);
  }
}
