/** Printed layouts of the wrapper, and that the parser reads every one of them back. */
module WrapperLayout {
  import opened Basics
  import opened Base64
  import opened WrapperText

  /** One printed line: optional space around the text, then a line end. */
  datatype Line = Line(left: string, text: string, right: string, ending: string)

  predicate Inline(s: string) { forall c | c in s :: !LineBreak(c) }

  predicate Spaces(s: string) { forall c | c in s :: Space(c) && !LineBreak(c) }

  predicate Trim(s: string) { Inline(s) && (s != [] ==> !Space(s[0]) && !Space(s[|s| - 1])) }

  predicate Printable(l: Line) {
    Spaces(l.left) && Spaces(l.right) && Trim(l.text) && (l.ending == "\n" || l.ending == "\r\n")
  }

  function Printed(l: Line): string { l.left + l.text + l.right + l.ending }

  function PrintAll(lines: seq<Line>): string {
    if lines == [] then "" else Printed(lines[0]) + PrintAll(lines[1..])
  }

  function Texts(lines: seq<Line>): (r: seq<string>)
    ensures |r| == |lines| && forall i | 0 <= i < |r| :: r[i] == lines[i].text
  {
    if lines == [] then [] else [lines[0].text] + Texts(lines[1..])
  }

  lemma {:induction false} BreakAfter(line: string, rest: string)
    requires Inline(line) && (rest != [] ==> LineBreak(rest[0]))
    ensures BreakIndex(line + rest) == |line|
  {
    if line != [] {
      assert (line + rest)[1..] == line[1..] + rest;
      assert line[0] in line && forall c | c in line[1..] :: c in line;
      BreakAfter(line[1..], rest);
    } else {
      assert line + rest == rest;
    }
  }

  lemma SplitOne(line: string, ending: string, rest: string)
    requires Inline(line) && (ending == "\n" || ending == "\r\n")
    ensures SplitLines(line + ending + rest) == [line] + SplitLines(rest)
  {
    var s := line + ending + rest;
    assert s == line + (ending + rest);
    BreakAfter(line, ending + rest);
    assert s[|line|..] == ending + rest;
    assert s[..|line|] == line && s[|line| + |ending|..] == rest;
    assert BreakLength(ending + rest) == |ending|;
  }

  lemma {:induction false} StripLeftSpaces(left: string, text: string)
    requires Spaces(left) && (text != [] ==> !Space(text[0]))
    ensures StripLeft(left + text) == text
  {
    if left == [] {
      assert left + text == text;
    } else {
      assert (left + text)[1..] == left[1..] + text;
      assert left[0] in left && forall c | c in left[1..] :: c in left;
      StripLeftSpaces(left[1..], text);
    }
  }

  lemma {:induction false} StripRightSpaces(text: string, right: string)
    requires Spaces(right) && (text != [] ==> !Space(text[|text| - 1]))
    ensures StripRight(text + right) == text
  {
    if right == [] {
      assert text + right == text;
    } else {
      var n := |right| - 1;
      assert (text + right)[..|text + right| - 1] == text + right[..n];
      assert right[n] in right && forall c | c in right[..n] :: c in right;
      StripRightSpaces(text, right[..n]);
    }
  }

  lemma StripPrinted(left: string, text: string, right: string)
    requires Spaces(left) && Spaces(right) && Trim(text)
    ensures Strip(left + text + right) == text
  {
    if text == [] {
      assert left + text + right == left + right + [];
      assert forall c | c in left + right :: c in left || c in right;
      StripLeftSpaces(left + right, []);
    } else {
      assert left + text + right == left + (text + right);
      StripLeftSpaces(left, text + right);
      StripRightSpaces(text, right);
    }
  }

  /** Splitting and stripping recover the texts of any printed lines. */
  lemma {:induction false} LinesOfPrinted(lines: seq<Line>)
    requires forall l | l in lines :: Printable(l)
    ensures StripAll(SplitLines(PrintAll(lines))) == Texts(lines)
  {
    hide SplitLines; hide Strip;
    if lines == [] {
      NoLines();
    } else {
      var l := lines[0];
      var raw := l.left + l.text + l.right;
      assert Printable(l);
      forall c | c in raw ensures !LineBreak(c) { assert c in l.left || c in l.text || c in l.right; }
      SplitOne(raw, l.ending, PrintAll(lines[1..]));
      StripPrinted(l.left, l.text, l.right);
      LinesOfPrinted(lines[1..]);
      var rest := SplitLines(PrintAll(lines[1..]));
      assert ([raw] + rest)[1..] == rest;
    }
  }

  lemma NoLines()
    ensures SplitLines("") == []
  {}

  ghost predicate AllPrintable(lines: seq<Line>) { forall l | l in lines :: Printable(l) }

  /** Between the markers: blank lines, headers, then the body cut and spaced in any way. */
  ghost predicate Layout(blank: seq<Line>, headers: seq<Line>, body: seq<Line>) {
    && AllPrintable(blank + headers + body)
    && Blank(Texts(blank)) && AllHeaders(Texts(headers)) && BodyLines(Texts(body)) && Join(Texts(body)) != ""
  }

  ghost function Content(headers: seq<Line>, body: seq<Line>): Parsed
    requires AllHeaders(Texts(headers))
  {
    Parsed(HeadersOf(map[], Texts(headers)), Join(Texts(body)))
  }

  lemma TextsAppend(a: seq<Line>, b: seq<Line>)
    ensures Texts(a + b) == Texts(a) + Texts(b)
  {}

  lemma InnerIsRead(blank: seq<Line>, headers: seq<Line>, body: seq<Line>)
    requires Layout(blank, headers, body)
    ensures ParseInner(PrintAll(blank + headers + body)) == Ok(Content(headers, body))
  {
    hide SplitLines; hide StripAll; hide Join; hide ScanLines; hide Printable; hide BodyLines;
    hide HeadersOf; hide PrintAll; hide AllHeaders; hide Blank; hide Texts;
    LinesOfPrinted(blank + headers + body);
    TextsAppend(blank + headers, body);
    TextsAppend(blank, headers);
    AnyLayoutIsRead(Texts(blank), Texts(headers), Texts(body));
  }

  /** The markers around inner are the first ones in the text. */
  ghost predicate Framed(t: string, prefix: string, inner: string, suffix: string) {
    && t == prefix + BEGIN + inner + END + suffix
    && (forall i: nat | i < |prefix| :: !OccursAt(t, BEGIN, i))
    && (forall i: nat | i < |prefix| + |BEGIN| + |inner| :: !OccursAt(t, END, i))
  }

  lemma FramedInner(t: string, prefix: string, inner: string, suffix: string)
    requires Framed(t, prefix, inner, suffix)
    ensures Inner(t) == Ok(inner)
  {
    hide Find;
    var b, e := |prefix|, |prefix| + |BEGIN| + |inner|;
    assert t[b..b + |BEGIN|] == BEGIN && t[e..e + |END|] == END && t[b + |BEGIN|..e] == inner;
    FindFirst(t, BEGIN, b);
    FindFirst(t, END, e);
  }

  /** A wrapped text, with anything before and after the markers, is read back whatever the
      line width, line ends, indentation, blank lines and headers. */
  lemma WrapperIsRead(text: string, prefix: string, blank: seq<Line>, headers: seq<Line>, body: seq<Line>,
      suffix: string)
    requires Layout(blank, headers, body) && Framed(DropBom(text), prefix, PrintAll(blank + headers + body), suffix)
    ensures ParseText(text) == Ok(Content(headers, body))
  {
    hide Framed; hide ParseInner; hide DropBom; hide Inner; hide PrintAll; hide Content;
    FramedInner(DropBom(text), prefix, PrintAll(blank + headers + body), suffix);
    InnerIsRead(blank, headers, body);
  }

  // ---- the canonical layout ----

  /** re.findall of runs of up to 64 characters. */
  function Chunks(s: string): seq<string> {
    if s == [] then [] else if |s| <= WIDTH then [s] else [s[..WIDTH]] + Chunks(s[WIDTH..])
  }

  function JoinLines(parts: seq<string>): string {
    if parts == [] then "" else if |parts| == 1 then parts[0] else parts[0] + "\n" + JoinLines(parts[1..])
  }

  function Wrapped(body: string): string { BEGIN + "\n" + JoinLines(Chunks(body)) + "\n" + END + "\n" }

  function BodyLine(text: string): Line { Line("", text, "", "\n") }

  function AsLines(parts: seq<string>): (r: seq<Line>)
    ensures |r| == |parts| && forall i | 0 <= i < |r| :: r[i] == BodyLine(parts[i])
  {
    if parts == [] then [] else [BodyLine(parts[0])] + AsLines(parts[1..])
  }

  lemma {:induction false} PrintedChunks(parts: seq<string>)
    ensures parts != [] ==> PrintAll(AsLines(parts)) == JoinLines(parts) + "\n"
  {
    if |parts| == 1 {
      assert AsLines(parts)[1..] == [];
    } else if parts != [] {
      PrintedChunks(parts[1..]);
      assert AsLines(parts)[1..] == AsLines(parts[1..]);
    }
  }

  lemma {:induction false} ChunksJoin(s: string)
    requires forall c | c in s :: Body64(c)
    ensures Join(Chunks(s)) == s && (s != [] ==> Chunks(s) != [])
    ensures |s| >= 4 ==> |Chunks(s)[0]| >= 4
    ensures forall i | 0 <= i < |Chunks(s)| :: Base64Only(Chunks(s)[i])
  {
    if |s| > WIDTH {
      assert forall c | c in s[WIDTH..] :: c in s;
      assert forall c | c in s[..WIDTH] :: c in s;
      ChunksJoin(s[WIDTH..]);
      assert s == s[..WIDTH] + s[WIDTH..];
    } else if s != [] {
      JoinOne(s);
    }
  }

  lemma Body64Trim(s: string)
    requires Base64Only(s)
    ensures Trim(s)
  {
    assert s[0] in s && s[|s| - 1] in s;
  }

  lemma {:induction false} PrintedChars(parts: seq<string>)
    requires forall i | 0 <= i < |parts| :: Base64Only(parts[i])
    ensures forall c | c in JoinLines(parts) :: Body64(c) || c == '\n'
    ensures parts != [] ==> |JoinLines(parts)| >= |parts[0]|
  {
    if |parts| > 1 { PrintedChars(parts[1..]); }
  }

  /** No early END marker: base64 text and line feeds contain no dash and no space. */
  lemma NoEarlyEnd(inner: string, i: nat)
    requires |inner| >= 4 && inner[0] == '\n' && forall c | c in inner :: Body64(c) || c == '\n'
    requires i < |BEGIN| + |inner|
    ensures !OccursAt(BEGIN + inner + END + "\n", END, i)
  {
    var text := BEGIN + inner + END + "\n";
    if i >= |BEGIN| {
      assert text[i] == inner[i - |BEGIN|];
      assert inner[i - |BEGIN|] in inner;
    } else if i >= 22 {
      assert text[i + 4] == inner[i + 4 - |BEGIN|];
      assert inner[i + 4 - |BEGIN|] in inner;
    } else {
      assert text[i] == BEGIN[i] && text[i + 4] == BEGIN[i + 4] && text[5] == BEGIN[5];
      DashThenSpace(i);
    }
    EndNeeds(text, i);
  }

  lemma DashThenSpace(i: nat)
    requires i < 22
    ensures BEGIN[i] == '-' && BEGIN[i + 4] == ' ' ==> i == 0
  {}

  lemma EndNeeds(text: string, i: nat)
    requires i + 5 < |text| && (text[i] != '-' || text[i + 4] != ' ' || text[i + 5] != 'E')
    ensures !OccursAt(text, END, i)
  {
    if i + |END| <= |text| {
      var found := text[i..i + |END|];
      assert found[0] == text[i] && found[4] == text[i + 4] && found[5] == text[i + 5];
      assert END[0] == '-' && END[4] == ' ' && END[5] == 'E';
    }
  }
}
