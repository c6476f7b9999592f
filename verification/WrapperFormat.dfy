/** The wrapper's formats written out in literal terms: padding, base64, markers and columns,
    plausible plaintext, headers. */
module WrapperFormat {
  import opened Basics
  import opened Base64
  import opened WrapperText
  import opened WrapperLayout
  import opened Wrapper

  // ---- padding ----

  /** y is x and then k bytes of value k, k being what is missing to the next multiple of 16. */
  lemma PadMeans(x: Bytes, y: Bytes)
    ensures y == Pad(x) <==>
      && |x| < |y| <= |x| + 16 && |y| % 16 == 0 && y[..|x|] == x
      && forall i | |x| <= i < |y| :: y[i] == |y| - |x|
  {
    if |x| < |y| <= |x| + 16 && |y| % 16 == 0 && y[..|x|] == x && forall i | |x| <= i < |y| :: y[i] == |y| - |x| {
      assert |y| - |x| == PadLength(|x|);
      assert y == y[..|x|] + y[|x|..];
    }
  }

  // ---- base64 ----

  const ALPHABET := "ABCDEFGHIJKLMNOPQRSTUVWXYZ" + "abcdefghijklmnopqrstuvwxyz" + "0123456789+/"

  function Letter(i: nat): char
    requires i < 64
  {
    ALPHABET[i]
  }

  lemma AlphabetIs(i: nat)
    requires i < 64
    ensures Char64(i) == Letter(i)
  {
    hide Letter;
    if i < 26 {
      UpperLetters(i);
    } else if i < 52 {
      LowerLetters(i);
    } else {
      OtherLetters(i);
    }
  }

  lemma UpperLetters(i: nat)
    requires i < 26
    ensures Letter(i) == ('A' as int + i) as char
  {}

  lemma LowerLetters(i: nat)
    requires 26 <= i < 52
    ensures Letter(i) == ('a' as int + i - 26) as char
  {}

  lemma OtherLetters(i: nat)
    requires 52 <= i < 64
    ensures Letter(i) == if i < 62 then ('0' as int + i - 52) as char else if i == 62 then '+' else '/'
  {}

  function ByteAt(x: Bytes, i: nat): int { if i < |x| then x[i] else 0 }

  /** Three bytes as one number, missing ones as zero. */
  function Triple(x: Bytes, g: nat): (q: nat)
    ensures q < 0x100_0000
  {
    ByteAt(x, 3 * g) * 65536 + ByteAt(x, 3 * g + 1) * 256 + ByteAt(x, 3 * g + 2)
  }

  /** Group g of the text spells the triple in base 64, with = where bytes are missing. */
  ghost predicate Spells(x: Bytes, t: string, g: nat)
    requires 4 * g + 3 < |t|
  {
    var q := Triple(x, g);
    && t[4 * g] == Letter(q / 262144)
    && t[4 * g + 1] == Letter(q / 4096 % 64)
    && t[4 * g + 2] == (if 3 * g + 1 < |x| then Letter(q / 64 % 64) else '=')
    && t[4 * g + 3] == (if 3 * g + 2 < |x| then Letter(q % 64) else '=')
  }

  lemma Quotient64(high: int, low: int)
    requires 0 <= low < 64
    ensures (high * 64 + low) / 64 == high && (high * 64 + low) % 64 == low
  {}

  lemma Quotient4096(high: int, low: int)
    requires 0 <= low < 4096
    ensures (high * 4096 + low) / 4096 == high && (high * 4096 + low) % 4096 == low
  {}

  lemma Quotient262144(high: int, low: int)
    requires 0 <= low < 262144
    ensures (high * 262144 + low) / 262144 == high && (high * 262144 + low) % 262144 == low
  {}

  lemma Sextets(a: Byte, b: Byte, c: Byte)
    ensures var q := a * 65536 + b * 256 + c;
      && q / 262144 == a / 4 && q / 4096 % 64 == a % 4 * 16 + b / 16
      && q / 64 % 64 == b % 16 * 4 + c / 64 && q % 64 == c % 64
  {
    var q := a * 65536 + b * 256 + c;
    var i, j, k, l := a / 4, a % 4 * 16 + b / 16, b % 16 * 4 + c / 64, c % 64;
    assert q == i * 262144 + j * 4096 + k * 64 + l;
    Quotient262144(i, j * 4096 + k * 64 + l);
    Quotient4096(i * 64 + j, k * 64 + l);
    Quotient64(i * 4096 + j * 64 + k, l);
    Quotient64(i, j);
    Quotient64(i * 64 + j, k);
  }

  lemma {:induction false} EncodeLength(x: Bytes)
    ensures |Encode(x)| == (|x| + 2) / 3 * 4
  {
    hide Encode1; hide Encode2; hide Encode3;
    if x != [] { Shapes(x[0], ByteAt(x, 1), ByteAt(x, 2)); }
    if |x| > 2 { EncodeLength(x[3..]); }
  }

  /** Base64 as the standard defines it, group by group. */
  lemma {:induction false} EncodeMeans(x: Bytes, g: nat)
    requires 3 * g < |x|
    ensures |Encode(x)| == (|x| + 2) / 3 * 4 && Spells(x, Encode(x), g)
  {
    hide Spells; hide Encode1; hide Encode2; hide Encode3;
    EncodeLength(x);
    if g == 0 {
      FirstGroup(x);
    } else {
      EncodeMeans(x[3..], g - 1);
      Shapes(x[0], x[1], x[2]);
      assert Encode(x)[4..] == Encode(x[3..]);
      ShiftGroup(x, Encode(x), g);
    }
  }

  lemma ShiftGroup(x: Bytes, t: string, g: nat)
    requires |x| > 3 && g > 0 && 4 * g + 3 < |t| && Spells(x[3..], t[4..], g - 1)
    ensures Spells(x, t, g)
  {
    hide Letter;
    assert 4 * (g - 1) == 4 * g - 4 && 3 * (g - 1) == 3 * g - 3;
    assert Triple(x[3..], g - 1) == Triple(x, g);
  }

  lemma FirstGroup(x: Bytes)
    requires x != []
    ensures |Encode(x)| >= 4 && Spells(x, Encode(x), 0)
  {
    hide Char64; hide Letter;
    var a, b, c := x[0], ByteAt(x, 1), ByteAt(x, 2);
    Sextets(a, b, c);
    AlphabetIs(a / 4);
    AlphabetIs(a % 4 * 16 + b / 16);
    AlphabetIs(b % 16 * 4 + c / 64);
    AlphabetIs(c % 64);
  }

  // ---- strict decoding ----

  ghost predicate Digits64(s: string, n: int) {
    0 <= n <= |s| && forall i | 0 <= i < n :: IsChar64(s[i])
  }

  /** Whole groups of four letters, the last of which may end in one or two padding signs. */
  ghost predicate Strict64(s: string) {
    && |s| % 4 == 0
    && (|| Digits64(s, |s|)
        || (|s| > 0 && Digits64(s, |s| - 1) && s[|s| - 1] == '=')
        || (|s| > 1 && Digits64(s, |s| - 2) && s[|s| - 2] == '=' && s[|s| - 1] == '='))
  }

  lemma StrictTail(s: string)
    requires |s| > 4
    ensures Strict64(s) <==> Digits64(s[..4], 4) && Strict64(s[4..])
  {
    var t := s[4..];
    assert forall i | 4 <= i < |s| :: s[i] == t[i - 4];
    assert forall n | 4 <= n <= |s| :: Digits64(s, n) <==> Digits64(s[..4], 4) && Digits64(t, n - 4) by {
      forall n | 4 <= n <= |s| ensures Digits64(s, n) <==> Digits64(s[..4], 4) && Digits64(t, n - 4) {
        if Digits64(s, n) {
          forall i | 0 <= i < n - 4 ensures IsChar64(t[i]) { assert IsChar64(s[i + 4]); }
        }
      }
    }
  }

  lemma GroupDecodes(g: string)
    requires |g| == 4
    ensures DecodeGroup(g, true).Some? <==> Strict64(g)
    ensures DecodeGroup(g, false).Some? <==> Digits64(g, 4)
  {
    hide Index64;
  }

  /** Which texts decode. */
  lemma {:induction false} DecodesIff(s: string)
    ensures Decode(s).Some? <==> Strict64(s)
  {
    hide DecodeGroup; hide Strict64; hide Digits64;
    if |s| < 4 {
      ShortStrict(s);
    } else if |s| == 4 {
      assert s[..4] == s && s[4..] == [];
      GroupDecodes(s);
    } else {
      GroupDecodes(s[..4]);
      DecodesIff(s[4..]);
      StrictTail(s);
    }
  }

  lemma ShortStrict(s: string)
    requires |s| < 4
    ensures Strict64(s) <==> s == []
  {}

  // ---- markers and columns ----

  /** The body in lines of 64 characters: every 65th character is a line feed. */
  ghost predicate Columns64(body: string, lines: string) {
    && |lines| == (if body == "" then 0 else |body| + (|body| - 1) / 64)
    && forall i | 0 <= i < |lines| :: Column64(body, lines, i)
  }

  ghost predicate Column64(body: string, lines: string, i: nat)
    requires i < |lines|
  {
    if i % 65 == 64 then lines[i] == '\n' else i - i / 65 < |body| && lines[i] == body[i - i / 65]
  }

  lemma {:induction false} LinesAreColumns(body: string)
    ensures Columns64(body, JoinLines(Chunks(body)))
  {
    var lines := JoinLines(Chunks(body));
    if |body| > 64 {
      var tail := JoinLines(Chunks(body[64..]));
      LinesAreColumns(body[64..]);
      assert Chunks(body)[1..] == Chunks(body[64..]);
      assert lines == body[..64] + "\n" + tail;
      assert (|body| - 1) / 64 == 1 + (|body| - 65) / 64;
      forall i | 0 <= i < |lines| ensures Column64(body, lines, i) {
        if i >= 65 {
          assert i / 65 == 1 + (i - 65) / 65 && i % 65 == (i - 65) % 65;
          assert Column64(body[64..], tail, i - 65);
          assert lines[i] == tail[i - 65];
        }
      }
    }
  }

  lemma WrappedMeans(body: string)
    ensures exists lines ::
      && Columns64(body, lines)
      && Wrapped(body) == "---- BEGIN config.xml ----" + "\n" + lines + "\n" + "---- END config.xml ----" + "\n"
  {
    hide Columns64; hide JoinLines; hide Chunks;
    LinesAreColumns(body);
  }

  // ---- plausible plaintext ----

  /** The text stands at position i of x. */
  ghost predicate TextAt(x: Bytes, i: nat, text: string) {
    i + |text| <= |x| && forall j | 0 <= j < |text| :: x[i + j] == text[j] as int
  }

  lemma {:induction false} LStripIs(x: Bytes, n: nat)
    requires n <= |x| && (forall i | 0 <= i < n :: ByteSpace(x[i])) && (n < |x| ==> !ByteSpace(x[n]))
    ensures LStrip(x) == x[n..]
  {
    if n > 0 {
      LStripIs(x[1..], n - 1);
      assert x[1..][n - 1..] == x[n..];
    }
  }

  lemma {:induction false} LStripSplits(x: Bytes) returns (n: nat)
    ensures n <= |x| && LStrip(x) == x[n..] && (forall i | 0 <= i < n :: ByteSpace(x[i]))
  {
    n := 0;
    if x != [] && ByteSpace(x[0]) {
      var m := LStripSplits(x[1..]);
      n := m + 1;
      assert x[1..][m..] == x[n..];
      forall i | 0 <= i < n ensures ByteSpace(x[i]) { if i > 0 { assert x[i] == x[1..][i - 1]; } }
    }
  }

  lemma TextPrefix(x: Bytes, n: nat, tag: Bytes, text: string)
    requires n <= |x| && |tag| == |text| && forall j | 0 <= j < |tag| :: tag[j] == text[j] as int
    ensures tag <= x[n..] <==> TextAt(x, n, text)
  {
    if TextAt(x, n, text) {
      forall j | 0 <= j < |tag| ensures x[n..][j] == tag[j] {}
      assert x[n..][..|tag|] == tag;
    }
  }

  /** Nothing but white space before position n. */
  ghost predicate White(x: Bytes, n: nat)
    requires n <= |x|
  {
    forall i | 0 <= i < n :: x[i] == 32 || 9 <= x[i] <= 13
  }

  /** After white space, inside the first 256 bytes. */
  ghost predicate OpensWith(x: Bytes, text: string) {
    exists n: nat :: n + |text| <= 256 && TextAt(x, n, text) && n <= |x| && White(x, n)
  }

  lemma TextInHead(x: Bytes, n: nat, text: string)
    ensures TextAt(Cut(x, 0, 256), n, text) <==> n + |text| <= 256 && TextAt(x, n, text)
  {}

  lemma WhiteHead(x: Bytes, n: nat)
    requires n <= |Cut(x, 0, 256)|
    ensures n <= |x| && (White(Cut(x, 0, 256), n) <==> White(x, n))
  {
    var head := Cut(x, 0, 256);
    assert forall i | 0 <= i < |head| :: head[i] == x[i];
  }

  lemma StripsTo(x: Bytes, tag: Bytes, text: string)
    requires |tag| == |text| > 0 && (forall j | 0 <= j < |tag| :: tag[j] == text[j] as int) && text[0] == '<'
    ensures tag <= LStrip(Cut(x, 0, 256)) <==> OpensWith(x, text)
  {
    hide LStrip; hide Cut; hide TextAt;
    var head := Cut(x, 0, 256);
    var n := LStripSplits(head);
    TextPrefix(head, n, tag, text);
    if tag <= LStrip(head) {
      TextInHead(x, n, text);
      WhiteHead(x, n);
      assert White(x, n);
    }
    if m: nat :| m + |text| <= 256 && TextAt(x, m, text) && m <= |x| && White(x, m) {
      TextInHead(x, m, text);
      NotWhite(head, m, text);
      WhiteHead(x, m);
      LStripIs(head, m);
      TextPrefix(head, m, tag, text);
    }
  }

  lemma NotWhite(x: Bytes, m: nat, text: string)
    requires TextAt(x, m, text) && text != "" && text[0] == '<'
    ensures m < |x| && !ByteSpace(x[m])
  {
    assert x[m + 0] == text[0] as int;
  }

  lemma MarkAt(x: Bytes, i: nat)
    ensures BytesAt(Cut(x, 0, 4096), BeginBytes(), i) <==> i + 26 <= 4096 && TextAt(x, i, "---- BEGIN config.xml ----")
  {
    var head, mark := Cut(x, 0, 4096), BeginBytes();
    assert |mark| == 26;
    if i + 26 <= |head| {
      TextPrefix(head, i, mark, "---- BEGIN config.xml ----");
      assert head[i..i + 26] == head[i..][..26];
      assert TextAt(head, i, "---- BEGIN config.xml ----") <==> TextAt(x, i, "---- BEGIN config.xml ----");
    }
  }

  /** What is accepted as plaintext: XML after white space in the first 256 bytes, or the BEGIN
      marker anywhere in the first 4096. */
  lemma PlausibleMeans(x: Bytes)
    ensures Plausible(x) <==>
      || OpensWith(x, "<?xml") || OpensWith(x, "<pfsense")
      || exists i: nat :: i + 26 <= 4096 && TextAt(x, i, "---- BEGIN config.xml ----")
  {
    hide LStrip; hide OpensWith; hide BytesAt; hide TextAt;
    StripsTo(x, [60, 63, 120, 109, 108], "<?xml");
    StripsTo(x, [60, 112, 102, 115, 101, 110, 115, 101], "<pfsense");
    forall i: nat ensures BytesAt(Cut(x, 0, 4096), BeginBytes(), i) <==>
      i + 26 <= 4096 && TextAt(x, i, "---- BEGIN config.xml ----")
    {
      MarkAt(x, i);
    }
    MarkInside(x);
  }

  lemma MarkInside(x: Bytes)
    ensures forall i: nat | BytesAt(Cut(x, 0, 4096), BeginBytes(), i) :: i <= |Cut(x, 0, 4096)|
  {}

  // ---- white space ----

  /** The code points that end a line, and those that stripping removes. */
  lemma SpacesAre(c: char)
    ensures var k := c as int;
      && (LineBreak(c) <==> 10 <= k <= 13 || 28 <= k <= 30 || k in {133, 8232, 8233})
      && (Space(c) <==>
            9 <= k <= 13 || 28 <= k <= 32 || k in {133, 160, 5760} || 8192 <= k <= 8202
            || k in {8232, 8233, 8239, 8287, 12288})
  {}

  /** Any number of byte order marks before the text is dropped. */
  lemma {:induction false} MarksDropped(marks: string, text: string)
    requires (forall c | c in marks :: c as int == 0xFEFF) && (text != "" ==> text[0] as int != 0xFEFF)
    ensures DropBom(marks + text) == text
  {
    if marks == "" {
      assert marks + text == text;
    } else {
      assert marks[0] in marks && forall c | c in marks[1..] :: c in marks;
      MarksDropped(marks[1..], text);
      assert (marks + text)[1..] == marks[1..] + text;
    }
  }

  // ---- headers ----

  ghost predicate LowerCased(name: string, key: string) {
    && |key| == |name|
    && forall i | 0 <= i < |key| :: key[i] == if 'A' <= name[i] <= 'Z' then (name[i] as int + 32) as char else name[i]
  }

  /** A header line files its value under its lower-cased name, both without surrounding space. */
  lemma HeaderRead(h: Headers, left: string, name: string, right: string, gap: string, value: string, tail: string)
    requires Spaces(left) && Spaces(right) && Spaces(gap) && Spaces(tail) && Trim(name) && Trim(value) && ':' !in name
    ensures ':' in left + name + right + ":" + gap + value + tail
    ensures exists key ::
      && LowerCased(name, key)
      && WithHeader(h, left + name + right + ":" + gap + value + tail) == h[key := value]
  {
    hide Strip; hide Trim;
    var line := left + name + right + ":" + gap + value + tail;
    var n := |left| + |name| + |right|;
    assert line[n] == ':' && line[..n] == left + name + right && line[n + 1..] == gap + value + tail;
    forall i | 0 <= i < n ensures line[i] != ':' {
      assert line[i] == (left + name + right)[i];
      assert line[i] in left || line[i] in name || line[i] in right;
    }
    assert ColonIndex(line) == n;
    StripPrinted(left, name, right);
    StripPrinted(gap, value, tail);
    assert LowerCased(name, Lower(name));
    assert WithHeader(h, line) == h[Lower(name) := value];
  }
}
