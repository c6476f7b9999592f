/** The text layer of the pfSense wrapper: markers, lines, headers and body. */
module WrapperText {
  import opened Basics
  import opened Base64

  const BEGIN := "---- BEGIN config.xml ----"
  const END := "---- END config.xml ----"
  const WIDTH := 64

  // ---- str methods ----

  /** Where str.splitlines breaks. */
  predicate LineBreak(c: char) {
    '\n' <= c <= '\r' || '\U{1c}' <= c <= '\U{1e}' || c == '\U{85}' || c == '\U{2028}' || c == '\U{2029}'
  }

  /** What str.strip removes. */
  predicate Space(c: char) {
    LineBreak(c) || c == '\t' || c == ' ' || c == '\U{1f}' || c == '\U{a0}' || c == '\U{1680}'
    || '\U{2000}' <= c <= '\U{200a}' || c == '\U{202f}' || c == '\U{205f}' || c == '\U{3000}'
  }

  function BreakIndex(s: string): (n: nat)
    ensures n <= |s| && (forall i | 0 <= i < n :: !LineBreak(s[i])) && (n < |s| ==> LineBreak(s[n]))
  {
    if s == [] || LineBreak(s[0]) then 0 else 1 + BreakIndex(s[1..])
  }

  /** Carriage return and line feed together are one break. */
  function BreakLength(s: string): (n: nat)
    requires s != []
    ensures 1 <= n <= |s|
  {
    if |s| >= 2 && s[0] == '\r' && s[1] == '\n' then 2 else 1
  }

  function SplitLines(s: string): seq<string> {
    if s == [] then []
    else
      var n := BreakIndex(s);
      if n == |s| then [s] else [s[..n]] + SplitLines(s[n + BreakLength(s[n..])..])
  }

  function StripLeft(s: string): (r: string)
    ensures |r| <= |s| && (r != [] ==> !Space(r[0]))
  {
    if s != [] && Space(s[0]) then StripLeft(s[1..]) else s
  }

  function StripRight(s: string): (r: string)
    ensures |r| <= |s| && r <= s && (r != [] ==> !Space(r[|r| - 1]))
  {
    if s != [] && Space(s[|s| - 1]) then StripRight(s[..|s| - 1]) else s
  }

  function Strip(s: string): string { StripRight(StripLeft(s)) }

  function StripAll(lines: seq<string>): (r: seq<string>)
    ensures |r| == |lines|
  {
    if lines == [] then [] else [Strip(lines[0])] + StripAll(lines[1..])
  }

  function LowerChar(c: char): char { if 'A' <= c <= 'Z' then (c as int + 32) as char else c }

  function Lower(s: string): string { seq(|s|, i requires 0 <= i < |s| => LowerChar(s[i])) }

  predicate OccursAt(s: string, pattern: string, i: nat) {
    i + |pattern| <= |s| && s[i..i + |pattern|] == pattern
  }

  lemma OccursShift(s: string, pattern: string, i: nat)
    requires s != []
    ensures OccursAt(s, pattern, i + 1) <==> OccursAt(s[1..], pattern, i)
  {
    if i + 1 + |pattern| <= |s| { assert s[i + 1..i + 1 + |pattern|] == s[1..][i..i + |pattern|]; }
  }

  /** str.find: the first place the pattern occurs. */
  function Find(s: string, pattern: string): Option<nat> {
    if OccursAt(s, pattern, 0) then Some(0)
    else if s == [] then None
    else
      match Find(s[1..], pattern)
      case Some(n) => Some(n + 1)
      case None => None
  }

  lemma {:induction false} FindFirst(s: string, pattern: string, at: nat)
    requires OccursAt(s, pattern, at) && forall i: nat | i < at :: !OccursAt(s, pattern, i)
    ensures Find(s, pattern) == Some(at)
  {
    hide OccursAt;
    if at > 0 {
      assert s != [] by { NoRoom(s, pattern, at); }
      forall i: nat ensures OccursAt(s, pattern, i + 1) <==> OccursAt(s[1..], pattern, i) {
        OccursShift(s, pattern, i);
      }
      assert OccursAt(s[1..], pattern, at - 1) by { OccursShift(s, pattern, at - 1); }
      FindFirst(s[1..], pattern, at - 1);
    }
  }

  lemma NoRoom(s: string, pattern: string, at: nat)
    requires OccursAt(s, pattern, at) && at > 0
    ensures s != []
  {}

  /** A result is the first occurrence, and no result means none. */
  lemma {:induction false} FindSound(s: string, pattern: string)
    ensures match Find(s, pattern)
      case Some(n) => OccursAt(s, pattern, n) && forall i: nat | i < n :: !OccursAt(s, pattern, i)
      case None => forall i: nat :: !OccursAt(s, pattern, i)
  {
    if !OccursAt(s, pattern, 0) && s != [] {
      FindSound(s[1..], pattern);
      hide OccursAt;
      forall i: nat ensures OccursAt(s, pattern, i + 1) <==> OccursAt(s[1..], pattern, i) {
        OccursShift(s, pattern, i);
      }
      forall i: nat | i > 0 ensures OccursAt(s, pattern, i) <==> OccursAt(s[1..], pattern, i - 1) {
        OccursShift(s, pattern, i - 1);
      }
    }
  }

  function Join(parts: seq<string>): string {
    if parts == [] then "" else parts[0] + Join(parts[1..])
  }

  lemma {:induction false} JoinAppend(a: seq<string>, b: seq<string>)
    ensures Join(a + b) == Join(a) + Join(b)
  {
    if a == [] {
      assert a + b == b;
    } else {
      JoinAppend(a[1..], b);
      assert (a + b)[1..] == a[1..] + b;
      assert Join(a + b) == a[0] + Join(a[1..] + b);
    }
  }

  // ---- the line machine ----

  /** `_is_base64_only` */
  predicate Base64Only(line: string) { line != [] && forall c | c in line :: Body64(c) }

  predicate HeaderLine(line: string) { ':' in line && !Base64Only(line) }

  function ColonIndex(s: string): (n: nat)
    requires ':' in s
    ensures n < |s| && s[n] == ':' && forall i | 0 <= i < n :: s[i] != ':'
  {
    if s[0] == ':' then 0 else 1 + ColonIndex(s[1..])
  }

  type Headers = map<string, string>

  function WithHeader(h: Headers, line: string): Headers
    requires ':' in line
  {
    var n := ColonIndex(line);
    h[Lower(Strip(line[..n])) := Strip(line[n + 1..])]
  }

  datatype Scan = Scan(headers: Headers, body: seq<string>, inHeaders: bool, sawHeader: bool)

  const SCAN_START := Scan(map[], [], true, false)

  /** One turn of the loop on a stripped line. */
  function ScanLine(st: Scan, line: string): Scan {
    if !st.inHeaders then (if line == "" then st else st.(body := st.body + [line]))
    else if line == "" then (if st.sawHeader then st.(inHeaders := false) else st)
    else if HeaderLine(line) then st.(headers := WithHeader(st.headers, line), sawHeader := true)
    else st.(inHeaders := false, body := st.body + [line])
  }

  function ScanLines(st: Scan, lines: seq<string>): Scan {
    if lines == [] then st else ScanLine(ScanLines(st, lines[..|lines| - 1]), lines[|lines| - 1])
  }

  datatype WrapperError = MissingMarkers | NoBody | BadBase64 | TooShort | NoSaltPrefix | BadLength | DecryptFailed

  datatype Parsed = Parsed(headers: Headers, body: string)

  const BOM := '\U{feff}'

  function DropBom(s: string): string { if s != [] && s[0] == BOM then DropBom(s[1..]) else s }

  function Slice(s: string, i: nat, j: nat): string { if i <= j <= |s| then s[i..j] else "" }

  /** The text between the markers; empty when they overlap. */
  function Inner(text: string): Result<string, WrapperError> {
    match (Find(text, BEGIN), Find(text, END))
    case (Some(b), Some(e)) =>
      if e < b then Err(MissingMarkers) else Ok(Slice(text, b + |BEGIN|, e))
    case _ => Err(MissingMarkers)
  }

  function ParseInner(inner: string): Result<Parsed, WrapperError> {
    var st := ScanLines(SCAN_START, StripAll(SplitLines(inner)));
    if Join(st.body) == "" then Err(NoBody) else Ok(Parsed(st.headers, Join(st.body)))
  }

  function ParseText(text: string): Result<Parsed, WrapperError> {
    match Inner(DropBom(text))
    case Err(e) => Err(e)
    case Ok(inner) => ParseInner(inner)
  }

  /** `_parse_wrapper` on decoded text, with its loop, flags and buffers. */
  method ParseWrapper(text: string) returns (r: Result<Parsed, WrapperError>)
    ensures r == ParseText(text)
  {
    hide Find; hide SplitLines; hide Strip; hide DropBom; hide Join; hide Base64Only; hide WithHeader; hide StripAll;
    hide ScanLines;
    var clean := DropBom(text);
    var beginAt, endAt := Find(clean, BEGIN), Find(clean, END);
    if beginAt.None? || endAt.None? || endAt.value < beginAt.value { return Err(MissingMarkers); }
    var inner := Slice(clean, beginAt.value + |BEGIN|, endAt.value);
    var headers: Headers := map[];
    var body: seq<string> := [];
    var inHeaders, sawHeader := true, false;
    var rawLines := SplitLines(inner);
    StripAllAt(rawLines);
    ScanNone(SCAN_START, StripAll(rawLines));
    for i := 0 to |rawLines|
      invariant Scan(headers, body, inHeaders, sawHeader) == ScanLines(SCAN_START, StripAll(rawLines)[..i])
    {
      var line := Strip(rawLines[i]);
      ScanNext(SCAN_START, StripAll(rawLines), i);
      if inHeaders {
        if line == "" {
          if sawHeader { inHeaders := false; }
          continue;
        }
        if ':' in line && !Base64Only(line) {
          headers := WithHeader(headers, line);
          sawHeader := true;
          continue;
        }
        inHeaders := false;
        body := body + [line];
        continue;
      }
      if line != "" { body := body + [line]; }
    }
    assert StripAll(rawLines)[..|rawLines|] == StripAll(rawLines);
    var text64 := Join(body);
    if text64 == "" { return Err(NoBody); }
    r := Ok(Parsed(headers, text64));
  }

  lemma ScanNext(st: Scan, lines: seq<string>, i: nat)
    requires i < |lines|
    ensures ScanLines(st, lines[..i + 1]) == ScanLine(ScanLines(st, lines[..i]), lines[i])
  {
    assert lines[..i + 1][..i] == lines[..i];
  }

  lemma ScanNone(st: Scan, lines: seq<string>)
    ensures ScanLines(st, lines[..0]) == st
  {}

  lemma {:induction false} StripAllAt(lines: seq<string>)
    ensures forall i | 0 <= i < |lines| :: StripAll(lines)[i] == Strip(lines[i])
  {
    if lines != [] { StripAllAt(lines[1..]); }
  }

  // ---- any layout of a body is read back ----

  lemma {:induction false} ScanAppend(st: Scan, a: seq<string>, b: seq<string>)
    ensures ScanLines(st, a + b) == ScanLines(ScanLines(st, a), b)
  {
    hide ScanLine;
    if b == [] {
      assert a + b == a;
    } else {
      var n := |b| - 1;
      ScanAppend(st, a, b[..n]);
      assert (a + b)[..|a + b| - 1] == a + b[..n];
    }
  }

  ghost predicate Blank(lines: seq<string>) { forall i | 0 <= i < |lines| :: lines[i] == "" }

  ghost predicate AllHeaders(lines: seq<string>) { forall i | 0 <= i < |lines| :: HeaderLine(lines[i]) }

  /** Body lines with blank lines anywhere between them. */
  ghost predicate BodyLines(lines: seq<string>)
  {
    forall i | 0 <= i < |lines| :: lines[i] == "" || Base64Only(lines[i])
  }

  ghost function HeadersOf(h: Headers, lines: seq<string>): Headers
    requires AllHeaders(lines)
  {
    if lines == [] then h
    else
      var last := lines[|lines| - 1];
      assert HeaderLine(last);
      WithHeader(HeadersOf(h, lines[..|lines| - 1]), last)
  }

  lemma {:induction false} ScanBlank(lines: seq<string>)
    requires Blank(lines)
    ensures ScanLines(SCAN_START, lines) == SCAN_START
  {
    if lines != [] { ScanBlank(lines[..|lines| - 1]); }
  }

  lemma {:induction false} ScanHeaders(lines: seq<string>)
    requires AllHeaders(lines)
    ensures ScanLines(SCAN_START, lines) == Scan(HeadersOf(map[], lines), [], true, lines != [])
  {
    hide HeaderLine; hide WithHeader;
    if lines != [] {
      ScanHeaders(lines[..|lines| - 1]);
      HeaderFacts(lines[|lines| - 1]);
    }
  }

  lemma HeaderFacts(line: string)
    requires HeaderLine(line)
    ensures line != "" && ':' in line
  {}

  lemma NotHeader(line: string)
    requires Base64Only(line)
    ensures !HeaderLine(line) && line != ""
  {}

  lemma {:induction false} ScanBody(st: Scan, lines: seq<string>)
    requires BodyLines(lines) && st.body == []
    ensures var r := ScanLines(st, lines); r.headers == st.headers && Join(r.body) == Join(lines)
    ensures Join(lines) == "" ==> ScanLines(st, lines).body == []
  {
    hide HeaderLine; hide Base64Only; hide WithHeader;
    if lines != [] {
      var n := |lines| - 1;
      var line := lines[n];
      ScanBody(st, lines[..n]);
      var before := ScanLines(st, lines[..n]);
      JoinAppend(lines[..n], [line]);
      JoinAppend(before.body, [line]);
      assert lines == lines[..n] + [line];
      JoinOne(line);
      if line != "" { NotHeader(line); }
    }
  }

  lemma JoinOne(line: string)
    ensures Join([line]) == line
  {
    assert [line][1..] == [];
  }

  /** Leading blank lines, headers, and a body cut and spaced in any way: the parser reads the
      headers and the joined body. */
  lemma AnyLayoutIsRead(blank: seq<string>, headers: seq<string>, body: seq<string>)
    requires Blank(blank) && AllHeaders(headers) && BodyLines(body)
    ensures var st := ScanLines(SCAN_START, blank + headers + body);
      st.headers == HeadersOf(map[], headers) && Join(st.body) == Join(body)
  {
    ScanAppend(SCAN_START, blank + headers, body);
    ScanAppend(SCAN_START, blank, headers);
    ScanBlank(blank);
    ScanHeaders(headers);
    ScanBody(ScanLines(SCAN_START, headers), body);
  }
}
