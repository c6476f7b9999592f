/** Decrypting always shrinks: framing, base64, padding and markers only ever take away. */
module WrapperSize {
  import opened Basics
  import opened Base64
  import opened WrapperText
  import opened Wrapper

  function Size(parts: seq<string>): nat {
    if parts == [] then 0 else |parts[0]| + Size(parts[1..])
  }

  lemma {:induction false} JoinSize(parts: seq<string>)
    ensures |Join(parts)| == Size(parts)
  {
    if parts != [] { JoinSize(parts[1..]); }
  }

  lemma {:induction false} SizeAppend(a: seq<string>, b: seq<string>)
    ensures Size(a + b) == Size(a) + Size(b)
  {
    if a == [] {
      assert a + b == b;
    } else {
      SizeAppend(a[1..], b);
      assert (a + b)[1..] == a[1..] + b;
    }
  }

  lemma {:induction false} SplitSize(s: string)
    ensures Size(SplitLines(s)) <= |s|
    decreases |s|
  {
    if s != [] {
      var n := BreakIndex(s);
      if n < |s| {
        var rest := s[n + BreakLength(s[n..])..];
        SplitSize(rest);
        assert ([s[..n]] + SplitLines(rest))[1..] == SplitLines(rest);
      } else {
        assert [s][1..] == [];
      }
    }
  }

  lemma {:induction false} StripSize(lines: seq<string>)
    ensures Size(StripAll(lines)) <= Size(lines)
  {
    hide Strip;
    if lines != [] {
      StripSize(lines[1..]);
      assert |Strip(lines[0])| <= |lines[0]| by { StripShrinks(lines[0]); }
      assert StripAll(lines)[1..] == StripAll(lines[1..]);
    }
  }

  lemma StripShrinks(s: string)
    ensures |Strip(s)| <= |s|
  {}

  lemma {:induction false} ScanSize(lines: seq<string>)
    ensures Size(ScanLines(SCAN_START, lines).body) <= Size(lines)
  {
    hide HeaderLine; hide WithHeader;
    if lines != [] {
      var n := |lines| - 1;
      ScanSize(lines[..n]);
      assert lines == lines[..n] + [lines[n]];
      SizeAppend(lines[..n], [lines[n]]);
      SizeAppend(ScanLines(SCAN_START, lines[..n]).body, [lines[n]]);
      assert Size([lines[n]]) == |lines[n]| by { assert [lines[n]][1..] == []; }
    }
  }

  lemma {:induction false} DecodeSize(s: string)
    requires Decode(s).Some?
    ensures |Decode(s).value| <= |s|
    decreases |s|
  {
    if s != [] { DecodeSize(s[4..]); }
  }

  lemma {:induction false} DropBomSize(s: string)
    ensures |DropBom(s)| <= |s|
  {
    if s != [] && s[0] == BOM { DropBomSize(s[1..]); }
  }

  lemma ParsedSize(text: string)
    requires ParseText(text).Ok?
    ensures |ParseText(text).value.body| <= |text|
  {
    hide Find; hide SplitLines; hide StripAll; hide ScanLines; hide Join; hide DropBom;
    var t := DropBom(text);
    DropBomSize(text);
    var inner := Inner(t).value;
    assert |inner| <= |t|;
    var lines := SplitLines(inner);
    SplitSize(inner);
    StripSize(lines);
    ScanSize(StripAll(lines));
    JoinSize(ScanLines(SCAN_START, StripAll(lines)).body);
  }

  lemma {:induction false} OpenSize(suite: Suite, order: seq<Kdf>, pw: Bytes, salt: Bytes, ct: Bytes)
    requires Lawful(suite) && FirstOpen(suite, order, pw, salt, ct).Some?
    ensures |FirstOpen(suite, order, pw, salt, ct).value| <= |ct|
  {
    hide Derive; hide Plausible;
    var (key, iv) := Derive(suite, order[0], pw, salt);
    assert |suite.cbcDecrypt(key, iv, ct)| <= |ct|;
    if Opens(suite, order[0], pw, salt, ct).None? { OpenSize(suite, order[1..], pw, salt, ct); }
  }

  /** A decrypted backup is shorter than the blob it came from. */
  lemma DecryptShrinks(suite: Suite, blob: Bytes, password: string)
    requires Lawful(suite) && Decrypt(suite, blob, password).Ok?
    ensures |Decrypt(suite, blob, password).value| < |blob|
  {
    hide ParseText; hide Decode; hide FirstOpen; hide KdfOrder;
    var text := suite.decodeText(blob);
    var p := ParseText(text).value;
    ParsedSize(text);
    DecodeSize(p.body);
    var raw := Decode(p.body).value;
    var (salt, ct) := SplitSalted(raw).value;
    assert |ct| < |raw|;
    OpenSize(suite, KdfOrder(p.headers), suite.utf8(password), salt, ct);
  }
}
