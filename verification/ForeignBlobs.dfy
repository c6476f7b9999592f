/** What the wrapper opens and writes, in literal terms: blobs that other tools wrote. */
module ForeignBlobs {
  import opened Basics
  import opened Base64
  import opened WrapperText
  import opened WrapperLayout
  import opened Wrapper
  import opened WrapperFormat

  /** OpenSSL's enc format: "Salted__", eight bytes of salt, whole cipher blocks. */
  ghost predicate Enc(raw: Bytes, salt: Bytes, ct: Bytes) {
    |salt| == 8 && |ct| >= 16 && |ct| % 16 == 0 && raw == [83, 97, 108, 116, 101, 100, 95, 95] + salt + ct
  }

  /** The wrapped text holds these headers and, as base64, these bytes. */
  ghost predicate Holds(suite: Suite, blob: Bytes, headers: Headers, raw: Bytes) {
    ParseText(suite.decodeText(blob)) == Ok(Parsed(headers, Encode(raw)))
  }

  /** Under this key and vector the ciphertext is the padding of a plausible x. */
  ghost predicate OpensTo(suite: Suite, key: Bytes, iv: Bytes, ct: Bytes, x: Bytes) {
    Plausible(x) && suite.cbcDecrypt(key, iv, ct) == Pad(x)
  }

  ghost predicate Shut(suite: Suite, key: Bytes, iv: Bytes, ct: Bytes) {
    forall x :: !OpensTo(suite, key, iv, ct, x)
  }

  /** PBKDF2 with n iterations: 32 bytes of key, then 16 bytes of vector. */
  ghost predicate StretchOpens(suite: Suite, n: nat, pw: Bytes, salt: Bytes, ct: Bytes, x: Bytes)
    requires Lawful(suite)
  {
    var out := suite.pbkdf2(pw, salt, n);
    OpensTo(suite, out[..32], out[32..48], ct, x)
  }

  ghost predicate StretchShut(suite: Suite, n: nat, pw: Bytes, salt: Bytes, ct: Bytes)
    requires Lawful(suite)
  {
    var out := suite.pbkdf2(pw, salt, n);
    Shut(suite, out[..32], out[32..48], ct)
  }

  /** Two chained MD5 digests as key, the third as vector. */
  ghost predicate DigestOpens(suite: Suite, pw: Bytes, salt: Bytes, ct: Bytes, x: Bytes) {
    var d0 := suite.md5(pw + salt);
    var d1 := suite.md5(d0 + pw + salt);
    OpensTo(suite, d0 + d1, suite.md5(d1 + pw + salt), ct, x)
  }

  ghost predicate DigestShut(suite: Suite, pw: Bytes, salt: Bytes, ct: Bytes) {
    var d0 := suite.md5(pw + salt);
    var d1 := suite.md5(d0 + pw + salt);
    Shut(suite, d0 + d1, suite.md5(d1 + pw + salt), ct)
  }

  /** The Hash header names md5 in any case. */
  ghost predicate HintsMd5(headers: Headers) {
    "hash" in headers && exists i :: Md5At(headers["hash"], i)
  }

  ghost predicate Md5At(s: string, i: int) {
    0 <= i && i + 3 <= |s| && (s[i] == 'm' || s[i] == 'M') && (s[i + 1] == 'd' || s[i + 1] == 'D') && s[i + 2] == '5'
  }

  // ---- the pieces ----

  lemma HintMeans(headers: Headers)
    ensures KdfOrder(headers) ==
      if HintsMd5(headers) then [Md5, Pbkdf2Current, Pbkdf2Legacy] else [Pbkdf2Current, Pbkdf2Legacy, Md5]
  {
    if "hash" in headers {
      var s := headers["hash"];
      FindSound(Lower(s), "md5");
      forall i: nat ensures OccursAt(Lower(s), "md5", i) <==> Md5At(s, i) { LowerMd5(s, i); }
    }
  }

  lemma LowerMd5(s: string, i: nat)
    ensures OccursAt(Lower(s), "md5", i) <==> Md5At(s, i)
  {
    var t := Lower(s);
    if i + 3 <= |s| {
      var w := t[i..i + 3];
      assert w[0] == LowerChar(s[i]) && w[1] == LowerChar(s[i + 1]) && w[2] == LowerChar(s[i + 2]);
      assert w == "md5" <==> w[0] == 'm' && w[1] == 'd' && w[2] == '5';
    }
  }

  lemma EncSplits(raw: Bytes, salt: Bytes, ct: Bytes)
    requires Enc(raw, salt, ct)
    ensures SplitSalted(raw) == Ok((salt, ct))
  {
    assert raw[..8] == SALTED && raw[8..16] == salt && raw[16..] == ct;
  }

  /** Trying one key: the padding of a plausible text, or nothing. */
  lemma OpensMeans(suite: Suite, kdf: Kdf, pw: Bytes, salt: Bytes, ct: Bytes)
    ensures var (key, iv) := Derive(suite, kdf, pw, salt);
      && (forall x :: Opens(suite, kdf, pw, salt, ct) == Some(x) <==> OpensTo(suite, key, iv, ct, x))
      && (Opens(suite, kdf, pw, salt, ct) == None <==> Shut(suite, key, iv, ct))
  {
    hide Plausible; hide Derive; hide Pad; hide Unpad;
    var (key, iv) := Derive(suite, kdf, pw, salt);
    var y := suite.cbcDecrypt(key, iv, ct);
    if Unpad(y).Some? { PadUnpad(y); }
    forall x ensures Opens(suite, kdf, pw, salt, ct) == Some(x) <==> OpensTo(suite, key, iv, ct, x) { UnpadPad(x); }
    if Opens(suite, kdf, pw, salt, ct).Some? {
      assert OpensTo(suite, key, iv, ct, Opens(suite, kdf, pw, salt, ct).value);
    }
  }

  /** The three derivations, written out. */
  lemma DeriveMeans(suite: Suite, pw: Bytes, salt: Bytes)
    requires Lawful(suite)
    ensures var out := suite.pbkdf2(pw, salt, 500_000);
      Derive(suite, Pbkdf2Current, pw, salt) == (out[..32], out[32..48])
    ensures var out := suite.pbkdf2(pw, salt, 10_000);
      Derive(suite, Pbkdf2Legacy, pw, salt) == (out[..32], out[32..48])
    ensures var d0 := suite.md5(pw + salt); var d1 := suite.md5(d0 + pw + salt);
      Derive(suite, Md5, pw, salt) == (d0 + d1, suite.md5(d1 + pw + salt))
  {
    hide Lawful;
    assert |suite.pbkdf2(pw, salt, 500_000)| == |suite.pbkdf2(pw, salt, 10_000)| == 48 by { Lengths(suite, pw, salt); }
    assert EvpDigest(suite, pw, salt, 1) == suite.md5(suite.md5(pw + salt) + pw + salt);
  }

  lemma Lengths(suite: Suite, pw: Bytes, salt: Bytes)
    requires Lawful(suite)
    ensures |suite.pbkdf2(pw, salt, 500_000)| == |suite.pbkdf2(pw, salt, 10_000)| == 48
  {}

  lemma Tried(suite: Suite, pw: Bytes, salt: Bytes, ct: Bytes)
    requires Lawful(suite)
    ensures forall x :: Opens(suite, Pbkdf2Current, pw, salt, ct) == Some(x) <==>
      StretchOpens(suite, 500_000, pw, salt, ct, x)
    ensures forall x :: Opens(suite, Pbkdf2Legacy, pw, salt, ct) == Some(x) <==>
      StretchOpens(suite, 10_000, pw, salt, ct, x)
    ensures forall x :: Opens(suite, Md5, pw, salt, ct) == Some(x) <==> DigestOpens(suite, pw, salt, ct, x)
    ensures Opens(suite, Pbkdf2Current, pw, salt, ct) == None <==> StretchShut(suite, 500_000, pw, salt, ct)
    ensures Opens(suite, Pbkdf2Legacy, pw, salt, ct) == None <==> StretchShut(suite, 10_000, pw, salt, ct)
    ensures Opens(suite, Md5, pw, salt, ct) == None <==> DigestShut(suite, pw, salt, ct)
  {
    hide Opens; hide OpensTo; hide Shut; hide Derive;
    DeriveMeans(suite, pw, salt);
    OpensMeans(suite, Pbkdf2Current, pw, salt, ct);
    OpensMeans(suite, Pbkdf2Legacy, pw, salt, ct);
    OpensMeans(suite, Md5, pw, salt, ct);
  }

  lemma FirstOfThree(suite: Suite, a: Kdf, b: Kdf, c: Kdf, pw: Bytes, salt: Bytes, ct: Bytes)
    ensures FirstOpen(suite, [a, b, c], pw, salt, ct) ==
      if Opens(suite, a, pw, salt, ct).Some? then Opens(suite, a, pw, salt, ct)
      else if Opens(suite, b, pw, salt, ct).Some? then Opens(suite, b, pw, salt, ct)
      else Opens(suite, c, pw, salt, ct)
  {
    hide Opens; hide Plausible;
    assert [a, b, c][1..] == [b, c] && [b, c][1..] == [c] && [c][1..] == [];
    assert FirstOpen(suite, [c][1..], pw, salt, ct) == None;
    assert FirstOpen(suite, [c], pw, salt, ct) == Opens(suite, c, pw, salt, ct);
    assert FirstOpen(suite, [b, c], pw, salt, ct) ==
      if Opens(suite, b, pw, salt, ct).Some? then Opens(suite, b, pw, salt, ct) else Opens(suite, c, pw, salt, ct);
  }

  // ---- the laws ----

  /** Which blobs decrypt to x: the current derivation first, then the older one, then MD5; MD5
      first when the header hints at it. */
  lemma DecryptsToIff(suite: Suite, blob: Bytes, headers: Headers, raw: Bytes, salt: Bytes, ct: Bytes, password: string,
      x: Bytes)
    requires Lawful(suite) && Holds(suite, blob, headers, raw) && Enc(raw, salt, ct)
    ensures var pw := suite.utf8(password);
      Decrypt(suite, blob, password) == Ok(x) <==>
        if HintsMd5(headers) then
          || DigestOpens(suite, pw, salt, ct, x)
          || (DigestShut(suite, pw, salt, ct) && StretchOpens(suite, 500_000, pw, salt, ct, x))
          || (DigestShut(suite, pw, salt, ct) && StretchShut(suite, 500_000, pw, salt, ct)
              && StretchOpens(suite, 10_000, pw, salt, ct, x))
        else
          || StretchOpens(suite, 500_000, pw, salt, ct, x)
          || (StretchShut(suite, 500_000, pw, salt, ct) && StretchOpens(suite, 10_000, pw, salt, ct, x))
          || (StretchShut(suite, 500_000, pw, salt, ct) && StretchShut(suite, 10_000, pw, salt, ct)
              && DigestOpens(suite, pw, salt, ct, x))
  {
    hide Opens; hide StretchOpens; hide StretchShut; hide DigestOpens; hide DigestShut; hide HintsMd5; hide KdfOrder;
    hide Encode; hide Decode; hide SplitSalted; hide ParseText; hide Plausible; hide FirstOpen; hide Lawful; hide Enc;
    var pw := suite.utf8(password);
    DecodeEncode(raw);
    EncSplits(raw, salt, ct);
    HintMeans(headers);
    Tried(suite, pw, salt, ct);
    FirstOfThree(suite, Pbkdf2Current, Pbkdf2Legacy, Md5, pw, salt, ct);
    FirstOfThree(suite, Md5, Pbkdf2Current, Pbkdf2Legacy, pw, salt, ct);
  }

  /** What openssl enc writes under a key and a vector. */
  ghost predicate EncryptedUnder(suite: Suite, key: Bytes, iv: Bytes, salt: Bytes, x: Bytes, raw: Bytes) {
    raw == [83, 97, 108, 116, 101, 100, 95, 95] + salt + suite.cbcEncrypt(key, iv, Pad(x))
  }

  lemma CipherOpens(suite: Suite, key: Bytes, iv: Bytes, salt: Bytes, x: Bytes, raw: Bytes)
    requires Lawful(suite) && |salt| == 8 && Plausible(x) && EncryptedUnder(suite, key, iv, salt, x, raw)
    ensures Enc(raw, salt, suite.cbcEncrypt(key, iv, Pad(x)))
    ensures OpensTo(suite, key, iv, suite.cbcEncrypt(key, iv, Pad(x)), x)
  {
    hide Plausible; hide Pad;
    PadMeans(x, Pad(x));
  }

  /** A blob written by pfSense 2.7.1 or later opens. */
  lemma CurrentBlobOpens(suite: Suite, blob: Bytes, headers: Headers, raw: Bytes, salt: Bytes, password: string,
      x: Bytes)
    requires Lawful(suite) && |salt| == 8 && Plausible(x) && Holds(suite, blob, headers, raw) && !HintsMd5(headers)
    requires var out := suite.pbkdf2(suite.utf8(password), salt, 500_000);
      EncryptedUnder(suite, out[..32], out[32..48], salt, x, raw)
    ensures Decrypt(suite, blob, password) == Ok(x)
  {
    hide Plausible; hide Pad; hide Holds; hide Decrypt; hide HintsMd5; hide Lawful; hide OpensTo; hide Enc;
    Lengths(suite, suite.utf8(password), salt);
    var out := suite.pbkdf2(suite.utf8(password), salt, 500_000);
    CipherOpens(suite, out[..32], out[32..48], salt, x, raw);
    DecryptsToIff(suite, blob, headers, raw, salt, suite.cbcEncrypt(out[..32], out[32..48], Pad(x)), password, x);
  }

  /** One written by pfSense 2.7.0 opens, unless the current derivation opens it to something else. */
  lemma EarlierBlobOpens(suite: Suite, blob: Bytes, headers: Headers, raw: Bytes, salt: Bytes, password: string,
      x: Bytes)
    requires Lawful(suite) && |salt| == 8 && Plausible(x) && Holds(suite, blob, headers, raw) && !HintsMd5(headers)
    requires var out := suite.pbkdf2(suite.utf8(password), salt, 10_000);
      && EncryptedUnder(suite, out[..32], out[32..48], salt, x, raw)
      && StretchShut(suite, 500_000, suite.utf8(password), salt, suite.cbcEncrypt(out[..32], out[32..48], Pad(x)))
    ensures Decrypt(suite, blob, password) == Ok(x)
  {
    hide Plausible; hide Pad; hide Holds; hide Decrypt; hide HintsMd5; hide Lawful; hide OpensTo; hide Enc;
    Lengths(suite, suite.utf8(password), salt);
    var out := suite.pbkdf2(suite.utf8(password), salt, 10_000);
    CipherOpens(suite, out[..32], out[32..48], salt, x, raw);
    DecryptsToIff(suite, blob, headers, raw, salt, suite.cbcEncrypt(out[..32], out[32..48], Pad(x)), password, x);
  }

  /** One written by pfSense 2.6 or earlier opens: at once when its header says md5, and otherwise
      when neither of the newer derivations opens it. */
  lemma DigestBlobOpens(suite: Suite, blob: Bytes, headers: Headers, raw: Bytes, salt: Bytes, password: string,
      x: Bytes)
    requires Lawful(suite) && |salt| == 8 && Plausible(x) && Holds(suite, blob, headers, raw)
    requires var pw := suite.utf8(password);
      var d0 := suite.md5(pw + salt);
      var d1 := suite.md5(d0 + pw + salt);
      var d2 := suite.md5(d1 + pw + salt);
      var ct := suite.cbcEncrypt(d0 + d1, d2, Pad(x));
      && EncryptedUnder(suite, d0 + d1, d2, salt, x, raw)
      && (HintsMd5(headers) || (StretchShut(suite, 500_000, pw, salt, ct) && StretchShut(suite, 10_000, pw, salt, ct)))
    ensures Decrypt(suite, blob, password) == Ok(x)
  {
    hide Plausible; hide Pad; hide Holds; hide Decrypt; hide HintsMd5; hide Lawful; hide OpensTo; hide Enc;
    hide StretchShut; hide StretchOpens; hide DigestShut;
    var pw := suite.utf8(password);
    var d0 := suite.md5(pw + salt);
    var d1 := suite.md5(d0 + pw + salt);
    var d2 := suite.md5(d1 + pw + salt);
    CipherOpens(suite, d0 + d1, d2, salt, x, raw);
    DecryptsToIff(suite, blob, headers, raw, salt, suite.cbcEncrypt(d0 + d1, d2, Pad(x)), password, x);
  }

  /** Encryption writes the form of pfSense 2.7.1, in lines of 64 columns between the markers. */
  lemma EncryptMeans(suite: Suite, x: Bytes, password: string, salt: Bytes)
    requires Lawful(suite)
    ensures var out := suite.pbkdf2(suite.utf8(password), salt, 500_000);
      exists raw, lines ::
        && EncryptedUnder(suite, out[..32], out[32..48], salt, x, raw) && Columns64(Encode(raw), lines)
        && var text := "---- BEGIN config.xml ----" + "\n" + lines + "\n" + "---- END config.xml ----" + "\n";
           |Encrypt(suite, x, password, salt)| == |text| && TextAt(Encrypt(suite, x, password, salt), 0, text)
  {
    hide Pad; hide Wrapped; hide Encode; hide Columns64; hide Lawful; hide Derive;
    DeriveMeans(suite, suite.utf8(password), salt);
    Lengths(suite, suite.utf8(password), salt);
    var raw := Sealed(suite, x, password, salt);
    WrappedMeans(Encode(raw));
    WrappedAscii(raw);
  }

  // ---- what is refused, and how ----

  /** What is wrong with a body: no strict base64, fewer than 32 bytes, another prefix, a part of a
      block; or no derivation opens it. */
  lemma BodyErrors(suite: Suite, blob: Bytes, p: Parsed, password: string)
    requires Lawful(suite) && ParseText(suite.decodeText(blob)) == Ok(p)
    ensures Decrypt(suite, blob, password) == Err(BadBase64) <==> !Strict64(p.body)
    ensures Decode(p.body).Some? ==>
      var raw := Decode(p.body).value;
      && (Decrypt(suite, blob, password) == Err(TooShort) <==> |raw| < 32)
      && (Decrypt(suite, blob, password) == Err(NoSaltPrefix) <==> |raw| >= 32 && !TextAt(raw, 0, "Salted__"))
      && (Decrypt(suite, blob, password) == Err(BadLength) <==>
            |raw| >= 32 && TextAt(raw, 0, "Salted__") && |raw| % 16 != 0)
      && (Decrypt(suite, blob, password) == Err(DecryptFailed) <==>
            && |raw| >= 32 && TextAt(raw, 0, "Salted__") && |raw| % 16 == 0
            && DigestShut(suite, suite.utf8(password), raw[8..16], raw[16..])
            && StretchShut(suite, 500_000, suite.utf8(password), raw[8..16], raw[16..])
            && StretchShut(suite, 10_000, suite.utf8(password), raw[8..16], raw[16..]))
  {
    hide Opens; hide StretchShut; hide DigestShut; hide KdfOrder; hide Decode; hide SplitSalted; hide ParseText;
    hide FirstOpen; hide Lawful; hide Strict64; hide TextAt; hide Plausible;
    DecodesIff(p.body);
    if Decode(p.body).Some? {
      var raw := Decode(p.body).value;
      SplitMeans(raw);
      if |raw| >= 32 && TextAt(raw, 0, "Salted__") && |raw| % 16 == 0 {
        NoneOpens(suite, p.headers, suite.utf8(password), raw[8..16], raw[16..]);
      }
    }
  }

  lemma SplitMeans(raw: Bytes)
    ensures SplitSalted(raw) ==
      if |raw| < 32 then Err(TooShort)
      else if !TextAt(raw, 0, "Salted__") then Err(NoSaltPrefix)
      else if |raw| % 16 != 0 then Err(BadLength)
      else Ok((raw[8..16], raw[16..]))
  {
    if |raw| >= 32 {
      TextPrefix(raw, 0, SALTED, "Salted__");
      assert raw[0..] == raw;
    }
  }

  lemma NoneOpens(suite: Suite, headers: Headers, pw: Bytes, salt: Bytes, ct: Bytes)
    requires Lawful(suite)
    ensures FirstOpen(suite, KdfOrder(headers), pw, salt, ct) == None <==>
      && DigestShut(suite, pw, salt, ct)
      && StretchShut(suite, 500_000, pw, salt, ct) && StretchShut(suite, 10_000, pw, salt, ct)
  {
    hide Opens; hide StretchShut; hide StretchOpens; hide DigestShut; hide DigestOpens; hide HintsMd5; hide KdfOrder;
    hide FirstOpen; hide Lawful; hide Plausible;
    HintMeans(headers);
    Tried(suite, pw, salt, ct);
    FirstOfThree(suite, Pbkdf2Current, Pbkdf2Legacy, Md5, pw, salt, ct);
    FirstOfThree(suite, Md5, Pbkdf2Current, Pbkdf2Legacy, pw, salt, ct);
  }

  /** The markers are missing when one of them is, or when END comes first. */
  lemma MarkerErrors(text: string)
    ensures ParseText(text) == Err(MissingMarkers) <==>
      !exists b: nat, e: nat :: FirstAt(DropBom(text), "---- BEGIN config.xml ----", b)
                                && FirstAt(DropBom(text), "---- END config.xml ----", e) && b <= e
    ensures ParseText(text).Err? ==> ParseText(text).error in {MissingMarkers, NoBody}
  {
    hide FirstAt; hide Find; hide DropBom; hide ParseInner;
    var t := DropBom(text);
    FindIs(t, BEGIN);
    FindIs(t, END);
    InnerErrors(text);
    if Inner(t).Ok? {
      assert FirstAt(t, BEGIN, Find(t, BEGIN).value) && FirstAt(t, END, Find(t, END).value);
    }
  }

  lemma InnerErrors(text: string)
    ensures ParseText(text) == Err(MissingMarkers) <==> Inner(DropBom(text)).Err?
    ensures Inner(DropBom(text)).Err? ==> Inner(DropBom(text)) == Err(MissingMarkers)
    ensures ParseText(text).Err? ==> ParseText(text).error in {MissingMarkers, NoBody}
  {
    hide Find; hide DropBom; hide ScanLines; hide StripAll; hide SplitLines; hide Join;
  }

  ghost predicate FirstAt(t: string, mark: string, n: nat) {
    OccursAt(t, mark, n) && forall i: nat | i < n :: !OccursAt(t, mark, i)
  }

  lemma FindIs(t: string, mark: string)
    ensures forall n: nat :: Find(t, mark) == Some(n) <==> FirstAt(t, mark, n)
  {
    hide OccursAt;
    FindSound(t, mark);
    forall n: nat ensures Find(t, mark) == Some(n) <==> FirstAt(t, mark, n) {
      if FirstAt(t, mark, n) { FindFirst(t, mark, n); }
    }
  }
}
