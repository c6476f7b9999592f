/** Encrypting and decrypting pfSense configuration backups. The block cipher, the hashes and
    the character codec are parameters; everything around them is concrete. */
module Wrapper {
  import opened Basics
  import opened Base64
  import opened WrapperText
  import opened WrapperLayout

  datatype Suite = Suite(
    pbkdf2: (Bytes, Bytes, nat) -> Bytes,          // password, salt, iterations: 48 bytes
    md5: Bytes -> Bytes,
    cbcEncrypt: (Bytes, Bytes, Bytes) -> Bytes,    // key, iv, whole blocks
    cbcDecrypt: (Bytes, Bytes, Bytes) -> Bytes,
    utf8: string -> Bytes,
    decodeText: Bytes -> string)                   // errors="replace"

  const KEY_BYTES := 32
  const IV_BYTES := 16
  const SALT_BYTES := 8
  const ITERATIONS_CURRENT := 500_000
  const ITERATIONS_LEGACY := 10_000
  const SALTED: Bytes := [83, 97, 108, 116, 101, 100, 95, 95]

  predicate Ascii(s: string) { forall c | c in s :: c as int < 128 }

  function ByteOf(c: char): Byte { if c as int < 128 then c as int else 63 }

  function AsciiBytes(s: string): (r: Bytes)
    requires Ascii(s)
    ensures |r| == |s| && forall i | 0 <= i < |s| :: r[i] == s[i] as int
  {
    assert forall i | 0 <= i < |s| :: s[i] in s;
    seq<Byte>(|s|, i requires 0 <= i < |s| => ByteOf(s[i]))
  }

  /** What the primitives must satisfy. */
  ghost predicate Lawful(suite: Suite) {
    && (forall pw, salt, n :: |suite.pbkdf2(pw, salt, n)| == KEY_BYTES + IV_BYTES)
    && (forall m :: |suite.md5(m)| == 16)
    && (forall k, iv, p | |p| % BLOCK == 0 :: |suite.cbcEncrypt(k, iv, p)| == |p|)
    && (forall k, iv, p | |p| % BLOCK == 0 :: suite.cbcDecrypt(k, iv, suite.cbcEncrypt(k, iv, p)) == p)
    && (forall k, iv, c :: |suite.cbcDecrypt(k, iv, c)| <= |c|)
    && (forall s | Ascii(s) :: suite.decodeText(AsciiBytes(s)) == s)
    && (forall b :: |suite.decodeText(b)| <= |b|)
  }

  /** The laws are consistent: a suite that hides nothing satisfies them. */
  function TransparentSuite(): Suite {
    Suite((_, _, _) => Repeat(0, KEY_BYTES + IV_BYTES), _ => Repeat(0, 16), (_, _, p) => p, (_, _, c) => c, _ => [],
      (b: Bytes) => seq(|b|, i requires 0 <= i < |b| => b[i] as char))
  }

  lemma LawsAreConsistent()
    ensures Lawful(TransparentSuite())
  {}

  // ---- key derivation ----

  datatype Kdf = Pbkdf2Current | Pbkdf2Legacy | Md5

  /** Python slicing s[i:j]. */
  function Cut(s: Bytes, i: nat, j: nat): Bytes {
    var a := if i < |s| then i else |s|;
    var b := if j < |s| then j else |s|;
    if a <= b then s[a..b] else []
  }

  /** The three chained digests of OpenSSL's EVP_BytesToKey for 48 bytes. */
  function EvpDigest(suite: Suite, pw: Bytes, salt: Bytes, i: nat): Bytes {
    if i == 0 then suite.md5(pw + salt) else suite.md5(EvpDigest(suite, pw, salt, i - 1) + pw + salt)
  }

  function EvpKey(suite: Suite, pw: Bytes, salt: Bytes): (Bytes, Bytes) {
    (EvpDigest(suite, pw, salt, 0) + EvpDigest(suite, pw, salt, 1), EvpDigest(suite, pw, salt, 2))
  }

  /** `_derive_evp_bytestokey_md5` with its accumulating loop. */
  method DeriveEvp(suite: Suite, pw: Bytes, salt: Bytes) returns (key: Bytes, iv: Bytes)
    requires Lawful(suite)
    ensures (key, iv) == EvpKey(suite, pw, salt) && |key| == KEY_BYTES && |iv| == IV_BYTES
  {
    var needed := KEY_BYTES + IV_BYTES;
    var derived: Bytes, last: Bytes := [], [];
    ghost var rounds := 0;
    ghost var d0, d1, d2 := EvpDigest(suite, pw, salt, 0), EvpDigest(suite, pw, salt, 1), EvpDigest(suite, pw, salt, 2);
    while |derived| < needed
      invariant rounds <= 3 && |derived| == 16 * rounds
      invariant rounds == 0 ==> last == [] && derived == []
      invariant rounds == 1 ==> last == d0 && derived == d0
      invariant rounds == 2 ==> last == d1 && derived == d0 + d1
      invariant rounds == 3 ==> last == d2 && derived == d0 + d1 + d2
      decreases needed - |derived|
    {
      if rounds == 0 { assert [] + pw + salt == pw + salt; }
      last := suite.md5(last + pw + salt);
      derived := derived + last;
      rounds := rounds + 1;
    }
    assert rounds == 3 && |d0| == |d1| == |d2| == 16;
    assert derived[..KEY_BYTES] == d0 + d1 && derived[KEY_BYTES..needed] == d2;
    key, iv := derived[..KEY_BYTES], derived[KEY_BYTES..needed];
  }

  function Derive(suite: Suite, kdf: Kdf, pw: Bytes, salt: Bytes): (Bytes, Bytes) {
    match kdf
    case Md5 => EvpKey(suite, pw, salt)
    case _ =>
      var out := suite.pbkdf2(pw, salt, if kdf == Pbkdf2Current then ITERATIONS_CURRENT else ITERATIONS_LEGACY);
      (Cut(out, 0, KEY_BYTES), Cut(out, KEY_BYTES, KEY_BYTES + IV_BYTES))
  }

  function KdfOrder(headers: Headers): (order: seq<Kdf>)
    ensures multiset(order) == multiset{Pbkdf2Current, Pbkdf2Legacy, Md5}
  {
    if "hash" in headers && Find(Lower(headers["hash"]), "md5").Some? then [Md5, Pbkdf2Current, Pbkdf2Legacy]
    else [Pbkdf2Current, Pbkdf2Legacy, Md5]
  }

  // ---- plausible plaintext ----

  predicate ByteSpace(b: Byte) { 9 <= b <= 13 || b == 32 }

  function LStrip(x: Bytes): Bytes { if x != [] && ByteSpace(x[0]) then LStrip(x[1..]) else x }

  function BeginBytes(): Bytes { BeginAscii(); AsciiBytes(BEGIN) }

  predicate LooksLikeXml(x: Bytes) {
    var head := LStrip(Cut(x, 0, 256));
    [60, 63, 120, 109, 108] <= head || [60, 112, 102, 115, 101, 110, 115, 101] <= head
  }

  predicate LooksEncrypted(x: Bytes) {
    var head, mark := Cut(x, 0, 4096), BeginBytes();
    exists i | 0 <= i <= |head| :: BytesAt(head, mark, i)
  }

  predicate BytesAt(x: Bytes, mark: Bytes, i: nat) { i + |mark| <= |x| && x[i..i + |mark|] == mark }

  predicate Plausible(x: Bytes) { LooksLikeXml(x) || LooksEncrypted(x) }

  // ---- decrypt ----

  function SplitSalted(raw: Bytes): Result<(Bytes, Bytes), WrapperError> {
    if |raw| < |SALTED| + SALT_BYTES + 16 then Err(TooShort)
    else if !(SALTED <= raw) then Err(NoSaltPrefix)
    else if |raw[|SALTED| + SALT_BYTES..]| % BLOCK != 0 then Err(BadLength)
    else Ok((raw[|SALTED|..|SALTED| + SALT_BYTES], raw[|SALTED| + SALT_BYTES..]))
  }

  /** One KDF: decrypt, unpad, and accept only plausible output. */
  function Opens(suite: Suite, kdf: Kdf, pw: Bytes, salt: Bytes, ct: Bytes): (r: Option<Bytes>)
    ensures r.Some? ==> Plausible(r.value)
  {
    var (key, iv) := Derive(suite, kdf, pw, salt);
    match Unpad(suite.cbcDecrypt(key, iv, ct))
    case Some(x) => if Plausible(x) then Some(x) else None
    case None => None
  }

  function FirstOpen(suite: Suite, order: seq<Kdf>, pw: Bytes, salt: Bytes, ct: Bytes): (r: Option<Bytes>)
    ensures r.Some? ==> Plausible(r.value)
  {
    if order == [] then None
    else
      match Opens(suite, order[0], pw, salt, ct)
      case Some(x) => Some(x)
      case None => FirstOpen(suite, order[1..], pw, salt, ct)
  }

  function DecryptParsed(suite: Suite, p: Parsed, password: string): Result<Bytes, WrapperError> {
    match Decode(p.body)
    case None => Err(BadBase64)
    case Some(raw) =>
      match SplitSalted(raw)
      case Err(e) => Err(e)
      case Ok((salt, ct)) =>
        match FirstOpen(suite, KdfOrder(p.headers), suite.utf8(password), salt, ct)
        case Some(x) => Ok(x)
        case None => Err(DecryptFailed)
  }

  function Decrypt(suite: Suite, blob: Bytes, password: string): Result<Bytes, WrapperError> {
    match ParseText(suite.decodeText(blob))
    case Err(e) => Err(e)
    case Ok(p) => DecryptParsed(suite, p, password)
  }

  /** `decrypt_pfsense_backup` with its loop over the key derivations. */
  method DecryptBackup(suite: Suite, blob: Bytes, password: string) returns (r: Result<Bytes, WrapperError>)
    ensures r == Decrypt(suite, blob, password)
    ensures r.Ok? ==> Plausible(r.value)
  {
    hide Plausible; hide SplitSalted; hide KdfOrder; hide Opens; hide Decode;
    var parsed := ParseWrapper(suite.decodeText(blob));
    if parsed.Err? { return Err(parsed.error); }
    var raw := Decode(parsed.value.body);
    if raw.None? { return Err(BadBase64); }
    var split := SplitSalted(raw.value);
    if split.Err? { return Err(split.error); }
    var (salt, ct) := split.value;
    var pw, order := suite.utf8(password), KdfOrder(parsed.value.headers);
    assert order[0..] == order;
    for i := 0 to |order|
      invariant FirstOpen(suite, order, pw, salt, ct) == FirstOpen(suite, order[i..], pw, salt, ct)
    {
      var plain := Opens(suite, order[i], pw, salt, ct);
      if plain.Some? { return Ok(plain.value); }
      assert order[i..][1..] == order[i + 1..];
    }
    r := Err(DecryptFailed);
  }

  // ---- encrypt ----

  function Sealed(suite: Suite, x: Bytes, password: string, salt: Bytes): Bytes {
    var (key, iv) := Derive(suite, Pbkdf2Current, suite.utf8(password), salt);
    SALTED + salt + suite.cbcEncrypt(key, iv, Pad(x))
  }

  /** `encrypt_pfsense_backup`, with the random salt as an argument. */
  function Encrypt(suite: Suite, x: Bytes, password: string, salt: Bytes): Bytes {
    var raw := Sealed(suite, x, password, salt);
    WrappedAscii(raw);
    AsciiBytes(Wrapped(Encode(raw)))
  }

  lemma WrappedAscii(raw: Bytes)
    ensures Ascii(Wrapped(Encode(raw)))
  {
    hide Encode; hide Chunks; hide JoinLines;
    var b64 := Encode(raw);
    EncodeChars(raw);
    ChunksJoin(b64);
    PrintedChars(Chunks(b64));
    var lines := JoinLines(Chunks(b64));
    BeginAscii();
    EndAscii();
    assert Ascii(lines) && Ascii("\n");
    hide Ascii;
    AsciiAppend(BEGIN, "\n");
    AsciiAppend(BEGIN + "\n", lines);
    AsciiAppend(BEGIN + "\n" + lines, "\n");
    AsciiAppend(BEGIN + "\n" + lines + "\n", END);
    AsciiAppend(BEGIN + "\n" + lines + "\n" + END, "\n");
  }

  lemma BeginAscii()
    ensures Ascii(BEGIN)
  {}

  lemma EndAscii()
    ensures Ascii(END)
  {}

  lemma AsciiAppend(a: string, b: string)
    requires Ascii(a) && Ascii(b)
    ensures Ascii(a + b)
  {}

  /** The canonical layout is read back. */
  lemma WrappedIsRead(body: string)
    requires |body| >= 4 && forall c | c in body :: Body64(c)
    ensures ParseText(Wrapped(body)) == Ok(Parsed(map[], body))
  {
    hide Chunks; hide JoinLines; hide ParseText; hide PrintAll; hide Join; hide Base64Only; hide AsLines; hide Texts;
    hide Layout;
    var parts := Chunks(body);
    ChunksJoin(body);
    PrintedChunks(parts);
    PrintedChars(parts);
    var first, lines := [BodyLine("")], AsLines(parts);
    var inner := "\n" + JoinLines(parts) + "\n";
    assert PrintAll(first + [] + lines) == inner by { PrintFirst(lines); }
    CanonicalLayout(parts);
    assert Texts(lines) == parts by { TextsOfLines(parts); }
    CanonicalFrame(inner, JoinLines(parts));
    assert Wrapped(body) == BEGIN + inner + END + "\n";
    NoBom(inner);
    WrapperIsRead(Wrapped(body), "", first, [], lines, "\n");
    assert Content([], lines) == Parsed(map[], body) by { NoHeaders(lines); }
  }

  lemma PrintFirst(lines: seq<Line>)
    ensures PrintAll([BodyLine("")] + [] + lines) == "\n" + PrintAll(lines)
  {
    assert ([BodyLine("")] + [] + lines)[1..] == lines;
  }

  lemma TextsOfLines(parts: seq<string>)
    ensures Texts(AsLines(parts)) == parts
  {}

  lemma NoHeaders(lines: seq<Line>)
    ensures Content([], lines) == Parsed(map[], Join(Texts(lines)))
  {}

  lemma CanonicalLayout(parts: seq<string>)
    requires (forall i | 0 <= i < |parts| :: Base64Only(parts[i])) && Join(parts) != ""
    ensures Layout([BodyLine("")], [], AsLines(parts))
  {
    hide Join; hide Texts; hide AsLines; hide Base64Only;
    TextsOfLines(parts);
    CanonicalPrintable(parts);
    assert Texts([BodyLine("")]) == [""] by { OneText(""); }
    assert Texts([]) == [] by { NoTexts(); }
  }

  lemma OneText(t: string)
    ensures Texts([BodyLine(t)]) == [t]
  {}

  lemma NoTexts()
    ensures Texts([]) == []
  {}

  lemma CanonicalPrintable(parts: seq<string>)
    requires forall i | 0 <= i < |parts| :: Base64Only(parts[i])
    ensures AllPrintable([BodyLine("")] + [] + AsLines(parts))
  {
    hide Base64Only; hide Trim; hide Spaces;
    var lines := AsLines(parts);
    Blanks();
    forall i | 0 <= i < |parts| ensures Printable(lines[i]) { Body64Trim(parts[i]); }
  }

  lemma Blanks()
    ensures Spaces("") && Trim("")
  {}

  lemma CanonicalFrame(inner: string, lines: string)
    requires inner == "\n" + lines + "\n" && (forall c | c in lines :: Body64(c) || c == '\n') && |lines| >= 2
    ensures Framed(BEGIN + inner + END + "\n", "", inner, "\n")
  {
    hide OccursAt;
    var t := BEGIN + inner + END + "\n";
    assert t == "" + BEGIN + inner + END + "\n";
    assert forall c | c in inner :: c in lines || c == '\n';
    forall i: nat | i < |BEGIN| + |inner| ensures !OccursAt(t, END, i) { NoEarlyEnd(inner, i); }
  }

  lemma NoBom(inner: string)
    ensures DropBom(BEGIN + inner + END + "\n") == BEGIN + inner + END + "\n"
  {
    assert (BEGIN + inner + END + "\n")[0] == '-';
  }

  lemma SealedSplits(suite: Suite, x: Bytes, password: string, salt: Bytes)
    requires Lawful(suite) && |salt| == SALT_BYTES
    ensures var (key, iv) := Derive(suite, Pbkdf2Current, suite.utf8(password), salt);
      SplitSalted(Sealed(suite, x, password, salt)) == Ok((salt, suite.cbcEncrypt(key, iv, Pad(x))))
  {
    hide Derive;
    var (key, iv) := Derive(suite, Pbkdf2Current, suite.utf8(password), salt);
    var ct := suite.cbcEncrypt(key, iv, Pad(x));
    var raw := SALTED + salt + ct;
    assert |ct| == |Pad(x)| >= 16;
    assert raw[..|SALTED|] == SALTED && raw[|SALTED|..|SALTED| + SALT_BYTES] == salt;
    assert raw[|SALTED| + SALT_BYTES..] == ct;
  }

  lemma CurrentKdfOpens(suite: Suite, x: Bytes, pw: Bytes, salt: Bytes)
    requires Lawful(suite)
    ensures var (key, iv) := Derive(suite, Pbkdf2Current, pw, salt);
      Opens(suite, Pbkdf2Current, pw, salt, suite.cbcEncrypt(key, iv, Pad(x))) == if Plausible(x) then Some(x) else None
  {
    hide Derive; hide Plausible; hide Unpad; hide Pad;
    var (key, iv) := Derive(suite, Pbkdf2Current, pw, salt);
    UnpadPad(x);
    assert suite.cbcDecrypt(key, iv, suite.cbcEncrypt(key, iv, Pad(x))) == Pad(x);
  }

  /** Decrypting what was encrypted gives the plaintext back exactly when it is plausible:
      XML at the head, or another wrapped blob. */
  lemma DecryptEncrypt(suite: Suite, x: Bytes, password: string, salt: Bytes)
    requires Lawful(suite) && |salt| == SALT_BYTES
    ensures Decrypt(suite, Encrypt(suite, x, password, salt), password) == Ok(x) <==> Plausible(x)
  {
    hide Derive; hide Plausible; hide Decode; hide Encode; hide SplitSalted; hide ParseText; hide Wrapped; hide Opens;
    hide Sealed; hide Lawful;
    var raw := Sealed(suite, x, password, salt);
    TextOfEncrypt(suite, x, password, salt);
    EncodeChars(raw);
    SealedSplits(suite, x, password, salt);
    assert raw != [] by { SealedNotEmpty(suite, x, password, salt); }
    WrappedIsRead(Encode(raw));
    DecodeEncode(raw);
    CurrentKdfOpens(suite, x, suite.utf8(password), salt);
  }

  lemma SealedNotEmpty(suite: Suite, x: Bytes, password: string, salt: Bytes)
    ensures Sealed(suite, x, password, salt) != []
  {}

  lemma TextOfEncrypt(suite: Suite, x: Bytes, password: string, salt: Bytes)
    requires Lawful(suite)
    ensures suite.decodeText(Encrypt(suite, x, password, salt)) == Wrapped(Encode(Sealed(suite, x, password, salt)))
  {
    hide Sealed; hide Wrapped; hide Encode;
    WrappedAscii(Sealed(suite, x, password, salt));
  }

  /** An encrypted blob is itself plausible, so layers can be nested and peeled one by one. */
  lemma EncryptedIsPlausible(suite: Suite, x: Bytes, password: string, salt: Bytes)
    ensures LooksEncrypted(Encrypt(suite, x, password, salt)) && Plausible(Encrypt(suite, x, password, salt))
  {
    hide Sealed; hide Encode; hide Chunks; hide JoinLines; hide LooksLikeXml;
    var raw := Sealed(suite, x, password, salt);
    WrappedAscii(raw);
    var text := Wrapped(Encode(raw));
    var blob := AsciiBytes(text);
    assert text[..|BEGIN|] == BEGIN;
    var head, mark := Cut(blob, 0, 4096), BeginBytes();
    assert |mark| == |BEGIN| <= |head|;
    forall i | 0 <= i < |mark| ensures head[i] == mark[i] { assert text[i] == text[..|BEGIN|][i]; }
    assert BytesAt(head, mark, 0);
  }

  /** Two layers under two passwords come off in order. */
  lemma DoubleLayer(suite: Suite, x: Bytes, inner: string, outer: string, salt1: Bytes, salt2: Bytes)
    requires Lawful(suite) && |salt1| == SALT_BYTES && |salt2| == SALT_BYTES && Plausible(x)
    ensures var once := Encrypt(suite, x, inner, salt1);
      Decrypt(suite, Encrypt(suite, once, outer, salt2), outer) == Ok(once) && Decrypt(suite, once, inner) == Ok(x)
  {
    hide Decrypt; hide Encrypt; hide Plausible; hide Lawful;
    EncryptedIsPlausible(suite, x, inner, salt1);
    DecryptEncrypt(suite, Encrypt(suite, x, inner, salt1), outer, salt2);
    DecryptEncrypt(suite, x, inner, salt1);
  }
}
