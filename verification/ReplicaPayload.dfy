/** The off-site object of a backup: its layers, its key, and the way back. */
module ReplicaPayload {
  import opened Basics
  import opened Base64
  import opened Wrapper
  import opened WrapperSize

  datatype Zip = Zip(compress: Bytes -> Bytes, decompress: Bytes -> Option<Bytes>)

  ghost predicate Inverse(zip: Zip) { forall x :: zip.decompress(zip.compress(x)) == Some(x) }

  /** An empty password is not set. */
  datatype Settings = Settings(basePath: string, encryptPlaintext: bool, doubleEncrypt: bool, password: string)

  datatype ReplicaError = NoPassword | BadGzip | BadBlob

  const PLAIN := ".xml"
  const ONE := ".xml.enc"
  const TWO := ".2x.xml.enc"

  /** What a local file contains, decompressed. */
  function Content(zip: Zip, raw: Bytes, compressed: bool): Option<Bytes> {
    if compressed then zip.decompress(raw) else Some(raw)
  }

  /** Whether the upload adds a layer under the replication password. */
  predicate Layered(encrypted: bool, cfg: Settings) {
    if encrypted then cfg.doubleEncrypt else cfg.encryptPlaintext
  }

  /** `prepare_payload`; salt is the one the wrapper draws. */
  function Prepare(suite: Suite, zip: Zip, raw: Bytes, encrypted: bool, compressed: bool, cfg: Settings, salt: Bytes)
    : Result<(Bytes, string), ReplicaError>
  {
    match Content(zip, raw, compressed)
    case None => Err(BadGzip)
    case Some(x) =>
      if encrypted then
        if cfg.doubleEncrypt then
          if cfg.password == "" then Err(NoPassword) else Ok((Encrypt(suite, x, cfg.password, salt), TWO))
        else Ok((x, ONE))
      else if cfg.encryptPlaintext then
        if cfg.password == "" then Err(NoPassword) else Ok((Encrypt(suite, x, cfg.password, salt), ONE))
      else Ok((x, PLAIN))
  }

  predicate EndsWith(s: string, t: string) { |t| <= |s| && s[|s| - |t|..] == t }

  function DropSuffix(s: string, t: string): string { if EndsWith(s, t) then s[..|s| - |t|] else s }

  function BaseName(filename: string): string { DropSuffix(DropSuffix(filename, ".gz"), ".xml") }

  function ObjectKey(cfg: Settings, instance: string, filename: string, suffix: string): string {
    cfg.basePath + "/" + instance + "/" + BaseName(filename) + suffix
  }

  /** `_undo_payload`: reads the layout off the key. */
  function Undo(suite: Suite, zip: Zip, payload: Bytes, key: string, encrypted: bool, compressed: bool,
      cfg: Settings): Result<Bytes, ReplicaError>
  {
    var stripped :=
      if EndsWith(key, TWO) || (EndsWith(key, ONE) && !encrypted) then
        if cfg.password == "" then Err(NoPassword)
        else
          match Decrypt(suite, payload, cfg.password)
          case Err(_) => Err(BadBlob)
          case Ok(x) => Ok(x)
      else Ok(payload);
    match stripped
    case Err(e) => Err(e)
    case Ok(blob) => Ok(if compressed then zip.compress(blob) else blob)
  }

  // ---- what the key says ----

  lemma EndsAppend(s: string, t: string)
    ensures EndsWith(s + t, t)
  {}

  lemma EndsLonger(s: string, t: string, u: string)
    ensures EndsWith(s + u, t + u) <==> EndsWith(s, t)
  {
    if |t| <= |s| {
      assert (s + u)[|s + u| - |t + u|..] == s[|s| - |t|..] + u;
      if EndsWith(s + u, t + u) { assert (s[|s| - |t|..] + u)[..|t|] == (t + u)[..|t|]; }
    }
  }

  /** The tail of a path is the tail of its last component. */
  lemma EndsInBase(dir: string, base: string)
    ensures EndsWith(dir + "/" + base, ".2x") <==> EndsWith(base, ".2x")
  {
    var s := dir + "/" + base;
    if |base| >= 3 {
      assert s[|s| - 3..] == base[|base| - 3..];
    } else {
      assert s[|s| - |base| - 1] == '/';
      if |s| >= 3 { assert s[|s| - 3..][2 - |base|] == '/'; }
    }
  }

  /** Which branch `_undo_payload` takes for a key that `object_key` built. */
  lemma KeyTells(cfg: Settings, instance: string, filename: string, suffix: string)
    requires suffix == PLAIN || suffix == ONE || suffix == TWO
    ensures var key := ObjectKey(cfg, instance, filename, suffix);
      && (EndsWith(key, TWO) <==> suffix == TWO || (suffix == ONE && EndsWith(BaseName(filename), ".2x")))
      && (EndsWith(key, ONE) <==> suffix != PLAIN)
  {
    hide BaseName;
    var dir, base := cfg.basePath + "/" + instance, BaseName(filename);
    var path := dir + "/" + base;
    var key := ObjectKey(cfg, instance, filename, suffix);
    assert key == path + suffix;
    assert TWO == ".2x" + ONE;
    if suffix == TWO {
      EndsAppend(path, TWO);
      assert key == path + ".2x" + ONE;
      EndsAppend(path + ".2x", ONE);
    } else if suffix == ONE {
      EndsAppend(path, ONE);
      EndsLonger(path, ".2x", ONE);
      EndsInBase(dir, base);
    } else {
      assert key[|key| - 1] == 'l' && ONE[|ONE| - 1] == 'c' && TWO[|TWO| - 1] == 'c';
      NotEnds(key, ONE);
      NotEnds(key, TWO);
    }
  }

  lemma NotEnds(s: string, t: string)
    requires s != [] && t != [] && s[|s| - 1] != t[|t| - 1]
    ensures !EndsWith(s, t)
  {
    if |t| <= |s| { assert s[|s| - |t|..][|t| - 1] == s[|s| - 1]; }
  }

  // ---- the round trip ----

  /** The retrieved file holds the original content in the original shape. */
  ghost predicate Restores(suite: Suite, zip: Zip, payload: Bytes, key: string, encrypted: bool, compressed: bool,
      cfg: Settings, x: Bytes)
  {
    var r := Undo(suite, zip, payload, key, encrypted, compressed, cfg);
    r.Ok? && Content(zip, r.value, compressed) == Some(x)
  }

  /** For all layouts, and whatever the two encryption flags are at retrieval, an uploaded
      backup is restored exactly when: a layer that was added holds plausible content, and the
      key of a single-layer object of an encrypted backup does not look double-layered. */
  lemma RoundTripIff(suite: Suite, zip: Zip, raw: Bytes, encrypted: bool, compressed: bool, up: Settings,
      down: Settings,
                     instance: string, filename: string, salt: Bytes, x: Bytes)
    requires Lawful(suite) && Inverse(zip) && |salt| == SALT_BYTES && down.password == up.password
    requires Content(zip, raw, compressed) == Some(x)
    requires Prepare(suite, zip, raw, encrypted, compressed, up, salt).Ok?
    ensures var (payload, suffix) := Prepare(suite, zip, raw, encrypted, compressed, up, salt).value;
      Restores(suite, zip, payload, ObjectKey(up, instance, filename, suffix), encrypted, compressed, down, x)
      <==>
      (Layered(encrypted, up) ==> Plausible(x))
      && !(encrypted && !up.doubleEncrypt && EndsWith(BaseName(filename), ".2x"))
  {
    hide Decrypt; hide Encrypt; hide Plausible; hide Lawful; hide EndsWith; hide BaseName; hide ObjectKey;
    var (payload, suffix) := Prepare(suite, zip, raw, encrypted, compressed, up, salt).value;
    KeyTells(up, instance, filename, suffix);
    DecryptEncrypt(suite, x, up.password, salt);
    if encrypted && !up.doubleEncrypt && EndsWith(BaseName(filename), ".2x") && Decrypt(suite, x, up.password).Ok? {
      DecryptShrinks(suite, x, up.password);
    }
  }

  /** A plaintext backup leaves the host wrapped under the replication password, unless the
      operator switched that off. */
  lemma PlaintextStaysHome(suite: Suite, zip: Zip, raw: Bytes, compressed: bool, cfg: Settings, salt: Bytes)
    requires cfg.encryptPlaintext && Prepare(suite, zip, raw, false, compressed, cfg, salt).Ok?
    ensures cfg.password != "" && LooksEncrypted(Prepare(suite, zip, raw, false, compressed, cfg, salt).value.0)
  {
    hide Encrypt; hide LooksEncrypted;
    EncryptedIsPlausible(suite, Content(zip, raw, compressed).value, cfg.password, salt);
  }

  // ---- what is uploaded under which name ----

  /** The object's name: directory, instance, and the file name without .xml, .xml.gz or .gz. */
  lemma ObjectKeyMeans(cfg: Settings, instance: string, base: string, suffix: string)
    ensures ObjectKey(cfg, instance, base + ".xml" + ".gz", suffix) ==
            cfg.basePath + "/" + instance + "/" + base + suffix
    ensures ObjectKey(cfg, instance, base + ".xml", suffix) == cfg.basePath + "/" + instance + "/" + base + suffix
    ensures !EndsWith(base, ".xml") ==>
      ObjectKey(cfg, instance, base + ".gz", suffix) == cfg.basePath + "/" + instance + "/" + base + suffix
    ensures !EndsWith(base, ".xml") && !EndsWith(base, ".gz") ==>
      ObjectKey(cfg, instance, base, suffix) == cfg.basePath + "/" + instance + "/" + base + suffix
  {
    DropAppended(base + ".xml", ".gz");
    DropAppended(base, ".gz");
    DropAppended(base, ".xml");
    assert !EndsWith(base + ".xml", ".gz") by { LastDiffers(base + ".xml", ".gz"); }
  }

  lemma DropAppended(s: string, t: string)
    ensures DropSuffix(s + t, t) == s
  {
    EndsAppend(s, t);
    assert (s + t)[..|s|] == s;
  }

  lemma LastDiffers(s: string, t: string)
    requires s != "" && t != "" && s[|s| - 1] != t[|t| - 1]
    ensures !EndsWith(s, t)
  {
    if |t| <= |s| { assert s[|s| - |t|..][|t| - 1] == s[|s| - 1]; }
  }

  /** What is uploaded: the content itself, or a blob the replication password opens to it; and the
      suffix that says which. */
  lemma PreparedMeans(suite: Suite, zip: Zip, raw: Bytes, encrypted: bool, compressed: bool, cfg: Settings, salt: Bytes)
    requires Lawful(suite) && |salt| == 8
    ensures var content := if compressed then zip.decompress(raw) else Some(raw);
      match Prepare(suite, zip, raw, encrypted, compressed, cfg, salt)
      case Err(e) =>
        if content == None then e == BadGzip
        else e == NoPassword && cfg.password == "" && (if encrypted then cfg.doubleEncrypt else cfg.encryptPlaintext)
      case Ok((payload, suffix)) =>
        && content.Some?
        && if encrypted && cfg.doubleEncrypt then
             && suffix == ".2x.xml.enc"
             && (Plausible(content.value) ==> Decrypt(suite, payload, cfg.password) == Ok(content.value))
           else if encrypted then suffix == ".xml.enc" && payload == content.value
           else if cfg.encryptPlaintext then
             && suffix == ".xml.enc"
             && (Plausible(content.value) ==> Decrypt(suite, payload, cfg.password) == Ok(content.value))
           else suffix == ".xml" && payload == content.value
  {
    hide Encrypt; hide Decrypt; hide Plausible; hide Lawful;
    var content := Content(zip, raw, compressed);
    if content.Some? { DecryptEncrypt(suite, content.value, cfg.password, salt); }
  }
}
