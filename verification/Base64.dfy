/** Base64 (section 4 of RFC 4648) and PKCS#7 padding (section 6.3 of RFC 5652), concretely. */
module Base64 {
  import opened Basics

  type Byte = x: int | 0 <= x < 256
  type Bytes = seq<Byte>

  // ---- the alphabet ----

  function Char64(i: nat): (c: char)
    requires i < 64
    ensures IsChar64(c)
  {
    if i < 26 then ('A' as int + i) as char
    else if i < 52 then ('a' as int + i - 26) as char
    else if i < 62 then ('0' as int + i - 52) as char
    else if i == 62 then '+' else '/'
  }

  predicate IsChar64(c: char) {
    'A' <= c <= 'Z' || 'a' <= c <= 'z' || '0' <= c <= '9' || c == '+' || c == '/'
  }

  function Index64(c: char): (i: nat)
    requires IsChar64(c)
    ensures i < 64
  {
    if 'A' <= c <= 'Z' then c as int - 'A' as int
    else if 'a' <= c <= 'z' then c as int - 'a' as int + 26
    else if '0' <= c <= '9' then c as int - '0' as int + 52
    else if c == '+' then 62 else 63
  }

  lemma AlphabetInverse(i: nat)
    requires i < 64
    ensures Index64(Char64(i)) == i
  {}

  // ---- quanta ----

  function Encode3(a: Byte, b: Byte, c: Byte): string {
    [Char64(a / 4), Char64(a % 4 * 16 + b / 16), Char64(b % 16 * 4 + c / 64), Char64(c % 64)]
  }

  function Encode2(a: Byte, b: Byte): string {
    [Char64(a / 4), Char64(a % 4 * 16 + b / 16), Char64(b % 16 * 4), '=']
  }

  function Encode1(a: Byte): string { [Char64(a / 4), Char64(a % 4 * 16), '=', '='] }

  /** b64encode */
  function Encode(x: Bytes): string {
    if x == [] then []
    else if |x| == 1 then Encode1(x[0])
    else if |x| == 2 then Encode2(x[0], x[1])
    else Encode3(x[0], x[1], x[2]) + Encode(x[3..])
  }

  /** One full or, at the end of the input, padded group of four. Bits that padding leaves
      over are ignored. */
  function DecodeGroup(g: string, last: bool): Option<Bytes>
    requires |g| == 4
  {
    if !IsChar64(g[0]) || !IsChar64(g[1]) then None
    else
      var i, j := Index64(g[0]), Index64(g[1]);
      var a: Byte := i * 4 + j / 16;
      if g[2] == '=' && g[3] == '=' && last then Some([a])
      else if !IsChar64(g[2]) then None
      else
        var k := Index64(g[2]);
        var b: Byte := j % 16 * 16 + k / 4;
        if g[3] == '=' && last then Some([a, b])
        else if !IsChar64(g[3]) then None
        else Some([a, b, k % 4 * 64 + Index64(g[3])])
  }

  /** b64decode(validate=True): None where Python raises. */
  function Decode(s: string): Option<Bytes> {
    if s == [] then Some([])
    else if |s| < 4 then None
    else
      match (DecodeGroup(s[..4], |s| == 4), Decode(s[4..]))
      case (Some(a), Some(b)) => Some(a + b)
      case _ => None
  }

  lemma Group3(a: Byte, b: Byte, c: Byte, last: bool)
    ensures DecodeGroup(Encode3(a, b, c), last) == Some([a, b, c])
  {
    var i, j, k, l := a / 4, a % 4 * 16 + b / 16, b % 16 * 4 + c / 64, c % 64;
    AlphabetInverse(i);
    AlphabetInverse(j);
    AlphabetInverse(k);
    AlphabetInverse(l);
    hide Char64; hide Index64;
    assert j / 16 == a % 4 && j % 16 == b / 16 && k / 4 == b % 16 && k % 4 == c / 64;
  }

  lemma Group2(a: Byte, b: Byte)
    ensures DecodeGroup(Encode2(a, b), true) == Some([a, b])
  {
    var i, j, k := a / 4, a % 4 * 16 + b / 16, b % 16 * 4;
    AlphabetInverse(i);
    AlphabetInverse(j);
    AlphabetInverse(k);
    hide Char64; hide Index64;
    assert j / 16 == a % 4 && j % 16 == b / 16 && k / 4 == b % 16;
  }

  lemma Group1(a: Byte)
    ensures DecodeGroup(Encode1(a), true) == Some([a])
  {
    var i, j := a / 4, a % 4 * 16;
    AlphabetInverse(i);
    AlphabetInverse(j);
    hide Char64; hide Index64;
    assert j / 16 == a % 4;
  }

  /** Decoding undoes encoding. */
  lemma {:induction false} DecodeEncode(x: Bytes)
    ensures Decode(Encode(x)) == Some(x)
  {
    hide Encode1; hide Encode2; hide Encode3; hide DecodeGroup;
    if |x| == 1 {
      Group1(x[0]);
      Shapes(x[0], 0, 0);
      assert x == [x[0]] + [];
    } else if |x| == 2 {
      Group2(x[0], x[1]);
      Shapes(x[0], x[1], 0);
      assert x == [x[0], x[1]] + [];
    } else if x != [] {
      Shapes(x[0], x[1], x[2]);
      var head, rest := Encode3(x[0], x[1], x[2]), x[3..];
      Group3(x[0], x[1], x[2], |(head + Encode(rest))| == 4);
      DecodeEncode(rest);
      assert (head + Encode(rest))[..4] == head && (head + Encode(rest))[4..] == Encode(rest);
      assert x == [x[0], x[1], x[2]] + rest;
    }
  }

  lemma Shapes(a: Byte, b: Byte, c: Byte)
    ensures |Encode1(a)| == |Encode2(a, b)| == |Encode3(a, b, c)| == 4
    ensures Encode1(a)[4..] == [] && Encode1(a)[..4] == Encode1(a)
    ensures Encode2(a, b)[4..] == [] && Encode2(a, b)[..4] == Encode2(a, b)
  {}

  /** The characters of the base64 line pattern. */
  predicate Body64(c: char) { IsChar64(c) || c == '=' }

  lemma {:induction false} EncodeChars(x: Bytes)
    ensures forall c | c in Encode(x) :: Body64(c)
    ensures x != [] ==> |Encode(x)| >= 4
  {
    if |x| >= 3 {
      EncodeChars(x[3..]);
    }
  }

  // ---- padding ----

  const BLOCK := 16

  function PadLength(n: nat): (k: nat)
    ensures 1 <= k <= BLOCK && (n + k) % BLOCK == 0
  {
    BLOCK - n % BLOCK
  }

  function Repeat(b: Byte, n: nat): (r: Bytes)
    ensures |r| == n && forall i | 0 <= i < n :: r[i] == b
  {
    seq(n, _ => b)
  }

  function Pad(x: Bytes): (r: Bytes)
    ensures |r| % BLOCK == 0 && |r| > |x|
  {
    x + Repeat(PadLength(|x|), PadLength(|x|))
  }

  /** The unpadder: None where it raises. */
  function Unpad(y: Bytes): Option<Bytes> {
    if y == [] || |y| % BLOCK != 0 then None
    else
      var k := y[|y| - 1];
      if 1 <= k <= BLOCK && k <= |y| && (forall i | |y| - k <= i < |y| :: y[i] == k) then Some(y[..|y| - k]) else None
  }

  lemma UnpadPad(x: Bytes)
    ensures Unpad(Pad(x)) == Some(x)
  {
    var y, k := Pad(x), PadLength(|x|);
    assert y[|y| - 1] == k;
    assert y[..|y| - k] == x;
  }

  /** What unpads is the padding of its result, so no two paddings are confused. */
  lemma PadUnpad(y: Bytes)
    requires Unpad(y).Some?
    ensures Pad(Unpad(y).value) == y
  {
    var k := y[|y| - 1];
    var x := y[..|y| - k];
    assert PadLength(|x|) == k;
    assert y == x + y[|y| - k..];
  }
}
