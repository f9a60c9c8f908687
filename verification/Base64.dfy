/**
 Base64 as the cursor uses it (dynamo/cursor.go): the standard padded alphabet
 for binary keys and the unpadded URL alphabet for the cursor itself
 (sections 4 and 5 of RFC 4648). Decoding skips line breaks and ignores spare
 trailing bits, like Go's encoding/base64.
 */
module Base64 {
  import opened Options

  type Byte = x: int | 0 <= x < 256
  type Sextet = x: int | 0 <= x < 64

  // The four sextets of three bytes, and back.

  function Q0(x: int): int { x / 4 }

  function Q1(x: int, y: int): int { x % 4 * 16 + y / 16 }

  function Q2(y: int, z: int): int { y % 16 * 4 + z / 64 }

  function Q3(z: int): int { z % 64 }

  function Sextets(b: seq<Byte>): seq<Sextet> {
    if |b| == 0 then []
    else if |b| == 1 then [Q0(b[0]), Q1(b[0], 0)]
    else if |b| == 2 then [Q0(b[0]), Q1(b[0], b[1]), Q2(b[1], 0)]
    else [Q0(b[0]), Q1(b[0], b[1]), Q2(b[1], b[2]), Q3(b[2])] + Sextets(b[3..])
  }

  function First(a: int, b: int): int { a * 4 + b / 16 }

  function Second(b: int, c: int): int { b % 16 * 16 + c / 4 }

  function Third(c: int, d: int): int { c % 4 * 64 + d }

  function Bytes(s: seq<Sextet>): Option<seq<Byte>> {
    if |s| == 0 then Some([])
    else if |s| == 1 then None
    else if |s| == 2 then Some([First(s[0], s[1])])
    else if |s| == 3 then Some([First(s[0], s[1]), Second(s[1], s[2])])
    else
      match Bytes(s[4..])
      case None => None
      case Some(rest) => Some([First(s[0], s[1]), Second(s[1], s[2]), Third(s[2], s[3])] + rest)
  }

  // Three bytes survive being cut into four sextets.

  lemma FirstBack(x: Byte, y: Byte)
    ensures First(Q0(x), Q1(x, y)) == x
  {}

  lemma HighOf(a: int, h: int)
    requires 0 <= h < 16
    ensures (a * 16 + h) % 16 == h
  {}

  lemma LowOf(l: int, w: int)
    requires 0 <= w < 4
    ensures (l * 4 + w) / 4 == l
  {}

  lemma SecondBack(x: Byte, y: Byte, z: Byte)
    ensures Second(Q1(x, y), Q2(y, z)) == y
  {
    HighOf(x % 4, y / 16);
    LowOf(y % 16, z / 64);
  }

  lemma ThirdBack(y: Byte, z: Byte)
    ensures Third(Q2(y, z), Q3(z)) == z
  {}

  lemma {:induction false} LastByte(b: seq<Byte>)
    requires |b| == 1
    ensures Bytes(Sextets(b)) == Some(b)
  {
    var s := Sextets(b);
    assert Bytes(s) == Some([First(s[0], s[1])]);
    FirstBack(b[0], 0);
    assert b == [b[0]];
  }

  lemma {:induction false} LastTwoBytes(b: seq<Byte>)
    requires |b| == 2
    ensures Bytes(Sextets(b)) == Some(b)
  {
    var s := Sextets(b);
    assert Bytes(s) == Some([First(s[0], s[1]), Second(s[1], s[2])]);
    FirstBack(b[0], b[1]);
    SecondBack(b[0], b[1], 0);
    assert b == [b[0], b[1]];
  }

  lemma {:induction false} GroupFirst(b: seq<Byte>)
    requires |b| >= 3 && Bytes(Sextets(b[3..])) == Some(b[3..])
    ensures Bytes(Sextets(b)) == Some(b)
  {
    var s := Sextets(b);
    assert s[4..] == Sextets(b[3..]);
    assert Bytes(s) == Some([First(s[0], s[1]), Second(s[1], s[2]), Third(s[2], s[3])] + b[3..]);
    FirstBack(b[0], b[1]);
    SecondBack(b[0], b[1], b[2]);
    ThirdBack(b[1], b[2]);
    assert b == [b[0], b[1], b[2]] + b[3..];
  }

  lemma {:induction false} BytesOfSextets(b: seq<Byte>)
    ensures Bytes(Sextets(b)) == Some(b)
  {
    if |b| == 1 {
      LastByte(b);
    } else if |b| == 2 {
      LastTwoBytes(b);
    } else if |b| >= 3 {
      BytesOfSextets(b[3..]);
      GroupFirst(b);
    }
  }

  lemma {:induction false} SextetCount(b: seq<Byte>)
    ensures |Sextets(b)| % 4 != 1 && (|Sextets(b)| == 0 <==> |b| == 0)
  {
    if |b| >= 3 { SextetCount(b[3..]); }
  }

  function CharOf(i: Sextet, url: bool): char {
    if i < 26 then ('A' as int + i) as char
    else if i < 52 then ('a' as int + (i - 26)) as char
    else if i < 62 then ('0' as int + (i - 52)) as char
    else if i == 62 then (if url then '-' else '+')
    else (if url then '_' else '/')
  }

  function IndexOf(c: char, url: bool): Option<Sextet> {
    if 'A' <= c <= 'Z' then Some(c as int - 'A' as int)
    else if 'a' <= c <= 'z' then Some(c as int - 'a' as int + 26)
    else if '0' <= c <= '9' then Some(c as int - '0' as int + 52)
    else if c == (if url then '-' else '+') then Some(62)
    else if c == (if url then '_' else '/') then Some(63)
    else None
  }

  function Chars(s: seq<Sextet>, url: bool): string {
    seq(|s|, i requires 0 <= i < |s| => CharOf(s[i], url))
  }

  function Indices(t: string, url: bool): Option<seq<Sextet>> {
    if t == "" then Some([])
    else
      match (Indices(t[..|t| - 1], url), IndexOf(t[|t| - 1], url))
      case (Some(init), Some(i)) => Some(init + [i])
      case _ => None
  }

  lemma {:induction false} IndicesOfChars(s: seq<Sextet>, url: bool)
    ensures Indices(Chars(s, url), url) == Some(s)
  {
    if s != [] {
      var n := |s| - 1;
      assert Chars(s, url)[..n] == Chars(s[..n], url);
      IndicesOfChars(s[..n], url);
      assert s == s[..n] + [s[n]];
    }
  }

  predicate Break(c: char) { c == '\n' || c == '\r' }

  function WithoutBreaks(t: string): string {
    if t == "" then ""
    else
      var init := WithoutBreaks(t[..|t| - 1]);
      if Break(t[|t| - 1]) then init else init + [t[|t| - 1]]
  }

  lemma {:induction false} NothingToSkip(t: string)
    requires forall c :: c in t ==> !Break(c)
    ensures WithoutBreaks(t) == t
  {
    if t != "" {
      NothingToSkip(t[..|t| - 1]);
      assert t == t[..|t| - 1] + [t[|t| - 1]];
    }
  }

  // ---- Unpadded, URL alphabet ----------------------------------------------------------

  function EncodeRawURL(b: seq<Byte>): string { Chars(Sextets(b), true) }

  function DecodeRawURL(t: string): Option<seq<Byte>> {
    match Indices(WithoutBreaks(t), true)
    case None => None
    case Some(s) => Bytes(s)
  }

  lemma RawURLRoundTrip(b: seq<Byte>)
    ensures DecodeRawURL(EncodeRawURL(b)) == Some(b)
    ensures EncodeRawURL(b) == "" <==> b == []
  {
    BytesOfSextets(b);
    SextetCount(b);
    IndicesOfChars(Sextets(b), true);
    NothingToSkip(EncodeRawURL(b));
  }

  /** A cursor is safe in a query string: only unreserved characters. */
  lemma RawURLIsUrlSafe(b: seq<Byte>, c: char)
    requires c in EncodeRawURL(b)
    ensures 'A' <= c <= 'Z' || 'a' <= c <= 'z' || '0' <= c <= '9' || c == '-' || c == '_'
  {}

  // ---- Padded, standard alphabet ------------------------------------------------------------

  function Padding(n: nat): string {
    if n % 4 == 2 then "==" else if n % 4 == 3 then "=" else ""
  }

  function EncodeStd(b: seq<Byte>): string {
    Chars(Sextets(b), false) + Padding(|Sextets(b)|)
  }

  /** The text before its padding; None when the padding is not what the length calls for. */
  function Unpadded(t: string): Option<string> {
    var n := |t|;
    if n % 4 != 0 then None
    else if n >= 2 && t[n - 2..] == "==" then Some(t[..n - 2])
    else if n >= 1 && t[n - 1] == '=' then Some(t[..n - 1])
    else Some(t)
  }

  function DecodeStd(t: string): Option<seq<Byte>> {
    match Unpadded(WithoutBreaks(t))
    case None => None
    case Some(body) =>
      match Indices(body, false)
      case None => None
      case Some(s) => Bytes(s)
  }

  lemma CharsAreNeverPadding(s: seq<Sextet>, url: bool)
    ensures forall c :: c in Chars(s, url) ==> c != '=' && !Break(c)
  {}

  /** Padding comes off as it went on. */
  lemma PaddingRoundTrip(body: string)
    requires |body| % 4 != 1 && forall c :: c in body ==> c != '='
    ensures Unpadded(body + Padding(|body|)) == Some(body)
  {
    var t := body + Padding(|body|);
    var n := |t|;
    if |body| % 4 == 2 {
      assert t[n - 2..] == "==" && t[..n - 2] == body;
    } else if |body| % 4 == 3 {
      assert body[|body| - 1] in body;
      assert t[n - 2..][0] == body[|body| - 1] && t[..n - 1] == body;
    } else {
      assert t == body;
      if n > 0 {
        assert body[n - 1] in body;
        assert t[n - 2..][1] != '=';
      }
    }
  }

  lemma StdRoundTrip(b: seq<Byte>)
    ensures DecodeStd(EncodeStd(b)) == Some(b)
  {
    var s := Sextets(b);
    BytesOfSextets(b);
    SextetCount(b);
    IndicesOfChars(s, false);
    CharsAreNeverPadding(s, false);
    NothingToSkip(EncodeStd(b));
    PaddingRoundTrip(Chars(s, false));
  }
}
