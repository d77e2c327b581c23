/**
 * Token derivation of main.go, `createToken`: the MD5 digest of the
 * username, the secret and the result, written one after the other
 * into one hash state, printed as "1" followed by lowercase hex.
 * MD5 itself is not modelled: it is a parameter, any function from the
 * written text to 16 bytes.
 */
module Tokens {

  type Byte = b: int | 0 <= b < 256

  /** What `h.Sum(nil)` returns for an MD5 state: 16 bytes. */
  type Digest = d: seq<Byte> | |d| == 16 witness seq(16, _ => 0)

  /** The MD5 function, applied to everything written to the state. */
  type Hash = string -> Digest

  /** The version prefix of every token (main.go:172-173). */
  const Version := '1'

  /** The length of a printed token: the prefix and two hex digits per digest byte. */
  const TokenLength := 33

  predicate IsLowerHex(c: char) {
    '0' <= c <= '9' || 'a' <= c <= 'f'
  }

  function HexDigit(n: int): (c: char)
    requires 0 <= n < 16
    ensures IsLowerHex(c)
  {
    "0123456789abcdef"[n]
  }

  function DigitValue(c: char): (n: int)
    requires IsLowerHex(c)
    ensures 0 <= n < 16 && HexDigit(n) == c
  {
    if c <= '9' then c as int - '0' as int else c as int - 'a' as int + 10
  }

  /** `fmt.Sprintf("%x", bytes)`: two lowercase hex digits per byte, high nibble first. */
  function Hex(bytes: seq<Byte>): (s: string)
    ensures |s| == 2 * |bytes|
    ensures forall i :: 0 <= i < |s| ==> IsLowerHex(s[i])
  {
    if bytes == [] then []
    else [HexDigit(bytes[0] / 16), HexDigit(bytes[0] % 16)] + Hex(bytes[1..])
  }

  /** Reads back the bytes of a lowercase hex string. */
  function Unhex(s: string): seq<Byte>
    requires |s| % 2 == 0
    requires forall i :: 0 <= i < |s| ==> IsLowerHex(s[i])
  {
    if s == [] then []
    else [(DigitValue(s[0]) * 16 + DigitValue(s[1])) as Byte] + Unhex(s[2..])
  }

  lemma HexDigitValue(n: int)
    requires 0 <= n < 16
    ensures DigitValue(HexDigit(n)) == n
  {
    var digits := "0123456789abcdef";
    assert digits[n] as int == if n < 10 then '0' as int + n else 'a' as int + n - 10;
  }

  /** Hex encoding loses nothing: decoding gives the bytes back. */
  lemma {:induction false} UnhexHex(bytes: seq<Byte>)
    ensures Unhex(Hex(bytes)) == bytes
  {
    if bytes != [] {
      var s := Hex(bytes);
      HexDigitValue(bytes[0] / 16);
      HexDigitValue(bytes[0] % 16);
      assert s[2..] == Hex(bytes[1..]);
      UnhexHex(bytes[1..]);
    }
  }

  /** The token createToken returns, as a function of its inputs. */
  function TokenOf(md5: Hash, username: string, secret: string, result: string): (token: string)
    ensures |token| == TokenLength && token[0] == Version
    ensures forall i :: 1 <= i < |token| ==> IsLowerHex(token[i])
  {
    [Version] + Hex(md5(username + secret + result))
  }

  /** The digest can be read back from the token: the hex part decodes to MD5(username ++ secret ++ result). */
  lemma TokenDigest(md5: Hash, username: string, secret: string, result: string)
    ensures var token := TokenOf(md5, username, secret, result);
      Unhex(token[1..]) == md5(username + secret + result)
  {
    var d := md5(username + secret + result);
    assert TokenOf(md5, username, secret, result)[1..] == Hex(d);
    UnhexHex(d);
  }

  /** Tokens with different digests differ. */
  lemma TokenInjective(md5: Hash, u1: string, s1: string, r1: string, u2: string, s2: string, r2: string)
    requires md5(u1 + s1 + r1) != md5(u2 + s2 + r2)
    ensures TokenOf(md5, u1, s1, r1) != TokenOf(md5, u2, s2, r2)
  {
    TokenDigest(md5, u1, s1, r1);
    TokenDigest(md5, u2, s2, r2);
  }

  /** An MD5 hash state (`hash.Hash` from `md5.New()`): the text written so far. */
  class HashState {
    const md5: Hash
    var written: string

    constructor (md5: Hash)
      ensures this.md5 == md5 && written == []
    {
      this.md5 := md5;
      written := [];
    }

    /** `io.WriteString(h, s)`. */
    method WriteString(s: string)
      modifies this
      ensures written == old(written) + s
    {
      written := written + s;
    }

    /** `h.Sum(nil)`: the digest of everything written, leaving the state alone. */
    method Sum() returns (d: Digest)
      ensures d == md5(written)
    {
      d := md5(written);
    }
  }

  /** createToken (main.go:166-174). */
  method CreateToken(md5: Hash, username: string, secret: string, result: string) returns (token: string)
    ensures token == TokenOf(md5, username, secret, result)
  {
    var h := new HashState(md5);
    h.WriteString(username);
    h.WriteString(secret);
    h.WriteString(result);
    var sum := h.Sum();
    assert h.written == username + secret + result;
    token := [Version] + Hex(sum);
  }
}
