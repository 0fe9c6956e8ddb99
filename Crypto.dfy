/** The cryptographic plumbing both signature checks use: HMAC-SHA256 (RFC 2104)
    kept abstract as a function of the secret and the message, Node's hex
    `digest`, `Buffer.from(s, "hex")`, and `crypto.timingSafeEqual`. */
module Crypto {
  import opened Common

  newtype byte = x: int | 0 <= x < 256

  /** The secrets read from the environment and the keyed hash. */
  datatype Config = Config(
    keySecret: string,
    webhookSecret: string,
    hmac: (string, string) -> seq<byte>)

  function HexChar(n: int): (c: char)
    requires 0 <= n < 16
    ensures IsHexDigit(c)
  {
    if n < 10 then ('0' as int + n) as char else ('a' as int + n - 10) as char
  }

  /** The value of a hexadecimal digit of either case, as Node reads it. */
  function HexValue(c: char): (r: Option<int>)
    ensures r.Some? <==> IsHexDigit(c)
    ensures r.Some? ==> 0 <= r.value < 16
  {
    if '0' <= c <= '9' then Some(c as int - '0' as int)
    else if 'a' <= c <= 'f' then Some(c as int - 'a' as int + 10)
    else if 'A' <= c <= 'F' then Some(c as int - 'A' as int + 10)
    else None
  }

  lemma HexCharValue(n: int)
    requires 0 <= n < 16
    ensures HexValue(HexChar(n)) == Some(n)
  {
  }

  /** `digest("hex")`: two lower-case digits per byte, high nibble first. */
  function HexEncode(b: seq<byte>): (s: string)
    ensures |s| == 2 * |b|
    ensures forall i :: 0 <= i < |s| ==> s[i] in "0123456789abcdef"
  {
    if b == [] then []
    else [HexChar(b[0] as int / 16), HexChar(b[0] as int % 16)] + HexEncode(b[1..])
  }

  /** `Buffer.from(s, "hex")`: pairs of digits are decoded from the left until
      the first pair that is not two hexadecimal digits; a trailing odd digit
      and everything after an invalid pair are dropped. */
  function HexDecode(s: string): (b: seq<byte>)
    ensures 2 * |b| <= |s|
  {
    if |s| < 2 then []
    else
      var hi, lo := HexValue(s[0]), HexValue(s[1]);
      if hi.None? || lo.None? then []
      else [(hi.value * 16 + lo.value) as byte] + HexDecode(s[2..])
  }

  /** Decoding what was encoded gives back the digest. */
  lemma {:induction false} HexRoundTrip(b: seq<byte>)
    ensures HexDecode(HexEncode(b)) == b
  {
    if b != [] {
      var s := HexEncode(b);
      var x := b[0] as int;
      HexCharValue(x / 16);
      HexCharValue(x % 16);
      assert s[2..] == HexEncode(b[1..]);
      HexRoundTrip(b[1..]);
      assert (x / 16 * 16 + x % 16) as byte == b[0];
    }
  }

  /** Anything after a complete encoding is ignored when it does not start
      with a valid pair. */
  lemma {:induction false} HexDecodeIgnoresTail(b: seq<byte>, tail: string)
    requires |tail| < 2 || HexValue(tail[0]).None? || HexValue(tail[1]).None?
    ensures HexDecode(HexEncode(b) + tail) == b
  {
    if b == [] {
      assert HexEncode(b) + tail == tail;
    } else {
      var x := b[0] as int;
      var pair := [HexChar(x / 16), HexChar(x % 16)];
      var rest := HexEncode(b[1..]) + tail;
      assert HexEncode(b) + tail == pair + rest;
      HexCharValue(x / 16);
      HexCharValue(x % 16);
      HexDecodePair(pair, rest);
      HexDecodeIgnoresTail(b[1..], tail);
      assert (x / 16 * 16 + x % 16) as byte == b[0];
    }
  }

  /** A leading pair of digits decodes to one byte in front of the rest. */
  lemma HexDecodePair(pair: string, rest: string)
    requires |pair| == 2 && HexValue(pair[0]).Some? && HexValue(pair[1]).Some?
    ensures HexDecode(pair + rest) ==
      [(HexValue(pair[0]).value * 16 + HexValue(pair[1]).value) as byte] + HexDecode(rest)
  {
    assert (pair + rest)[2..] == rest;
  }

  datatype Comparison = Equal | Different | Throws

  /** `crypto.timingSafeEqual(a, b)`, which throws when the lengths differ. */
  function TimingSafeEqual(a: seq<byte>, b: seq<byte>): (r: Comparison)
    ensures r == Throws <==> |a| != |b|
    ensures r == Equal <==> a == b
  {
    if |a| != |b| then Throws else if a == b then Equal else Different
  }
}
