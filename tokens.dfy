/** Textual key tokens: `toBase58(TokenType, key)` and `parseBase58<SecretKey>`.
    Base58Check itself is not part of this model. The stand-in keeps what the key file
    relies on: a token names its type in its first character ('p' for a node private key,
    'n' for a node public key, as real tokens begin), the payload is recoverable, and a
    token of the wrong type or of the wrong length is refused. */
module Tokens {
  import opened Wrappers
  import opened Bytes
  import opened Crypto

  datatype TokenType = NodePublic | NodePrivate

  function TokenChar(t: TokenType): char
  {
    match t
    case NodePublic => 'n'
    case NodePrivate => 'p'
  }

  function HexDigit(v: int): char
    requires 0 <= v < 16
  {
    if v < 10 then ('0' as int + v) as char else ('a' as int + (v - 10)) as char
  }

  function HexValue(c: char): (r: Option<int>)
    ensures r.Some? ==> 0 <= r.value < 16 && HexDigit(r.value) == c
  {
    if '0' <= c <= '9' then Some(c as int - '0' as int)
    else if 'a' <= c <= 'f' then Some(c as int - 'a' as int + 10)
    else None
  }

  function Hex(payload: seq<byte>): (s: string)
    ensures |s| == 2 * |payload|
  {
    if payload == [] then "" else [HexDigit(payload[0] / 16), HexDigit(payload[0] % 16)] + Hex(payload[1..])
  }

  function Unhex(s: string): Option<seq<byte>>
    decreases |s|
  {
    if s == "" then Some([])
    else if |s| < 2 then None
    else
      match (HexValue(s[0]), HexValue(s[1]), Unhex(s[2..]))
      case (Some(hi), Some(lo), Some(rest)) => Some([hi * 16 + lo] + rest)
      case _ => None
  }

  lemma {:induction false} UnhexHex(payload: seq<byte>)
    ensures Unhex(Hex(payload)) == Some(payload)
  {
    if payload != [] {
      var b := payload[0];
      var s := Hex(payload);
      assert HexValue(HexDigit(b / 16)) == Some(b / 16);
      assert HexValue(HexDigit(b % 16)) == Some(b % 16);
      assert s[2..] == Hex(payload[1..]);
      UnhexHex(payload[1..]);
      assert [b] + payload[1..] == payload;
    }
  }

  /** `toBase58(type, payload)` */
  function ToBase58(t: TokenType, payload: seq<byte>): string
  {
    [TokenChar(t)] + Hex(payload)
  }

  /** `decodeBase58Token(s, type)`: `None` unless `s` is a token of type `t`. */
  function ParseBase58(t: TokenType, s: string): Option<seq<byte>>
  {
    if |s| > 0 && s[0] == TokenChar(t) then Unhex(s[1..]) else None
  }

  /** Decoding a token gives back its payload. */
  lemma ParseToBase58(t: TokenType, payload: seq<byte>)
    ensures ParseBase58(t, ToBase58(t, payload)) == Some(payload)
  {
    assert ToBase58(t, payload)[1..] == Hex(payload);
    UnhexHex(payload);
  }

  /** `parseBase58<SecretKey>(TOKEN_NODE_PRIVATE, s)`: a node private token whose payload
      is exactly the size of a secret key. The key type is not consulted. */
  function ParseSecretKey(s: string): (r: Option<SecretKey>)
    ensures r.Some? ==> ParseBase58(NodePrivate, s) == Some(r.value)
  {
    match ParseBase58(NodePrivate, s)
    case Some(payload) => if |payload| == 32 then Some(payload) else None
    case None => None
  }

  /** A secret written with `toBase58(TOKEN_NODE_PRIVATE, sk)` parses back to `sk`, and a
      token of the other type never parses as a secret. */
  lemma SecretKeyRoundTrip(sk: SecretKey, other: seq<byte>)
    ensures ParseSecretKey(ToBase58(NodePrivate, sk)) == Some(sk)
    ensures ParseSecretKey(ToBase58(NodePublic, other)).None?
  {
    ParseToBase58(NodePrivate, sk);
  }
}
