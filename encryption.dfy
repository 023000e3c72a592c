/**
 * Model of utils/encryption.js: normalisation of the secret key, and the
 * `ivHex:dataHex` framing that `encrypt` emits and `decrypt` splits.
 * AES-256-CBC is an abstract cipher: a pair of functions, and a predicate
 * saying that deciphering undoes enciphering under the same key and IV.
 */
module Encryption {
  import opened Outcomes

  newtype byte = x: int | 0 <= x < 256

  /** Length, in characters, of the normalised secret key. */
  const KeyLength: nat := 32

  /** Number of bytes of the random initialisation vector. */
  const IvLength: nat := 16

  type SecretKey = k: string | |k| == KeyLength witness seq(KeyLength, _ => '0')

  type Iv = s: seq<byte> | |s| == IvLength witness seq(IvLength, _ => 0)

  // ---------------------------------------------------------------------------
  // Key normalisation
  // ---------------------------------------------------------------------------

  /** JavaScript's `s.padEnd(n, fill)` with a one-character filler. */
  function PadEnd(s: string, n: nat, fill: char): (r: string)
    ensures |r| == if |s| < n then n else |s|
    ensures r[..|s|] == s
    ensures forall i | |s| <= i < |r| :: r[i] == fill
    decreases n - |s|
  {
    if |s| >= n then s else PadEnd(s + [fill], n, fill)
  }

  /** JavaScript's `s.slice(0, n)`. */
  function SliceTo(s: string, n: nat): (r: string)
    ensures |r| == if n < |s| then n else |s|
    ensures forall i | 0 <= i < |r| :: r[i] == s[i]
  {
    if n < |s| then s[..n] else s
  }

  /** The secret key as the module computes it once at load time. */
  function NormalizeKey(secret: string): (k: SecretKey)
    ensures |secret| <= KeyLength ==> k[..|secret|] == secret
    ensures forall i | |secret| <= i < KeyLength :: k[i] == '0'
    ensures |secret| >= KeyLength ==> k == secret[..KeyLength]
  {
    if |secret| < KeyLength then PadEnd(secret, KeyLength, '0')
    else if |secret| > KeyLength then SliceTo(secret, KeyLength)
    else secret
  }

  /** Normalising an already-normalised key changes nothing. */
  lemma NormalizeKeyIdempotent(secret: string)
    ensures NormalizeKey(NormalizeKey(secret)) == NormalizeKey(secret)
  {
  }

  // ---------------------------------------------------------------------------
  // Hex encoding (Buffer#toString('hex') and Buffer.from(s, 'hex'))
  // ---------------------------------------------------------------------------

  const HexDigits: string := "0123456789abcdef"

  /** A digit as `toString('hex')` writes it: 0-9 or lower-case a-f. */
  predicate IsLowerHexChar(c: char) {
    ('0' <= c <= '9') || ('a' <= c <= 'f')
  }

  /** A digit `Buffer.from(s, 'hex')` accepts: either case. */
  predicate IsHexChar(c: char) {
    ('0' <= c <= '9') || ('a' <= c <= 'f') || ('A' <= c <= 'F')
  }

  function HexValue(c: char): (v: nat)
    requires IsHexChar(c)
    ensures v < 16
  {
    if '0' <= c <= '9' then (c - '0') as nat
    else if 'a' <= c <= 'f' then (c - 'a') as nat + 10
    else (c - 'A') as nat + 10
  }

  /** The lower-case hex digit of a value below 16, and its inverse. */
  function HexDigit(v: nat): (c: char)
    requires v < 16
    ensures IsHexChar(c) && HexValue(c) == v
    ensures IsLowerHexChar(c)
  {
    HexDigits[v]
  }

  /** `Buffer#toString('hex')`: two lower-case digits per byte, high nibble first. */
  function HexEncode(bs: seq<byte>): (s: string)
    ensures |s| == 2 * |bs|
    ensures forall i | 0 <= i < |s| :: IsLowerHexChar(s[i]) && IsHexChar(s[i])
  {
    if bs == [] then []
    else [HexDigit(bs[0] as nat / 16), HexDigit(bs[0] as nat % 16)] + HexEncode(bs[1..])
  }

  /**
   * `Buffer.from(s, 'hex')`: decodes character pairs from the front and stops
   * at the first pair that is not two hex digits; an odd last character is dropped.
   */
  function HexDecode(s: string): (bs: seq<byte>)
    ensures 2 * |bs| <= |s|
  {
    if |s| < 2 || !IsHexChar(s[0]) || !IsHexChar(s[1]) then []
    else [(HexValue(s[0]) * 16 + HexValue(s[1])) as byte] + HexDecode(s[2..])
  }

  /** Decoding the hex text of a byte string gives back the same bytes. */
  lemma {:induction false} HexRoundTrip(bs: seq<byte>)
    ensures HexDecode(HexEncode(bs)) == bs
  {
    if bs != [] {
      var s := HexEncode(bs);
      assert s[2..] == HexEncode(bs[1..]);
      HexRoundTrip(bs[1..]);
    }
  }

  // ---------------------------------------------------------------------------
  // String#split with a one-character separator
  // ---------------------------------------------------------------------------

  /** Joins pieces with the separator between them; the inverse of Split. */
  function Join(parts: seq<string>, sep: char): string
    requires |parts| >= 1
  {
    if |parts| == 1 then parts[0] else parts[0] + [sep] + Join(parts[1..], sep)
  }

  /** JavaScript's `s.split(sep)`: all pieces between separators, empty ones included. */
  function Split(s: string, sep: char): (parts: seq<string>)
    ensures |parts| >= 1
    ensures forall k | 0 <= k < |parts| :: sep !in parts[k]
    ensures Join(parts, sep) == s
  {
    if s == [] then [""]
    else
      var rest := Split(s[1..], sep);
      if s[0] == sep then [""] + rest
      else [[s[0]] + rest[0]] + rest[1..]
  }

  /** Splitting two separator-free pieces joined by the separator gives exactly those two pieces. */
  lemma {:induction false} SplitTwo(a: string, b: string, sep: char)
    requires sep !in a && sep !in b
    ensures Split(a + [sep] + b, sep) == [a, b]
  {
    if a == [] {
      assert [sep] + b == a + [sep] + b;
      SplitNoSeparator(b, sep);
    } else {
      assert (a + [sep] + b)[1..] == a[1..] + [sep] + b;
      SplitTwo(a[1..], b, sep);
      assert [a[0]] + a[1..] == a;
    }
  }

  /** A string without the separator splits into itself alone. */
  lemma SplitNoSeparator(s: string, sep: char)
    requires sep !in s
    ensures Split(s, sep) == [s]
  {
  }

  // ---------------------------------------------------------------------------
  // The abstract cipher and encrypt / decrypt
  // ---------------------------------------------------------------------------

  /**
   * AES-256-CBC with a key and an IV: `encipher` is `cipher.update` plus
   * `cipher.final` on the UTF-8 text; `decipher` is the reverse, and yields
   * None when `decipher.final` throws (bad padding, wrong key).
   */
  datatype Cipher = Cipher(
    encipher: (SecretKey, Iv, string) -> seq<byte>,
    decipher: (SecretKey, Iv, seq<byte>) -> Option<string>)

  ghost predicate Invertible(c: Cipher) {
    forall key: SecretKey, iv: Iv, text: string ::
      c.decipher(key, iv, c.encipher(key, iv, text)) == Some(text)
  }

  /** The exceptions `decrypt` can throw, in the order Node raises them. */
  datatype DecryptError =
    | InvalidIv        // createDecipheriv: the IV hex does not decode to 16 bytes
    | MissingData      // decipher.update(undefined): no second piece after the split
    | OddLengthData    // decipher.update(data, 'hex'): hex input of odd length is refused
    | BadDecrypt       // decipher.final: the data does not decipher

  /** `encrypt(text)` with the IV that `crypto.randomBytes(16)` produced. */
  function Encrypt(key: SecretKey, iv: Iv, text: string, c: Cipher): (r: string)
    ensures |r| >= 2 * IvLength + 1 && r[2 * IvLength] == ':'
    ensures r[..2 * IvLength] == HexEncode(iv)
    ensures forall i | 0 <= i < |r| && i != 2 * IvLength :: IsLowerHexChar(r[i]) && IsHexChar(r[i])
  {
    HexEncode(iv) + ":" + HexEncode(c.encipher(key, iv, text))
  }

  /**
   * `decrypt(encryptedText)`: split on ':', use the first two pieces. The IV
   * is checked first, then the presence of a data piece, then its hex length,
   * and only then is the data deciphered.
   */
  function Decrypt(key: SecretKey, encryptedText: string, c: Cipher): (r: Result<string, DecryptError>)
    ensures var parts := Split(encryptedText, ':');
      var ivOk := |HexDecode(parts[0])| == IvLength;
      && (r == Err(InvalidIv) <==> !ivOk)
      && (r == Err(MissingData) <==> ivOk && |parts| < 2)
      && (r == Err(OddLengthData) <==> ivOk && |parts| >= 2 && |parts[1]| % 2 == 1)
      && (r.Ok? ==> ivOk && |parts| >= 2 && |parts[1]| % 2 == 0
                    && c.decipher(key, HexDecode(parts[0]), HexDecode(parts[1])) == Some(r.value))
      && (ivOk && |parts| >= 2 && |parts[1]| % 2 == 0 ==>
            r == match c.decipher(key, HexDecode(parts[0]), HexDecode(parts[1]))
                 case None => Err(BadDecrypt)
                 case Some(text) => Ok(text))
  {
    var parts := Split(encryptedText, ':');
    var iv := HexDecode(parts[0]);
    if |iv| != IvLength then Err(InvalidIv)
    else if |parts| < 2 then Err(MissingData)
    else if |parts[1]| % 2 == 1 then Err(OddLengthData)
    else match c.decipher(key, iv, HexDecode(parts[1]))
      case None => Err(BadDecrypt)
      case Some(text) => Ok(text)
  }

  /** Hex text never contains the ':' that separates IV and data. */
  lemma HexHasNoColon(bs: seq<byte>)
    ensures ':' !in HexEncode(bs)
  {
  }

  /** Splitting encrypt's output on ':' recovers exactly the IV hex and the data hex. */
  lemma EncryptFraming(key: SecretKey, iv: Iv, text: string, c: Cipher)
    ensures Split(Encrypt(key, iv, text, c), ':')
         == [HexEncode(iv), HexEncode(c.encipher(key, iv, text))]
  {
    var data := c.encipher(key, iv, text);
    HexHasNoColon(iv);
    HexHasNoColon(data);
    SplitTwo(HexEncode(iv), HexEncode(data), ':');
  }

  lemma TwiceIsEven(n: nat)
    ensures (2 * n) % 2 == 0
  {
  }

  /** Decrypting what encrypt produced gives back the plaintext, for any IV. */
  lemma DecryptEncrypt(key: SecretKey, iv: Iv, text: string, c: Cipher)
    requires Invertible(c)
    ensures Decrypt(key, Encrypt(key, iv, text, c), c) == Ok(text)
  {
    var data := c.encipher(key, iv, text);
    var framed := Encrypt(key, iv, text, c);
    EncryptFraming(key, iv, text, c);
    var parts := Split(framed, ':');
    assert parts == [HexEncode(iv), HexEncode(data)];
    HexRoundTrip(iv);
    HexRoundTrip(data);
    assert HexDecode(parts[0]) == iv && HexDecode(parts[1]) == data;
    assert |parts[1]| == 2 * |data|;
    TwiceIsEven(|data|);
    assert c.decipher(key, iv, data) == Some(text);
  }

  /**
   * A text without ':' has no data piece: decrypt throws, either on the IV
   * (createDecipheriv) or, if the whole text is a 16-byte IV hex, on the data.
   */
  lemma DecryptWithoutColon(key: SecretKey, text: string, c: Cipher)
    requires ':' !in text
    ensures Decrypt(key, text, c) == (if |HexDecode(text)| != IvLength then Err(InvalidIv) else Err(MissingData))
  {
  }
}
