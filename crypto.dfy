// The credential encryption strategies: hex encoding, the ':'-separated
// envelopes around the ciphers, and the choice of strategy by name. The
// ciphers themselves (AES-256-CBC, AES-256-GCM as in NIST SP 800-38D,
// ChaCha20-Poly1305 as in section 2.8 of RFC 8439) are parameters; what the
// model needs of them is stated as hypotheses on those parameters.
module Crypto {
  import opened Wrappers
  import opened Text

  newtype byte = x: int | 0 <= x < 256
  type Bytes = seq<byte>

  // ---------------------------------------------------------------------
  // Hex, as `buf.toString('hex')` writes it and `Buffer.from(s, 'hex')`
  // reads it.

  predicate IsHexChar(c: char)
  {
    ('0' <= c <= '9') || ('a' <= c <= 'f')
  }

  /** One lower-case hex digit. */
  function HexDigit(v: int): (c: char)
    requires 0 <= v < 16
    ensures IsHexChar(c) && NibbleValue(c) == Some(v)
  {
    if v < 10 then ('0' as int + v) as char else ('a' as int + v - 10) as char
  }

  /** The value of a hex digit of either case; None for any other character. */
  function NibbleValue(c: char): (v: Option<int>)
    ensures v.Some? ==> 0 <= v.value < 16
  {
    if '0' <= c <= '9' then Some(c as int - '0' as int)
    else if 'a' <= c <= 'f' then Some(c as int - 'a' as int + 10)
    else if 'A' <= c <= 'F' then Some(c as int - 'A' as int + 10)
    else None
  }

  /** `toString('hex')`: two lower-case digits per byte, high nibble first. */
  function Hex(b: Bytes): (s: string)
    ensures |s| == 2 * |b|
    ensures forall i :: 0 <= i < |s| ==> IsHexChar(s[i])
  {
    if |b| == 0 then "" else [HexDigit(b[0] as int / 16), HexDigit(b[0] as int % 16)] + Hex(b[1..])
  }

  /** `Buffer.from(s, 'hex')`: pairs of digits, up to the first pair that is
    * not two hex digits; a trailing odd digit is dropped. */
  function FromHex(s: string): (b: Bytes)
    ensures |b| <= |s| / 2
    decreases |s|
  {
    if |s| < 2 then []
    else match (NibbleValue(s[0]), NibbleValue(s[1]))
      case (Some(h), Some(l)) => [(16 * h + l) as byte] + FromHex(s[2..])
      case _ => []
  }

  /** Hex output never contains the envelope separator. */
  lemma HexHasNoColon(b: Bytes)
    ensures ':' !in Hex(b)
  {
    var s := Hex(b);
    forall i | 0 <= i < |s| ensures s[i] != ':' {
      assert IsHexChar(s[i]);
    }
  }

  /** Reading hex back gives the bytes that were written. */
  lemma {:induction false} FromHexHex(b: Bytes)
    ensures FromHex(Hex(b)) == b
  {
    if |b| > 0 {
      var x := b[0] as int;
      var s := Hex(b);
      assert s == [HexDigit(x / 16), HexDigit(x % 16)] + Hex(b[1..]);
      assert s[2..] == Hex(b[1..]);
      FromHexHex(b[1..]);
      assert 16 * (x / 16) + x % 16 == x;
      assert b == [b[0]] + b[1..];
    }
  }

  // ---------------------------------------------------------------------
  // The ciphers, as parameters.

  /** A block cipher mode without authentication, as the `crypto` module's
    * cipher and decipher objects: key, IV and data in; any failure (a key or
    * IV of the wrong length, bad padding) is an Err. */
  datatype BlockCipher = BlockCipher(
    encrypt: (Bytes, Bytes, string) -> Result<Bytes, string>,
    decrypt: (Bytes, Bytes, Bytes) -> Result<string, string>)

  /** An authenticated cipher: sealing yields the authentication tag and the
    * ciphertext; opening takes the tag back and fails on a mismatch. */
  datatype Aead = Aead(
    seal: (Bytes, Bytes, string) -> Result<(Bytes, Bytes), string>,
    open: (Bytes, Bytes, Bytes, Bytes) -> Result<string, string>)

  /** The three ciphers the strategies use. */
  datatype CryptoLib = CryptoLib(aesCbc: BlockCipher, aesGcm: Aead, chacha20: Aead)

  /** Decryption undoes a successful encryption under the same key and IV. */
  ghost predicate Inverts(c: BlockCipher)
  {
    forall k, iv, p :: c.encrypt(k, iv, p).Ok? ==> c.decrypt(k, iv, c.encrypt(k, iv, p).value) == Ok(p)
  }

  /** A successful seal yields a tag of the configured length, and opening
    * with that tag gives the plaintext back. */
  ghost predicate Sound(a: Aead)
  {
    forall k, iv, p :: a.seal(k, iv, p).Ok? ==>
      && |a.seal(k, iv, p).value.0| == AuthTagLength
      && a.open(k, iv, a.seal(k, iv, p).value.0, a.seal(k, iv, p).value.1) == Ok(p)
  }

  /** Opening a sealed ciphertext with any tag other than its own fails. */
  ghost predicate Authentic(a: Aead)
  {
    forall k, iv, p, tag :: a.seal(k, iv, p).Ok? && tag != a.seal(k, iv, p).value.0 ==>
      a.open(k, iv, tag, a.seal(k, iv, p).value.1).Err?
  }

  ghost predicate LibSound(lib: CryptoLib)
  {
    Inverts(lib.aesCbc) && Sound(lib.aesGcm) && Sound(lib.chacha20)
  }

  // ---------------------------------------------------------------------
  // The strategies.

  datatype Strategy = AesCbcStrategy | AesGcmStrategy | ChaCha20Strategy

  const AuthTagLength: nat := 16
  const MalformedEnvelope := "envelope has too few ':'-separated fields"

  /** The number of random bytes each encryption draws for its IV or nonce. */
  function IvLength(s: Strategy): (n: nat)
    ensures n == 16 || n == 12
  {
    match s
    case AesCbcStrategy => 16
    case AesGcmStrategy => 12
    case ChaCha20Strategy => 12
  }

  /** The CBC envelope `hex(iv):hex(ct)`; the key is read from hex. */
  function CbcEncrypt(c: BlockCipher, plaintext: string, key: string, iv: Bytes): (r: Result<string, string>)
    ensures r.Ok? <==> c.encrypt(FromHex(key), iv, plaintext).Ok?
    ensures r.Ok? ==> |r.value| == 2 * |iv| + 1 + 2 * |c.encrypt(FromHex(key), iv, plaintext).value|
  {
    match c.encrypt(FromHex(key), iv, plaintext)
    case Ok(ct) => Ok(Hex(iv) + ":" + Hex(ct))
    case Err(e) => Err(e)
  }

  /** The first field is the IV and the second the ciphertext; any further
    * field is ignored, and a missing second field fails. */
  function CbcDecrypt(c: BlockCipher, ciphertext: string, key: string): (r: Result<string, string>)
    ensures |Split(ciphertext, ':')| < 2 ==> r == Err(MalformedEnvelope)
    ensures r.Ok? ==> exists iv, ct :: c.decrypt(FromHex(key), iv, ct) == r
  {
    var parts := Split(ciphertext, ':');
    if |parts| < 2 then Err(MalformedEnvelope)
    else c.decrypt(FromHex(key), FromHex(parts[0]), FromHex(parts[1]))
  }

  /** The authenticated envelope `hex(iv):hex(tag):hex(ct)`, shared by the
    * AES-GCM and the ChaCha20-Poly1305 strategies. */
  function AeadEncrypt(a: Aead, plaintext: string, key: string, iv: Bytes): (r: Result<string, string>)
    ensures r.Ok? <==> a.seal(FromHex(key), iv, plaintext).Ok?
  {
    match a.seal(FromHex(key), iv, plaintext)
    case Ok(sealed) => Ok(Hex(iv) + ":" + Hex(sealed.0) + ":" + Hex(sealed.1))
    case Err(e) => Err(e)
  }

  /** Fields in the order they were written: IV, tag, ciphertext. */
  function AeadDecrypt(a: Aead, ciphertext: string, key: string): (r: Result<string, string>)
    ensures |Split(ciphertext, ':')| < 3 ==> r == Err(MalformedEnvelope)
    ensures r.Ok? ==> exists iv, tag, ct :: a.open(FromHex(key), iv, tag, ct) == r
  {
    var parts := Split(ciphertext, ':');
    if |parts| < 3 then Err(MalformedEnvelope)
    else a.open(FromHex(key), FromHex(parts[0]), FromHex(parts[1]), FromHex(parts[2]))
  }

  /** A strategy's encryption with the IV it drew at random. */
  function Encrypt(lib: CryptoLib, s: Strategy, plaintext: string, key: string, iv: Bytes): (r: Result<string, string>)
    requires |iv| == IvLength(s)
    ensures r.Ok? ==> ':' in r.value
  {
    HexHasNoColon(iv);
    match s
    case AesCbcStrategy => CbcEncrypt(lib.aesCbc, plaintext, key, iv)
    case AesGcmStrategy => AeadEncrypt(lib.aesGcm, plaintext, key, iv)
    case ChaCha20Strategy => AeadEncrypt(lib.chacha20, plaintext, key, iv)
  }

  function Decrypt(lib: CryptoLib, s: Strategy, ciphertext: string, key: string): (r: Result<string, string>)
    ensures ':' !in ciphertext ==> r == Err(MalformedEnvelope)
  {
    SplitNoSeparatorIsOne(ciphertext);
    match s
    case AesCbcStrategy => CbcDecrypt(lib.aesCbc, ciphertext, key)
    case AesGcmStrategy => AeadDecrypt(lib.aesGcm, ciphertext, key)
    case ChaCha20Strategy => AeadDecrypt(lib.chacha20, ciphertext, key)
  }

  lemma SplitNoSeparatorIsOne(s: string)
    ensures ':' !in s ==> |Split(s, ':')| == 1
  {
    if ':' !in s {
      SplitNoSeparator(s, ':');
    }
  }

  /** The CBC envelope has two fields, the IV's hex of 32 digits first. */
  lemma CbcLayout(c: BlockCipher, plaintext: string, key: string, iv: Bytes)
    requires |iv| == IvLength(AesCbcStrategy)
    requires c.encrypt(FromHex(key), iv, plaintext).Ok?
    ensures Split(CbcEncrypt(c, plaintext, key, iv).value, ':')
         == [Hex(iv), Hex(c.encrypt(FromHex(key), iv, plaintext).value)]
    ensures |Split(CbcEncrypt(c, plaintext, key, iv).value, ':')[0]| == 32
  {
    var ct := c.encrypt(FromHex(key), iv, plaintext).value;
    HexHasNoColon(iv);
    HexHasNoColon(ct);
    SplitJoin([Hex(iv), Hex(ct)], ':');
    assert Join([Hex(iv), Hex(ct)], ':') == Hex(iv) + ":" + Hex(ct);
  }

  /** The authenticated envelope has three fields: 24 digits of IV, 32 of
    * tag, then the ciphertext. */
  lemma AeadLayout(a: Aead, plaintext: string, key: string, iv: Bytes)
    requires Sound(a) && |iv| == 12
    requires a.seal(FromHex(key), iv, plaintext).Ok?
    ensures var sealed := a.seal(FromHex(key), iv, plaintext).value;
      && Split(AeadEncrypt(a, plaintext, key, iv).value, ':') == [Hex(iv), Hex(sealed.0), Hex(sealed.1)]
      && |Hex(iv)| == 24 && |Hex(sealed.0)| == 32
  {
    var sealed := a.seal(FromHex(key), iv, plaintext).value;
    HexHasNoColon(iv);
    HexHasNoColon(sealed.0);
    HexHasNoColon(sealed.1);
    var parts := [Hex(iv), Hex(sealed.0), Hex(sealed.1)];
    SplitJoin(parts, ':');
    assert Join(parts[1..], ':') == Hex(sealed.0) + ":" + Hex(sealed.1);
    assert Join(parts, ':') == Hex(iv) + ":" + Hex(sealed.0) + ":" + Hex(sealed.1);
  }

  /** Decryption undoes encryption, for each strategy, with the same key. */
  lemma RoundTrip(lib: CryptoLib, s: Strategy, plaintext: string, key: string, iv: Bytes)
    requires LibSound(lib) && |iv| == IvLength(s)
    requires Encrypt(lib, s, plaintext, key, iv).Ok?
    ensures Decrypt(lib, s, Encrypt(lib, s, plaintext, key, iv).value, key) == Ok(plaintext)
  {
    var k := FromHex(key);
    match s
    case AesCbcStrategy =>
      CbcLayout(lib.aesCbc, plaintext, key, iv);
      FromHexHex(iv);
      FromHexHex(lib.aesCbc.encrypt(k, iv, plaintext).value);
    case AesGcmStrategy =>
      AeadLayout(lib.aesGcm, plaintext, key, iv);
      FromHexHex(iv);
      FromHexHex(lib.aesGcm.seal(k, iv, plaintext).value.0);
      FromHexHex(lib.aesGcm.seal(k, iv, plaintext).value.1);
    case ChaCha20Strategy =>
      AeadLayout(lib.chacha20, plaintext, key, iv);
      FromHexHex(iv);
      FromHexHex(lib.chacha20.seal(k, iv, plaintext).value.0);
      FromHexHex(lib.chacha20.seal(k, iv, plaintext).value.1);
  }

  /** An authenticated envelope whose tag field was replaced by another tag
    * of the same length fails to decrypt instead of yielding a plaintext. */
  lemma TamperedTagRejected(a: Aead, plaintext: string, key: string, iv: Bytes, forged: Bytes)
    requires Authentic(a)
    requires a.seal(FromHex(key), iv, plaintext).Ok?
    requires forged != a.seal(FromHex(key), iv, plaintext).value.0
    ensures var sealed := a.seal(FromHex(key), iv, plaintext).value;
      AeadDecrypt(a, Hex(iv) + ":" + Hex(forged) + ":" + Hex(sealed.1), key).Err?
  {
    var k := FromHex(key);
    var sealed := a.seal(k, iv, plaintext).value;
    var env := Hex(iv) + ":" + Hex(forged) + ":" + Hex(sealed.1);
    HexHasNoColon(iv);
    HexHasNoColon(forged);
    HexHasNoColon(sealed.1);
    var parts := [Hex(iv), Hex(forged), Hex(sealed.1)];
    SplitJoin(parts, ':');
    assert Join(parts[1..], ':') == Hex(forged) + ":" + Hex(sealed.1);
    assert Join(parts, ':') == env;
    FromHexHex(iv);
    FromHexHex(forged);
    FromHexHex(sealed.1);
    assert AeadDecrypt(a, env, key) == a.open(k, iv, forged, sealed.1);
  }

  // ---------------------------------------------------------------------
  // The strategy table.

  const UnknownStrategyMessage := "Unknown encryption strategy: "

  function NameOf(s: Strategy): string
  {
    match s
    case AesCbcStrategy => "aes-cbc"
    case AesGcmStrategy => "aes-gcm"
    case ChaCha20Strategy => "chacha20"
  }

  /** The lookup in the strategy table. An absent name (`undefined`) is
    * reported as such in the message. */
  function StrategyNamed(name: Option<string>): (r: Result<Strategy, string>)
    ensures r.Ok? <==> name == Some("aes-cbc") || name == Some("aes-gcm") || name == Some("chacha20")
    ensures r.Err? ==> r.error == UnknownStrategyMessage + (if name.Some? then name.value else "undefined")
  {
    match name
    case Some("aes-cbc") => Ok(AesCbcStrategy)
    case Some("aes-gcm") => Ok(AesGcmStrategy)
    case Some("chacha20") => Ok(ChaCha20Strategy)
    case Some(n) => Err(UnknownStrategyMessage + n)
    case None => Err(UnknownStrategyMessage + "undefined")
  }

  /** Each strategy's name selects exactly that strategy. */
  lemma NamesSelect(s: Strategy)
    ensures StrategyNamed(Some(NameOf(s))) == Ok(s)
    ensures forall t :: StrategyNamed(Some(NameOf(t))) == Ok(s) ==> t == s
  {
  }
}
