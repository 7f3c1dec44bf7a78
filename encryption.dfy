// The encryption context: one replaceable strategy behind encrypt and
// decrypt, and the factory that builds a context from a strategy name.
module Encryption {
  import opened Wrappers
  import opened Crypto

  class EncryptionContext {
    var strategy: Strategy

    constructor (strategy: Strategy)
      ensures this.strategy == strategy
    {
      this.strategy := strategy;
    }

    /** Later calls use the new strategy. */
    method SetStrategy(strategy: Strategy)
      modifies this
      ensures this.strategy == strategy
    {
      this.strategy := strategy;
    }

    /** The current strategy's encryption, with the IV it draws. */
    function Encrypt(lib: CryptoLib, plaintext: string, key: string, iv: Bytes): (r: Result<string, string>)
      reads this
      requires |iv| == IvLength(strategy)
      ensures r.Ok? ==> ':' in r.value
    {
      Crypto.Encrypt(lib, strategy, plaintext, key, iv)
    }

    /** The current strategy's decryption. */
    function Decrypt(lib: CryptoLib, ciphertext: string, key: string): (r: Result<string, string>)
      reads this
      ensures ':' !in ciphertext ==> r == Err(MalformedEnvelope)
    {
      Crypto.Decrypt(lib, strategy, ciphertext, key)
    }
  }

  /** What a context gives back: its own decryption undoes its own
    * encryption, whichever strategy it holds. */
  lemma ContextRoundTrip(ctx: EncryptionContext, lib: CryptoLib, plaintext: string, key: string, iv: Bytes)
    requires LibSound(lib) && |iv| == IvLength(ctx.strategy)
    requires ctx.Encrypt(lib, plaintext, key, iv).Ok?
    ensures ctx.Decrypt(lib, ctx.Encrypt(lib, plaintext, key, iv).value, key) == Ok(plaintext)
  {
    RoundTrip(lib, ctx.strategy, plaintext, key, iv);
  }

  /** `createEncryptionContext`: a new context around a new strategy for a
    * known name; the table's error otherwise. */
  method CreateEncryptionContext(name: Option<string>) returns (r: Result<EncryptionContext, string>)
    ensures match StrategyNamed(name)
      case Ok(s) => r.Ok? && fresh(r.value) && r.value.strategy == s
      case Err(m) => r == Err(m)
  {
    var found := StrategyNamed(name);
    if found.Err? {
      return Err(found.error);
    }
    var ctx := new EncryptionContext(found.value);
    r := Ok(ctx);
  }
}
