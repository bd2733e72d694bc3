/**
 * The message that authorises a layer 2 transaction, and its check (pkg/db/naive_parser.go). Hashing and public key
 * recovery are one unknown function of message and signature.
 */
module Signing {
  import opened ByteStrings
  import opened Outcomes
  import opened Points
  import BatchParser

  /** An address derived from a public key; assumed never to be the zero address. */
  type Signer = a: Address | a != ZERO_ADDRESS witness []

  /** The signer of a message, if the signature is one. */
  type Recovery = (Bytes, Bytes) -> Option<Signer>

  /** The ASCII codes of "UrbitIDV1Chain", the chain id "1" and ":". */
  const SALT: Bytes := [85, 114, 98, 105, 116, 73, 68, 86, 49, 67, 104, 97, 105, 110, 49, 58]

  /** The ASCII codes of "Ethereum Signed Message:" after byte 0x19 and before a newline. */
  const ARMOR: Bytes :=
    [0x19] + [69, 116, 104, 101, 114, 101, 117, 109, 32] + [83, 105, 103, 110, 101, 100, 32]
    + [77, 101, 115, 115, 97, 103, 101, 58] + [10]

  /** Salt, little endian nonce, and the transaction reversed. */
  function Prepared(nonce: uint32, raw: Bytes): Bytes {
    SALT + ToLE32(nonce) + Reversed(raw)
  }

  /** Version 0x45 (E) of EIP-191: the payload's length is written in decimal, without padding or separator. */
  function SignedMessage(nonce: uint32, raw: Bytes): Bytes {
    ARMOR + Decimal(|Prepared(nonce, raw)|) + Prepared(nonce, raw)
  }

  /** Some wallets add 27 to the recovery byte. */
  function NormalSignature(signature: Bytes): Bytes {
    var n := |signature| - 1;
    if n >= 0 && signature[n] >= 27 then signature[n := signature[n] - 27] else signature
  }

  /** The message that must have been signed for `tx`, given its source's row. */
  function MessageFor(tx: BatchParser.NaiveTx, p: Point): Bytes
    requires Readable(p)
  {
    ReadableNonce(p, tx.proxy);
    SignedMessage(NonceOf(p, tx.proxy), tx.raw)
  }

  /** Whether `tx` was signed by the role it acts for; a signature from which no key can be recovered panics. */
  function Verdict(recover: Recovery, tx: BatchParser.NaiveTx, p: Point): Result<bool>
    requires Readable(p)
  {
    match recover(MessageFor(tx, p), NormalSignature(tx.signature))
    case None => Panic
    case Some(signer) => Ok(signer == AddressOf(p, tx.proxy))
  }

  // ---------------------------------------------------------------- the program

  method ReverseCopy(b: Bytes) returns (r: array<byte>)
    ensures fresh(r) && r[..] == Reversed(b)
  {
    r := new byte[|b|](i requires 0 <= i < |b| => b[i]);
    var i, j := 0, |b| - 1;
    while i < j
      invariant 0 <= i <= |b| && j == |b| - 1 - i
      invariant i <= j + 1
      invariant forall k :: 0 <= k < i ==> r[k] == b[|b| - 1 - k] && r[|b| - 1 - k] == b[k]
      invariant forall k :: i <= k <= j ==> r[k] == b[k]
    {
      r[i], r[j] := r[j], r[i];
      i, j := i + 1, j - 1;
    }
  }

  method VerifySignature(recover: Recovery, tx: BatchParser.NaiveTx, p: Point) returns (r: Result<bool>)
    requires Readable(p) && |tx.signature| == 65
    ensures r == Verdict(recover, tx, p)
  {
    ReadableNonce(p, tx.proxy);
    var proxyAddress, proxyNonce := ZERO_ADDRESS, 0;
    match tx.proxy {
      case 0 => proxyAddress, proxyNonce := p.addresses.owner, p.nonces.owner;
      case 1 => proxyAddress, proxyNonce := p.addresses.spawn, p.nonces.spawn;
      case 2 => proxyAddress, proxyNonce := p.addresses.management, p.nonces.management;
      case 3 => proxyAddress, proxyNonce := p.addresses.voting, p.nonces.voting;
      case 4 => proxyAddress, proxyNonce := p.addresses.transfer, p.nonces.transfer;
      case _ =>
    }
    assert proxyAddress == AddressOf(p, tx.proxy) && proxyNonce == NonceOf(p, tx.proxy);
    var reversed := ReverseCopy(tx.raw);
    var prepared := SALT;
    prepared := prepared + ToLE32(proxyNonce);
    prepared := prepared + reversed[..];
    var signed := ARMOR;
    signed := signed + Decimal(|prepared|);
    signed := signed + prepared;
    var signature := tx.signature;
    if signature[64] >= 27 {
      signature := signature[64 := signature[64] - 27];
    }
    match recover(signed, signature) {
      case None => return Panic;
      case Some(address) => return Ok(address == proxyAddress);
    }
  }

  // ---------------------------------------------------------------- injectivity

  ghost function LeadingDigits(s: Bytes): nat {
    if s == [] || !IsDigit(s[0]) then 0 else 1 + LeadingDigits(s[1..])
  }

  lemma {:induction false} LeadingDigitsOf(digits: Bytes, rest: Bytes)
    requires rest != [] && !IsDigit(rest[0]) && forall i :: 0 <= i < |digits| ==> IsDigit(digits[i])
    ensures LeadingDigits(digits + rest) == |digits|
  {
    if digits == [] {
      assert digits + rest == rest;
    } else {
      assert (digits + rest)[1..] == digits[1..] + rest;
      LeadingDigitsOf(digits[1..], rest);
    }
  }

  /** The decimal digits of a number, put in front of a byte that is no digit, determine the number and the rest. */
  lemma DigitsThenRest(m: nat, n: nat, a: Bytes, b: Bytes)
    requires a != [] && b != [] && !IsDigit(a[0]) && !IsDigit(b[0])
    requires Decimal(m) + a == Decimal(n) + b
    ensures Decimal(m) == Decimal(n) && a == b
  {
    var d, e := Decimal(m), Decimal(n);
    LeadingDigitsOf(d, a);
    LeadingDigitsOf(e, b);
    assert d == (d + a)[..|d|] == (e + b)[..|d|] == e;
    assert a == (d + a)[|d|..] == (e + b)[|d|..] == b;
  }

  /**
   * A signed message determines the nonce and the raw transaction, of whatever length: the digits of the length end
   * where the salt begins.
   */
  lemma MessageInjective(m: uint32, a: Bytes, n: uint32, b: Bytes)
    requires SignedMessage(m, a) == SignedMessage(n, b)
    ensures m == n && a == b
  {
    hide Decimal, Reversed, ToLE32;
    var p, q := Prepared(m, a), Prepared(n, b);
    assert ARMOR + Decimal(|p|) + p == ARMOR + (Decimal(|p|) + p);
    assert ARMOR + Decimal(|q|) + q == ARMOR + (Decimal(|q|) + q);
    Cancel(ARMOR, Decimal(|p|) + p, Decimal(|q|) + q);
    assert p[0] == q[0] == 85;
    DigitsThenRest(|p|, |q|, p, q);
    assert p == SALT + (ToLE32(m) + Reversed(a)) && q == SALT + (ToLE32(n) + Reversed(b));
    Cancel(SALT, ToLE32(m) + Reversed(a), ToLE32(n) + Reversed(b));
    assert (ToLE32(m) + Reversed(a))[..4] == ToLE32(m) && (ToLE32(n) + Reversed(b))[..4] == ToLE32(n);
    LE32Injective(m, n);
    Cancel(ToLE32(m), Reversed(a), Reversed(b));
    ReversedInjective(a, b);
  }

  lemma Cancel(front: Bytes, a: Bytes, b: Bytes)
    requires front + a == front + b
    ensures a == b
  {
    assert (front + a)[|front|..] == a && (front + b)[|front|..] == b;
  }

  // ---------------------------------------------------------------- whose signature, of what

  /** `verdict` is that of comparing the key recovered under `nonce` with `address`. */
  ghost predicate Compares(recover: Recovery, tx: BatchParser.NaiveTx, nonce: uint32, address: Address,
                           verdict: Result<bool>)
  {
    match recover(SignedMessage(nonce, tx.raw), NormalSignature(tx.signature))
    case None => verdict == Panic
    case Some(signer) => verdict == Ok(signer == address)
  }

  /** Each of the five roles is checked against its own address and nonce columns; there is no other role. */
  lemma RoleColumns(recover: Recovery, tx: BatchParser.NaiveTx, p: Point)
    requires Readable(p)
    ensures var verdict := Verdict(recover, tx, p);
            && (tx.proxy == 0 ==> Compares(recover, tx, p.nonces.owner, p.addresses.owner, verdict))
            && (tx.proxy == 1 ==> Compares(recover, tx, p.nonces.spawn, p.addresses.spawn, verdict))
            && (tx.proxy == 2 ==> Compares(recover, tx, p.nonces.management, p.addresses.management, verdict))
            && (tx.proxy == 3 ==> Compares(recover, tx, p.nonces.voting, p.addresses.voting, verdict))
            && (tx.proxy == 4 ==> Compares(recover, tx, p.nonces.transfer, p.addresses.transfer, verdict))
            && (tx.proxy > 4 ==> verdict == Panic || verdict == Ok(false))
  {
    hide SignedMessage, NormalSignature;
  }

  /** Only the recovery byte is changed, and only from 27 up. */
  lemma NormalSignatureIs(signature: Bytes)
    requires |signature| == 65
    ensures var v := signature[64];
            NormalSignature(signature) == signature[..64] + [if v < 27 then v else v - 27]
  {
  }

  /** What the pieces of a signed message have to be. */
  ghost predicate MessageParts(nonce: uint32, raw: Bytes, digits: Bytes, little: Bytes, reversed: Bytes) {
    && digits != [] && digits[0] != 48 && (forall i :: 0 <= i < |digits| ==> IsDigit(digits[i]))
    && DecimalValue(digits) == 20 + |raw|
    && |little| == 4 && LittleValue(little) == nonce
    && |reversed| == |raw| && (forall i :: 0 <= i < |raw| ==> reversed[i] == raw[|raw| - 1 - i])
  }

  /**
   * The signed message announces the exact length of what follows the digits, and what follows is the salt for chain 1,
   * the nonce and the transaction.
   */
  lemma MessageIs(nonce: uint32, raw: Bytes)
    ensures exists digits, little, reversed ::
              && MessageParts(nonce, raw, digits, little, reversed)
              && SignedMessage(nonce, raw)
                 == [0x19] + Ascii("Ethereum Signed Message:") + [10] + digits
                    + (Ascii("UrbitIDV1Chain") + Ascii("1") + Ascii(":") + little + reversed)
  {
    DecimalReads(20 + |raw|);
    LittleReads(nonce);
    SaltText();
    ArmorText();
    assert |Prepared(nonce, raw)| == 20 + |raw|;
    hide Decimal, DecimalValue, ToLE32, LittleValue, Ascii, Reversed;
    assert MessageParts(nonce, raw, Decimal(20 + |raw|), ToLE32(nonce), Reversed(raw));
  }

  lemma SaltText()
    ensures SALT == Ascii("UrbitIDV1Chain") + Ascii("1") + Ascii(":")
  {
    var text := "UrbitIDV1Chain";
    assert Ascii(text) == SALT[..14];
    assert Ascii("1") == [49] && Ascii(":") == [58];
    hide Ascii;
    assert SALT == SALT[..14] + [49] + [58];
  }

  lemma ArmorText()
    ensures ARMOR == [0x19] + Ascii("Ethereum Signed Message:") + [10]
  {
    var text := "Ethereum Signed Message:";
    var one, two, three := "Ethereum ", "Signed ", "Message:";
    assert text == one + two + three;
    assert Ascii(text) == Ascii(one) + Ascii(two) + Ascii(three);
    assert Ascii(one) == [69, 116, 104, 101, 114, 101, 117, 109, 32];
    assert Ascii(two) == [83, 105, 103, 110, 101, 100, 32];
    assert Ascii(three) == [77, 101, 115, 115, 97, 103, 101, 58];
  }
}
