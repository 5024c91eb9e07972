/**
 * The token-creation route (`POST /api/pump-fun/create`): the session check,
 * the required-field check, the mock mint derived from
 * `name-symbol-timestamp` via `padEnd(32, "0").slice(0, 32)`, and the answer
 * that reports success even when building the memo transaction fails.
 *
 * `Date.now()` is the `timestamp` input. The random values, the base58 text
 * of the keys and the transaction build (blockhash fetch, fee payer,
 * serialisation) are foreign: the route as intended takes the random keys as
 * inputs, and `CreateAsWritten` models how the written code turns random
 * numbers into keys.
 */
module PumpFunCreate {
  import opened Wrappers
  import opened JsSemantics

  /** The fields the route destructures from the JSON body. */
  datatype CreateBody = CreateBody(
    name: JsValue, symbol: JsValue, description: JsValue, image: JsValue, website: JsValue, creator: JsValue)

  /**
   * The `tokenData` of the answer. The mint's base58 text is computed by the
   * key library, so the model keeps the 32 characters whose UTF-8 bytes are the key.
   */
  datatype TokenData = TokenData(
    mintSeed: string, bondingCurve: string, associatedBondingCurve: string, metadata: string, metadataUri: string)

  /** What was thrown into the outer catch. */
  datatype Failure = MalformedBody | InvalidMintKey | InvalidRandomKey

  datatype CreateResponse =
    | Unauthorized
    | MissingFields
    | ServerError(cause: Failure)
    | Created(transaction: Option<string>, tokenData: TokenData, note: Option<string>)

  function StatusOf(r: CreateResponse): (status: nat)
    ensures status == 200 <==> r.Created?
  {
    match r
    case Unauthorized => 401
    case MissingFields => 400
    case ServerError(_) => 500
    case Created(_, _, _) => 200
  }

  const SkippedNote: string := "Mock implementation - transaction simulation skipped"
  const IpfsPrefix: string := "https://ipfs.io/ipfs/Qm"

  /** `!name || !symbol || !description || !creator` is false; image and website are optional. */
  predicate HasRequiredFields(b: CreateBody) {
    Truthy(b.name) && Truthy(b.symbol) && Truthy(b.description) && Truthy(b.creator)
  }

  /** `${name}-${symbol}-${Date.now()}` */
  function MockSeed(name: string, symbol: string, timestamp: nat): (r: string)
    ensures |r| > |name| + |symbol| + 2
    ensures r[..|name|] == name && r[|name|] == '-'
    ensures r[|name| + 1..|name| + 1 + |symbol|] == symbol && r[|name| + 1 + |symbol|] == '-'
    ensures r[|name| + |symbol| + 2..] == NumberToString(timestamp)
    ensures ParseInt(r[|name| + |symbol| + 2..]) == Some(timestamp)
  {
    var r := name + "-" + symbol + "-" + NumberToString(timestamp);
    assert r[|name| + |symbol| + 2..] == NumberToString(timestamp) + "";
    ParseIntOfNumber(timestamp, "");
    r
  }

  /** `seed.padEnd(32, "0").slice(0, 32)` */
  function Seed32(seed: string): (r: string)
    ensures |r| == 32
    ensures |seed| <= 32 ==> r[..|seed|] == seed && forall i :: |seed| <= i < 32 ==> r[i] == '0'
    ensures |seed| >= 32 ==> r == seed[..32]
  {
    Slice(PadEnd(seed, 32, '0'), 0, 32)
  }

  /** `new PublicKey(Buffer.from(text))` accepts at most 32 bytes of UTF-8. */
  predicate KeyBytesFit(text: string) {
    Utf8Length(text) <= 32
  }

  /** The mock mint is accepted exactly when its 32 characters are all ASCII. */
  lemma MintAcceptedIffAscii(seed: string)
    ensures KeyBytesFit(Seed32(seed)) <==> IsAscii(Seed32(seed))
  {
    Utf8LengthBounds(Seed32(seed));
  }

  /** ASCII names and symbols always give an accepted mint (the rest of the seed is digits, dashes and zeros). */
  lemma {:induction false} AsciiNamesGiveAcceptedMint(name: string, symbol: string, timestamp: nat)
    requires IsAscii(name) && IsAscii(symbol)
    ensures KeyBytesFit(Seed32(MockSeed(name, symbol, timestamp)))
  {
    var seed := MockSeed(name, symbol, timestamp);
    var digits := NumberToString(timestamp);
    assert IsAscii(seed) by {
      forall i | 0 <= i < |seed| ensures seed[i] as int < 0x80 {
        if i < |name| {
          assert seed[i] == name[i];
        } else if i == |name| || i == |name| + 1 + |symbol| {
          assert seed[i] == '-';
        } else if i < |name| + 1 + |symbol| {
          assert seed[i] == symbol[i - |name| - 1];
        } else {
          assert seed[i] == digits[i - |name| - |symbol| - 2];
        }
      }
    }
    var padded := Seed32(seed);
    assert IsAscii(padded) by {
      forall i | 0 <= i < 32 ensures padded[i] as int < 0x80 {
        if i < |seed| {
          if |seed| <= 32 { assert padded[i] == padded[..|seed|][i]; }
          assert padded[i] == seed[i];
        }
      }
    }
    MintAcceptedIffAscii(seed);
  }

  /** ``Token: ${symbol} created for ${name}``, the memo the transaction carries. */
  function MemoText(symbol: string, name: string): (r: string)
    ensures |r| == |symbol| + |name| + 20
    ensures r[..7] == "Token: " && r[7..7 + |symbol|] == symbol && r[|r| - |name|..] == name
    ensures r[7 + |symbol|..|r| - |name|] == " created for "
  {
    "Token: " + symbol + " created for " + name
  }

  /** The random values of one request, already turned into base58 addresses and an IPFS tag. */
  datatype RandomKeys = RandomKeys(bondingCurve: string, associatedBondingCurve: string, metadata: string, uriTag: string)

  /** The `tokenData` built once the mint is accepted. */
  function MockTokenData(mintSeed: string, keys: RandomKeys): (t: TokenData)
    ensures t.mintSeed == mintSeed && t.metadataUri == IpfsPrefix + keys.uriTag
  {
    TokenData(mintSeed, keys.bondingCurve, keys.associatedBondingCurve, keys.metadata, IpfsPrefix + keys.uriTag)
  }

  /** The answer once the token data exists: with the serialised transaction, or without it and with a note. */
  function AnswerWith(data: TokenData, tx: Call<string>): (r: CreateResponse)
    ensures r.Created? && r.tokenData == data
    ensures tx.Returned? ==> r.transaction == Some(tx.value) && r.note.None?
    ensures tx.Threw? ==> r.transaction.None? && r.note == Some(SkippedNote)
  {
    match tx
    case Returned(t) => Created(Some(t), data, None)
    case Threw => Created(None, data, Some(SkippedNote))
  }

  /**
   * The route as its authors intended it. `signedIn` is the session check,
   * `body` the parsed JSON (`None` when it cannot be read), and
   * `buildTx(memo, creator)` the transaction build, which may throw.
   */
  function Create(signedIn: bool, body: Option<CreateBody>, timestamp: nat, keys: RandomKeys,
                  buildTx: (string, string) -> Call<string>): (r: CreateResponse)
    ensures !signedIn <==> r.Unauthorized?
    ensures signedIn && body.None? ==> r == ServerError(MalformedBody)
    ensures r.MissingFields? <==> signedIn && body.Some? && !HasRequiredFields(body.value)
    ensures signedIn && body.Some? && HasRequiredFields(body.value) ==>
      var b := body.value;
      var mintSeed := Seed32(MockSeed(b.name.s, b.symbol.s, timestamp));
      && (!KeyBytesFit(mintSeed) ==> r == ServerError(InvalidMintKey))
      && (KeyBytesFit(mintSeed) ==>
            && r.Created?
            && r.tokenData == MockTokenData(mintSeed, keys)
            && r == AnswerWith(r.tokenData, buildTx(MemoText(b.symbol.s, b.name.s), b.creator.s)))
  {
    if !signedIn then Unauthorized
    else if body.None? then ServerError(MalformedBody)
    else
      var b := body.value;
      if !HasRequiredFields(b) then MissingFields
      else
        var mintSeed := Seed32(MockSeed(b.name.s, b.symbol.s, timestamp));
        if !KeyBytesFit(mintSeed) then ServerError(InvalidMintKey)
        else AnswerWith(MockTokenData(mintSeed, keys), buildTx(MemoText(b.symbol.s, b.name.s), b.creator.s))
  }

  /** A valid request with an ASCII name and symbol always reports success, whatever the transaction build does. */
  lemma CreateSucceeds(body: CreateBody, timestamp: nat, keys: RandomKeys, buildTx: (string, string) -> Call<string>)
    requires HasRequiredFields(body) && IsAscii(body.name.s) && IsAscii(body.symbol.s)
    ensures var r := Create(true, Some(body), timestamp, keys, buildTx);
      r.Created? && StatusOf(r) == 200 &&
      r.tokenData.mintSeed == Seed32(MockSeed(body.name.s, body.symbol.s, timestamp))
  {
    AsciiNamesGiveAcceptedMint(body.name.s, body.symbol.s, timestamp);
  }

  /** The image and website fields never change the answer. */
  lemma OptionalFieldsIgnored(signedIn: bool, body: CreateBody, image: JsValue, website: JsValue, timestamp: nat,
                              keys: RandomKeys, buildTx: (string, string) -> Call<string>)
    ensures Create(signedIn, Some(body), timestamp, keys, buildTx) ==
            Create(signedIn, Some(body.(image := image, website := website)), timestamp, keys, buildTx)
  {
  }

  // ---------------------------------------------------------------------
  // The route as written: `new PublicKey(Math.random().toString())`

  /** The base58 alphabet: digits and letters without `0`, `O`, `I` and `l`. */
  predicate IsBase58Char(c: char) {
    || ('1' <= c <= '9')
    || ('A' <= c <= 'H') || ('J' <= c <= 'N') || ('P' <= c <= 'Z')
    || ('a' <= c <= 'k') || ('m' <= c <= 'z')
  }

  /** `new PublicKey(text)` decodes `text` as base58 and throws on any other character. */
  predicate IsBase58(t: string) {
    forall i :: 0 <= i < |t| ==> IsBase58Char(t[i])
  }

  /**
   * The text `Number.prototype.toString` gives for a value of `Math.random()`:
   * `"0"`, a decimal `"0.…"`, or for values below 1e-6 a form with exponent `e-…`.
   */
  predicate IsRandomNumberText(t: string) {
    || t == "0"
    || (|t| > 2 && t[0] == '0' && t[1] == '.')
    || (exists i :: 0 <= i < |t| - 1 && t[i] == 'e' && t[i + 1] == '-')
  }

  /** No such text is base58: `0`, `.` and `-` are all outside the alphabet. */
  lemma RandomNumberTextIsNotBase58(t: string)
    requires IsRandomNumberText(t)
    ensures !IsBase58(t)
  {
    if t == "0" || (|t| > 2 && t[0] == '0' && t[1] == '.') {
      assert !IsBase58Char(t[0]);
    } else {
      var i :| 0 <= i < |t| - 1 && t[i] == 'e' && t[i + 1] == '-';
      assert !IsBase58Char(t[i + 1]);
    }
  }

  /**
   * The route as written: the three "random" keys are built from the texts of
   * three `Math.random()` values (only their alphabet is checked here; the
   * decoded length is not modelled).
   */
  function CreateAsWritten(signedIn: bool, body: Option<CreateBody>, timestamp: nat,
                           randomTexts: (string, string, string), uriTag: string,
                           buildTx: (string, string) -> Call<string>): (r: CreateResponse)
    ensures !(IsBase58(randomTexts.0) && IsBase58(randomTexts.1) && IsBase58(randomTexts.2)) ==> !r.Created?
  {
    if !signedIn then Unauthorized
    else if body.None? then ServerError(MalformedBody)
    else
      var b := body.value;
      if !HasRequiredFields(b) then MissingFields
      else
        var mintSeed := Seed32(MockSeed(b.name.s, b.symbol.s, timestamp));
        if !KeyBytesFit(mintSeed) then ServerError(InvalidMintKey)
        else if !(IsBase58(randomTexts.0) && IsBase58(randomTexts.1) && IsBase58(randomTexts.2)) then
          ServerError(InvalidRandomKey)
        else
          var keys := RandomKeys(randomTexts.0, randomTexts.1, randomTexts.2, uriTag);
          AnswerWith(MockTokenData(mintSeed, keys), buildTx(MemoText(b.symbol.s, b.name.s), b.creator.s))
  }

  /** As written, every request that passes validation ends in the outer catch with status 500. */
  lemma AsWrittenNeverCreates(body: CreateBody, timestamp: nat, randomTexts: (string, string, string),
                              uriTag: string, buildTx: (string, string) -> Call<string>)
    requires HasRequiredFields(body)
    requires IsRandomNumberText(randomTexts.0) && IsRandomNumberText(randomTexts.1) && IsRandomNumberText(randomTexts.2)
    ensures var r := CreateAsWritten(true, Some(body), timestamp, randomTexts, uriTag, buildTx);
      r.ServerError? && StatusOf(r) == 500
  {
    RandomNumberTextIsNotBase58(randomTexts.0);
  }
}
