/** The part of the bcrypt library the domain relies on: the textual form of a
    hash ("$2a$14$" followed by a 22-character salt and a 31-character digest),
    how a stored hash is split back into its fields, and how a candidate password
    is compared. The expensive Blowfish key schedule itself is a parameter of type
    `Digest`: a total function, about whose values nothing is assumed. */
module Bcrypt {
  import opened Results

  const MajorVersion: char := '2'
  const MinorVersion: char := 'a'
  const MinCost: int := 4
  const MaxCost: int := 31
  const DefaultCost: int := 10
  const EncodedSaltSize: nat := 22
  const EncodedHashSize: nat := 31
  /** A stored hash shorter than this is rejected before it is parsed. */
  const MinHashSize: nat := 59

  /** A natural number in decimal, as `%d` writes it. */
  function DecimalText(n: nat): string {
    if n < 10 then [('0' as int + n) as char] else DecimalText(n / 10) + DecimalText(n % 10)
  }

  /** The library's `InvalidCostError` message. */
  function InvalidCostError(cost: nat): (s: string) {
    "crypto/bcrypt: cost " + DecimalText(cost) + " is outside allowed range ("
      + DecimalText(MinCost) + "," + DecimalText(MaxCost) + ")"
  }

  /** The random 16-byte salt after base64 encoding: always 22 characters. */
  type EncodedSalt = s: string | |s| == 22 witness "0000000000000000000000"

  /** The Blowfish output after base64 encoding: always 31 characters. */
  type EncodedDigest = s: string | |s| == 31 witness "0000000000000000000000000000000"

  /** The key schedule and encryption at a given cost and salt, left abstract. */
  type Digest = (int, EncodedSalt, string) -> EncodedDigest

  /** The fields of a hash, as the library's `hashed` record holds them. */
  datatype Hashed = Hashed(major: char, minor: Option<char>, cost: int, salt: EncodedSalt, hash: string)

  predicate IsDigit(c: char) {
    '0' <= c <= '9'
  }

  /** The cost written with two decimal digits, as `%02d` writes it. */
  function TwoDigits(n: int): (s: string)
    requires 0 <= n < 100
    ensures |s| == 2 && IsDigit(s[0]) && IsDigit(s[1])
  {
    [('0' as int + n / 10) as char, ('0' as int + n % 10) as char]
  }

  /** The cost read back from its two characters; None when they are not digits. */
  function ParseTwoDigits(s: string): (r: Option<int>)
    requires |s| == 2
    ensures r.Some? ==> 0 <= r.value < 100
  {
    if IsDigit(s[0]) && IsDigit(s[1]) then
      Some(10 * (s[0] as int - '0' as int) + (s[1] as int - '0' as int))
    else
      None
  }

  /** `hashed.Hash()`: "$", major, optional minor, "$", cost, "$", salt, digest. */
  function Encode(p: Hashed): (h: string)
    requires 0 <= p.cost < 100
  {
    ['$', p.major] + (if p.minor.Some? then [p.minor.value] else []) + ['$']
      + TwoDigits(p.cost) + ['$'] + p.salt + p.hash
  }

  /** `newFromHash`: splits a stored hash into its fields; None where the library
      reports an error (too short, bad prefix, too new a version, bad cost).
      As in the library, the character after the minor version and the one
      after the cost are skipped without being checked. A hash that parses has
      an allowed cost, a version no newer than the library's, and ends with its
      salt followed by its digest. */
  function Decode(h: string): (r: Option<Hashed>)
    ensures r.Some? ==> MinCost <= r.value.cost <= MaxCost
    ensures r.Some? ==> |h| >= MinHashSize && h[0] == '$' && r.value.major == h[1] <= MajorVersion
    ensures r.Some? ==> |r.value.salt| + |r.value.hash| <= |h|
                        && h[|h| - |r.value.hash| - EncodedSaltSize..] == r.value.salt + r.value.hash
  {
    if |h| < MinHashSize || h[0] != '$' || h[1] > MajorVersion then
      None
    else
      var n := if h[2] != '$' then 4 else 3;
      match ParseTwoDigits(h[n..n + 2])
      case None => None
      case Some(cost) =>
        if cost < MinCost || cost > MaxCost then
          None
        else
          var salt: EncodedSalt := h[n + 3..n + 3 + EncodedSaltSize];
          var hash := h[n + 3 + EncodedSaltSize..];
          assert h[n + 3..] == salt + hash;
          Some(Hashed(h[1], if n == 4 then Some(h[2]) else None, cost, salt, hash))
  }

  /** `GenerateFromPassword(password, cost)`, with the salt drawn from the random
      source given as `entropy` (an error there is the library's error). */
  function GenerateFromPassword(digest: Digest, password: string, cost: int, entropy: Result<EncodedSalt>): (r: Result<string>)
    ensures r.Ok? <==> cost <= MaxCost && entropy.Ok?
    ensures cost <= MaxCost && entropy.Err? ==> r == entropy
  {
    var c := if cost < MinCost then DefaultCost else cost;
    if c > MaxCost then
      Err(InvalidCostError(c))
    else
      match entropy
      case Err(e) => Err(e)
      case Ok(salt) => Ok(Encode(Hashed(MajorVersion, Some(MinorVersion), c, salt, digest(c, salt, password))))
  }

  /** True exactly when `CompareHashAndPassword(hashedPassword, password)` returns
      no error: the stored hash parses and its digest is the one the candidate
      password yields under the stored cost and salt. Since a digest has 31
      characters, only a stored text of 59 characters (no minor version) or 60
      characters (with one) can be accepted. */
  predicate CompareHashAndPassword(digest: Digest, hashedPassword: string, password: string)
    ensures CompareHashAndPassword(digest, hashedPassword, password) ==>
              Decode(hashedPassword).Some? && |hashedPassword| in {MinHashSize, MinHashSize + 1}
  {
    match Decode(hashedPassword)
    case None => false
    case Some(p) => p.hash == digest(p.cost, p.salt, password)
  }

  /** Decoding undoes encoding for every hash the library can read back. */
  lemma DecodeEncode(p: Hashed)
    requires p.major <= MajorVersion && MinCost <= p.cost <= MaxCost
    requires p.minor.Some? ==> p.minor.value != '$'
    requires |p.hash| >= EncodedHashSize
    ensures Decode(Encode(p)) == Some(p)
  {
    var h := Encode(p);
    var n := if p.minor.Some? then 4 else 3;
    var prefix := ['$', p.major] + (if p.minor.Some? then [p.minor.value] else []) + ['$'];
    assert |prefix| == n;
    assert h == prefix + TwoDigits(p.cost) + ['$'] + p.salt + p.hash;
    assert h[0] == '$' && h[1] == p.major;
    assert h[2] != '$' <==> p.minor.Some?;
    assert p.minor.Some? ==> h[2] == p.minor.value;
    assert h[n..n + 2] == TwoDigits(p.cost);
    assert h[n + 3..n + 3 + EncodedSaltSize] == p.salt;
    assert h[n + 3 + EncodedSaltSize..] == p.hash;
  }

  /** A freshly generated hash verifies against the password it was made from. */
  lemma GeneratedHashVerifies(digest: Digest, password: string, cost: int, salt: EncodedSalt)
    requires cost <= MaxCost
    ensures GenerateFromPassword(digest, password, cost, Ok(salt)).Ok?
    ensures CompareHashAndPassword(digest, GenerateFromPassword(digest, password, cost, Ok(salt)).value, password)
  {
    var c := if cost < MinCost then DefaultCost else cost;
    DecodeEncode(Hashed(MajorVersion, Some(MinorVersion), c, salt, digest(c, salt, password)));
  }

  /** A generated hash accepts a candidate exactly when the candidate yields the
      same digest under the same cost and salt. */
  lemma GeneratedHashAccepts(digest: Digest, password: string, candidate: string, cost: int, salt: EncodedSalt)
    requires MinCost <= cost <= MaxCost
    ensures GenerateFromPassword(digest, password, cost, Ok(salt)).Ok?
    ensures CompareHashAndPassword(digest, GenerateFromPassword(digest, password, cost, Ok(salt)).value, candidate)
        <==> digest(cost, salt, candidate) == digest(cost, salt, password)
  {
    DecodeEncode(Hashed(MajorVersion, Some(MinorVersion), cost, salt, digest(cost, salt, password)));
  }
}
