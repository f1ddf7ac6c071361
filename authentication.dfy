/** The demonstration token issuer of sample/api/authentication.py: `TokenFactory`
    with its lists of issued claim sets and tokens, the `token_validation` decorator
    and `user_id`. RS256 signing and verification are abstracted to a pair of
    functions: a signed token carries its claim set and the key that signed it. */
module Authentication {
  import opened Runtime

  /** A JWT claim set; the times are whole seconds since the epoch (the JWT library
      turns the `datetime` claims into such numbers, in the issued dictionary itself). */
  datatype Claims = Claims(jti: string, exp: int, aud: string, iat: int, nbf: int, iss: string, sub: string)

  /** A token as a client presents it in the Authorization header: a signed claim
      set, or text the JWT library cannot decode. */
  datatype Token = Signed(claims: Claims, signer: nat) | Malformed(text: string)

  const Audience: string := "localhost"
  const Issuer: string := "127.0.0.1"
  const Subject: string := "test-jwt"
  /** Tokens expire 1800 seconds after they are issued. */
  const Lifetime: int := 1800

  /** `jwt.encode(info, private_key, algorithm='RS256')` with the key pair `key`. */
  function Sign(key: nat, c: Claims): Token
  {
    Signed(c, key)
  }

  /** `jwt.decode(token, public_key, audience='localhost', algorithms=['RS256'])` at
      time `now`: the signature must be the process key's, the audience must match,
      the token must not be expired (`exp >= now`) nor premature (`nbf <= now`). */
  function Decode(key: nat, t: Token, now: int): (r: Result<Claims>)
    ensures r.Ok? ==> t == Sign(key, r.value) && r.value.aud == Audience && r.value.nbf <= now <= r.value.exp
    ensures r.Raised? ==> r.error == DecodeError
  {
    match t
    case Malformed(_) => Raised(DecodeError)
    case Signed(c, signer) =>
      if signer != key || c.aud != Audience || c.exp < now || c.nbf > now then Raised(DecodeError)
      else Ok(c)
  }

  /** Decoding what the key signed gives the claim set back, exactly while the
      claims' audience and validity window allow it. */
  lemma DecodeSign(key: nat, c: Claims, now: int)
    ensures Decode(key, Sign(key, c), now).Ok? ==> Decode(key, Sign(key, c), now).value == c
    ensures Decode(key, Sign(key, c), now).Ok? <==> c.aud == Audience && c.nbf <= now <= c.exp
    ensures forall other: nat :: other != key ==> Decode(other, Sign(key, c), now).Raised?
  {
  }

  // ---------------------------------------------------------------------------
  // random.sample(string.digits + string.ascii_letters, 32)
  // ---------------------------------------------------------------------------

  /** `string.digits`, `string.ascii_lowercase` and `string.ascii_uppercase`, by character code. */
  function CharRange(first: char, count: nat): (r: string)
    requires first as int + count <= 0xD800
    ensures |r| == count && forall i :: 0 <= i < count ==> r[i] as int == first as int + i
  {
    seq(count, i requires 0 <= i < count => (first as int + i) as char)
  }

  /** `string.digits + string.ascii_letters`. */
  const Alphabet: string := CharRange('0', 10) + CharRange('a', 26) + CharRange('A', 26)

  /** The three parts of the alphabet spelled out. */
  lemma AlphabetSpelledOut()
    ensures CharRange('0', 10) == "0123456789"
    ensures CharRange('a', 26) == "abcdefghijklmnopqrstuvwxyz"
    ensures CharRange('A', 26) == "ABCDEFGHIJKLMNOPQRSTUVWXYZ"
  {
    RangeSpelledOut('0', "0123456789");
    RangeSpelledOut('a', "abcdefghijklmnopqrstuvwxyz");
    RangeSpelledOut('A', "ABCDEFGHIJKLMNOPQRSTUVWXYZ");
  }

  lemma {:induction false} RangeSpelledOut(first: char, text: string)
    requires first as int + |text| <= 0xD800
    requires forall i :: 0 <= i < |text| ==> text[i] as int == first as int + i
    ensures CharRange(first, |text|) == text
  {
  }

  const JtiLength: nat := 32

  predicate IsAsciiAlnum(c: char)
  {
    ('0' <= c <= '9') || ('a' <= c <= 'z') || ('A' <= c <= 'Z')
  }

  predicate Distinct<T(==)>(s: seq<T>)
  {
    forall i, j :: 0 <= i < j < |s| ==> s[i] != s[j]
  }

  /** What the generator's calls `_randbelow(n - i)` may return: one draw per
      character, the i-th below the size of the shrinking pool. */
  predicate ValidDraws(draws: seq<int>, n: int)
  {
    forall i :: 0 <= i < |draws| ==> 0 <= draws[i] < n - i
  }

  /** `random.sample(pool, len(draws))` for a sample this large relative to its
      population (the pool branch of CPython's algorithm): draw `j`, take `pool[j]`,
      and move the last element of the pool into its place. */
  function Sample(pool: seq<char>, draws: seq<int>): (r: seq<char>)
    requires ValidDraws(draws, |pool|)
    ensures |r| == |draws|
    ensures forall i :: 0 <= i < |r| ==> r[i] in pool
    ensures draws != [] ==> r[0] == pool[draws[0]]
    decreases |draws|
  {
    if draws == [] then []
    else
      var j, n := draws[0], |pool|;
      var rest := pool[j := pool[n - 1]][..n - 1];
      assert forall c :: c in rest ==> c in pool;
      [pool[j]] + Sample(rest, draws[1..])
  }

  /** One step of the pool shrinks it by the element taken and keeps it free of repeats. */
  lemma ShrinkPool(pool: seq<char>, j: int)
    requires Distinct(pool) && 0 <= j < |pool|
    ensures var rest := pool[j := pool[|pool| - 1]][..|pool| - 1];
      && Distinct(rest)
      && pool[j] !in rest
      && forall c :: c in rest ==> c in pool
  {
    var n := |pool|;
    var rest := pool[j := pool[n - 1]][..n - 1];
    assert forall i :: 0 <= i < n - 1 ==> rest[i] == (if i == j then pool[n - 1] else pool[i]);
  }

  /** A sample of a pool without repeats has no repeats and draws only from the pool. */
  lemma {:induction false} SampleDistinct(pool: seq<char>, draws: seq<int>)
    requires ValidDraws(draws, |pool|) && Distinct(pool)
    ensures Distinct(Sample(pool, draws))
    decreases |draws|
  {
    if draws != [] {
      var j, n := draws[0], |pool|;
      var rest := pool[j := pool[n - 1]][..n - 1];
      ShrinkPool(pool, j);
      assert ValidDraws(draws[1..], |rest|);
      SampleDistinct(rest, draws[1..]);
      var r := Sample(pool, draws);
      assert r == [pool[j]] + Sample(rest, draws[1..]);
      assert forall i :: 1 <= i < |r| ==> r[i] == Sample(rest, draws[1..])[i - 1];
    }
  }

  lemma AlphabetFacts()
    ensures |Alphabet| == 62
    ensures Distinct(Alphabet)
    ensures forall c :: c in Alphabet ==> IsAsciiAlnum(c)
  {
    forall i, j | 0 <= i < j < |Alphabet| ensures Alphabet[i] != Alphabet[j] {
      AlphabetRank(i);
      AlphabetRank(j);
    }
    forall c | c in Alphabet ensures IsAsciiAlnum(c) {
      var i :| 0 <= i < |Alphabet| && Alphabet[i] == c;
      AlphabetRank(i);
    }
  }

  /** The code of each character of the alphabet. */
  lemma AlphabetRank(i: int)
    requires 0 <= i < 62
    ensures Alphabet[i] as int == if i < 10 then 48 + i else if i < 36 then 87 + i else 29 + i
  {
    var d, l, u := CharRange('0', 10), CharRange('a', 26), CharRange('A', 26);
    if i < 10 {
      assert Alphabet[i] == d[i];
    } else if i < 36 {
      assert Alphabet[i] == l[i - 10];
    } else {
      assert Alphabet[i] == u[i - 36];
    }
  }

  /** The `jti` of a claim set made from the generator's draws. */
  function Jti(draws: seq<int>): (r: string)
    requires |draws| == JtiLength && ValidDraws(draws, |Alphabet|)
    ensures |r| == JtiLength && Distinct(r)
    ensures forall i :: 0 <= i < |r| ==> r[i] in Alphabet
  {
    AlphabetFacts();
    SampleDistinct(Alphabet, draws);
    Sample(Alphabet, draws)
  }

  /** The claim set `make_token` issues at time `now`. */
  function IssuedClaims(jti: string, now: int): (r: Claims)
    ensures r.jti == jti && r.iat == now && r.nbf == now && r.exp == now + Lifetime
    ensures forall key: nat, t :: now <= t <= now + Lifetime ==> Decode(key, Sign(key, r), t) == Ok(r)
  {
    Claims(jti, now + Lifetime, Audience, now, now, Issuer, Subject)
  }

  /** Every issued claim set expires 1800 seconds after it is issued, is not valid
      before it is issued, names the fixed audience, issuer and subject, and its
      `jti` is 32 distinct ASCII letters and digits. */
  lemma IssuedClaimsShape(draws: seq<int>, now: int)
    requires |draws| == JtiLength && ValidDraws(draws, |Alphabet|)
    ensures var c := IssuedClaims(Jti(draws), now);
      && c.iat == now && c.exp == c.iat + 1800 && c.nbf == c.iat
      && c.aud == "localhost" && c.iss == "127.0.0.1" && c.sub == "test-jwt"
      && |c.jti| == 32 && Distinct(c.jti)
      && forall k :: 0 <= k < |c.jti| ==> IsAsciiAlnum(c.jti[k])
  {
    AlphabetFacts();
    SampleDistinct(Alphabet, draws);
    var jti := Jti(draws);
    assert forall k :: 0 <= k < |jti| ==> jti[k] in jti;
  }

  // ---------------------------------------------------------------------------
  // Validation
  // ---------------------------------------------------------------------------

  /** `valid_token(token)` against the issued claim sets `raw`: true exactly when the
      decoded claim set equals one of them; a decoding failure raises. */
  function CheckToken(key: nat, raw: seq<Claims>, t: Token, now: int): (r: Result<bool>)
    ensures r == Ok(true) <==> Decode(key, t, now).Ok? && Decode(key, t, now).value in raw
    ensures r.Raised? <==> Decode(key, t, now).Raised?
  {
    match Decode(key, t, now)
    case Raised(e) => Raised(e)
    case Ok(c) => Ok(c in raw)
  }

  /** The decision of `token_validation`: the wrapped call runs only with a header
      whose token is valid, and every failure (no header, a token that does not
      decode, a token never issued) is reported as Unauthorized. */
  function Authorize(key: nat, raw: seq<Claims>, authorization: Option<Token>, now: int): (r: Result<()>)
    ensures r == Ok(()) <==> authorization.Some? && CheckToken(key, raw, authorization.value, now) == Ok(true)
    ensures r.Raised? ==> r.error == Unauthorized
  {
    if authorization.None? then Raised(Unauthorized)
    else
      match CheckToken(key, raw, authorization.value, now)
      case Raised(_) => Raised(Unauthorized)
      case Ok(valid) => if valid then Ok(()) else Raised(Unauthorized)
  }

  /** The tokens list holds, position by position, the signed form of the claim sets. */
  ghost predicate Issued(key: nat, raw: seq<Claims>, tokens: seq<Token>)
  {
    |raw| == |tokens| && forall i :: 0 <= i < |raw| ==> tokens[i] == Sign(key, raw[i])
  }

  /** A token just issued validates for the 1800 seconds of its lifetime and at no
      other time. */
  lemma IssuedTokenValidates(key: nat, raw: seq<Claims>, jti: string, issuedAt: int, now: int)
    ensures var c := IssuedClaims(jti, issuedAt);
      CheckToken(key, raw + [c], Sign(key, c), now) == Ok(true) <==> issuedAt <= now <= issuedAt + 1800
  {
    var c := IssuedClaims(jti, issuedAt);
    assert c in raw + [c];
  }

  /** Only issued tokens validate: a token that validates is one of the tokens
      handed out, and its claim set is one of the issued ones. */
  lemma OnlyIssuedTokensValidate(key: nat, raw: seq<Claims>, tokens: seq<Token>, t: Token, now: int)
    requires Issued(key, raw, tokens)
    requires CheckToken(key, raw, t, now) == Ok(true)
    ensures t in tokens && t.Signed? && t.claims in raw
  {
    var c := Decode(key, t, now).value;
    var i :| 0 <= i < |raw| && raw[i] == c;
    assert tokens[i] == t;
  }

  /** `user_id()`: the acting user is always 1. */
  function UserId(): int
  {
    1
  }

  /** `TokenFactory`: the process key pair and the lists `_raw` and `_tokens`. */
  class TokenFactory {
    const key: nat
    var raw: seq<Claims>
    var tokens: seq<Token>

    ghost predicate Valid()
      reads this
    {
      Issued(key, raw, tokens)
    }

    /** A factory with a newly generated key pair and no tokens. */
    constructor (key: nat)
      ensures Valid() && this.key == key && raw == [] && tokens == []
    {
      this.key := key;
      raw, tokens := [], [];
    }

    /** `make_token()` at UTC time `now`, with the generator's draws for `jti`: one
        claim set is appended to `_raw`, its token to `_tokens`, and the token returned. */
    method MakeToken(now: int, draws: seq<int>) returns (token: Token)
      requires Valid() && |draws| == JtiLength && ValidDraws(draws, |Alphabet|)
      modifies this
      ensures Valid()
      ensures raw == old(raw) + [IssuedClaims(Jti(draws), now)]
      ensures tokens == old(tokens) + [token]
      ensures token == Sign(key, IssuedClaims(Jti(draws), now))
    {
      var time := now + Lifetime;
      var value := Sample(Alphabet, draws);
      var info := Claims(value, time, Audience, now, now, Issuer, Subject);
      raw := raw + [info];
      token := Sign(key, info);
      tokens := tokens + [token];
    }

    /** `valid_token(token)`. */
    method ValidToken(t: Token, now: int) returns (r: Result<bool>)
      ensures r == CheckToken(key, raw, t, now)
    {
      var decoded := Decode(key, t, now);
      if decoded.Raised? {
        return Raised(decoded.error);
      }
      r := Ok(decoded.value in raw);
    }
  }

  /** The check `token_validation` makes before calling the wrapped function. */
  method TokenValidation(factory: TokenFactory, authorization: Option<Token>, now: int) returns (r: Result<()>)
    ensures r == Authorize(factory.key, factory.raw, authorization, now)
  {
    if authorization.None? {
      return Raised(Unauthorized);
    }
    var valid := factory.ValidToken(authorization.value, now);
    if valid != Ok(true) {
      return Raised(Unauthorized);
    }
    r := Ok(());
  }
}
