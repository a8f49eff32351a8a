/**
 * The ingest API's authorization gate (internal/ingestwebapp/jwt.go): which
 * requests pass untouched, which are refused with 401 or 403, and which
 * proceed with the adapter id taken from the token's claims.
 *
 * Signature verification and claim decoding belong to the JWT library and
 * are a parameter here: `parse` reports what the library makes of a token
 * string.
 */
module IngestJwt {
  import opened Common

  const IngestPrefix := "/device-ingest/"
  const BearerPrefix := "Bearer "
  const HS256 := "HS256"

  const MissingBearer := "missing bearer token"
  const InvalidToken := "invalid token"
  const InvalidClaims := "invalid token claims"
  const MissingAdapterId := "missing adapterId claim"
  const InvalidAdapterId := "invalid adapterId claim"

  /** A claim value as the JSON decoder hands it over, by dynamic type. */
  datatype ClaimValue = Float64(f: real) | Str(s: string) | Int(i: int) | Int64(i: int) | OtherType(typeName: string)

  /**
   * What the JWT library makes of a token string: unparseable, or the
   * algorithm named in its header, whether the signature and time claims
   * check out, and its claims when they decode to a claim map.
   */
  datatype ParsedToken =
    | Unparseable
    | Parsed(alg: string, valid: bool, claims: Option<map<string, ClaimValue>>)

  datatype Decision =
    | PassThrough              // not an ingest path: handed on untouched
    | Refuse(status: int, message: string)
    | Proceed(adapterId: int)  // handed on with the adapter id in the request context

  predicate HasPrefix(s: string, prefix: string) {
    |prefix| <= |s| && s[..|prefix|] == prefix
  }

  /** unicode.IsSpace */
  predicate IsSpace(c: char) {
    c == '\t' || c == '\n' || c == '\U{000B}' || c == '\U{000C}' || c == '\r' || c == ' '
    || c == '\U{0085}' || c == '\U{00A0}' || c == '\U{1680}'
    || ('\U{2000}' <= c <= '\U{200A}')
    || c == '\U{2028}' || c == '\U{2029}' || c == '\U{202F}' || c == '\U{205F}' || c == '\U{3000}'
  }

  /** The string without its leading white space, and what was dropped was all white space. */
  function TrimLeft(s: string): (t: string)
    ensures |t| <= |s| && t == s[|s| - |t|..]
    ensures t == [] || !IsSpace(t[0])
    ensures forall i :: 0 <= i < |s| - |t| ==> IsSpace(s[i])
  {
    if s != [] && IsSpace(s[0]) then TrimLeft(s[1..]) else s
  }

  /** The string without its trailing white space, and what was dropped was all white space. */
  function TrimRight(s: string): (t: string)
    ensures |t| <= |s| && t == s[..|t|]
    ensures t == [] || !IsSpace(t[|t| - 1])
    ensures forall i :: |t| <= i < |s| ==> IsSpace(s[i])
  {
    if s != [] && IsSpace(s[|s| - 1]) then TrimRight(s[..|s| - 1]) else s
  }

  /** strings.TrimSpace: leading and trailing white space dropped. */
  function TrimSpace(s: string): string {
    TrimRight(TrimLeft(s))
  }

  /** Trimming leaves nothing exactly when the string is all white space. */
  lemma TrimSpaceEmpty(s: string)
    ensures TrimSpace(s) == [] <==> forall i :: 0 <= i < |s| ==> IsSpace(s[i])
  {
    var left := TrimLeft(s);
    if left != [] {
      assert !IsSpace(left[0]);
      assert s[|s| - |left|] == left[0];
    }
  }

  // ---------------------------------------------------------------------
  // parseAdapterID

  const MinInt64: int := -0x8000_0000_0000_0000
  const MaxInt64: int := 0x7FFF_FFFF_FFFF_FFFF

  /** Go's conversion of a float64 to an integer: the fraction is dropped, toward zero. */
  function TruncateTowardZero(f: real): (n: int)
    ensures n as real <= f < n as real + 1.0 || n as real - 1.0 < f <= n as real
    ensures f >= 0.0 ==> 0 <= n && n as real <= f
    ensures f < 0.0 ==> n <= 0 && f <= n as real
  {
    if f >= 0.0 then f.Floor else -((-f).Floor)
  }

  /** An optional `+` or `-` followed by at least one decimal digit. */
  predicate SignedDigits(s: string) {
    IsDigitString(s) || (|s| > 1 && (s[0] == '+' || s[0] == '-') && IsDigitString(s[1..]))
  }

  /** The number such a string writes; leading zeros and a `+` change nothing. */
  function SignedValue(s: string): int
    requires SignedDigits(s)
  {
    if s[0] == '-' then -(DecimalValue(s[1..]) as int)
    else if s[0] == '+' then DecimalValue(s[1..])
    else DecimalValue(s)
  }

  /** strconv.Atoi: an optional sign and at least one decimal digit, within the 64-bit range. */
  function Atoi(s: string): (r: Result<int, string>)
    ensures r.Success? ==> SignedDigits(s) && r.value == SignedValue(s)
    ensures r.Success? ==> MinInt64 <= r.value <= MaxInt64
  {
    var negative := |s| > 0 && s[0] == '-';
    var digits := if |s| > 0 && (s[0] == '+' || s[0] == '-') then s[1..] else s;
    if !IsDigitString(digits) then Failure("invalid syntax")
    else
      var magnitude: int := DecimalValue(digits);
      var n := if negative then -magnitude else magnitude;
      if n < MinInt64 || n > MaxInt64 then Failure("value out of range") else Success(n)
  }

  /** The number of decimal digits of `n`. */
  function DigitCount(n: nat): (k: nat)
    ensures 1 <= k && n < Pow10(k)
  {
    if n < 10 then 1 else 1 + DigitCount(n / 10)
  }

  /** strconv.Itoa: the decimal text of `n`, with a minus sign when negative. */
  function Itoa(n: int): string {
    var magnitude := if n < 0 then -n else n;
    (if n < 0 then "-" else "") + PaddedDecimal(magnitude, DigitCount(magnitude))
  }

  /** Atoi reads back the decimal text of every 64-bit integer. */
  lemma AtoiReadsItoa(n: int)
    requires MinInt64 <= n <= MaxInt64
    ensures Atoi(Itoa(n)) == Success(n)
  {
    var magnitude := if n < 0 then -n else n;
    var text := PaddedDecimal(magnitude, DigitCount(magnitude));
    DecimalOfPadded(magnitude, DigitCount(magnitude));
    if n < 0 {
      assert Itoa(n)[1..] == text;
    } else {
      assert Itoa(n) == text;
    }
  }

  /** What Atoi accepts: a sign at most, then only digits. */
  lemma AtoiAccepts(s: string)
    requires Atoi(s).Success?
    ensures IsDigitString(s) || (|s| > 1 && (s[0] == '+' || s[0] == '-') && IsDigitString(s[1..]))
  {
  }

  /** Conversely, every signed digit string whose number fits in 64 bits is read as that number. */
  lemma AtoiReadsSignedDigits(s: string)
    requires SignedDigits(s) && MinInt64 <= SignedValue(s) <= MaxInt64
    ensures Atoi(s) == Success(SignedValue(s))
  {
    if s[0] == '+' || s[0] == '-' {
      assert !IsDigit(s[0]);
    }
  }

  /** A leading zero does not change the number a digit string writes. */
  lemma {:induction false} LeadingZeroIgnored(s: string)
    requires AllDigits(s)
    ensures AllDigits("0" + s) && DecimalValue("0" + s) == DecimalValue(s)
  {
    if s != [] {
      var init := s[..|s| - 1];
      LeadingZeroIgnored(init);
      assert ("0" + s)[..|"0" + s| - 1] == "0" + init;
    }
  }

  /** An adapter id sent as "+7" or as "007" is read as 7. */
  lemma AtoiSignAndZeros()
    ensures Atoi("+7") == Success(7) && Atoi("007") == Success(7)
  {
    assert "+7"[1..] == "7";
    assert DecimalValue("7") == 7 by {
      assert "7"[..0] == [];
    }
    LeadingZeroIgnored("7");
    assert "0" + "7" == "07";
    LeadingZeroIgnored("07");
    assert "0" + "07" == "007";
    AtoiReadsSignedDigits("+7");
    AtoiReadsSignedDigits("007");
  }

  /**
   * parseAdapterID: a float64 is truncated toward zero, a string is read
   * with Atoi, an int or int64 passes through, and any other type is an
   * error.
   */
  function ParseAdapterId(v: ClaimValue): (r: Result<int, string>)
    ensures v.Int? || v.Int64? ==> r == Success(v.i)
    ensures v.Float64? ==> r == Success(TruncateTowardZero(v.f))
    ensures v.Str? ==> r == Atoi(v.s)
    ensures v.OtherType? ==> r.Failure?
  {
    match v
    case Float64(f) => Success(TruncateTowardZero(f))
    case Str(s) => Atoi(s)
    case Int(i) => Success(i)
    case Int64(i) => Success(i)
    case OtherType(_) => Failure("unsupported adapterId type")
  }

  // ---------------------------------------------------------------------
  // DeviceIngestJWTMiddleware

  /** The token string: the header after "Bearer ", trimmed. */
  function TokenString(authorization: string): string
    requires HasPrefix(authorization, BearerPrefix)
  {
    TrimSpace(authorization[|BearerPrefix|..])
  }

  /** The verdict on the claims of a token that passed the library's checks. */
  function ClaimsDecision(claims: map<string, ClaimValue>): (d: Decision)
    ensures d.PassThrough? == false
    ensures d.Refuse? ==> d.status == StatusForbidden
    ensures d.Proceed? ==> d.adapterId > 0
  {
    if "adapterId" !in claims then Refuse(StatusForbidden, MissingAdapterId)
    else
      match ParseAdapterId(claims["adapterId"])
      case Failure(_) => Refuse(StatusForbidden, InvalidAdapterId)
      case Success(id) => if id <= 0 then Refuse(StatusForbidden, InvalidAdapterId) else Proceed(id)
  }

  /**
   * The middleware's decision for a request path and Authorization header,
   * given what the library makes of the token: the checks run in order and
   * the first that fails answers the request.
   */
  function Decide(path: string, authorization: string, parse: string -> ParsedToken): (d: Decision)
    ensures !HasPrefix(path, IngestPrefix) <==> d.PassThrough?
  {
    if !HasPrefix(path, IngestPrefix) then PassThrough
    else if !HasPrefix(authorization, BearerPrefix) then Refuse(StatusUnauthorized, MissingBearer)
    else
      var token := TokenString(authorization);
      if token == "" then Refuse(StatusUnauthorized, MissingBearer)
      else
        match parse(token)
        case Unparseable => Refuse(StatusUnauthorized, InvalidToken)
        case Parsed(alg, valid, claims) =>
          if alg != HS256 || !valid then Refuse(StatusUnauthorized, InvalidToken)
          else if claims.None? then Refuse(StatusUnauthorized, InvalidClaims)
          else ClaimsDecision(claims.value)
  }

  /**
   * The key function accepts HS256 only: a parsed bearer token signed with
   * any other algorithm is refused with 401 "invalid token", whatever its
   * validity and claims.
   */
  lemma NonHs256Refused(path: string, authorization: string, parse: string -> ParsedToken)
    requires HasPrefix(path, IngestPrefix) && HasPrefix(authorization, BearerPrefix)
    requires TokenString(authorization) != ""
    requires parse(TokenString(authorization)).Parsed? && parse(TokenString(authorization)).alg != HS256
    ensures Decide(path, authorization, parse) == Refuse(StatusUnauthorized, InvalidToken)
  {
  }

  /** The token checks that end in 401: no bearer token, or one the library rejects. */
  predicate TokenRejected(authorization: string, parse: string -> ParsedToken) {
    !HasPrefix(authorization, BearerPrefix)
    || TokenString(authorization) == ""
    || parse(TokenString(authorization)).Unparseable?
    || parse(TokenString(authorization)).alg != HS256
    || !parse(TokenString(authorization)).valid
    || parse(TokenString(authorization)).claims.None?
  }

  /**
   * An ingest request is refused with 401 exactly when its token is
   * rejected, with 403 exactly when the token is accepted but its adapterId
   * claim is missing, unreadable or not positive, and otherwise proceeds
   * with that claim's id.
   */
  lemma DecisionLadder(path: string, authorization: string, parse: string -> ParsedToken)
    requires HasPrefix(path, IngestPrefix)
    ensures Decide(path, authorization, parse).Refuse? && Decide(path, authorization, parse).status == StatusUnauthorized
            <==> TokenRejected(authorization, parse)
    ensures !TokenRejected(authorization, parse) ==>
              var claims := parse(TokenString(authorization)).claims.value;
              (Decide(path, authorization, parse).Refuse? <==>
                 "adapterId" !in claims || ParseAdapterId(claims["adapterId"]).Failure?
                 || ParseAdapterId(claims["adapterId"]).value <= 0)
              && (Decide(path, authorization, parse).Refuse? ==> Decide(path, authorization, parse).status == StatusForbidden)
              && (Decide(path, authorization, parse).Proceed? ==>
                    Decide(path, authorization, parse).adapterId == ParseAdapterId(claims["adapterId"]).value)
  {
  }

  /** A header that is "Bearer " and white space only carries no token. */
  lemma BlankBearerRefused(path: string, authorization: string, parse: string -> ParsedToken)
    requires HasPrefix(path, IngestPrefix) && HasPrefix(authorization, BearerPrefix)
    requires forall i :: |BearerPrefix| <= i < |authorization| ==> IsSpace(authorization[i])
    ensures Decide(path, authorization, parse) == Refuse(StatusUnauthorized, MissingBearer)
  {
    var rest := authorization[|BearerPrefix|..];
    assert forall i :: 0 <= i < |rest| ==> rest[i] == authorization[i + |BearerPrefix|];
    TrimSpaceEmpty(rest);
  }
}
