/** Authorization request parameters: parsing, when a request insists on a fresh
    sign-in, and the return URL that keeps it from insisting twice. */
module AuthorizeRequests {
  import opened Clock
  import opened Wrappers
  import opened Scopes

  /** url.Values. A query string and its values determine each other. */
  type Query = map<string, seq<string>>

  function Get(q: Query, name: string): string {
    if name in q && q[name] != [] then q[name][0] else ""
  }

  /** A product in int64, as time.Duration computes it. */
  function Int64(n: int): int {
    (n + 0x8000_0000_0000_0000) % 0x1_0000_0000_0000_0000 - 0x8000_0000_0000_0000
  }

  predicate TooOld(age: int, maxAge: int) {
    age > Int64(maxAge * SECOND)
  }

  /** maxAge is -1 until a max_age parameter has been validated. */
  datatype AuthorizeRequest = AuthorizeRequest(
    clientID: string,
    redirectURI: string,
    responseType: string,
    scope: string,
    codeChallenge: string,
    codeChallengeMethod: string,
    prompt: seq<string>,
    maxAge: int,
    rawMaxAge: string,
    hasRequest: bool,
    hasRequestURI: bool,
    hasRegistration: bool
  ) {
    predicate HasPrompt(value: string) {
      value in prompt
    }

    /** authTime is None when there is no session. */
    predicate RequiresFreshLogin(authTime: Option<int>, now: int) {
      || HasPrompt("login")
      || HasPrompt("select_account")
      || (maxAge >= 0 && (authTime.None? || TooOld(now - authTime.value, maxAge)))
    }
  }

  /** None when client_id or redirect_uri is missing. */
  function Parse(q: Query): Option<AuthorizeRequest> {
    var req := AuthorizeRequest(
                 Get(q, "client_id"), Get(q, "redirect_uri"), Get(q, "response_type"), Get(q, "scope"),
                 Get(q, "code_challenge"), Get(q, "code_challenge_method"),
                 Fields(Get(q, "prompt")), -1, Get(q, "max_age"),
                 "request" in q, "request_uri" in q, "registration" in q);
    if req.clientID == "" || req.redirectURI == "" then None else Some(req)
  }

  predicate IsDigit(c: char) {
    '0' <= c <= '9'
  }

  function DigitsValue(s: string): (n: int)
    requires forall i :: 0 <= i < |s| ==> IsDigit(s[i])
    ensures n >= 0
  {
    if s == "" then 0
    else
      var last := s[|s| - 1];
      assert IsDigit(last);
      10 * DigitsValue(s[..|s| - 1]) + (last as int - '0' as int)
  }

  predicate AllDigits(s: string) {
    forall i :: 0 <= i < |s| ==> IsDigit(s[i])
  }

  function InInt64(n: int): Option<int> {
    if -0x8000_0000_0000_0000 <= n < 0x8000_0000_0000_0000 then Some(n) else None
  }

  /** strconv.Atoi on a 64-bit platform */
  function Atoi(s: string): Option<int> {
    var digits := if s != "" && (s[0] == '+' || s[0] == '-') then s[1..] else s;
    if digits == "" || !AllDigits(digits) then None
    else InInt64(if s[0] == '-' then -DigitsValue(digits) else DigitsValue(digits))
  }

  /** The max_age ValidateClient leaves in the request; None when it is malformed. */
  function CheckedMaxAge(req: AuthorizeRequest): Option<int> {
    if req.rawMaxAge == "" then Some(req.maxAge)
    else
      match Atoi(req.rawMaxAge)
      case Some(n) => if n < 0 then None else Some(n)
      case None => None
  }

  /** A number in decimal, without leading zeros. */
  function Decimal(n: nat): (s: string)
    ensures s != "" && forall i :: 0 <= i < |s| ==> IsDigit(s[i])
  {
    (if n < 10 then "" else Decimal(n / 10)) + [('0' as int + n % 10) as char]
  }

  lemma {:induction false} DecimalValue(n: nat)
    ensures DigitsValue(Decimal(n)) == n
  {
    var s := Decimal(n);
    if n >= 10 {
      DecimalValue(n / 10);
      assert s[..|s| - 1] == Decimal(n / 10);
    } else {
      assert s[..|s| - 1] == "";
    }
  }

  lemma AtoiUnsigned(digits: string)
    requires digits != "" && AllDigits(digits)
    ensures Atoi(digits) == InInt64(DigitsValue(digits))
  {
    assert IsDigit(digits[0]);
  }

  lemma AtoiSigned(sign: char, digits: string)
    requires (sign == '+' || sign == '-') && digits != "" && AllDigits(digits)
    ensures Atoi([sign] + digits) == InInt64(if sign == '-' then -DigitsValue(digits) else DigitsValue(digits))
  {
    var s := [sign] + digits;
    assert s[0] == sign && s[1..] == digits;
  }

  /** Every 64-bit number is read back from its decimal text, with or without a sign, and
      no number outside is read at all. */
  lemma AtoiReads(n: nat)
    ensures Atoi(Decimal(n)) == if n < 0x8000_0000_0000_0000 then Some(n) else None
    ensures Atoi("+" + Decimal(n)) == if n < 0x8000_0000_0000_0000 then Some(n) else None
  {
    DecimalValue(n);
    AtoiUnsigned(Decimal(n));
    AtoiSigned('+', Decimal(n));
  }

  lemma AtoiReadsNegative(n: int)
    requires n >= 0
    ensures Atoi("-" + Decimal(n)) == if n <= 0x8000_0000_0000_0000 then Some(0 - n) else None
  {
    DecimalValue(n);
    AtoiSigned('-', Decimal(n));
  }

  /** A character that is neither a digit nor a sign in front, or no digit at all, and the
      text is not read. */
  lemma AtoiRefuses(s: string, i: nat)
    requires i < |s| && !IsDigit(s[i]) && (i == 0 ==> |s| == 1 || (s[0] != '+' && s[0] != '-'))
    ensures Atoi(s) == None && Atoi("") == None
  {
    if s[0] == '+' || s[0] == '-' {
      assert i > 0 ==> !IsDigit(s[1..][i - 1]);
    }
  }

  /** The query a client sends for a request. */
  function Encode(req: AuthorizeRequest): Query {
    map["client_id" := [req.clientID], "redirect_uri" := [req.redirectURI], "response_type" := [req.responseType],
        "scope" := [req.scope], "code_challenge" := [req.codeChallenge], "code_challenge_method" := [req.codeChallengeMethod],
        "prompt" := [Join(req.prompt)], "max_age" := [req.rawMaxAge]]
    + (if req.hasRequest then map["request" := [""]] else map[])
    + (if req.hasRequestURI then map["request_uri" := [""]] else map[])
    + (if req.hasRegistration then map["registration" := [""]] else map[])
  }

  lemma EncodedClient(req: AuthorizeRequest)
    ensures var q := Encode(req);
            && Get(q, "client_id") == req.clientID && Get(q, "redirect_uri") == req.redirectURI
            && Get(q, "response_type") == req.responseType && Get(q, "scope") == req.scope
  {
  }

  lemma EncodedRest(req: AuthorizeRequest)
    ensures var q := Encode(req);
            && Get(q, "code_challenge") == req.codeChallenge && Get(q, "code_challenge_method") == req.codeChallengeMethod
            && Get(q, "prompt") == Join(req.prompt) && Get(q, "max_age") == req.rawMaxAge
  {
  }

  lemma EncodedFlags(req: AuthorizeRequest)
    ensures var q := Encode(req);
            && ("request" in q <==> req.hasRequest) && ("request_uri" in q <==> req.hasRequestURI)
            && ("registration" in q <==> req.hasRegistration)
  {
  }

  /** Every parameter is read into its own field: parsing what was encoded gives the
      request back. */
  lemma ParseOfEncode(req: AuthorizeRequest)
    requires forall w :: w in req.prompt ==> IsWord(w)
    ensures Parse(Encode(req)) == if req.clientID == "" || req.redirectURI == "" then None else Some(req.(maxAge := -1))
  {
    FieldsOfJoin(req.prompt);
    EncodedClient(req);
    EncodedRest(req);
    EncodedFlags(req);
  }

  /** When a session must be renewed: the request says so, or max_age - as it is sent, up
      to 9223372036 seconds - has passed since the session began, or there is none. */
  lemma FreshLoginMeaning(req: AuthorizeRequest, authTime: Option<int>, now: int)
    requires req.maxAge <= 9223372036
    ensures req.RequiresFreshLogin(authTime, now) <==>
            || "login" in req.prompt || "select_account" in req.prompt
            || (req.maxAge >= 0 && (authTime.None? || now > authTime.value + req.maxAge * SECOND))
  {
    if req.maxAge >= 0 {
      MaxAgeMeaning(req.maxAge);
      assert authTime.Some? ==> (TooOld(now - authTime.value, req.maxAge) <==> now - authTime.value > req.maxAge * SECOND);
    }
  }

  // ----- the return URL

  function Without(words: seq<string>, drop: set<string>): (kept: seq<string>)
    ensures forall w :: w in kept <==> w in words && w !in drop
  {
    if words == [] then []
    else
      var init, last := words[..|words| - 1], words[|words| - 1];
      assert words == init + [last];
      if last in drop then Without(init, drop) else Without(init, drop) + [last]
  }

  function WithoutPrompt(q: Query, drop: set<string>): Query {
    var kept := Without(Fields(Get(q, "prompt")), drop);
    if kept == [] then q - {"prompt"} else q["prompt" := [Join(kept)]]
  }

  function WithoutParams(q: Query, names: set<string>): Query {
    q - names
  }

  const RELOGIN := {"login", "select_account"}

  /** The request the login page returns to. */
  function ReturnQuery(q: Query): Query {
    WithoutParams(WithoutPrompt(q, RELOGIN), {"max_age"})
  }

  method StripPrompt(query: Query, values: seq<string>) returns (q: Query)
    ensures q == WithoutPrompt(query, set v | v in values)
  {
    q := query;
    var drop: map<string, bool> := map[];
    for i := 0 to |values|
      invariant forall v :: v in drop <==> v in values[..i]
    {
      drop := drop[values[i] := true];
    }
    assert values[..|values|] == values;
    assert drop.Keys == set v | v in values;
    var kept: seq<string> := [];
    var words := Fields(Get(q, "prompt"));
    for i := 0 to |words|
      invariant kept == Without(words[..i], drop.Keys)
    {
      assert words[..i + 1][..i] == words[..i];
      if words[i] !in drop {
        kept := kept + [words[i]];
      }
    }
    assert words[..|words|] == words;
    if |kept| == 0 {
      q := q - {"prompt"};
    } else {
      q := q["prompt" := [Join(kept)]];
    }
  }

  method StripParams(query: Query, names: seq<string>) returns (q: Query)
    ensures q == WithoutParams(query, set n | n in names)
  {
    q := query;
    for i := 0 to |names|
      invariant forall k :: k in q <==> k in query && k !in names[..i]
      invariant forall k :: k in q ==> q[k] == query[k]
    {
      q := q - {names[i]};
    }
    assert names[..|names|] == names;
  }

  lemma {:induction false} WithoutKeepsAll(words: seq<string>, drop: set<string>)
    requires forall w :: w in words ==> w !in drop
    ensures Without(words, drop) == words
  {
    if words != [] {
      var init, last := words[..|words| - 1], words[|words| - 1];
      assert words == init + [last];
      WithoutKeepsAll(init, drop);
    }
  }

  /** What the prompt parameter of the return URL reads as. */
  lemma ReturnPrompt(q: Query)
    ensures Fields(Get(ReturnQuery(q), "prompt")) == Without(Fields(Get(q, "prompt")), RELOGIN)
  {
    FieldsOfJoin(Without(Fields(Get(q, "prompt")), RELOGIN));
  }

  lemma StrippingIsIdempotent(q: Query)
    ensures ReturnQuery(ReturnQuery(q)) == ReturnQuery(q)
  {
    var r := ReturnQuery(q);
    ReturnPrompt(q);
    WithoutKeepsAll(Without(Fields(Get(q, "prompt")), RELOGIN), RELOGIN);
    assert WithoutPrompt(r, RELOGIN) == r;
    assert WithoutParams(r, {"max_age"}) == r;
  }

  lemma StrippingKeepsTheRest(q: Query, name: string)
    requires name != "prompt" && name != "max_age"
    ensures name in ReturnQuery(q) <==> name in q
    ensures name in q ==> ReturnQuery(q)[name] == q[name]
    ensures Get(ReturnQuery(q), name) == Get(q, name)
  {
  }

  /** The return URL is the same request with the sign-in demands taken out. */
  lemma ReturnRequest(q: Query)
    ensures Parse(ReturnQuery(q)).Some? <==> Parse(q).Some?
    ensures Parse(q).Some? ==>
              Parse(ReturnQuery(q)).value == Parse(q).value.(prompt := Without(Parse(q).value.prompt, RELOGIN), rawMaxAge := "")
  {
    ReturnPrompt(q);
    forall name | name != "prompt" && name != "max_age"
      ensures (name in ReturnQuery(q) <==> name in q) && Get(ReturnQuery(q), name) == Get(q, name)
    {
      StrippingKeepsTheRest(q, name);
    }
    assert Get(ReturnQuery(q), "max_age") == "";
  }

  /** A max_age parameter means what it says, for every session age, exactly up to
      9223372036 seconds; from there on the nanoseconds overflow. */
  lemma MaxAgeMeaning(maxAge: int)
    requires 0 <= maxAge < 0x8000_0000_0000_0000
    ensures (forall age :: TooOld(age, maxAge) <==> age > maxAge * SECOND) <==> maxAge <= 9223372036
  {
    var limit := maxAge * SECOND;
    if maxAge <= 9223372036 {
      assert Int64(limit) == limit;
    } else {
      assert Int64(limit) < 0x8000_0000_0000_0000 <= limit;
      assert TooOld(limit, maxAge) && !(limit > limit);
    }
  }

  /** One second more, and a session of any age is too old. */
  lemma OverflowingMaxAge(req: AuthorizeRequest, authTime: int, now: int)
    requires req.maxAge == 9223372037 && authTime <= now
    ensures req.RequiresFreshLogin(Some(authTime), now)
  {
    assert Int64(9223372037 * SECOND) < 0;
  }

  /** Forced re-login happens at most once per request: the return URL never asks for
      one, whatever the session, and stripping it again changes nothing. */
  lemma ReloginOnce(q: Query, authTime: Option<int>, now: int)
    requires Parse(q).Some?
    ensures var r := Parse(ReturnQuery(q)).value;
            && CheckedMaxAge(r) == Some(-1)
            && !r.RequiresFreshLogin(authTime, now)
    ensures ReturnQuery(ReturnQuery(q)) == ReturnQuery(q)
  {
    ReturnRequest(q);
    StrippingIsIdempotent(q);
  }
}
