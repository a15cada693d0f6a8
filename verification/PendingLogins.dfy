/** Half-finished sign-ins: a password was accepted and a code or passkey is due.
    Every operation holds one mutex, so an interleaving of requests is a sequence of
    these calls. */
module PendingLogins {
  import opened Clock
  import opened Wrappers

  const TTL := 5 * MINUTE
  const MAX_ATTEMPTS := 5

  /** passkey: the WebAuthn challenge issued for this login, until it is taken. */
  datatype Pending = Pending(userID: string, email: string, expires: int, attempts: int, passkey: Option<string>)

  type Logins = map<string, Pending>

  predicate Live(e: Logins, token: string, now: int) {
    token in e && now <= e[token].expires
  }

  datatype Op =
    | Add(token: string, userID: string, email: string) // token: 32 fresh random bytes
    | Get(token: string)
    | Reserve(token: string)
    | SetChallenge(token: string, data: string)
    | TakeChallenge(token: string)
    | Remove(token: string)

  datatype Call = Call(op: Op, at: int)

  datatype Reply = Done | Login(login: Pending) | Gone | Recorded | Challenge(data: Option<string>)

  // ----- what one call does

  function Swept(e: Logins, now: int): Logins {
    map token | token in e && now <= e[token].expires :: e[token]
  }

  function Started(op: Op, now: int): Pending
    requires op.Add?
  {
    Pending(op.userID, op.email, now + TTL, 0, None)
  }

  /** Every call but Add, which is where the two versions below differ. */
  function Apply(e: Logins, op: Op, now: int): (Logins, Reply)
    requires !op.Add?
  {
    match op
    case Get(token) =>
      if Live(e, token, now) then (e, Login(e[token])) else (e - {token}, Gone)
    case Reserve(token) =>
      if Live(e, token, now) && e[token].attempts < MAX_ATTEMPTS then
        var counted := e[token].(attempts := e[token].attempts + 1);
        (e[token := counted], Login(counted))
      else (e - {token}, Gone)
    case SetChallenge(token, data) =>
      if Live(e, token, now) then (e[token := e[token].(passkey := Some(data))], Recorded) else (e, Gone)
    case TakeChallenge(token) =>
      if token !in e then (e, Challenge(None))
      else (e[token := e[token].(passkey := None)], Challenge(e[token].passkey))
    case Remove(token) => (e - {token}, Done)
  }

  function Step(e: Logins, c: Call): (Logins, Reply) {
    if c.op.Add? then (Swept(e, c.at)[c.op.token := Started(c.op, c.at)], Done) else Apply(e, c.op, c.at)
  }

  class PendingLoginTable {
    var entries: Logins

    constructor ()
      ensures entries == map[]
    {
      entries := map[];
    }

    method Add(token: string, userID: string, email: string, now: int)
      modifies this
      ensures (entries, Done) == Step(old(entries), Call(Op.Add(token, userID, email), now))
    {
      var unseen := entries.Keys;
      while unseen != {}
        invariant unseen <= old(entries).Keys
        invariant forall k :: k in entries <==> k in old(entries) && (k in unseen || now <= old(entries)[k].expires)
        invariant forall k :: k in entries ==> entries[k] == old(entries)[k]
        decreases |unseen|
      {
        var k :| k in unseen;
        if now > entries[k].expires {
          entries := entries - {k};
        }
        unseen := unseen - {k};
      }
      assert entries == Swept(old(entries), now);
      entries := entries[token := Pending(userID, email, now + TTL, 0, None)];
    }

    method Get(token: string, now: int) returns (login: Option<Pending>)
      modifies this
      ensures (entries, if login.Some? then Login(login.value) else Gone)
              == Step(old(entries), Call(Op.Get(token), now))
    {
      if token !in entries || now > entries[token].expires {
        entries := entries - {token};
        return None;
      }
      return Some(entries[token]);
    }

    method Reserve(token: string, now: int) returns (login: Option<Pending>)
      modifies this
      ensures (entries, if login.Some? then Login(login.value) else Gone)
              == Step(old(entries), Call(Op.Reserve(token), now))
    {
      if token !in entries || now > entries[token].expires || entries[token].attempts >= MAX_ATTEMPTS {
        entries := entries - {token};
        return None;
      }
      entries := entries[token := entries[token].(attempts := entries[token].attempts + 1)];
      return Some(entries[token]);
    }

    method SetPasskeyChallenge(token: string, data: string, now: int) returns (ok: bool)
      modifies this
      ensures (entries, if ok then Recorded else Gone) == Step(old(entries), Call(SetChallenge(token, data), now))
    {
      if token !in entries || now > entries[token].expires {
        return false;
      }
      entries := entries[token := entries[token].(passkey := Some(data))];
      return true;
    }

    method TakePasskeyChallenge(token: string, now: int) returns (data: Option<string>)
      modifies this
      ensures (entries, Challenge(data)) == Step(old(entries), Call(TakeChallenge(token), now))
    {
      if token !in entries {
        return None;
      }
      data := entries[token].passkey;
      entries := entries[token := entries[token].(passkey := None)];
    }

    method Remove(token: string)
      modifies this
      ensures forall now :: (entries, Done) == Step(old(entries), Call(Op.Remove(token), now))
    {
      entries := entries - {token};
    }
  }

  // ----- runs

  function Run(calls: seq<Call>): Logins {
    if calls == [] then map[] else Step(Run(calls[..|calls| - 1]), calls[|calls| - 1]).0
  }

  /** What call i was answered. */
  function ReplyTo(calls: seq<Call>, i: nat): Reply
    requires i < |calls|
  {
    Step(Run(calls[..i]), calls[i]).1
  }

  /** No token is handed out twice. */
  ghost predicate FreshTokens(calls: seq<Call>) {
    forall i, j :: 0 <= i < j < |calls| && calls[i].op.Add? && calls[j].op.Add? ==> calls[i].op.token != calls[j].op.token
  }

  ghost predicate WasStarted(calls: seq<Call>, token: string) {
    exists i :: 0 <= i < |calls| && calls[i].op.Add? && calls[i].op.token == token
  }

  /** The attempts granted to a login. */
  function Granted(calls: seq<Call>, token: string): nat {
    if calls == [] then 0
    else
      var i := |calls| - 1;
      Granted(calls[..i], token)
      + if calls[i].op == Reserve(token) && ReplyTo(calls, i).Login? then 1 else 0
  }

  /** What the table knows of a login that was granted n attempts so far. */
  predicate Tally(e: Logins, token: string, started: bool, n: nat) {
    && (!started ==> token !in e && n == 0)
    && (token in e ==> e[token].attempts == n)
    && n <= MAX_ATTEMPTS
  }

  lemma TallyStep(e: Logins, c: Call, token: string, started: bool, n: nat)
    requires Tally(e, token, started, n)
    requires c.op.Add? && c.op.token == token ==> !started
    ensures var (e', reply) := Step(e, c);
            && Tally(e', token, started || (c.op.Add? && c.op.token == token),
                     n + if c.op == Reserve(token) && reply.Login? then 1 else 0)
            && (c.op == Reserve(token) && reply.Login? ==> reply.login.attempts == n + 1)
  {
  }

  lemma StartedOneMore(calls: seq<Call>, token: string)
    requires calls != []
    ensures var i := |calls| - 1;
            WasStarted(calls, token) <==> WasStarted(calls[..i], token) || (calls[i].op.Add? && calls[i].op.token == token)
  {
    var i := |calls| - 1;
    if WasStarted(calls[..i], token) {
      var j :| 0 <= j < i && calls[..i][j].op.Add? && calls[..i][j].op.token == token;
      assert calls[j].op.Add? && calls[j].op.token == token;
    }
    if WasStarted(calls, token) && !(calls[i].op.Add? && calls[i].op.token == token) {
      var j :| 0 <= j < |calls| && calls[j].op.Add? && calls[j].op.token == token;
      assert calls[..i][j].op.Add?;
    }
  }

  /** Whatever requests interleave, a pending login grants at most five attempts. */
  lemma {:induction false} FiveAttempts(calls: seq<Call>, token: string)
    requires FreshTokens(calls)
    ensures Tally(Run(calls), token, WasStarted(calls, token), Granted(calls, token))
    ensures Granted(calls, token) <= MAX_ATTEMPTS
  {
    if calls != [] {
      var i := |calls| - 1;
      FiveAttempts(calls[..i], token);
      StartedOneMore(calls, token);
      TallyStep(Run(calls[..i]), calls[i], token, WasStarted(calls[..i], token), Granted(calls[..i], token));
    }
  }

  /** The attempt number a granted request is told is the number granted so far. */
  lemma AttemptNumber(calls: seq<Call>, token: string)
    requires FreshTokens(calls) && calls != []
    requires calls[|calls| - 1].op == Reserve(token) && ReplyTo(calls, |calls| - 1).Login?
    ensures ReplyTo(calls, |calls| - 1).login.attempts == Granted(calls, token)
  {
    FiveAttempts(calls[..|calls| - 1], token);
  }

  /** Who is granted an attempt: exactly a login that is there and younger than five
      minutes, and was granted fewer than five before. */
  lemma GrantedIff(calls: seq<Call>, token: string)
    requires FreshTokens(calls) && calls != [] && calls[|calls| - 1].op == Reserve(token)
    ensures var before, now := calls[..|calls| - 1], calls[|calls| - 1].at;
            ReplyTo(calls, |calls| - 1).Login? <==>
              token in Run(before) && now <= Run(before)[token].expires && Granted(before, token) < 5
  {
    FiveAttempts(calls[..|calls| - 1], token);
  }

  /** A login starts with no attempts and no challenge, and five minutes to live; looking
      at it, giving it a challenge and taking the challenge do what they say, to it alone. */
  lemma LoginLife(e: Logins, token: string, userID: string, email: string, data: string, start: int, now: int)
    requires start <= now
    ensures var started := Step(e, Call(Op.Add(token, userID, email), start)).0;
            var (gotten, got) := Step(started, Call(Op.Get(token), now));
            && started[token] == Pending(userID, email, start + 300 * SECOND, 0, None)
            && (if now <= start + 300 * SECOND then got == Login(started[token]) && gotten == started
                else got == Gone && gotten == started - {token})
    ensures var (given, answer) := Step(e, Call(SetChallenge(token, data), now));
            var (taken, challenge) := Step(given, Call(TakeChallenge(token), now));
            if token in e && now <= e[token].expires then
              && answer == Recorded && challenge == Challenge(Some(data))
              && taken == e[token := e[token].(passkey := None)]
              && Step(taken, Call(TakeChallenge(token), now)) == (taken, Challenge(None))
            else answer == Gone && given == e
    ensures Step(e, Call(Op.Remove(token), now)) == (e - {token}, Done)
  {
    if token in e {
      var taken := e[token := e[token].(passkey := None)];
      assert taken[token := taken[token].(passkey := None)] == taken;
    }
  }

  /** How often a challenge was issued to a login, and how often it was taken. */
  function Issued(calls: seq<Call>, token: string, data: string): nat {
    if calls == [] then 0
    else
      var i := |calls| - 1;
      Issued(calls[..i], token, data)
      + if calls[i].op == SetChallenge(token, data) && ReplyTo(calls, i) == Recorded then 1 else 0
  }

  function Taken(calls: seq<Call>, token: string, data: string): nat {
    if calls == [] then 0
    else
      var i := |calls| - 1;
      Taken(calls[..i], token, data)
      + if calls[i].op == TakeChallenge(token) && ReplyTo(calls, i) == Challenge(Some(data)) then 1 else 0
  }

  /** Each issue of a challenge is taken at most once, and one still held has not been. */
  lemma {:induction false} ChallengeTakenOnce(calls: seq<Call>, token: string, data: string)
    ensures var held := if token in Run(calls) && Run(calls)[token].passkey == Some(data) then 1 else 0;
            Taken(calls, token, data) + held <= Issued(calls, token, data)
  {
    if calls != [] {
      ChallengeTakenOnce(calls[..|calls| - 1], token, data);
    }
  }

  // ----- the sweep cannot be seen

  /** The same table with an Add that never sweeps. */
  function StepUnswept(e: Logins, c: Call): (Logins, Reply) {
    if c.op.Add? then (e[c.op.token := Started(c.op, c.at)], Done) else Apply(e, c.op, c.at)
  }

  function RunUnswept(calls: seq<Call>): Logins {
    if calls == [] then map[] else StepUnswept(RunUnswept(calls[..|calls| - 1]), calls[|calls| - 1]).0
  }

  ghost predicate Ordered(calls: seq<Call>) {
    forall i, j :: 0 <= i < j < |calls| ==> calls[i].at <= calls[j].at
  }

  /** The sweep has removed expired logins only. */
  ghost predicate OnlyExpiredGone(swept: Logins, full: Logins, now: int) {
    && (forall k :: k in swept ==> k in full && swept[k] == full[k])
    && (forall k :: k in full && now <= full[k].expires ==> k in swept)
  }

  lemma SweptStep(swept: Logins, full: Logins, c: Call)
    requires OnlyExpiredGone(swept, full, c.at)
    ensures OnlyExpiredGone(Step(swept, c).0, StepUnswept(full, c).0, c.at)
  {
  }

  lemma {:induction false} SweptRun(calls: seq<Call>, now: int)
    requires Ordered(calls) && (forall i :: 0 <= i < |calls| ==> calls[i].at <= now)
    ensures OnlyExpiredGone(Run(calls), RunUnswept(calls), now)
  {
    if calls != [] {
      var i := |calls| - 1;
      SweptRun(calls[..i], calls[i].at);
      SweptStep(Run(calls[..i]), RunUnswept(calls[..i]), calls[i]);
    }
  }

  /** Some Add swept at an instant after the login had expired. */
  ghost predicate SweptAfter(calls: seq<Call>, expires: int) {
    exists j :: 0 <= j < |calls| && calls[j].op.Add? && calls[j].at > expires
  }

  lemma SweptAfterOneMore(calls: seq<Call>, expires: int)
    requires calls != []
    ensures var i := |calls| - 1;
            SweptAfter(calls, expires) <==> SweptAfter(calls[..i], expires) || (calls[i].op.Add? && calls[i].at > expires)
  {
    var i := |calls| - 1;
    if SweptAfter(calls[..i], expires) {
      var j :| 0 <= j < i && calls[..i][j].op.Add? && calls[..i][j].at > expires;
      assert calls[j].op.Add? && calls[j].at > expires;
    }
    if SweptAfter(calls, expires) && !(calls[i].op.Add? && calls[i].at > expires) {
      var j :| 0 <= j < |calls| && calls[j].op.Add? && calls[j].at > expires;
      assert calls[..i][j].op.Add?;
    }
  }

  lemma GoneOneMore(swept: Logins, full: Logins, c: Call, token: string, before: bool)
    requires OnlyExpiredGone(swept, full, c.at)
    requires token in full ==> (token !in swept <==> before)
    requires token in StepUnswept(full, c).0
    ensures var after := StepUnswept(full, c).0;
            && (c.op.Add? && c.op.token == token ==> token in Step(swept, c).0 && after[token].expires == c.at + TTL)
            && (!(c.op.Add? && c.op.token == token) ==>
                  && token in full && after[token].expires == full[token].expires
                  && (token !in Step(swept, c).0 <==> before || (c.op.Add? && c.at > full[token].expires)))
  {
  }

  /** The logins the sweep has taken: those that had expired when some Add ran. */
  lemma {:induction false} GoneIsSwept(calls: seq<Call>, token: string)
    requires Ordered(calls) && token in RunUnswept(calls)
    ensures token !in Run(calls) <==> SweptAfter(calls, RunUnswept(calls)[token].expires)
  {
    if calls != [] {
      var i := |calls| - 1;
      var init, c := calls[..i], calls[i];
      var full := RunUnswept(init);
      if token in full {
        GoneIsSwept(init, token);
      }
      SweptRun(init, c.at);
      GoneOneMore(Run(init), full, c, token, token in full && token !in Run(init));
      SweptAfterOneMore(calls, RunUnswept(calls)[token].expires);
    }
  }

  /** With a clock that never goes back, a call is answered otherwise than if nothing
      were ever swept exactly when it takes a challenge that was issued to a login which
      some Add has found expired: TakeChallenge does not look at the expiry. */
  lemma SweepInvisible(calls: seq<Call>, i: nat)
    requires Ordered(calls) && i < |calls|
    ensures var full := RunUnswept(calls[..i]);
            var c := calls[i];
            ReplyTo(calls, i) != StepUnswept(full, c).1 <==>
            && c.op.TakeChallenge? && c.op.token in full
            && full[c.op.token].passkey.Some?
            && SweptAfter(calls[..i], full[c.op.token].expires)
  {
    SweptRun(calls[..i], calls[i].at);
    if calls[i].op.TakeChallenge? && calls[i].op.token in RunUnswept(calls[..i]) {
      GoneIsSwept(calls[..i], calls[i].op.token);
    }
  }

  /** Such a run: the login "a" is given a challenge and expires, another sign-in
      starts, and the challenge of "a" is gone, which it would not have been unswept. */
  lemma SweepSeen()
    ensures var calls := [Call(Op.Add("a", "u", "e"), 0), Call(SetChallenge("a", "d"), 0),
                          Call(Op.Add("b", "v", "f"), TTL + 1), Call(TakeChallenge("a"), TTL + 1)];
            && Ordered(calls) && FreshTokens(calls)
            && ReplyTo(calls, 3) == Challenge(None)
            && StepUnswept(RunUnswept(calls[..3]), calls[3]).1 == Challenge(Some("d"))
  {
    var calls := [Call(Op.Add("a", "u", "e"), 0), Call(SetChallenge("a", "d"), 0),
                  Call(Op.Add("b", "v", "f"), TTL + 1), Call(TakeChallenge("a"), TTL + 1)];
    assert calls[..3][..2] == calls[..2] && calls[..2][..1] == calls[..1] && calls[..1][..0] == [];
    var first := Started(calls[0].op, 0);
    assert Run(calls[..1]) == RunUnswept(calls[..1]) == map["a" := first];
    assert Run(calls[..2]) == RunUnswept(calls[..2]) == map["a" := first.(passkey := Some("d"))];
    assert "a" !in Run(calls[..3]);
    assert RunUnswept(calls[..3])["a"].passkey == Some("d");
  }
}
