/** Checking a second factor and recording its use. Requests of one user run
    interleaved, each step of a request atomic: take the per-user lock, read the
    stored user, check the code, write the user back, release the lock. */
module SecondFactor {
  import opened Text
  import opened Totp
  import opened Wrappers

  /** recovery: the hashes of the recovery codes not yet spent. */
  datatype User = User(secret: string, lastStep: int, recovery: seq<string>)

  datatype Use = TotpUse(code: string, step: int, at: int) | RecoveryUse(hash: string)

  /** What to store and what was used, or None for a wrong code. */
  function Check(p: Primitives, user: User, code: string, now: int): Option<(User, Use)> {
    var step := if user.secret == "" then None else Verified(p, user.secret, code, now, user.lastStep);
    if step.Some? then Some((user.(lastStep := step.value), TotpUse(code, step.value, now)))
    else if Matches(p, user.recovery, code) then
      var h := HashOf(p, code);
      Some((user.(recovery := Spent(user.recovery, h)), RecoveryUse(h)))
    else None
  }

  datatype Consumption = Accepted | WrongCode | NoUser

  /** code is the authenticator's for some time step that can still be used. */
  ghost predicate FitsSomeStep(p: Primitives, user: User, code: string, now: int) {
    user.secret != "" && exists step :: Fits(p, user.secret, code, now, user.lastStep, step)
  }

  /** code is one of the recovery codes not yet spent. */
  predicate IsUnspent(p: Primitives, user: User, code: string) {
    |Normalised(p, code)| == 10 && p.hash(Normalised(p, code)) in user.recovery
  }

  /** What submitting code at now comes to for user: with a code of the authenticator only
      lastStep moves, to the earliest step it fits; with an unspent recovery code exactly
      one copy of its hash goes; and any other code is refused. */
  ghost predicate Consumes(p: Primitives, user: User, code: string, now: int, after: Option<User>) {
    if FitsSomeStep(p, user, code, now) then
      && after.Some? && after.value == user.(lastStep := after.value.lastStep)
      && Fits(p, user.secret, code, now, user.lastStep, after.value.lastStep)
      && forall step :: Fits(p, user.secret, code, now, user.lastStep, step) ==> after.value.lastStep <= step
    else if IsUnspent(p, user, code) then
      && after.Some? && after.value == user.(recovery := after.value.recovery)
      && multiset(user.recovery) == multiset(after.value.recovery) + multiset{p.hash(Normalised(p, code))}
    else after.None?
  }

  lemma CheckConsumes(p: Primitives, user: User, code: string, now: int)
    ensures var r := Check(p, user, code, now);
            Consumes(p, user, code, now, if r.Some? then Some(r.value.0) else None)
  {
    VerifiedMeaning(p, user.secret, code, now, user.lastStep);
    if Matches(p, user.recovery, code) {
      SpendingTakesOne(user.recovery, HashOf(p, code));
    }
  }

  class SecondFactors {
    const p: Primitives
    var users: map<string, User>

    constructor (p: Primitives, users: map<string, User>)
      ensures this.p == p && this.users == users
    {
      this.p, this.users := p, users;
    }

    /** One whole critical section. stale is the caller's copy of the user. */
    method ConsumeSecondFactor(id: string, stale: User, code: string, now: int) returns (r: Consumption)
      modifies this
      ensures TrimSpace(code) == "" ==> r == WrongCode
      ensures TrimSpace(code) != "" ==> (r == NoUser <==> id !in old(users))
      ensures r != Accepted ==> users == old(users)
      ensures r == Accepted ==> id in old(users) && id in users && users == old(users)[id := users[id]]
      ensures TrimSpace(code) != "" && id in old(users) ==>
                Consumes(p, old(users)[id], TrimSpace(code), now, if r == Accepted then Some(users[id]) else None)
    {
      var typed := TrimSpace(code);
      if typed == "" {
        return WrongCode;
      }
      if id !in users {
        return NoUser;
      }
      var user := stale;
      user := users[id];
      VerifiedMeaning(p, user.secret, typed, now, user.lastStep);
      if user.secret != "" {
        var step, ok := VerifyTOTP(p, user.secret, typed, now, user.lastStep);
        if ok {
          users := users[id := user.(lastStep := step)];
          return Accepted;
        }
      }
      var rest, ok := UseRecoveryCode(p, user.recovery, typed);
      if ok {
        SpendingTakesOne(user.recovery, HashOf(p, typed));
        users := users[id := user.(recovery := rest)];
        return Accepted;
      }
      return WrongCode;
    }
  }

  // ----- interleaved requests of one user

  /** A request, by the step it takes next. */
  datatype Request =
    | TakeLock(code: string, copy: User)
    | ReadUser(code: string, copy: User)
    | CheckCode(code: string, copy: User)
    | WriteUser(copy: User, use: Use)
    | ReleaseLock(ok: bool)
    | Answered(ok: bool)

  predicate InSection(q: Request) {
    q.ReadUser? || q.CheckCode? || q.WriteUser? || q.ReleaseLock?
  }

  datatype Entry = Entry(request: nat, use: Use)

  /** log: every use recorded, in order, and the request that recorded it. */
  datatype Machine = Machine(stored: User, holder: Option<nat>, requests: map<nat, Request>, log: seq<Entry>)

  /** Begin: request r arrives, carrying whatever copy of the user it has. */
  datatype Action = Begin(r: nat, code: string, copy: User) | Next(r: nat)

  datatype Timed = Timed(action: Action, at: int)

  function Going(m: Machine, r: nat, q: Request): Machine {
    m.(requests := m.requests[r := q])
  }

  function Step(p: Primitives, m: Machine, t: Timed): Machine {
    match t.action
    case Begin(r, code, copy) =>
      if r in m.requests then m
      else if TrimSpace(code) == "" then Going(m, r, Answered(false))
      else Going(m, r, TakeLock(TrimSpace(code), copy))
    case Next(r) =>
      if r !in m.requests then m
      else
        match m.requests[r]
        case TakeLock(code, copy) =>
          if m.holder.Some? then m else Going(m, r, ReadUser(code, copy)).(holder := Some(r))
        case ReadUser(code, _) => Going(m, r, CheckCode(code, m.stored))
        case CheckCode(code, copy) =>
          (match Check(p, copy, code, t.at)
           case None => Going(m, r, ReleaseLock(false))
           case Some((user, use)) => Going(m, r, WriteUser(user, use)))
        case WriteUser(copy, use) =>
          Going(m, r, ReleaseLock(true)).(stored := copy, log := m.log + [Entry(r, use)])
        case ReleaseLock(ok) => Going(m, r, Answered(ok)).(holder := None)
        case Answered(_) => m
  }

  function Run(p: Primitives, enrolled: User, actions: seq<Timed>): Machine {
    if actions == [] then Machine(enrolled, None, map[], [])
    else Step(p, Run(p, enrolled, actions[..|actions| - 1]), actions[|actions| - 1])
  }

  // ----- what the log says

  /** The time steps accepted, in order. */
  function Steps(log: seq<Entry>): seq<int> {
    if log == [] then []
    else
      var last := log[|log| - 1].use;
      Steps(log[..|log| - 1]) + if last.TotpUse? then [last.step] else []
  }

  /** The recovery hashes spent. */
  function Hashes(log: seq<Entry>): multiset<string> {
    if log == [] then multiset{}
    else
      var last := log[|log| - 1].use;
      Hashes(log[..|log| - 1]) + if last.RecoveryUse? then multiset{last.hash} else multiset{}
  }

  function Top(log: seq<Entry>, low: int): int {
    var s := Steps(log);
    if s == [] then low else s[|s| - 1]
  }

  ghost predicate Ascending(s: seq<int>, low: int) {
    && (forall i :: 0 <= i < |s| ==> low < s[i])
    && (forall i, j :: 0 <= i < j < |s| ==> s[i] < s[j])
  }

  /** A recorded time step is within one of the clock's, and the code was its code. */
  predicate Genuine(p: Primitives, secret: string, e: Entry) {
    e.use.TotpUse? ==>
      && p.decode(secret).Some?
      && Typed(e.use.code) == TotpCode(p, p.decode(secret).value, e.use.step)
      && StepAt(e.use.at) - SKEW <= e.use.step <= StepAt(e.use.at) + SKEW
  }

  ghost predicate Recorded(m: Machine, r: nat) {
    exists i :: 0 <= i < |m.log| && m.log[i].request == r
  }

  // ----- the invariant

  ghost predicate Exclusive(m: Machine) {
    && (m.holder.Some? ==> m.holder.value in m.requests && InSection(m.requests[m.holder.value]))
    && (forall r :: r in m.requests && InSection(m.requests[r]) ==> m.holder == Some(r))
  }

  /** What a request in its critical section holds agrees with what is stored. */
  ghost predicate UpToDate(p: Primitives, m: Machine) {
    forall r :: r in m.requests ==>
      match m.requests[r]
      case CheckCode(_, copy) => copy == m.stored
      case WriteUser(copy, use) => Prepared(p, m.stored, copy, use)
      case _ => true
  }

  ghost predicate Prepared(p: Primitives, stored: User, copy: User, use: Use) {
    match use
    case TotpUse(code, step, at) =>
      copy == stored.(lastStep := step) && Fits(p, stored.secret, code, at, stored.lastStep, step)
    case RecoveryUse(h) =>
      copy == stored.(recovery := Spent(stored.recovery, h)) && h in stored.recovery
  }

  /** The stored user is the enrolled one with the logged uses taken out. */
  ghost predicate LogAccounts(p: Primitives, enrolled: User, m: Machine) {
    && m.stored.secret == enrolled.secret
    && m.stored.lastStep == Top(m.log, enrolled.lastStep)
    && Ascending(Steps(m.log), enrolled.lastStep)
    && multiset(m.stored.recovery) + Hashes(m.log) == multiset(enrolled.recovery)
    && (forall i :: 0 <= i < |m.log| ==> Genuine(p, enrolled.secret, m.log[i]))
  }

  /** Exactly the requests that report success have recorded a use, each one. */
  ghost predicate OneUseEach(m: Machine) {
    && (forall r :: Recorded(m, r) <==> r in m.requests && Succeeded(m.requests[r]))
    && (forall i, j :: 0 <= i < j < |m.log| ==> m.log[i].request != m.log[j].request)
  }

  ghost predicate Inv(p: Primitives, enrolled: User, m: Machine) {
    Exclusive(m) && UpToDate(p, m) && LogAccounts(p, enrolled, m) && OneUseEach(m)
  }

  lemma CheckPrepares(p: Primitives, user: User, code: string, now: int)
    ensures var r := Check(p, user, code, now);
            r.Some? ==> Prepared(p, user, r.value.0, r.value.1)
  {
    VerifiedMeaning(p, user.secret, code, now, user.lastStep);
  }

  lemma StepAppended(log: seq<Entry>, e: Entry, low: int)
    requires e.use.TotpUse? && Ascending(Steps(log), low) && Top(log, low) < e.use.step
    ensures Steps(log + [e]) == Steps(log) + [e.use.step] && Hashes(log + [e]) == Hashes(log)
    ensures Ascending(Steps(log + [e]), low) && Top(log + [e], low) == e.use.step
  {
    var s := Steps(log);
    assert (log + [e])[..|log|] == log;
    forall i | 0 <= i < |s|
      ensures s[i] < e.use.step
    {
      assert s[i] <= s[|s| - 1] == Top(log, low);
    }
  }

  lemma TotpLogged(p: Primitives, enrolled: User, m: Machine, r: nat, copy: User, use: Use)
    requires LogAccounts(p, enrolled, m) && Prepared(p, m.stored, copy, use) && use.TotpUse?
    ensures LogAccounts(p, enrolled, Going(m, r, ReleaseLock(true)).(stored := copy, log := m.log + [Entry(r, use)]))
  {
    var e := Entry(r, use);
    StepAppended(m.log, e, enrolled.lastStep);
    assert Genuine(p, enrolled.secret, e);
    forall i | 0 <= i < |m.log + [e]|
      ensures Genuine(p, enrolled.secret, (m.log + [e])[i])
    {
      assert i < |m.log| ==> (m.log + [e])[i] == m.log[i];
    }
  }

  lemma RecoveryLogged(p: Primitives, enrolled: User, m: Machine, r: nat, copy: User, use: Use)
    requires LogAccounts(p, enrolled, m) && Prepared(p, m.stored, copy, use) && use.RecoveryUse?
    ensures LogAccounts(p, enrolled, Going(m, r, ReleaseLock(true)).(stored := copy, log := m.log + [Entry(r, use)]))
  {
    var log := m.log + [Entry(r, use)];
    assert log[..|log| - 1] == m.log;
    assert Steps(log) == Steps(m.log) && Hashes(log) == Hashes(m.log) + multiset{use.hash};
    SpendingTakesOne(m.stored.recovery, use.hash);
    assert multiset(copy.recovery) + (Hashes(m.log) + multiset{use.hash})
        == (multiset(copy.recovery) + multiset{use.hash}) + Hashes(m.log);
  }

  lemma UseCounted(m: Machine, r: nat, copy: User, use: Use)
    requires OneUseEach(m) && r in m.requests && m.requests[r].WriteUser?
    ensures OneUseEach(Going(m, r, ReleaseLock(true)).(stored := copy, log := m.log + [Entry(r, use)]))
  {
    var after := Going(m, r, ReleaseLock(true)).(stored := copy, log := m.log + [Entry(r, use)]);
    assert !Recorded(m, r);
    assert after.log[|m.log|].request == r;
    forall q
      ensures Recorded(after, q) <==> q == r || Recorded(m, q)
    {
      if Recorded(m, q) {
        var i :| 0 <= i < |m.log| && m.log[i].request == q;
        assert after.log[i].request == q;
      }
    }
  }

  predicate Succeeded(q: Request) {
    q == ReleaseLock(true) || q == Answered(true)
  }

  /** A step of request r that records nothing. */
  lemma MovedOn(p: Primitives, enrolled: User, m: Machine, m': Machine, r: nat, q: Request)
    requires UpToDate(p, m) && LogAccounts(p, enrolled, m) && OneUseEach(m)
    requires m'.log == m.log && m'.stored == m.stored && m'.requests == m.requests[r := q]
    requires Succeeded(q) <==> r in m.requests && Succeeded(m.requests[r])
    requires q.CheckCode? ==> q.copy == m.stored
    requires q.WriteUser? ==> Prepared(p, m.stored, q.copy, q.use)
    ensures UpToDate(p, m') && LogAccounts(p, enrolled, m') && OneUseEach(m')
  {
    forall s
      ensures Recorded(m', s) <==> Recorded(m, s)
    {
      if Recorded(m, s) {
        var i :| 0 <= i < |m.log| && m.log[i].request == s;
        assert m'.log[i].request == s;
      }
    }
  }

  lemma StaysExclusive(p: Primitives, m: Machine, t: Timed)
    requires Exclusive(m)
    ensures Exclusive(Step(p, m, t))
  {
  }

  lemma Written(p: Primitives, enrolled: User, m: Machine, r: nat, copy: User, use: Use)
    requires Inv(p, enrolled, m) && r in m.requests && m.requests[r] == WriteUser(copy, use)
    ensures var m' := Going(m, r, ReleaseLock(true)).(stored := copy, log := m.log + [Entry(r, use)]);
            UpToDate(p, m') && LogAccounts(p, enrolled, m') && OneUseEach(m')
  {
    if use.TotpUse? {
      TotpLogged(p, enrolled, m, r, copy, use);
    } else {
      RecoveryLogged(p, enrolled, m, r, copy, use);
    }
    UseCounted(m, r, copy, use);
  }

  predicate Writes(m: Machine, t: Timed) {
    t.action.Next? && t.action.r in m.requests && m.requests[t.action.r].WriteUser?
  }

  /** What any other step does: it moves its request on and changes nothing else. */
  lemma OtherStep(p: Primitives, m: Machine, t: Timed)
    requires UpToDate(p, m) && !Writes(m, t) && Step(p, m, t) != m
    ensures var r, m' := t.action.r, Step(p, m, t);
            && r in m'.requests && m'.log == m.log && m'.stored == m.stored
            && m'.requests == m.requests[r := m'.requests[r]]
            && (Succeeded(m'.requests[r]) <==> r in m.requests && Succeeded(m.requests[r]))
            && (m'.requests[r].CheckCode? ==> m'.requests[r].copy == m.stored)
            && (m'.requests[r].WriteUser? ==> Prepared(p, m.stored, m'.requests[r].copy, m'.requests[r].use))
  {
    if t.action.Next? && m.requests[t.action.r].CheckCode? {
      CheckPrepares(p, m.stored, m.requests[t.action.r].code, t.at);
    }
  }

  lemma StepKeeps(p: Primitives, enrolled: User, m: Machine, m': Machine, t: Timed)
    requires Inv(p, enrolled, m) && m' == Step(p, m, t)
    ensures Inv(p, enrolled, m')
  {
    var r := t.action.r;
    StaysExclusive(p, m, t);
    if Writes(m, t) {
      Written(p, enrolled, m, r, m.requests[r].copy, m.requests[r].use);
    } else if m' != m {
      OtherStep(p, m, t);
      MovedOn(p, enrolled, m, m', r, m'.requests[r]);
    }
  }

  lemma {:induction false} RunKeeps(p: Primitives, enrolled: User, actions: seq<Timed>)
    ensures Inv(p, enrolled, Run(p, enrolled, actions))
  {
    if actions == [] {
      assert multiset(enrolled.recovery) + multiset{} == multiset(enrolled.recovery);
    } else {
      RunKeeps(p, enrolled, actions[..|actions| - 1]);
      StepKeeps(p, enrolled, Run(p, enrolled, actions[..|actions| - 1]), Run(p, enrolled, actions), actions[|actions| - 1]);
    }
  }

  // ----- the main results

  /** Over any interleaving, whatever copies the requests carry: the accepted time steps
      strictly increase, each is within one of the clock's step when its code was
      checked, and every success is backed by a use of its own. */
  lemma StepsStrictlyIncrease(p: Primitives, enrolled: User, actions: seq<Timed>)
    ensures var m := Run(p, enrolled, actions);
            && Ascending(Steps(m.log), enrolled.lastStep)
            && (forall i :: 0 <= i < |m.log| ==> Genuine(p, enrolled.secret, m.log[i]))
            && OneUseEach(m)
  {
    RunKeeps(p, enrolled, actions);
  }

  /** The codes accepted while the clock is between steps a and b. */
  function AcceptedBetween(log: seq<Entry>, a: int, b: int): nat {
    if log == [] then 0
    else
      var last := log[|log| - 1].use;
      AcceptedBetween(log[..|log| - 1], a, b) + if last.TotpUse? && a <= StepAt(last.at) <= b then 1 else 0
  }

  function Allowance(top: int, a: int, b: int): int {
    if top < a - SKEW then 0 else if top <= b + SKEW then top - a + 2 else b - a + 3
  }

  lemma TopRises(log: seq<Entry>, low: int)
    requires log != [] && Ascending(Steps(log), low)
    ensures var init, use := log[..|log| - 1], log[|log| - 1].use;
            && Ascending(Steps(init), low)
            && (use.TotpUse? ==> Top(init, low) < use.step == Top(log, low))
            && (!use.TotpUse? ==> Top(init, low) == Top(log, low))
  {
    var s, use := Steps(log[..|log| - 1]), log[|log| - 1].use;
    if use.TotpUse? {
      var longer := Steps(log);
      assert longer == s + [use.step];
      assert longer[|s|] == use.step;
      assert forall i :: 0 <= i < |s| ==> longer[i] == s[i];
      if s != [] {
        assert longer[|s| - 1] < longer[|s|];
      }
    } else {
      assert Steps(log) == s + [] == s;
    }
  }

  lemma {:induction false} AcceptedUpTo(p: Primitives, secret: string, log: seq<Entry>, low: int, a: int, b: int)
    requires Ascending(Steps(log), low) && a <= b
    requires forall i :: 0 <= i < |log| ==> Genuine(p, secret, log[i])
    ensures AcceptedBetween(log, a, b) <= Allowance(Top(log, low), a, b)
  {
    if log != [] {
      assert Genuine(p, secret, log[|log| - 1]);
      TopRises(log, low);
      AcceptedUpTo(p, secret, log[..|log| - 1], low, a, b);
    }
  }

  /** At most b - a + 3 codes are accepted while the clock goes from step a to step b. */
  lemma AcceptanceRate(p: Primitives, enrolled: User, actions: seq<Timed>, a: int, b: int)
    requires a <= b
    ensures AcceptedBetween(Run(p, enrolled, actions).log, a, b) <= b - a + 3
  {
    RunKeeps(p, enrolled, actions);
    AcceptedUpTo(p, enrolled.secret, Run(p, enrolled, actions).log, enrolled.lastStep, a, b);
  }

  lemma {:induction false} HashesCount(log: seq<Entry>)
    ensures |Hashes(log)| + |Steps(log)| == |log|
  {
    if log != [] {
      HashesCount(log[..|log| - 1]);
    }
  }

  /** Recovery codes are conserved: stored and spent hashes together are the issued
      ones, so the number accepted is issued minus remaining, and with distinct hashes
      none is accepted twice. */
  lemma RecoveryCodesConserved(p: Primitives, enrolled: User, actions: seq<Timed>)
    ensures var m := Run(p, enrolled, actions);
            && multiset(m.stored.recovery) + Hashes(m.log) == multiset(enrolled.recovery)
            && |m.log| - |Steps(m.log)| == |enrolled.recovery| - |m.stored.recovery|
            && forall h :: multiset(enrolled.recovery)[h] == 1 ==>
                             Hashes(m.log)[h] == (if h in m.stored.recovery then 0 else 1)
  {
    var m := Run(p, enrolled, actions);
    RunKeeps(p, enrolled, actions);
    HashesCount(m.log);
    assert |multiset(m.stored.recovery) + Hashes(m.log)| == |m.stored.recovery| + |Hashes(m.log)|;
    forall h | multiset(enrolled.recovery)[h] == 1
      ensures Hashes(m.log)[h] == (if h in m.stored.recovery then 0 else 1)
    {
      assert (multiset(m.stored.recovery) + Hashes(m.log))[h] == 1;
      assert h in multiset(m.stored.recovery) <==> h in m.stored.recovery;
    }
  }

  // ----- what a request is answered

  /** Request r has been found right, and is on its way to saying so. */
  predicate FoundRight(m: Machine, r: nat) {
    r in m.requests && (m.requests[r].WriteUser? || Succeeded(m.requests[r]))
  }

  predicate FoundWrong(m: Machine, r: nat) {
    r in m.requests && (m.requests[r] == ReleaseLock(false) || m.requests[r] == Answered(false))
  }

  function RunOn(p: Primitives, m: Machine, actions: seq<Timed>): Machine {
    if actions == [] then m else Step(p, RunOn(p, m, actions[..|actions| - 1]), actions[|actions| - 1])
  }

  lemma {:induction false} FindingsStand(p: Primitives, m: Machine, actions: seq<Timed>, r: nat)
    ensures FoundRight(m, r) ==> FoundRight(RunOn(p, m, actions), r)
    ensures FoundWrong(m, r) ==> FoundWrong(RunOn(p, m, actions), r)
  {
    if actions != [] {
      FindingsStand(p, m, actions[..|actions| - 1], r);
    }
  }

  /** In every interleaving, a request whose code is checked at now goes on to record its
      use exactly when, for the user stored at that moment, the code is the authenticator's
      or an unspent recovery code; and once finished it has answered so. */
  lemma AnsweredRight(p: Primitives, enrolled: User, actions: seq<Timed>, r: nat, now: int, later: seq<Timed>)
    requires r in Run(p, enrolled, actions).requests && Run(p, enrolled, actions).requests[r].CheckCode?
    ensures var m := Run(p, enrolled, actions);
            var right := FitsSomeStep(p, m.stored, m.requests[r].code, now) || IsUnspent(p, m.stored, m.requests[r].code);
            var checked := Step(p, m, Timed(Next(r), now));
            var end := RunOn(p, checked, later);
            && (checked.requests[r].WriteUser? <==> right)
            && r in end.requests && (end.requests[r].Answered? ==> end.requests[r] == Answered(right))
  {
    var m := Run(p, enrolled, actions);
    RunKeeps(p, enrolled, actions);
    assert m.requests[r].copy == m.stored;
    CheckConsumes(p, m.stored, m.requests[r].code, now);
    FindingsStand(p, Step(p, m, Timed(Next(r), now)), later, r);
  }
}
