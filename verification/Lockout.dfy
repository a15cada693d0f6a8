/** Account lockout: the counters kept per normalised address, and how many wrong
    guesses they let through in any span of time. */
module Lockout {
  import opened Arithmetic
  import opened Wrappers

  /** lockedAt is None where the source keeps a zero time. */
  datatype Entry = Entry(count: int, lockedAt: Option<int>)

  type Attempts = map<string, Entry>

  /** normalise trims an address and folds its case. */
  datatype Policy = Policy(maxAttempts: int, duration: int, normalise: string -> string)

  // ----- what one call does

  predicate Expired(p: Policy, e: Entry, now: int) {
    e.lockedAt.Some? && now - e.lockedAt.value >= p.duration
  }

  predicate Locked(p: Policy, a: Attempts, key: string, now: int) {
    p.maxAttempts > 0 && key in a && a[key].lockedAt.Some? && !Expired(p, a[key], now)
  }

  /** The failures that count against the address when one more is recorded. */
  function Counted(p: Policy, a: Attempts, key: string, now: int): int {
    if key !in a || Expired(p, a[key], now) then 0 else a[key].count
  }

  /** RecordFailure reads the clock twice: once to see whether an old lock has
      expired, and at stamp to date a new one. */
  function Fail(p: Policy, a: Attempts, key: string, now: int, stamp: int): Attempts {
    if p.maxAttempts <= 0 then a
    else
      var count := Counted(p, a, key, now) + 1;
      var kept := if key !in a || Expired(p, a[key], now) then None else a[key].lockedAt;
      a[key := Entry(count, if count >= p.maxAttempts then Some(stamp) else kept)]
  }

  function Clear(p: Policy, a: Attempts, key: string): Attempts {
    if p.maxAttempts <= 0 then a else a - {key}
  }

  /** -1 when lockout is disabled. */
  function Remaining(p: Policy, a: Attempts, key: string, now: int): int {
    if p.maxAttempts <= 0 then -1
    else if Counted(p, a, key, now) > p.maxAttempts then 0
    else p.maxAttempts - Counted(p, a, key, now)
  }

  function LockLeft(p: Policy, a: Attempts, key: string, now: int): int {
    if p.maxAttempts <= 0 || key !in a || a[key].lockedAt.None? then 0
    else if now - a[key].lockedAt.value > p.duration then 0
    else p.duration - (now - a[key].lockedAt.value)
  }

  class LockoutService {
    const policy: Policy
    var attempts: Attempts

    constructor (policy: Policy)
      ensures this.policy == policy && attempts == map[]
    {
      this.policy := policy;
      attempts := map[];
    }

    method IsLocked(email: string, now: int) returns (locked: bool)
      ensures locked == Locked(policy, attempts, policy.normalise(email), now)
    {
      var key := policy.normalise(email);
      if policy.maxAttempts <= 0 {
        return false;
      }
      if key !in attempts {
        return false;
      }
      var entry := attempts[key];
      if entry.lockedAt.Some? && now - entry.lockedAt.value < policy.duration {
        return true;
      }
      return false;
    }

    method RecordFailure(email: string, now: int, stamp: int) returns (locked: bool)
      requires now <= stamp
      modifies this
      ensures attempts == Fail(policy, old(attempts), policy.normalise(email), now, stamp)
      ensures locked <==> policy.maxAttempts > 0
                          && Counted(policy, old(attempts), policy.normalise(email), now) + 1 >= policy.maxAttempts
    {
      var key := policy.normalise(email);
      if policy.maxAttempts <= 0 {
        return false;
      }
      var entry := if key in attempts then attempts[key] else Entry(0, None);
      if entry.lockedAt.Some? && now - entry.lockedAt.value >= policy.duration {
        entry := Entry(0, None);
      }
      entry := entry.(count := entry.count + 1);
      locked := entry.count >= policy.maxAttempts;
      if locked {
        entry := entry.(lockedAt := Some(stamp));
      }
      attempts := attempts[key := entry];
    }

    method RecordSuccess(email: string)
      modifies this
      ensures attempts == Clear(policy, old(attempts), policy.normalise(email))
    {
      if policy.maxAttempts <= 0 {
        return;
      }
      attempts := attempts - {policy.normalise(email)};
    }

    method GetRemainingAttempts(email: string, now: int) returns (n: int)
      ensures n == Remaining(policy, attempts, policy.normalise(email), now)
    {
      var key := policy.normalise(email);
      if policy.maxAttempts <= 0 {
        return -1;
      }
      if key !in attempts {
        return policy.maxAttempts;
      }
      var entry := attempts[key];
      if entry.lockedAt.Some? && now - entry.lockedAt.value >= policy.duration {
        return policy.maxAttempts;
      }
      n := policy.maxAttempts - entry.count;
      if n < 0 {
        n := 0;
      }
    }

    method GetLockoutRemaining(email: string, now: int) returns (left: int)
      ensures left == LockLeft(policy, attempts, policy.normalise(email), now)
    {
      var key := policy.normalise(email);
      if policy.maxAttempts <= 0 || key !in attempts || attempts[key].lockedAt.None? {
        return 0;
      }
      left := policy.duration - (now - attempts[key].lockedAt.value);
      if left < 0 {
        left := 0;
      }
    }
  }

  // ----- reachable states

  datatype Call = RecordFailure(email: string, now: int, stamp: int) | RecordSuccess(email: string)

  function Apply(p: Policy, a: Attempts, c: Call): Attempts {
    match c
    case RecordFailure(email, now, stamp) => Fail(p, a, p.normalise(email), now, stamp)
    case RecordSuccess(email) => Clear(p, a, p.normalise(email))
  }

  function Reached(p: Policy, calls: seq<Call>): Attempts {
    if calls == [] then map[] else Apply(p, Reached(p, calls[..|calls| - 1]), calls[|calls| - 1])
  }

  /** A lock is set exactly when the count has reached the limit. */
  ghost predicate Consistent(p: Policy, a: Attempts) {
    forall key :: key in a ==> 0 <= a[key].count && (a[key].lockedAt.Some? <==> a[key].count >= p.maxAttempts)
  }

  lemma {:induction false} ReachedConsistent(p: Policy, calls: seq<Call>)
    ensures Consistent(p, Reached(p, calls))
  {
    if calls != [] {
      ReachedConsistent(p, calls[..|calls| - 1]);
    }
  }

  /** What GetRemainingAttempts and GetLockoutRemaining tell a caller: the failure that
      uses the last remaining attempt locks, any other uses one up, and a lock ends
      exactly when the reported time has passed. Nothing else is touched. */
  lemma RemainingIsExact(p: Policy, calls: seq<Call>, key: string, now: int, stamp: int)
    requires p.maxAttempts > 0 && p.duration > 0 && now <= stamp
    ensures var a := Reached(p, calls);
            var after := Fail(p, a, key, now, stamp);
            && (Locked(p, a, key, now) <==> Remaining(p, a, key, now) == 0)
            && (!Locked(p, a, key, now) ==>
                  && (Locked(p, after, key, stamp) <==> Remaining(p, a, key, now) == 1)
                  && Remaining(p, after, key, stamp) == Remaining(p, a, key, now) - 1)
            && (forall at :: at >= now ==> (Locked(p, a, key, at) <==> at - now < LockLeft(p, a, key, now)))
            && (forall k :: k != key ==> (k in after <==> k in a) && (k in a ==> after[k] == a[k]))
  {
    ReachedConsistent(p, calls);
  }

  /** A success forgets every failure at its address and nothing else; a policy without
      attempts never locks anybody. */
  lemma SuccessForgets(p: Policy, calls: seq<Call>, email: string, now: int)
    ensures var a, key := Reached(p, calls), p.normalise(email);
            var after := Apply(p, a, RecordSuccess(email));
            && (p.maxAttempts > 0 ==> key !in after && Remaining(p, after, key, now) == p.maxAttempts)
            && !Locked(p, after, key, now)
            && (forall k :: k != key ==> (k in after <==> k in a) && (k in a ==> after[k] == a[k]))
            && (p.maxAttempts <= 0 ==> after == a == map[] && Remaining(p, a, key, now) == -1 && LockLeft(p, a, key, now) == 0)
  {
    if p.maxAttempts <= 0 {
      DisabledStaysEmpty(p, calls);
    }
  }

  lemma {:induction false} DisabledStaysEmpty(p: Policy, calls: seq<Call>)
    requires p.maxAttempts <= 0
    ensures Reached(p, calls) == map[]
  {
    if calls != [] {
      DisabledStaysEmpty(p, calls[..|calls| - 1]);
    }
  }

  // ----- concurrent attempts

  /** A sign-in attempt that has passed IsLocked; checked once its guess has been
      found wrong and only the recording is left. */
  datatype Attempt = Attempt(email: string, checked: bool)

  /** inside: the requests between their gate and their record. */
  datatype Server = Server(attempts: Attempts, inside: map<nat, Attempt>)

  const START := Server(map[], map[])

  /** The steps of a request, each atomic: pass the gate, have a wrong guess checked,
      record it. Leave is a request that checks nothing, or checks a right password
      that still wants a second factor; SignIn is a success. */
  datatype Event =
    | Enter(r: nat, email: string, at: int)
    | Check(r: nat, at: int)
    | Record(r: nat, at: int, stamp: int)
    | Leave(r: nat, at: int)
    | SignIn(email: string, at: int)
  {
    function End(): int {
      if Record? then stamp else at
    }
  }

  predicate Checks(g: Server, e: Event) {
    e.Check? && e.r in g.inside && !g.inside[e.r].checked
  }

  predicate Records(g: Server, e: Event) {
    e.Record? && e.r in g.inside && g.inside[e.r].checked
  }

  function Step(p: Policy, g: Server, e: Event): Server {
    match e
    case Enter(r, email, at) =>
      if r in g.inside || Locked(p, g.attempts, p.normalise(email), at) then g
      else g.(inside := g.inside[r := Attempt(email, false)])
    case Check(r, _) =>
      if Checks(g, e) then g.(inside := g.inside[r := g.inside[r].(checked := true)]) else g
    case Record(r, at, stamp) =>
      if Records(g, e) then Server(Apply(p, g.attempts, RecordFailure(g.inside[r].email, at, stamp)), g.inside - {r}) else g
    case Leave(r, _) => if r in g.inside && !g.inside[r].checked then g.(inside := g.inside - {r}) else g
    case SignIn(email, _) => g.(attempts := Apply(p, g.attempts, RecordSuccess(email)))
  }

  function Run(p: Policy, g: Server, events: seq<Event>): Server
    decreases |events|
  {
    if events == [] then g else Run(p, Step(p, g, events[0]), events[1..])
  }

  predicate At(p: Policy, g: Server, r: nat, key: string) {
    r in g.inside && p.normalise(g.inside[r].email) == key
  }

  /** The requests at key whose guess is still to be checked, and those only to be recorded. */
  function Unchecked(p: Policy, g: Server, key: string): set<nat> {
    set r | r in g.inside && At(p, g, r, key) && !g.inside[r].checked
  }

  function Unrecorded(p: Policy, g: Server, key: string): set<nat> {
    set r | r in g.inside && At(p, g, r, key) && g.inside[r].checked
  }

  function Inside(p: Policy, g: Server, key: string): nat {
    |Unchecked(p, g, key)| + |Unrecorded(p, g, key)|
  }

  /** The wrong guesses at key that are checked. */
  function Checked(p: Policy, g: Server, events: seq<Event>, key: string): nat
    decreases |events|
  {
    if events == [] then 0
    else
      (if Checks(g, events[0]) && At(p, g, events[0].r, key) then 1 else 0)
      + Checked(p, Step(p, g, events[0]), events[1..], key)
  }

  /** Events in order within [from, to], no success at key among them, and never more
      than k requests at key past the gate at once. */
  ghost predicate AtMost(k: nat, p: Policy, g: Server, events: seq<Event>, key: string, from: int, to: int)
    decreases |events|
  {
    events == [] ||
    (var e := events[0];
     && from <= e.at <= e.End() <= to
     && !(e.SignIn? && p.normalise(e.email) == key)
     && Inside(p, Step(p, g, e), key) <= k
     && AtMost(k, p, Step(p, g, e), events[1..], key, e.End(), to))
  }

  // ----- what the requests of one step do to the sets

  lemma StepSets(p: Policy, g: Server, e: Event, key: string)
    ensures var g' := Step(p, g, e);
            var u, v, u', v' := Unchecked(p, g, key), Unrecorded(p, g, key), Unchecked(p, g', key), Unrecorded(p, g', key);
            if Checks(g, e) && At(p, g, e.r, key) then e.r in u && e.r !in v && u' == u - {e.r} && v' == v + {e.r}
            else if Records(g, e) && At(p, g, e.r, key) then e.r in v && u' == u && v' == v - {e.r}
            else if e.Enter? then u <= u' && v' == v
            else if e.Leave? then u' <= u && v' == v
            else u' == u && v' == v
  {
  }

  lemma SubsetSmaller(a: set<nat>, b: set<nat>)
    requires a <= b
    ensures |a| <= |b|
  {
    assert b == a + (b - a);
  }

  /** The same, counted. */
  lemma StepCounts(p: Policy, g: Server, e: Event, key: string)
    ensures var g' := Step(p, g, e);
            var u, v, u', v' := |Unchecked(p, g, key)|, |Unrecorded(p, g, key)|, |Unchecked(p, g', key)|, |Unrecorded(p, g', key)|;
            if Checks(g, e) && At(p, g, e.r, key) then u' == u - 1 && v' == v + 1
            else if Records(g, e) && At(p, g, e.r, key) then u' == u && v' == v - 1
            else if e.Enter? then u <= u' && v' == v
            else if e.Leave? then u' <= u && v' == v
            else u' == u && v' == v
  {
    StepSets(p, g, e, key);
    var g' := Step(p, g, e);
    if e.Enter? {
      SubsetSmaller(Unchecked(p, g, key), Unchecked(p, g', key));
    } else if e.Leave? {
      SubsetSmaller(Unchecked(p, g', key), Unchecked(p, g, key));
    }
  }

  // ----- the budget

  /** A lock on key is running at the instant now. */
  predicate Running(p: Policy, a: Attempts, key: string, now: int) {
    key in a && a[key].lockedAt.Some? && now - a[key].lockedAt.value < p.duration
  }

  // The guesses that can still be checked up to to, with u requests unchecked and v
  // unrecorded at now. most is the number a single instant allows.
  function Open(most: int, d: int, counted: int, v: int, now: int, to: int): int
    requires d > 0
  {
    most - counted - v + most * ((to - now) / d)
  }

  function Shut(most: int, d: int, u: int, v: int, now: int, locked: int, to: int): int
    requires d > 0
  {
    var held := if to < locked + d then u else most - v + most * ((to - (locked + d)) / d);
    var renewed := u + most * ((to - now) / d);
    if held < renewed then renewed else held
  }

  function Budget(p: Policy, k: nat, g: Server, key: string, now: int, to: int): int
    requires p.duration > 0
  {
    var most := p.maxAttempts + k - 1;
    var u, v := |Unchecked(p, g, key)|, |Unrecorded(p, g, key)|;
    if Running(p, g.attempts, key, now) then Shut(most, p.duration, u, v, now, g.attempts[key].lockedAt.value, to)
    else Open(most, p.duration, Counted(p, g.attempts, key, now), v, now, to)
  }

  // A lock set at or after now takes a whole duration's worth of guesses off what is left.
  lemma LockPays(most: nat, d: int, now: int, locked: int, to: int)
    requires d > 0 && now <= locked && now <= to
    ensures most * ((to - now) / d) >= 0
    ensures to >= locked + d ==> most + most * ((to - (locked + d)) / d) <= most * ((to - now) / d)
  {
    QuotientMonotone(0, to - now, d, most);
    if to >= locked + d {
      QuotientMonotone(to - (locked + d), to - now - d, d, most);
      QuotientBack(to - now, d);
      var q := (to - now) / d;
      assert most * (q - 1) == most * q - most;
    }
  }

  lemma OpenLater(most: nat, d: int, counted: int, v: int, now: int, later: int, to: int)
    requires d > 0 && now <= later
    ensures Open(most, d, counted, v, later, to) <= Open(most, d, counted, v, now, to)
  {
    QuotientMonotone(to - later, to - now, d, most);
  }

  lemma ShutLater(most: nat, d: int, u: nat, v: int, now: int, later: int, locked: int, to: int)
    requires d > 0 && now <= later <= to
    ensures Shut(most, d, u, v, later, locked, to) <= Shut(most, d, u, v, now, locked, to)
    ensures later >= locked + d ==> Open(most, d, 0, v, later, to) <= Shut(most, d, u, v, now, locked, to)
  {
    QuotientMonotone(to - later, to - now, d, most);
    if later >= locked + d {
      QuotientMonotone(to - later, to - (locked + d), d, most);
    }
  }

  /** Waiting never adds to the budget, nor does a lock running out. */
  lemma BudgetLater(p: Policy, k: nat, g: Server, key: string, now: int, later: int, to: int)
    requires p.maxAttempts > 0 && p.duration > 0 && k > 0 && Consistent(p, g.attempts)
    requires now <= later <= to
    ensures Budget(p, k, g, key, later, to) <= Budget(p, k, g, key, now, to)
  {
    var most := p.maxAttempts + k - 1;
    var u, v := |Unchecked(p, g, key)|, |Unrecorded(p, g, key)|;
    if Running(p, g.attempts, key, now) {
      ShutLater(most, p.duration, u, v, now, later, g.attempts[key].lockedAt.value, to);
    } else {
      OpenLater(most, p.duration, Counted(p, g.attempts, key, now), v, now, later, to);
    }
  }

  lemma BudgetNonnegative(p: Policy, k: nat, g: Server, key: string, now: int, to: int)
    requires p.maxAttempts > 0 && p.duration > 0 && k > 0 && Consistent(p, g.attempts)
    requires Inside(p, g, key) <= k && now <= to
    ensures Budget(p, k, g, key, now, to) >= 0
  {
    QuotientMonotone(0, to - now, p.duration, p.maxAttempts + k - 1);
  }

  // Recording a failure: either one more counts, or a lock is set or renewed.
  lemma RecordPaid(p: Policy, k: nat, a: Attempts, key: string, now: int, stamp: int, u: nat, v: nat, to: int)
    requires p.maxAttempts > 0 && p.duration > 0 && Consistent(p, a)
    requires 0 < v && u + v <= k && now <= stamp <= to
    ensures var most := p.maxAttempts + k - 1;
            var a' := Fail(p, a, key, now, stamp);
            && key in a'
            && (a'[key].lockedAt.None? ==>
                  && !Running(p, a, key, now)
                  && Counted(p, a', key, stamp) == Counted(p, a, key, now) + 1)
            && (a'[key].lockedAt.Some? ==>
                  && a'[key].lockedAt == Some(stamp)
                  && Shut(most, p.duration, u, v - 1, stamp, stamp, to) <=
                     if Running(p, a, key, now) then Shut(most, p.duration, u, v, now, a[key].lockedAt.value, to)
                     else Open(most, p.duration, Counted(p, a, key, now), v, now, to))
  {
    var most, d := p.maxAttempts + k - 1, p.duration;
    LockPays(most, d, now, stamp, to);
    QuotientMonotone(to - stamp, to - now, d, most);
  }

  lemma StepConsistent(p: Policy, g: Server, e: Event)
    requires Consistent(p, g.attempts)
    ensures Consistent(p, Step(p, g, e).attempts)
  {
  }

  lemma RecordStep(p: Policy, k: nat, g: Server, e: Event, key: string, to: int)
    requires p.maxAttempts > 0 && p.duration > 0 && k > 0 && Consistent(p, g.attempts)
    requires Inside(p, g, key) <= k && e.at <= e.End() <= to
    requires Records(g, e) && At(p, g, e.r, key)
    ensures Budget(p, k, Step(p, g, e), key, e.End(), to) <= Budget(p, k, g, key, e.at, to)
  {
    var u, v := |Unchecked(p, g, key)|, |Unrecorded(p, g, key)|;
    StepCounts(p, g, e, key);
    RecordPaid(p, k, g.attempts, key, e.at, e.stamp, u, v, to);
    var after := Step(p, g, e).attempts;
    assert after == Fail(p, g.attempts, key, e.at, e.stamp);
    if after[key].lockedAt.None? {
      OpenLater(p.maxAttempts + k - 1, p.duration, Counted(p, g.attempts, key, e.at), v, e.at, e.stamp, to);
    }
  }

  lemma OtherStep(p: Policy, k: nat, g: Server, e: Event, key: string, to: int)
    requires p.maxAttempts > 0 && p.duration > 0 && Consistent(p, g.attempts)
    requires !(Records(g, e) && At(p, g, e.r, key)) && !(e.SignIn? && p.normalise(e.email) == key)
    ensures (if Checks(g, e) && At(p, g, e.r, key) then 1 else 0) + Budget(p, k, Step(p, g, e), key, e.at, to)
            <= Budget(p, k, g, key, e.at, to)
  {
    SameEntry(p, g, e, key);
    StepCounts(p, g, e, key);
    if Running(p, g.attempts, key, e.at) {
      SubsetSmaller(Unchecked(p, Step(p, g, e), key), Unchecked(p, g, key));
    }
  }

  /** One step: a checked guess is paid for out of the budget. */
  lemma StepPaid(p: Policy, k: nat, g: Server, e: Event, key: string, to: int)
    requires p.maxAttempts > 0 && p.duration > 0 && k > 0 && Consistent(p, g.attempts)
    requires Inside(p, g, key) <= k && e.at <= e.End() <= to
    requires !(e.SignIn? && p.normalise(e.email) == key)
    ensures (if Checks(g, e) && At(p, g, e.r, key) then 1 else 0) + Budget(p, k, Step(p, g, e), key, e.End(), to)
            <= Budget(p, k, g, key, e.at, to)
  {
    if Records(g, e) && At(p, g, e.r, key) {
      RecordStep(p, k, g, e, key, to);
    } else {
      OtherStep(p, k, g, e, key, to);
      StepConsistent(p, g, e);
      BudgetLater(p, k, Step(p, g, e), key, e.at, e.End(), to);
    }
  }

  lemma SameEntry(p: Policy, g: Server, e: Event, key: string)
    requires !(Records(g, e) && At(p, g, e.r, key)) && !(e.SignIn? && p.normalise(e.email) == key)
    ensures var a, a' := g.attempts, Step(p, g, e).attempts;
            && (key in a' <==> key in a) && (key in a ==> a'[key] == a[key])
    ensures Running(p, g.attempts, key, e.at) && p.maxAttempts > 0 ==>
              Unchecked(p, Step(p, g, e), key) <= Unchecked(p, g, key)
  {
  }

  lemma {:induction false} CheckedWithinBudget(p: Policy, k: nat, g: Server, events: seq<Event>, key: string, now: int, to: int)
    requires p.maxAttempts > 0 && p.duration > 0 && k > 0 && Consistent(p, g.attempts)
    requires Inside(p, g, key) <= k && now <= to
    requires AtMost(k, p, g, events, key, now, to)
    ensures Checked(p, g, events, key) <= Budget(p, k, g, key, now, to)
    decreases |events|
  {
    if events == [] {
      BudgetNonnegative(p, k, g, key, now, to);
    } else {
      var e := events[0];
      BudgetLater(p, k, g, key, now, e.at, to);
      StepPaid(p, k, g, e, key, to);
      StepConsistent(p, g, e);
      CheckedWithinBudget(p, k, Step(p, g, e), events[1..], key, e.End(), to);
    }
  }

  lemma BudgetBound(p: Policy, k: nat, g: Server, key: string, now: int, to: int)
    requires p.maxAttempts > 0 && p.duration > 0 && k > 0 && Consistent(p, g.attempts)
    requires Inside(p, g, key) <= k && now <= to
    ensures Budget(p, k, g, key, now, to) <= (p.maxAttempts + k - 1) * ((to - now) / p.duration + 1)
  {
    var most, d := p.maxAttempts + k - 1, p.duration;
    var q := (to - now) / d;
    assert most * (q + 1) == most * q + most;
    QuotientMonotone(0, to - now, d, most);
    if Running(p, g.attempts, key, now) {
      QuotientMonotone(to - (g.attempts[key].lockedAt.value + d), to - now, d, most);
    }
  }

  lemma {:induction false} RunConsistent(p: Policy, g: Server, events: seq<Event>)
    requires Consistent(p, g.attempts)
    ensures Consistent(p, Run(p, g, events).attempts)
    decreases |events|
  {
    if events != [] {
      StepConsistent(p, g, events[0]);
      RunConsistent(p, Step(p, g, events[0]), events[1..]);
    }
  }

  /** The rate bound for concurrent attempts. From any reachable state, with at most k
      requests past the gate at once and no success in between, the wrong guesses
      checked in a span number at most maxAttempts + k - 1 for every lock that fits in. */
  lemma ConcurrentRateBound(p: Policy, k: nat, before: seq<Event>, events: seq<Event>, key: string, from: int, to: int)
    requires p.maxAttempts > 0 && p.duration > 0 && k > 0 && from <= to
    requires Inside(p, Run(p, START, before), key) <= k
    requires AtMost(k, p, Run(p, START, before), events, key, from, to)
    ensures Checked(p, Run(p, START, before), events, key) <= (p.maxAttempts + k - 1) * ((to - from) / p.duration + 1)
  {
    var g := Run(p, START, before);
    RunConsistent(p, START, before);
    CheckedWithinBudget(p, k, g, events, key, from, to);
    BudgetBound(p, k, g, key, from, to);
  }

  /** One attempt at a time: maxAttempts for every lock that fits in. */
  lemma RateBound(p: Policy, before: seq<Event>, events: seq<Event>, key: string, from: int, to: int)
    requires p.maxAttempts > 0 && p.duration > 0 && from <= to
    requires Inside(p, Run(p, START, before), key) <= 1
    requires AtMost(1, p, Run(p, START, before), events, key, from, to)
    ensures Checked(p, Run(p, START, before), events, key) <= p.maxAttempts * ((to - from) / p.duration + 1)
  {
    ConcurrentRateBound(p, 1, before, events, key, from, to);
  }

  // ----- the bound is reached

  function Counting(p: Policy, count: int, at: int): Entry {
    Entry(count, if count >= p.maxAttempts then Some(at) else None)
  }

  /** Requests 0 to n - 1, past the gate and unchecked. */
  function Crowd(email: string, n: nat): (crowd: map<nat, Attempt>)
    ensures |crowd| == n
    ensures forall r: nat :: r in crowd <==> r < n
    ensures forall r :: r in crowd ==> crowd[r] == Attempt(email, false)
  {
    if n == 0 then map[] else Crowd(email, n - 1)[n - 1 := Attempt(email, false)]
  }

  /** m attempts one after another at the instant at, and then rest. */
  function Singles(email: string, at: int, m: nat, rest: seq<Event>): seq<Event> {
    if m == 0 then rest
    else [Enter(0, email, at), Check(0, at), Record(0, at, at)] + Singles(email, at, m - 1, rest)
  }

  /** Requests i to k - 1 pass the gate, and then rest. */
  function Enters(email: string, at: int, i: nat, k: nat, rest: seq<Event>): seq<Event>
    requires i <= k
    decreases k - i
  {
    if i == k then rest else [Enter(i, email, at)] + Enters(email, at, i + 1, k, rest)
  }

  /** Requests n - 1 down to 0 have their guess checked and recorded, and then rest. */
  function Finishes(at: int, n: nat, rest: seq<Event>): seq<Event> {
    if n == 0 then rest else [Check(n - 1, at), Record(n - 1, at, at)] + Finishes(at, n - 1, rest)
  }

  /** All attempts but the last one after another, then k together, and then rest. */
  function Burst(p: Policy, k: nat, email: string, at: int, rest: seq<Event>): seq<Event>
    requires p.maxAttempts > 0
  {
    Singles(email, at, p.maxAttempts - 1, Enters(email, at, 0, k, Finishes(at, k, rest)))
  }

  /** A burst at each of n + 1 instants a duration apart. */
  function Bursts(p: Policy, k: nat, email: string, at: int, n: nat): seq<Event>
    requires p.maxAttempts > 0
    decreases n
  {
    Burst(p, k, email, at, if n == 0 then [] else Bursts(p, k, email, at + p.duration, n - 1))
  }

  lemma FailCounts(p: Policy, a: Attempts, key: string, at: int)
    requires p.maxAttempts > 0 && p.duration > 0 && Consistent(p, a)
    ensures Fail(p, a, key, at, at) == a[key := Counting(p, Counted(p, a, key, at) + 1, at)]
    ensures Counted(p, Fail(p, a, key, at, at), key, at) == Counted(p, a, key, at) + 1
    ensures Consistent(p, Fail(p, a, key, at, at))
  {
  }

  lemma InsideAtMost(p: Policy, g: Server, key: string)
    ensures Inside(p, g, key) <= |g.inside|
  {
    var u, v := Unchecked(p, g, key), Unrecorded(p, g, key);
    SubsetSmaller(u + v, g.inside.Keys);
    assert u !! v;
    assert |u + v| == |u| + |v|;
  }

  /** From g the events check n guesses and lead to g', where rest takes over. */
  ghost predicate Leads(p: Policy, k: nat, g: Server, events: seq<Event>, n: nat, g': Server, rest: seq<Event>, key: string, at: int) {
    && Checked(p, g, events, key) == n + Checked(p, g', rest, key)
    && (forall to :: at <= to && AtMost(k, p, g', rest, key, at, to) ==> AtMost(k, p, g, events, key, at, to))
  }

  // One event at the instant at.
  lemma OneLeads(p: Policy, k: nat, g: Server, e: Event, rest: seq<Event>, key: string, at: int)
    requires e.at == e.End() == at && !e.SignIn? && Inside(p, Step(p, g, e), key) <= k
    ensures Leads(p, k, g, [e] + rest, if Checks(g, e) && At(p, g, e.r, key) then 1 else 0, Step(p, g, e), rest, key, at)
  {
    assert ([e] + rest)[1..] == rest;
  }

  lemma LeadsOn(p: Policy, k: nat, g: Server, events: seq<Event>, m: nat, g1: Server, mid: seq<Event>, n: nat, g2: Server, rest: seq<Event>, key: string, at: int)
    requires Leads(p, k, g, events, m, g1, mid, key, at) && Leads(p, k, g1, mid, n, g2, rest, key, at)
    ensures Leads(p, k, g, events, m + n, g2, rest, key, at)
  {
  }

  // A checked guess and its record, by a request of a crowd.
  lemma FinishOne(p: Policy, k: nat, a: Attempts, email: string, n: nat, at: int, rest: seq<Event>)
    requires p.maxAttempts > 0 && p.duration > 0 && Consistent(p, a) && n < k
    ensures var key := p.normalise(email);
            Leads(p, k, Server(a, Crowd(email, n + 1)), [Check(n, at), Record(n, at, at)] + rest, 1,
                  Server(Fail(p, a, key, at, at), Crowd(email, n)), rest, key, at)
  {
    var key, g := p.normalise(email), Server(a, Crowd(email, n + 1));
    var check, record := Check(n, at), Record(n, at, at);
    var g1 := Step(p, g, check);
    var g2 := Step(p, g1, record);
    assert g1.inside.Keys == g.inside.Keys;
    assert |g1.inside| == |g.inside| by {
      assert |g1.inside.Keys| == |g1.inside| && |g.inside.Keys| == |g.inside|;
    }
    assert g2.inside == Crowd(email, n);
    InsideAtMost(p, g1, key);
    InsideAtMost(p, g2, key);
    OneLeads(p, k, g, check, [record] + rest, key, at);
    OneLeads(p, k, g1, record, rest, key, at);
    assert [check, record] + rest == [check] + ([record] + rest);
    LeadsOn(p, k, g, [check, record] + rest, 1, g1, [record] + rest, 0, g2, rest, key, at);
  }

  lemma EnterOne(p: Policy, k: nat, a: Attempts, email: string, i: nat, at: int, rest: seq<Event>)
    requires i < k && !Locked(p, a, p.normalise(email), at)
    ensures Leads(p, k, Server(a, Crowd(email, i)), [Enter(i, email, at)] + rest, 0,
                  Server(a, Crowd(email, i + 1)), rest, p.normalise(email), at)
  {
    var g, e := Server(a, Crowd(email, i)), Enter(i, email, at);
    assert Step(p, g, e).inside == Crowd(email, i + 1);
    InsideAtMost(p, Step(p, g, e), p.normalise(email));
    OneLeads(p, k, g, e, rest, p.normalise(email), at);
  }

  lemma {:induction false} FinishesLead(p: Policy, k: nat, a: Attempts, email: string, n: nat, at: int, rest: seq<Event>) returns (a': Attempts)
    requires p.maxAttempts > 0 && p.duration > 0 && Consistent(p, a) && n <= k
    ensures var key := p.normalise(email);
            && Leads(p, k, Server(a, Crowd(email, n)), Finishes(at, n, rest), n, Server(a', map[]), rest, key, at)
            && Consistent(p, a') && Counted(p, a', key, at) == Counted(p, a, key, at) + n
            && (n == 0 ==> a' == a)
            && (n > 0 ==> key in a' && a'[key] == Counting(p, Counted(p, a, key, at) + n, at))
    decreases n
  {
    var key := p.normalise(email);
    if n == 0 {
      a' := a;
      assert Crowd(email, 0) == map[];
    } else {
      FailCounts(p, a, key, at);
      var a1 := Fail(p, a, key, at, at);
      a' := FinishesLead(p, k, a1, email, n - 1, at, rest);
      FinishOne(p, k, a, email, n - 1, at, Finishes(at, n - 1, rest));
      LeadsOn(p, k, Server(a, Crowd(email, n)), Finishes(at, n, rest), 1,
              Server(a1, Crowd(email, n - 1)), Finishes(at, n - 1, rest), n - 1, Server(a', map[]), rest, key, at);
    }
  }

  lemma {:induction false} EntersLead(p: Policy, k: nat, a: Attempts, email: string, i: nat, at: int, rest: seq<Event>)
    requires i <= k && !Locked(p, a, p.normalise(email), at)
    ensures Leads(p, k, Server(a, Crowd(email, i)), Enters(email, at, i, k, rest), 0,
                  Server(a, Crowd(email, k)), rest, p.normalise(email), at)
    decreases k - i
  {
    if i < k {
      EnterOne(p, k, a, email, i, at, Enters(email, at, i + 1, k, rest));
      EntersLead(p, k, a, email, i + 1, at, rest);
      LeadsOn(p, k, Server(a, Crowd(email, i)), Enters(email, at, i, k, rest), 0,
              Server(a, Crowd(email, i + 1)), Enters(email, at, i + 1, k, rest), 0, Server(a, Crowd(email, k)), rest,
              p.normalise(email), at);
    }
  }

  lemma SingleOne(p: Policy, k: nat, a: Attempts, email: string, at: int, rest: seq<Event>)
    requires p.maxAttempts > 0 && p.duration > 0 && k > 0 && Consistent(p, a)
    requires !Locked(p, a, p.normalise(email), at)
    ensures var key := p.normalise(email);
            Leads(p, k, Server(a, map[]), [Enter(0, email, at), Check(0, at), Record(0, at, at)] + rest, 1,
                  Server(Fail(p, a, key, at, at), map[]), rest, key, at)
  {
    var key := p.normalise(email);
    var finish := [Check(0, at), Record(0, at, at)] + rest;
    var all := [Enter(0, email, at), Check(0, at), Record(0, at, at)] + rest;
    assert Crowd(email, 0) == map[];
    EnterOne(p, k, a, email, 0, at, finish);
    FinishOne(p, k, a, email, 0, at, rest);
    assert all == [Enter(0, email, at)] + finish;
    LeadsOn(p, k, Server(a, map[]), all, 0, Server(a, Crowd(email, 1)), finish, 1,
            Server(Fail(p, a, key, at, at), map[]), rest, key, at);
  }

  lemma NotYetLocked(p: Policy, a: Attempts, key: string, at: int)
    requires Consistent(p, a) && Counted(p, a, key, at) < p.maxAttempts
    ensures !Locked(p, a, key, at)
  {
  }

  lemma {:induction false} SinglesLead(p: Policy, k: nat, a: Attempts, email: string, m: nat, at: int, rest: seq<Event>) returns (a': Attempts)
    requires p.maxAttempts > 0 && p.duration > 0 && k > 0 && Consistent(p, a)
    requires !Locked(p, a, p.normalise(email), at) && Counted(p, a, p.normalise(email), at) + m < p.maxAttempts
    ensures var key := p.normalise(email);
            && Leads(p, k, Server(a, map[]), Singles(email, at, m, rest), m, Server(a', map[]), rest, key, at)
            && Consistent(p, a') && Counted(p, a', key, at) == Counted(p, a, key, at) + m
            && !Locked(p, a', key, at)
    decreases m
  {
    var key := p.normalise(email);
    if m == 0 {
      a' := a;
    } else {
      var a1, later := Fail(p, a, key, at, at), Singles(email, at, m - 1, rest);
      FailCounts(p, a, key, at);
      NotYetLocked(p, a1, key, at);
      a' := SinglesLead(p, k, a1, email, m - 1, at, rest);
      SingleOne(p, k, a, email, at, later);
      LeadsOn(p, k, Server(a, map[]), Singles(email, at, m, rest), 1, Server(a1, map[]), later, m - 1,
              Server(a', map[]), rest, key, at);
    }
  }

  lemma BurstLeads(p: Policy, k: nat, a: Attempts, email: string, at: int, rest: seq<Event>) returns (a': Attempts)
    requires p.maxAttempts > 0 && p.duration > 0 && k > 0 && Consistent(p, a)
    requires Counted(p, a, p.normalise(email), at) == 0
    ensures var key := p.normalise(email);
            && Leads(p, k, Server(a, map[]), Burst(p, k, email, at, rest), p.maxAttempts - 1 + k, Server(a', map[]), rest, key, at)
            && Consistent(p, a') && Counted(p, a', key, at + p.duration) == 0
  {
    var key, m := p.normalise(email), p.maxAttempts - 1;
    var finish := Finishes(at, k, rest);
    var crowd := Enters(email, at, 0, k, finish);
    var all := Burst(p, k, email, at, rest);
    var a1 := SinglesLead(p, k, a, email, m, at, crowd);
    assert Crowd(email, 0) == map[];
    EntersLead(p, k, a1, email, 0, at, finish);
    a' := FinishesLead(p, k, a1, email, k, at, rest);
    LeadsOn(p, k, Server(a, map[]), all, m, Server(a1, map[]), crowd, 0, Server(a1, Crowd(email, k)), finish, key, at);
    LeadsOn(p, k, Server(a, map[]), all, m, Server(a1, Crowd(email, k)), finish, k, Server(a', map[]), rest, key, at);
  }

  lemma AtMostSooner(k: nat, p: Policy, g: Server, events: seq<Event>, key: string, from: int, later: int, to: int)
    requires from <= later && AtMost(k, p, g, events, key, later, to)
    ensures AtMost(k, p, g, events, key, from, to)
  {
  }

  /** The events get all the guesses that n + 1 instants a duration apart allow. */
  ghost predicate Attains(p: Policy, k: nat, g: Server, events: seq<Event>, key: string, at: int, n: nat) {
    && Checked(p, g, events, key) == (p.maxAttempts + k - 1) * (n + 1)
    && AtMost(k, p, g, events, key, at, at + n * p.duration)
  }

  lemma LastBurst(p: Policy, k: nat, a: Attempts, email: string, at: int)
    requires p.maxAttempts > 0 && p.duration > 0 && k > 0 && Consistent(p, a)
    requires Counted(p, a, p.normalise(email), at) == 0
    ensures Attains(p, k, Server(a, map[]), Burst(p, k, email, at, []), p.normalise(email), at, 0)
  {
    var a' := BurstLeads(p, k, a, email, at, []);
    BurstCounted(p, k, Server(a, map[]), Burst(p, k, email, at, []), Server(a', map[]), [], p.normalise(email), at, 0);
  }

  lemma EarlierBurst(p: Policy, k: nat, g: Server, events: seq<Event>, g': Server, rest: seq<Event>, key: string, at: int, n: nat)
    requires p.maxAttempts > 0 && p.duration > 0 && k > 0 && n > 0
    requires Leads(p, k, g, events, p.maxAttempts - 1 + k, g', rest, key, at)
    requires Attains(p, k, g', rest, key, at + p.duration, n - 1)
    ensures Attains(p, k, g, events, key, at, n)
  {
    SpanOneMore(p.duration, at, n);
    AtMostSooner(k, p, g', rest, key, at, at + p.duration, at + n * p.duration);
    BurstCounted(p, k, g, events, g', rest, key, at, n);
  }

  lemma {:induction false} BurstsAttain(p: Policy, k: nat, a: Attempts, email: string, at: int, n: nat)
    requires p.maxAttempts > 0 && p.duration > 0 && k > 0 && Consistent(p, a)
    requires Counted(p, a, p.normalise(email), at) == 0
    ensures Attains(p, k, Server(a, map[]), Bursts(p, k, email, at, n), p.normalise(email), at, n)
    decreases n
  {
    if n == 0 {
      LastBurst(p, k, a, email, at);
    } else {
      var rest := Bursts(p, k, email, at + p.duration, n - 1);
      var a' := BurstLeads(p, k, a, email, at, rest);
      BurstsAttain(p, k, a', email, at + p.duration, n - 1);
      EarlierBurst(p, k, Server(a, map[]), Burst(p, k, email, at, rest), Server(a', map[]), rest, p.normalise(email), at, n);
    }
  }

  lemma BurstCounted(p: Policy, k: nat, g: Server, events: seq<Event>, g': Server, rest: seq<Event>, key: string, at: int, n: nat)
    requires p.maxAttempts > 0 && p.duration > 0
    requires Leads(p, k, g, events, p.maxAttempts - 1 + k, g', rest, key, at)
    requires Checked(p, g', rest, key) == (p.maxAttempts + k - 1) * n
    requires AtMost(k, p, g', rest, key, at, at + n * p.duration)
    ensures Attains(p, k, g, events, key, at, n)
  {
    var most := p.maxAttempts + k - 1;
    ProductNonnegative(n, p.duration);
    LeadsToEnd(p, k, g, events, most, g', rest, key, at, at + n * p.duration);
    assert most * (n + 1) == most + most * n;
  }

  lemma LeadsToEnd(p: Policy, k: nat, g: Server, events: seq<Event>, n: nat, g': Server, rest: seq<Event>, key: string, at: int, to: int)
    requires Leads(p, k, g, events, n, g', rest, key, at) && at <= to
    requires AtMost(k, p, g', rest, key, at, to)
    ensures AtMost(k, p, g, events, key, at, to) && Checked(p, g, events, key) == n + Checked(p, g', rest, key)
  {
  }

  lemma SpanOneMore(d: int, at: int, n: nat)
    ensures at + d + (n - 1) * d == at + n * d
  {
  }

  /** The bound cannot be improved, for any k: a crowd of k that guesses as each lock
      ends gets maxAttempts + k - 1 guesses at each of n + 1 instants. */
  lemma RateBoundAttained(p: Policy, k: nat, email: string, n: nat)
    requires p.maxAttempts > 0 && p.duration > 0 && k > 0
    ensures var events, key := Bursts(p, k, email, 0, n), p.normalise(email);
            && AtMost(k, p, START, events, key, 0, n * p.duration)
            && Checked(p, START, events, key) == (p.maxAttempts + k - 1) * (n * p.duration / p.duration + 1)
  {
    BurstsAttain(p, k, map[], email, 0, n);
    QuotientUnique(n * p.duration, p.duration, n, 0);
  }

  /** So two requests past the gate at once are enough to exceed what one attempt at a
      time allows, in every span. */
  lemma OverlapExceeds(p: Policy, email: string, n: nat)
    requires p.maxAttempts > 0 && p.duration > 0
    ensures var events, key := Bursts(p, 2, email, 0, n), p.normalise(email);
            && AtMost(2, p, START, events, key, 0, n * p.duration)
            && Checked(p, START, events, key) > p.maxAttempts * (n * p.duration / p.duration + 1)
  {
    RateBoundAttained(p, 2, email, n);
    QuotientUnique(n * p.duration, p.duration, n, 0);
    assert (p.maxAttempts + 1) * (n + 1) == p.maxAttempts * (n + 1) + (n + 1);
  }
}
