/** Several processes sign with the stored active key, each through its own cache,
    while any of them rotates and cleans up. The question is when every signed token
    stays verifiable until it expires. */
module KeyRotation {
  import opened Clock
  import opened Wrappers
  import opened KeyStore
  import opened KeyServices

  datatype Signed = Signed(kid: string, exp: int)

  /** kids: every kid ever generated. fetched: the key a process has obtained from the
      repository and not yet stamped, with when it read it; at most one, because a
      process reads and stamps under a mutex. */
  datatype Cluster = Cluster(keys: Keys, caches: map<nat, Cache>, fetched: map<nat, Cache>, signed: set<Signed>, kids: set<string>)

  const START := Cluster(NO_KEYS, map[], map[], {}, {})

  datatype Claims = Claims(issuedAt: int, ttl: int)

  /** Process p ensures, reads or rotates the active key, each followed by the step in
      which it stamps its cache and, in answer to a signing request, signs; or it signs
      with the key it has cached. */
  datatype Op =
    | EnsureKey(p: nat, newKid: string)
    | ReadKey(p: nat)
    | RotateKeys(p: nat, newKid: string, grace: int)
    | StampKey(p: nat, signing: Option<Claims>)
    | SignCached(p: nat, cacheTTL: int, claims: Claims)
    | CleanKeys

  datatype TimedOp = TimedOp(op: Op, at: int)

  /** Limits the deployment keeps to: no token lives longer than ttl, no cache is
      trusted for cacheTTL or longer, no key is stamped more than delay after it was
      read, and a retired key has grace left when the rotation is saved. */
  datatype Limits = Limits(ttl: int, cacheTTL: int, delay: nat, grace: int)

  function CacheOf(c: Cluster, p: nat): Cache {
    if p in c.caches then c.caches[p] else Cache(None, 0)
  }

  function Reading(c: Cluster, p: nat, kid: Option<string>, at: int): Cluster {
    c.(fetched := if kid.Some? then c.fetched[p := Cache(kid, at)] else c.fetched - {p})
  }

  function Signing(c: Cluster, kid: string, claims: Claims): Cluster {
    c.(signed := c.signed + {Signed(kid, FloorTo(claims.issuedAt + claims.ttl, SECOND))})
  }

  function Step(c: Cluster, o: TimedOp): Cluster {
    match o.op
    case EnsureKey(p, newKid) =>
      var (keys, r) := EnsureActiveKey(c.keys, newKid);
      Reading(c.(keys := keys, kids := c.kids + {newKid}), p, r, o.at)
    case ReadKey(p) => Reading(c, p, Stored(c.keys), o.at)
    case RotateKeys(p, newKid, grace) =>
      Reading(c.(keys := RotateKey(c.keys, newKid, o.at, grace), kids := c.kids + {newKid}), p, Some(newKid), o.at)
    case StampKey(p, signing) =>
      if p !in c.fetched || c.fetched[p].kid.None? then c
      else
        var kid := c.fetched[p].kid.value;
        var stamped := c.(caches := c.caches[p := Cache(Some(kid), o.at)], fetched := c.fetched - {p});
        if signing.Some? then Signing(stamped, kid, signing.value) else stamped
    case SignCached(p, cacheTTL, claims) =>
      var r := Fresh(CacheOf(c, p), cacheTTL, o.at);
      if r.Some? then Signing(c, r.value, claims) else c
    case CleanKeys => c.(keys := CleanupExpiredKeys(c.keys, o.at))
  }

  function RunCluster(ops: seq<TimedOp>): Cluster {
    if ops == [] then START else Step(RunCluster(ops[..|ops| - 1]), ops[|ops| - 1])
  }

  /** Claims are stamped before their key is fetched. */
  ghost predicate Legal(c: Cluster, o: TimedOp, l: Limits) {
    match o.op
    case EnsureKey(_, newKid) => newKid != "" && newKid !in c.kids
    case ReadKey(_) => true
    case RotateKeys(_, newKid, grace) => newKid != "" && newKid !in c.kids && grace >= l.grace
    case StampKey(p, signing) =>
      p in c.fetched ==>
        && o.at <= c.fetched[p].at + l.delay
        && (signing.Some? ==> signing.value.issuedAt <= c.fetched[p].at && signing.value.ttl <= l.ttl)
    case SignCached(_, cacheTTL, claims) => cacheTTL <= l.cacheTTL && claims.issuedAt <= o.at && claims.ttl <= l.ttl
    case CleanKeys => true
  }

  ghost predicate LegalRun(ops: seq<TimedOp>, l: Limits)
  {
    ops == [] ||
    (var init, last := ops[..|ops| - 1], ops[|ops| - 1];
     && LegalRun(init, l)
     && Legal(RunCluster(init), last, l)
     && (init != [] ==> init[|init| - 1].at <= last.at))
  }

  /** From now on every signed token is verified until its exp. */
  ghost predicate AllVerifiable(c: Cluster, now: int) {
    forall s, t :: s in c.signed && now <= t < s.exp ==> Accepts(c.keys, s.kid, t)
  }

  /** The deployment limits keep every token verifiable, whatever happens. */
  ghost predicate Safe(l: Limits) {
    forall ops: seq<TimedOp> :: LegalRun(ops, l) && ops != [] ==> AllVerifiable(RunCluster(ops), ops[|ops| - 1].at)
  }

  /** At time now, kid is good for verification up to and including until. */
  ghost predicate GoodUntil(k: Keys, kid: string, until: int, now: int) {
    if kid in k.rows then k.rows[kid].expiresAt.None? || until <= k.rows[kid].expiresAt.value
    else until < now
  }

  /** The key was active at the instant read, so it verifies for the grace after it. */
  ghost predicate ReadInTime(c: Cluster, cache: Cache, read: int, now: int, l: Limits) {
    cache.kid.Some? ==>
      && cache.at <= now
      && cache.kid.value in c.kids
      && GoodUntil(c.keys, cache.kid.value, read + l.grace, now)
  }

  ghost predicate ClusterInv(c: Cluster, now: int, l: Limits) {
    && (OneActive(c.keys) || c.keys == NO_KEYS)
    && c.keys.rows.Keys <= c.kids
    && (forall kid :: kid in c.keys.rows ==> c.keys.rows[kid].loads)
    && (forall p :: p in c.caches ==> ReadInTime(c, c.caches[p], c.caches[p].at - l.delay, now, l))
    && (forall p :: p in c.fetched ==> ReadInTime(c, c.fetched[p], c.fetched[p].at, now, l))
    && (forall s :: s in c.signed ==> s.kid in c.kids && s.exp <= now + l.ttl && GoodUntil(c.keys, s.kid, s.exp - 1, now))
  }

  /** How long before the claims were stamped their key may have stopped being active,
      plus one: with a cache, the read-to-stamp delay and then the cache's lifetime; a
      cacheTTL of zero or less turns the cache off. */
  function Staleness(l: Limits): int {
    if l.cacheTTL < 1 then 1 else l.delay + l.cacheTTL
  }

  /** The numeric condition. The two nanoseconds are the strict comparisons in the
      cache check and in the expiry check. */
  predicate GraceCovers(l: Limits) {
    l.ttl + Staleness(l) <= l.grace + 2
  }

  lemma GoodUntilSteps(c: Cluster, o: TimedOp, l: Limits, kid: string, until: int, was: int)
    requires OneActive(c.keys) || c.keys == NO_KEYS
    requires Legal(c, o, l) && kid in c.kids && was <= o.at
    requires GoodUntil(c.keys, kid, until, was)
    requires until <= o.at + l.grace
    ensures GoodUntil(Step(c, o).keys, kid, until, o.at)
  {
  }

  lemma StepKeepsKeys(c: Cluster, o: TimedOp, l: Limits)
    requires OneActive(c.keys) || c.keys == NO_KEYS
    requires c.keys.rows.Keys <= c.kids
    requires forall kid :: kid in c.keys.rows ==> c.keys.rows[kid].loads
    requires Legal(c, o, l)
    ensures var k := Step(c, o).keys;
            && (OneActive(k) || k == NO_KEYS)
            && k.rows.Keys <= Step(c, o).kids
            && (forall kid :: kid in k.rows ==> k.rows[kid].loads)
  {
    match o.op {
      case EnsureKey(_, newKid) => EnsureKeepsOneActive(c.keys, newKid);
      case RotateKeys(_, newKid, grace) => RotateKeepsOneActive(c.keys, newKid, o.at, grace);
      case CleanKeys =>
        if OneActive(c.keys) {
          CleanupKeepsOneActive(c.keys, o.at);
        } else {
          assert CleanupExpiredKeys(NO_KEYS, o.at) == NO_KEYS;
        }
      case _ =>
    }
  }

  lemma KeptInTime(c: Cluster, o: TimedOp, l: Limits, cache: Cache, read: int, was: int)
    requires ClusterInv(c, was, l) && was <= o.at && Legal(c, o, l)
    requires ReadInTime(c, cache, read, was, l) && read <= cache.at
    ensures ReadInTime(Step(c, o), cache, read, o.at, l)
  {
    if cache.kid.Some? {
      GoodUntilSteps(c, o, l, cache.kid.value, read + l.grace, was);
    }
  }

  lemma CachesKept(c: Cluster, o: TimedOp, l: Limits, was: int)
    requires ClusterInv(c, was, l) && was <= o.at && Legal(c, o, l)
    ensures var c' := Step(c, o);
            forall p :: p in c'.caches ==> ReadInTime(c', c'.caches[p], c'.caches[p].at - l.delay, o.at, l)
  {
    var c' := Step(c, o);
    forall p | p in c'.caches
      ensures ReadInTime(c', c'.caches[p], c'.caches[p].at - l.delay, o.at, l)
    {
      if p in c.caches && c'.caches[p] == c.caches[p] {
        KeptInTime(c, o, l, c.caches[p], c.caches[p].at - l.delay, was);
      } else {
        KeptInTime(c, o, l, c.fetched[p], c.fetched[p].at, was);
      }
    }
  }

  lemma ReadsKept(c: Cluster, o: TimedOp, l: Limits, was: int)
    requires ClusterInv(c, was, l) && was <= o.at && Legal(c, o, l)
    ensures var c' := Step(c, o);
            forall p :: p in c'.fetched ==> ReadInTime(c', c'.fetched[p], c'.fetched[p].at, o.at, l)
  {
    var c' := Step(c, o);
    StepKeepsKeys(c, o, l);
    forall p | p in c'.fetched
      ensures ReadInTime(c', c'.fetched[p], c'.fetched[p].at, o.at, l)
    {
      if p in c.fetched && c'.fetched[p] == c.fetched[p] {
        KeptInTime(c, o, l, c.fetched[p], c.fetched[p].at, was);
      }
    }
  }

  lemma SignedKept(c: Cluster, o: TimedOp, l: Limits, was: int)
    requires ClusterInv(c, was, l) && was <= o.at && Legal(c, o, l)
    requires GraceCovers(l)
    ensures var c' := Step(c, o);
            forall s :: s in c'.signed ==> s.kid in c'.kids && s.exp <= o.at + l.ttl && GoodUntil(c'.keys, s.kid, s.exp - 1, o.at)
  {
    var c' := Step(c, o);
    forall s | s in c'.signed
      ensures s.kid in c'.kids && s.exp <= o.at + l.ttl && GoodUntil(c'.keys, s.kid, s.exp - 1, o.at)
    {
      if s in c.signed {
        GoodUntilSteps(c, o, l, s.kid, s.exp - 1, was);
      } else if o.op.StampKey? {
        assert ReadInTime(c, c.fetched[o.op.p], c.fetched[o.op.p].at, was, l);
      } else {
        assert ReadInTime(c, c.caches[o.op.p], c.caches[o.op.p].at - l.delay, was, l);
      }
    }
  }

  lemma StepKeepsInv(c: Cluster, o: TimedOp, l: Limits, was: int)
    requires ClusterInv(c, was, l) && was <= o.at && Legal(c, o, l)
    requires GraceCovers(l)
    ensures ClusterInv(Step(c, o), o.at, l)
  {
    StepKeepsKeys(c, o, l);
    CachesKept(c, o, l, was);
    ReadsKept(c, o, l, was);
    SignedKept(c, o, l, was);
  }

  lemma {:induction false} RunKeepsInv(ops: seq<TimedOp>, l: Limits)
    requires LegalRun(ops, l) && ops != []
    requires GraceCovers(l)
    ensures ClusterInv(RunCluster(ops), ops[|ops| - 1].at, l)
  {
    var init, last := ops[..|ops| - 1], ops[|ops| - 1];
    if init == [] {
      StepKeepsInv(START, last, l, last.at);
    } else {
      RunKeepsInv(init, l);
      StepKeepsInv(RunCluster(init), last, l, init[|init| - 1].at);
    }
  }

  lemma GraceSuffices(l: Limits)
    requires GraceCovers(l)
    ensures Safe(l)
  {
    forall ops: seq<TimedOp> | LegalRun(ops, l) && ops != []
      ensures AllVerifiable(RunCluster(ops), ops[|ops| - 1].at)
    {
      RunKeepsInv(ops, l);
    }
  }

  /** Process 0 reads key "a", process 1 rotates at once, and process 0 stamps what it
      read as late as it may and signs at the last moment its cache allows, so that the
      token expires on a whole second. */
  function LateSigner(l: Limits): seq<TimedOp> {
    var exp := SECOND * (l.ttl + l.delay + l.cacheTTL);
    var r := exp - (l.delay + l.cacheTTL - 1 + l.ttl);
    [TimedOp(EnsureKey(0, "a"), r),
     TimedOp(RotateKeys(1, "b", l.grace), r),
     TimedOp(StampKey(0, None), r + l.delay),
     TimedOp(SignCached(0, l.cacheTTL, Claims(r + l.delay + l.cacheTTL - 1, l.ttl)), r + l.delay + l.cacheTTL - 1)]
  }

  /** Without a cache: process 1 rotates in the instant in which process 0 reads "a". */
  function PromptSigner(l: Limits): seq<TimedOp> {
    var r := SECOND * l.ttl - l.ttl;
    [TimedOp(EnsureKey(0, "a"), r),
     TimedOp(RotateKeys(1, "b", l.grace), r),
     TimedOp(StampKey(0, Some(Claims(r, l.ttl))), r)]
  }

  lemma RunOneMore(ops: seq<TimedOp>, o: TimedOp, l: Limits)
    requires LegalRun(ops, l) && Legal(RunCluster(ops), o, l)
    requires ops != [] ==> ops[|ops| - 1].at <= o.at
    ensures LegalRun(ops + [o], l) && RunCluster(ops + [o]) == Step(RunCluster(ops), o)
  {
    assert (ops + [o])[..|ops|] == ops;
  }

  /** Both begin alike: "a" is created and read, and then rotated out. */
  lemma RotatedAway(l: Limits, r: int)
    ensures var ops := [TimedOp(EnsureKey(0, "a"), r), TimedOp(RotateKeys(1, "b", l.grace), r)];
            var c := RunCluster(ops);
            && LegalRun(ops, l)
            && 0 in c.fetched && c.fetched[0] == Cache(Some("a"), r) && c.signed == {}
            && "a" in c.keys.rows && c.keys.rows["a"].expiresAt == Some(r + l.grace)
  {
    var first, second := TimedOp(EnsureKey(0, "a"), r), TimedOp(RotateKeys(1, "b", l.grace), r);
    assert RunCluster([]) == START;
    RunOneMore([], first, l);
    assert [] + [first] == [first];
    assert Stored(RunCluster([first]).keys) == Some("a");
    RunOneMore([first], second, l);
    assert [first] + [second] == [first, second];
  }

  lemma WholeSecond(n: int)
    ensures FloorTo(SECOND * n, SECOND) == SECOND * n
  {
    assert (SECOND * n) % SECOND == 0;
  }

  // A token of "a" that outlives the retired key.
  lemma Outlives(l: Limits, ops: seq<TimedOp>, r: int, exp: int)
    requires LegalRun(ops, l) && ops != []
    requires var c := RunCluster(ops);
             Signed("a", exp) in c.signed && "a" in c.keys.rows && c.keys.rows["a"].expiresAt == Some(r + l.grace)
    requires ops[|ops| - 1].at <= exp - 1 && r + l.grace < exp - 1
    ensures !Safe(l)
  {
    assert !Accepts(RunCluster(ops).keys, "a", exp - 1);
    assert !AllVerifiable(RunCluster(ops), ops[|ops| - 1].at);
  }

  lemma ShortGraceFails(l: Limits)
    requires l.ttl >= 1 && l.cacheTTL >= 1 && !GraceCovers(l)
    ensures !Safe(l)
  {
    var ops := LateSigner(l);
    var r, exp := ops[0].at, SECOND * (l.ttl + l.delay + l.cacheTTL);
    var two, three := [ops[0], ops[1]], [ops[0], ops[1], ops[2]];
    RotatedAway(l, r);
    RunOneMore(two, ops[2], l);
    assert two + [ops[2]] == three;
    assert CacheOf(RunCluster(three), 0) == Cache(Some("a"), r + l.delay);
    RunOneMore(three, ops[3], l);
    assert three + [ops[3]] == ops;
    WholeSecond(l.ttl + l.delay + l.cacheTTL);
    Outlives(l, ops, r, exp);
  }

  lemma ShortGraceFailsUncached(l: Limits)
    requires l.ttl >= 1 && l.cacheTTL < 1 && !GraceCovers(l)
    ensures !Safe(l)
  {
    var ops := PromptSigner(l);
    var r := ops[0].at;
    RotatedAway(l, r);
    RunOneMore(ops[..2], ops[2], l);
    assert ops[..2] + [ops[2]] == ops;
    WholeSecond(l.ttl);
    Outlives(l, ops, r, SECOND * l.ttl);
  }

  /** Every token the server ever signs stays verifiable from issue until its exp,
      through any rotations, slow reads, stale caches and cleanups, exactly when token
      lifetime, read-to-stamp delay and cache lifetime together fit in the grace period;
      without a cache the delay does not matter, because claims are stamped before. */
  lemma GraceIsExact(l: Limits)
    requires l.ttl >= 1
    ensures Safe(l) <==> l.ttl + (if l.cacheTTL < 1 then 1 else l.delay + l.cacheTTL) <= l.grace + 2
  {
    if GraceCovers(l) {
      GraceSuffices(l);
    } else if l.cacheTTL >= 1 {
      ShortGraceFails(l);
    } else {
      ShortGraceFailsUncached(l);
    }
  }

  /** The shipped limits at their maximum do not satisfy it, however fast the reads: 24h
      tokens, the default 24h grace and the default one-minute cache. */
  lemma ShippedMaximumFails(delay: nat)
    ensures !Safe(Limits(MAX_ACCESS_TTL, MINUTE, delay, 24 * HOUR))
    ensures Safe(Limits(MAX_ACCESS_TTL - MINUTE - delay, MINUTE, delay, 24 * HOUR))
  {
    ShortGraceFails(Limits(MAX_ACCESS_TTL, MINUTE, delay, 24 * HOUR));
    GraceSuffices(Limits(MAX_ACCESS_TTL - MINUTE - delay, MINUTE, delay, 24 * HOUR));
  }
}
