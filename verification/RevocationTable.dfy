/** Access-token revocation. Access tokens are not stored, so the server keeps a
    compact table: one row per kind and key, updated by maximum and purged. The
    table stands for an unbounded log of revocation events, and the theorem of
    this module is that the two give the same answer for every live token. */
module RevocationTable {
  import opened Clock

  datatype Kind = JTI | ByUser | ByUserClient | ByClient
  datatype RowKey = RowKey(kind: Kind, key: string)
  datatype Mark = Mark(notBefore: int, expiresAt: int)

  type Table = map<RowKey, Mark>

  /** What a revocation check is asked about: jti, user, client and the issue time
      the token's claims give. */
  datatype Subject = Subject(jti: string, userID: string, clientID: string, issuedAt: int)

  /** One entry of the log: a single token cut by jti, or everything of a key
      issued at or before notBefore. */
  datatype Event =
    | TokenCut(jti: string, exp: int)
    | GrantCut(kind: Kind, key: string, notBefore: int)

  datatype Ledger = Ledger(table: Table, log: set<Event>)

  const EMPTY := Ledger(map[], {})

  function Max(a: int, b: int): int {
    if a < b then b else a
  }

  function UserClientKey(userID: string, clientID: string): string {
    userID + ['\0'] + clientID
  }

  predicate NulFree(s: string) {
    '\0' !in s
  }

  function Upsert(t: Table, k: RowKey, m: Mark): Table {
    if k in t then
      t[k := Mark(Max(t[k].notBefore, m.notBefore), Max(t[k].expiresAt, m.expiresAt))]
    else
      t[k := m]
  }

  function Purge(t: Table, now: int): Table {
    map k | k in t && t[k].expiresAt > now :: t[k]
  }

  predicate WatermarkHits(t: Table, k: RowKey, issuedAt: int) {
    k in t && issuedAt <= t[k].notBefore
  }

  predicate Revoked(t: Table, s: Subject) {
    || RowKey(JTI, s.jti) in t
    || WatermarkHits(t, RowKey(ByUser, s.userID), s.issuedAt)
    || WatermarkHits(t, RowKey(ByUserClient, UserClientKey(s.userID, s.clientID)), s.issuedAt)
    || WatermarkHits(t, RowKey(ByClient, s.clientID), s.issuedAt)
  }

  /** RevokeAccessToken at time now, for a token expiring at exp. */
  function CutToken(l: Ledger, jti: string, exp: int, now: int): Ledger {
    Ledger(Upsert(l.table, RowKey(JTI, jti), Mark(now, exp)), l.log + {TokenCut(jti, exp)})
  }

  /** RevokeBefore. */
  function CutBefore(l: Ledger, kind: Kind, key: string, notBefore: int): Ledger {
    Ledger(Upsert(l.table, RowKey(kind, key), Mark(notBefore, notBefore + REVOCATION_RETENTION)),
           l.log + {GrantCut(kind, key, notBefore)})
  }

  /** DeleteExpired. The log is never shortened. */
  function PurgeLedger(l: Ledger, now: int): Ledger {
    l.(table := Purge(l.table, now))
  }

  /** The key under which a watermark of the given kind names a subject. */
  function KeyOf(kind: Kind, s: Subject): string {
    match kind
    case JTI => s.jti
    case ByUser => s.userID
    case ByUserClient => UserClientKey(s.userID, s.clientID)
    case ByClient => s.clientID
  }

  predicate Covers(e: Event, s: Subject) {
    match e
    case TokenCut(jti, _) => jti == s.jti
    case GrantCut(kind, key, notBefore) => key == KeyOf(kind, s) && s.issuedAt <= notBefore
  }

  ghost predicate Covered(log: set<Event>, s: Subject) {
    exists e :: e in log && Covers(e, s)
  }

  function RowOf(e: Event): RowKey {
    match e
    case TokenCut(jti, _) => RowKey(JTI, jti)
    case GrantCut(kind, key, _) => RowKey(kind, key)
  }

  function ExpiryOf(e: Event): int {
    match e
    case TokenCut(_, exp) => exp
    case GrantCut(_, _, notBefore) => notBefore + REVOCATION_RETENTION
  }

  /** Row k of the table still carries everything event e asked of it. */
  predicate Holds(t: Table, e: Event) {
    var k := RowOf(e);
    && k in t
    && t[k].expiresAt >= ExpiryOf(e)
    && (e.GrantCut? ==> t[k].notBefore >= e.notBefore)
  }

  /** The table stands for the log, up to purges made no later than purgedBy. */
  ghost predicate Stands(l: Ledger, purgedBy: int) {
    && (forall e :: e in l.log && e.GrantCut? ==> e.kind != JTI)
    && (forall e :: e in l.log ==> Holds(l.table, e) || ExpiryOf(e) <= purgedBy)
    && (forall k :: k in l.table ==> Accounted(l, k))
  }

  /** Row k is there because of some logged event, and its watermark is one of them. */
  ghost predicate Accounted(l: Ledger, k: RowKey)
    requires k in l.table
  {
    exists e :: e in l.log && RowOf(e) == k && (e.GrantCut? ==> e.notBefore == l.table[k].notBefore)
  }

  lemma CutTokenStands(l: Ledger, jti: string, exp: int, now: int, purgedBy: int)
    requires Stands(l, purgedBy)
    ensures Stands(CutToken(l, jti, exp, now), purgedBy)
  {
    var l', e0 := CutToken(l, jti, exp, now), TokenCut(jti, exp);
    forall k | k in l'.table
      ensures Accounted(l', k)
    {
      if k == RowOf(e0) {
        assert e0 in l'.log;
      } else {
        var e :| e in l.log && RowOf(e) == k && (e.GrantCut? ==> e.notBefore == l.table[k].notBefore);
        assert e in l'.log;
      }
    }
  }

  lemma CutBeforeStands(l: Ledger, kind: Kind, key: string, notBefore: int, purgedBy: int)
    requires Stands(l, purgedBy) && kind != JTI
    ensures Stands(CutBefore(l, kind, key, notBefore), purgedBy)
  {
    var l', e0 := CutBefore(l, kind, key, notBefore), GrantCut(kind, key, notBefore);
    forall k | k in l'.table
      ensures Accounted(l', k)
    {
      if k == RowOf(e0) && l'.table[k].notBefore == notBefore {
        assert e0 in l'.log;
      } else {
        var e :| e in l.log && RowOf(e) == k && (e.GrantCut? ==> e.notBefore == l.table[k].notBefore);
        assert e in l'.log;
      }
    }
  }

  lemma PurgeStands(l: Ledger, now: int, purgedBy: int)
    requires Stands(l, purgedBy) && purgedBy <= now
    ensures Stands(PurgeLedger(l, now), now)
  {
    var l' := PurgeLedger(l, now);
    forall k | k in l'.table
      ensures Accounted(l', k)
    {
      var e :| e in l.log && RowOf(e) == k && (e.GrantCut? ==> e.notBefore == l.table[k].notBefore);
      assert e in l'.log;
    }
  }

  lemma StandsLater(l: Ledger, t0: int, t1: int)
    requires Stands(l, t0) && t0 <= t1
    ensures Stands(l, t1)
  {
  }

  /** The heart of the matter: as long as purges do not run ahead of the clock, the
      compact table and the full log agree about every token that is not yet expired
      and lives no longer, from the issue time its claims give, than rows are kept. */
  lemma TableAnswersForLog(l: Ledger, s: Subject, exp: int, now: int)
    requires Stands(l, now)
    requires now < exp <= s.issuedAt + REVOCATION_RETENTION
    requires forall e :: e in l.log && e.TokenCut? && e.jti == s.jti ==> e.exp == exp
    ensures Revoked(l.table, s) <==> Covered(l.log, s)
  {
    if Covered(l.log, s) {
      var e :| e in l.log && Covers(e, s);
      assert ExpiryOf(e) > now;
      assert Holds(l.table, e);
    }
    if Revoked(l.table, s) {
      var k: RowKey :| k in l.table && k.key == KeyOf(k.kind, s)
                       && (k.kind == JTI || s.issuedAt <= l.table[k].notBefore)
        by {
          if RowKey(JTI, s.jti) in l.table {
            assert RowKey(JTI, s.jti).key == KeyOf(JTI, s);
          } else if WatermarkHits(l.table, RowKey(ByUser, s.userID), s.issuedAt) {
            assert RowKey(ByUser, s.userID).key == KeyOf(ByUser, s);
          } else if WatermarkHits(l.table, RowKey(ByClient, s.clientID), s.issuedAt) {
            assert RowKey(ByClient, s.clientID).key == KeyOf(ByClient, s);
          } else {
            assert RowKey(ByUserClient, UserClientKey(s.userID, s.clientID)).key == KeyOf(ByUserClient, s);
          }
        }
      assert Accounted(l, k);
      var e :| e in l.log && RowOf(e) == k && (e.GrantCut? ==> e.notBefore == l.table[k].notBefore);
      if e.TokenCut? {
        assert k == RowKey(JTI, e.jti);
        assert k.key == KeyOf(JTI, s);
      }
      assert Covers(e, s);
    }
  }

  // ----- runs of the repository

  datatype Op =
    | RevokeAccessToken(jti: string, exp: int)
    | RevokeBefore(kind: Kind, key: string, notBefore: int)
    | DeleteExpired

  /** A repository call and when it is made. */
  datatype Call = Call(op: Op, at: int)

  function Apply(l: Ledger, c: Call): Ledger {
    match c.op
    case RevokeAccessToken(jti, exp) => CutToken(l, jti, exp, c.at)
    case RevokeBefore(kind, key, notBefore) => CutBefore(l, kind, key, notBefore)
    case DeleteExpired => PurgeLedger(l, c.at)
  }

  function Run(calls: seq<Call>): Ledger {
    if calls == [] then EMPTY else Apply(Run(calls[..|calls| - 1]), calls[|calls| - 1])
  }

  /** Calls as the interface allows them, made at times that never go back. */
  ghost predicate Wellformed(calls: seq<Call>) {
    && (forall i :: 0 <= i < |calls| && calls[i].op.RevokeBefore? ==> calls[i].op.kind != JTI)
    && (forall i, j :: 0 <= i < j < |calls| ==> calls[i].at <= calls[j].at)
  }

  lemma {:induction false} RunStands(calls: seq<Call>, now: int)
    requires Wellformed(calls)
    requires forall i :: 0 <= i < |calls| ==> calls[i].at <= now
    ensures Stands(Run(calls), now)
  {
    if calls != [] {
      var init, c := calls[..|calls| - 1], calls[|calls| - 1];
      RunStands(init, c.at);
      match c.op {
        case RevokeAccessToken(jti, exp) => CutTokenStands(Run(init), jti, exp, c.at, c.at);
        case RevokeBefore(kind, key, notBefore) => CutBeforeStands(Run(init), kind, key, notBefore, c.at);
        case DeleteExpired => PurgeStands(Run(init), c.at, c.at);
      }
      StandsLater(Run(calls), c.at, now);
    }
  }

  /** What a call asks to be refused, read off the call alone. */
  predicate Asks(c: Call, s: Subject) {
    match c.op
    case RevokeAccessToken(jti, _) => jti == s.jti
    case RevokeBefore(kind, key, notBefore) => key == KeyOf(kind, s) && s.issuedAt <= notBefore
    case DeleteExpired => false
  }

  lemma {:induction false} LogIsTheCalls(calls: seq<Call>, s: Subject)
    ensures Covered(Run(calls).log, s) <==> exists i :: 0 <= i < |calls| && Asks(calls[i], s)
  {
    if calls != [] {
      var init, c := calls[..|calls| - 1], calls[|calls| - 1];
      LogIsTheCalls(init, s);
      var before, after := Run(init).log, Run(calls).log;
      if Covered(after, s) {
        var e :| e in after && Covers(e, s);
        if e in before {
          assert Covered(before, s);
          var i :| 0 <= i < |init| && Asks(init[i], s);
          assert Asks(calls[i], s);
        } else {
          assert Asks(calls[|calls| - 1], s);
        }
      }
      if i :| 0 <= i < |calls| && Asks(calls[i], s) {
        if i < |init| {
          assert Asks(init[i], s);
          var e :| e in before && Covers(e, s);
          assert e in after;
        } else {
          var e := if c.op.RevokeAccessToken? then TokenCut(c.op.jti, c.op.exp)
                   else GrantCut(c.op.kind, c.op.key, c.op.notBefore);
          assert e in after && Covers(e, s);
        }
      }
    }
  }

  lemma {:induction false} LoggedTokenCuts(calls: seq<Call>, jti: string, exp: int)
    requires forall i :: 0 <= i < |calls| && calls[i].op.RevokeAccessToken? && calls[i].op.jti == jti ==> calls[i].op.exp == exp
    ensures forall e :: e in Run(calls).log && e.TokenCut? && e.jti == jti ==> e.exp == exp
  {
    if calls != [] {
      LoggedTokenCuts(calls[..|calls| - 1], jti, exp);
    }
  }

  /** A token of subject s expiring at exp is presented at now, after the given calls. */
  ghost predicate PresentedAfter(calls: seq<Call>, s: Subject, exp: int, now: int) {
    && Wellformed(calls)
    && (forall i :: 0 <= i < |calls| ==> calls[i].at <= now)
    && (forall i :: 0 <= i < |calls| && calls[i].op.RevokeAccessToken? && calls[i].op.jti == s.jti ==> calls[i].op.exp == exp)
    && now < exp
  }

  /** Refinement over whole runs: after any calls, purges included, IsRevoked is true
      of a live token exactly when one of the calls asked for it to be refused. */
  lemma PurgingNeverRevives(calls: seq<Call>, s: Subject, exp: int, now: int)
    requires PresentedAfter(calls, s, exp, now) && exp <= s.issuedAt + REVOCATION_RETENTION
    ensures Revoked(Run(calls).table, s) <==> exists i :: 0 <= i < |calls| && Asks(calls[i], s)
  {
    RunStands(calls, now);
    LoggedTokenCuts(calls, s.jti, exp);
    TableAnswersForLog(Run(calls), s, exp, now);
    LogIsTheCalls(calls, s);
  }

  /** No token of lifetime at most ttl is ever revived, or cut by mistake. */
  ghost predicate NeverRevived(ttl: int) {
    forall calls, s, exp, now :: PresentedAfter(calls, s, exp, now) && exp <= s.issuedAt + ttl ==>
      (Revoked(Run(calls).table, s) <==> exists i :: 0 <= i < |calls| && Asks(calls[i], s))
  }

  /** A token that outlives the retention is revived by a purge. */
  lemma OverlongTokenRevived()
    ensures var s := Subject("jti", "u", "c", 0);
            var calls := [Call(RevokeBefore(ByUser, "u", 0), 0), Call(DeleteExpired, REVOCATION_RETENTION)];
            && Wellformed(calls)
            && Revoked(Run(calls[..1]).table, s)
            && Asks(calls[0], s)
            && !Revoked(Run(calls).table, s)
  {
    var calls := [Call(RevokeBefore(ByUser, "u", 0), 0), Call(DeleteExpired, REVOCATION_RETENTION)];
    assert calls[..1] == [calls[0]] && [calls[0]][..0] == [];
    assert Run(calls[..0]) == EMPTY;
    assert Run(calls[..1]) == Apply(EMPTY, calls[0]);
    assert Run(calls) == Apply(Run(calls[..1]), calls[1]);
    assert RowKey(ByUser, "u") in Run(calls[..1]).table;
  }

  lemma RetentionSuffices(ttl: int)
    requires ttl <= REVOCATION_RETENTION
    ensures NeverRevived(ttl)
  {
    forall calls, s, exp, now | PresentedAfter(calls, s, exp, now) && exp <= s.issuedAt + ttl
      ensures Revoked(Run(calls).table, s) <==> exists i :: 0 <= i < |calls| && Asks(calls[i], s)
    {
      PurgingNeverRevives(calls, s, exp, now);
    }
  }

  /** The lifetimes for which purging is safe are exactly those up to the retention;
      the enforced cap is well inside, rounding of the issue time included. */
  lemma RetentionIsExact(ttl: int)
    ensures NeverRevived(ttl) <==> ttl <= REVOCATION_RETENTION
    ensures NeverRevived(MAX_ACCESS_TTL + MILLISECOND)
  {
    RetentionSuffices(MAX_ACCESS_TTL + MILLISECOND);
    if ttl <= REVOCATION_RETENTION {
      RetentionSuffices(ttl);
    } else {
      OverlongTokenRevived();
      var s := Subject("jti", "u", "c", 0);
      var calls := [Call(RevokeBefore(ByUser, "u", 0), 0), Call(DeleteExpired, REVOCATION_RETENTION)];
      assert PresentedAfter(calls, s, REVOCATION_RETENTION + 1, REVOCATION_RETENTION);
    }
  }

  // ----- keys

  /** A user+client key names one pair: NUL never occurs in a user ID. */
  lemma UserClientKeyInjective(u1: string, c1: string, u2: string, c2: string)
    requires NulFree(u1) && NulFree(u2)
    ensures UserClientKey(u1, c1) == UserClientKey(u2, c2) <==> u1 == u2 && c1 == c2
  {
    FirstNul(u1, c1);
    FirstNul(u2, c2);
    var k1, k2 := UserClientKey(u1, c1), UserClientKey(u2, c2);
    if k1 == k2 {
      assert u1 == k1[..|u1|] == k2[..|u2|] == u2;
      assert c1 == k1[|u1| + 1..] == k2[|u2| + 1..] == c2;
    }
  }

  lemma FirstNul(u: string, c: string)
    requires NulFree(u)
    ensures var k := UserClientKey(u, c);
            k[|u|] == '\0' && forall i :: 0 <= i < |u| ==> k[i] != '\0'
  {
    var k := UserClientKey(u, c);
    forall i | 0 <= i < |u|
      ensures k[i] != '\0'
    {
      assert k[i] == u[i];
    }
  }

  /** With a NUL in a user ID two pairs can share a key. */
  lemma UserClientKeyClash()
    ensures UserClientKey("a", "b" + ['\0'] + "c") == UserClientKey("a" + ['\0'] + "b", "c")
  {
  }

  /** Watermark precision, for every kind of watermark and whatever the table holds:
      with issue times rounded down to unit (the jti's millisecond or, for a jti that
      carries no time, the iat second) a cut covers a token exactly when it was issued
      no later than the unit in which the cut falls. One issued at or before the cut is
      refused; one issued a unit after it is refused only if it was already. */
  lemma WatermarkPrecision(l: Ledger, kind: Kind, key: string, cut: int, jti: string, u: string, c: string, issued: int, unit: int)
    requires kind != JTI && unit > 0
    requires key == KeyOf(kind, Subject(jti, u, c, FloorTo(issued, unit)))
    ensures var s := Subject(jti, u, c, FloorTo(issued, unit));
            var after := CutBefore(l, kind, key, cut);
            && (Covers(GrantCut(kind, key, cut), s) <==> issued < FloorTo(cut, unit) + unit)
            && (issued <= cut ==> Revoked(after.table, s))
            && (issued >= cut + unit && !Revoked(l.table, s) ==> !Revoked(after.table, s))
  {
    RoundedComparison(issued, cut, unit);
  }
}
