/** Signing keys: one active key, retired keys kept for a grace period, and the
    key service's steps over them. Rows are keyed by kid. */
module KeyStore {
  import opened Wrappers

  /** loads: the row's PEM parses and matches its algorithm. */
  datatype KeyRow = KeyRow(active: bool, expiresAt: Option<int>, loads: bool) {
    predicate IsExpired(now: int) {
      expiresAt.Some? && now > expiresAt.value
    }
  }

  /** activeKid is empty when there is no active key. */
  datatype Keys = Keys(rows: map<string, KeyRow>, activeKid: string)

  const NO_KEYS := Keys(map[], "")
  const FRESH_KEY := KeyRow(true, None, true)

  // ----- repository operations (file backend)

  function GetActive(k: Keys): Option<string> {
    if k.activeKid != "" && k.activeKid in k.rows then Some(k.activeKid) else None
  }

  function Save(k: Keys, kid: string, row: KeyRow): Keys {
    k.(rows := k.rows[kid := row])
  }

  function SetActive(k: Keys, kid: string): Keys {
    if kid !in k.rows then k
    else Keys(map i | i in k.rows :: k.rows[i].(active := i == kid), kid)
  }

  function Delete(k: Keys, kid: string): Keys {
    if kid !in k.rows then k
    else Keys(k.rows - {kid}, if k.activeKid == kid then "" else k.activeKid)
  }

  // ----- key service steps

  /** None when the active key's PEM does not load. */
  function EnsureActiveKey(k: Keys, newKid: string): (Keys, Option<string>) {
    match GetActive(k)
    case Some(kid) => (k, if k.rows[kid].loads then Some(kid) else None)
    case None => (SetActive(Save(k, newKid, FRESH_KEY), newKid), Some(newKid))
  }

  function RotateKey(k: Keys, newKid: string, now: int, grace: int): Keys {
    var retired := match GetActive(k)
      case Some(kid) => Save(k, kid, k.rows[kid].(active := false, expiresAt := Some(now + grace)))
      case None => k;
    SetActive(Save(retired, newKid, FRESH_KEY), newKid)
  }

  function CleanupExpiredKeys(k: Keys, now: int): Keys {
    var kept := map i | i in k.rows && !(k.rows[i].IsExpired(now) && !k.rows[i].active) :: k.rows[i];
    Keys(kept, if k.activeKid in k.rows && k.activeKid !in kept then "" else k.activeKid)
  }

  /** The kids published to relying parties. */
  function Published(k: Keys, now: int): set<string> {
    set kid | kid in k.rows && !k.rows[kid].IsExpired(now) && k.rows[kid].loads
  }

  /** The kids whose tokens are verified: parse looks the key up, loads it and
      refuses it once expired. */
  predicate Accepts(k: Keys, kid: string, now: int) {
    kid in k.rows && k.rows[kid].loads && !k.rows[kid].IsExpired(now)
  }

  // ----- the invariant

  /** Exactly one key is active, activeKid names it, and only it has no expiry. */
  ghost predicate OneActive(k: Keys) {
    && k.activeKid != ""
    && k.activeKid in k.rows
    && (forall kid :: kid in k.rows ==> (k.rows[kid].active <==> kid == k.activeKid))
    && (forall kid :: kid in k.rows ==> (k.rows[kid].expiresAt.None? <==> kid == k.activeKid))
  }

  lemma EnsureKeepsOneActive(k: Keys, newKid: string)
    requires OneActive(k) || k == NO_KEYS
    requires newKid != "" && newKid !in k.rows
    ensures OneActive(EnsureActiveKey(k, newKid).0)
  {
  }

  lemma RotateKeepsOneActive(k: Keys, newKid: string, now: int, grace: int)
    requires OneActive(k) || k == NO_KEYS
    requires newKid != "" && newKid !in k.rows
    ensures OneActive(RotateKey(k, newKid, now, grace))
  {
  }

  lemma CleanupKeepsOneActive(k: Keys, now: int)
    requires OneActive(k)
    ensures OneActive(CleanupExpiredKeys(k, now))
    ensures CleanupExpiredKeys(k, now).activeKid == k.activeKid
  {
    assert !k.rows[k.activeKid].IsExpired(now);
  }

  /** Every step of the service, over any store it can reach. */
  datatype KeyStep =
    | DoEnsure(newKid: string)
    | DoRotate(newKid: string, grace: int)
    | DoCleanup

  datatype TimedStep = TimedStep(step: KeyStep, at: int)

  function ApplyKeyStep(k: Keys, t: TimedStep): Keys {
    match t.step
    case DoEnsure(newKid) => EnsureActiveKey(k, newKid).0
    case DoRotate(newKid, grace) => RotateKey(k, newKid, t.at, grace)
    case DoCleanup => CleanupExpiredKeys(k, t.at)
  }

  function RunKeys(steps: seq<TimedStep>): Keys {
    if steps == [] then NO_KEYS else ApplyKeyStep(RunKeys(steps[..|steps| - 1]), steps[|steps| - 1])
  }

  ghost predicate Names(t: TimedStep, kid: string) {
    (t.step.DoEnsure? || t.step.DoRotate?) && t.step.newKid == kid
  }

  /** Kids are fresh UUIDs. */
  ghost predicate FreshKids(steps: seq<TimedStep>) {
    && (forall i :: 0 <= i < |steps| ==> !Names(steps[i], ""))
    && (forall i, j, kid :: 0 <= i < j < |steps| && Names(steps[i], kid) ==> !Names(steps[j], kid))
  }

  lemma {:induction false} KidsAreNamed(steps: seq<TimedStep>, kid: string)
    ensures kid in RunKeys(steps).rows ==> exists i :: 0 <= i < |steps| && Names(steps[i], kid)
  {
    if steps != [] {
      var init, last := steps[..|steps| - 1], steps[|steps| - 1];
      KidsAreNamed(init, kid);
      if kid in RunKeys(steps).rows {
        if kid in RunKeys(init).rows {
          var i :| 0 <= i < |init| && Names(init[i], kid);
          assert Names(steps[i], kid);
        } else {
          assert Names(steps[|steps| - 1], kid);
        }
      }
    }
  }

  /** In every store the service reaches, after the first key is made: exactly one
      active key, named by activeKid, the only one without an expiry. */
  lemma {:induction false} ReachableOneActive(steps: seq<TimedStep>)
    requires FreshKids(steps)
    ensures if exists i :: 0 <= i < |steps| && !steps[i].step.DoCleanup? then OneActive(RunKeys(steps))
            else RunKeys(steps) == NO_KEYS
  {
    if steps != [] {
      var init, last := steps[..|steps| - 1], steps[|steps| - 1];
      ReachableOneActive(init);
      var k := RunKeys(init);
      if last.step.DoCleanup? {
        if OneActive(k) {
          CleanupKeepsOneActive(k, last.at);
          var i :| 0 <= i < |init| && !init[i].step.DoCleanup?;
          assert !steps[i].step.DoCleanup?;
        } else {
          assert CleanupExpiredKeys(NO_KEYS, last.at) == NO_KEYS;
        }
      } else {
        var newKid := last.step.newKid;
        assert Names(last, newKid) && last == steps[|steps| - 1];
        KidsAreNamed(init, newKid);
        assert forall i :: 0 <= i < |init| ==> init[i] == steps[i];
        assert newKid !in k.rows;
        if last.step.DoEnsure? {
          EnsureKeepsOneActive(k, newKid);
        } else {
          RotateKeepsOneActive(k, newKid, last.at, last.step.grace);
        }
      }
    }
  }

  /** Cleanup is invisible: it changes neither the published keys nor what is
      verified, at any time from then on. */
  lemma CleanupInvisible(k: Keys, now: int, t: int)
    requires OneActive(k) && now <= t
    ensures forall kid :: kid in CleanupExpiredKeys(k, now).rows ==>
              kid in k.rows && (k.rows[kid].expiresAt.None? || now <= k.rows[kid].expiresAt.value)
    ensures Published(CleanupExpiredKeys(k, now), t) == Published(k, t)
    ensures forall kid :: Accepts(CleanupExpiredKeys(k, now), kid, t) <==> Accepts(k, kid, t)
  {
    var c := CleanupExpiredKeys(k, now);
    forall kid | kid in k.rows && kid !in c.rows
      ensures k.rows[kid].IsExpired(t)
    {
    }
  }

  /** A rotation: the new key signs and verifies from now on, the one it replaces verifies
      for exactly the grace period, and the others are as they were. */
  lemma RotationMeaning(k: Keys, newKid: string, now: int, grace: int, t: int)
    requires OneActive(k) && newKid != "" && newKid !in k.rows
    ensures var k' := RotateKey(k, newKid, now, grace);
            && GetActive(k') == Some(newKid) && Accepts(k', newKid, t)
            && (Accepts(k', k.activeKid, t) <==> k.rows[k.activeKid].loads && t <= now + grace)
            && forall kid :: kid != newKid && kid != k.activeKid ==> (Accepts(k', kid, t) <==> Accepts(k, kid, t))
  {
  }

  // ----- what a later store can still accept

  /** Once a kid that has been issued stops being accepted, no step revives it. */
  lemma DeadKidStaysDead(k: Keys, s: TimedStep, kid: string, t: int)
    requires OneActive(k) || k == NO_KEYS
    requires !Accepts(k, kid, t) && t <= s.at
    requires !Names(s, kid)
    ensures forall t' :: s.at <= t' ==> !Accepts(ApplyKeyStep(k, s), kid, t')
  {
    assert k.activeKid in k.rows ==> k.rows[k.activeKid].expiresAt.None?;
  }

  // ----- the SQLite backend

  type SqlRows = map<string, KeyRow>

  /** Saving an active key deactivates the others in the same transaction. */
  function SqlSave(rows: SqlRows, kid: string, row: KeyRow): SqlRows {
    var others := if row.active then map i | i in rows :: if i != kid then rows[i].(active := false) else rows[i] else rows;
    others[kid := row]
  }

  function SqlSetActive(rows: SqlRows, kid: string): SqlRows {
    if kid !in rows then rows else map i | i in rows :: rows[i].(active := i == kid)
  }

  predicate SqlActive(rows: SqlRows, kid: string) {
    kid in rows && rows[kid].active
  }

  /** The service's steps as sequences of repository calls on flagged rows: the active
      key is whichever row carries the flag. */
  function SqlEnsure(rows: SqlRows, newKid: string): SqlRows {
    if exists kid :: kid in rows && SqlActive(rows, kid) then rows else SqlSetActive(SqlSave(rows, newKid, FRESH_KEY), newKid)
  }

  function Retired(rows: SqlRows, expiresAt: int): SqlRows {
    map kid | kid in rows ::
      if rows[kid].active then rows[kid].(active := false, expiresAt := Some(expiresAt)) else rows[kid]
  }

  function SqlRotate(rows: SqlRows, newKid: string, now: int, grace: int): SqlRows {
    SqlSetActive(SqlSave(Retired(rows, now + grace), newKid, FRESH_KEY), newKid)
  }

  function SqlCleanup(rows: SqlRows, now: int): SqlRows {
    map kid | kid in rows && !(rows[kid].IsExpired(now) && !rows[kid].active) :: rows[kid]
  }

  function SqlStep(rows: SqlRows, t: TimedStep): SqlRows {
    match t.step
    case DoEnsure(newKid) => SqlEnsure(rows, newKid)
    case DoRotate(newKid, grace) => SqlRotate(rows, newKid, t.at, grace)
    case DoCleanup => SqlCleanup(rows, t.at)
  }

  function SqlRun(steps: seq<TimedStep>): SqlRows {
    if steps == [] then map[] else SqlStep(SqlRun(steps[..|steps| - 1]), steps[|steps| - 1])
  }

  lemma BackendsStep(k: Keys, t: TimedStep)
    requires OneActive(k) || k == NO_KEYS
    requires t.step.DoCleanup? || (t.step.newKid != "" && t.step.newKid !in k.rows)
    ensures SqlStep(k.rows, t) == ApplyKeyStep(k, t).rows
  {
    if k != NO_KEYS {
      assert SqlActive(k.rows, k.activeKid);
    }
  }

  /** The backends find the active key differently - by flag and by name - and save,
      delete and clean up differently, but over every run they hold the same rows and
      name the same active key. */
  lemma {:induction false} KeyBackendsAgree(steps: seq<TimedStep>)
    requires FreshKids(steps)
    ensures SqlRun(steps) == RunKeys(steps).rows
    ensures forall kid :: SqlActive(SqlRun(steps), kid) <==> GetActive(RunKeys(steps)) == Some(kid)
  {
    ReachableOneActive(steps);
    if steps != [] {
      var init, last := steps[..|steps| - 1], steps[|steps| - 1];
      KeyBackendsAgree(init);
      ReachableOneActive(init);
      if !last.step.DoCleanup? {
        assert Names(last, last.step.newKid);
        if last.step.newKid in RunKeys(init).rows {
          KidsAreNamed(init, last.step.newKid);
        }
      }
      BackendsStep(RunKeys(init), last);
    }
  }
}
