/** The two key repositories and the key service over the file one, each method
    proved to be the step of KeyStore it stands for. */
module KeyServices {
  import opened Wrappers
  import opened Rows
  import opened KeyStore

  type KeyFileRow = Row<string, KeyRow>

  class FileKeys {
    var rows: seq<KeyFileRow>
    var activeKid: string
    ghost var keys: Keys

    ghost predicate Valid()
      reads this
    {
      Represents(rows, keys.rows) && keys.activeKid == activeKid
    }

    constructor ()
      ensures Valid() && keys == NO_KEYS
    {
      rows := [];
      activeKid := "";
      keys := NO_KEYS;
    }

    method GetByID(kid: string) returns (found: bool, row: KeyRow)
      requires Valid()
      ensures found <==> kid in keys.rows
      ensures found ==> row == keys.rows[kid]
    {
      row := KeyRow(false, None, false);
      for i := 0 to |rows|
        invariant forall j :: 0 <= j < i ==> rows[j].key != kid
      {
        if rows[i].key == kid {
          return true, rows[i].value;
        }
      }
      ScannedAll(rows, keys.rows, kid);
      found := false;
    }

    method GetActive() returns (r: Option<KeyFileRow>)
      requires Valid()
      ensures r.Some? <==> KeyStore.GetActive(keys).Some?
      ensures r.Some? ==> r.value.key == activeKid && r.value.value == keys.rows[activeKid]
    {
      if activeKid == "" {
        return None;
      }
      for i := 0 to |rows|
        invariant forall j :: 0 <= j < i ==> rows[j].key != activeKid
      {
        if rows[i].key == activeKid {
          return Some(rows[i]);
        }
      }
      ScannedAll(rows, keys.rows, activeKid);
      r := None;
    }

    method Save(kid: string, row: KeyRow)
      requires Valid()
      modifies this
      ensures Valid() && keys == KeyStore.Save(old(keys), kid, row)
    {
      var found := false;
      for i := 0 to |rows|
        invariant rows == old(rows) && Valid() && keys == old(keys)
        invariant forall j :: 0 <= j < i ==> rows[j].key != kid
      {
        if rows[i].key == kid {
          UpdateRepresents(rows, keys.rows, i, row);
          rows := rows[i := Row(kid, row)];
          found := true;
          break;
        }
      }
      if !found {
        ScannedAll(rows, keys.rows, kid);
        AppendRepresents(rows, keys.rows, kid, row);
        rows := rows + [Row(kid, row)];
      }
      keys := keys.(rows := keys.rows[kid := row]);
    }

    method SetActive(kid: string) returns (found: bool)
      requires Valid()
      modifies this
      ensures Valid() && keys == KeyStore.SetActive(old(keys), kid)
      ensures found <==> kid in old(keys).rows
    {
      var flagged: seq<KeyFileRow>;
      flagged, found := FlagActive(rows, kid);
      if !found {
        ScannedAll(rows, keys.rows, kid);
        return;
      }
      ReplaceValues(rows, keys.rows, flagged, KeyStore.SetActive(keys, kid).rows);
      keys := KeyStore.SetActive(keys, kid);
      activeKid := kid;
      rows := flagged;
    }

    // The loop that moves the Active flag to kid.
    static method FlagActive(rows: seq<KeyFileRow>, kid: string) returns (flagged: seq<KeyFileRow>, found: bool)
      ensures |flagged| == |rows|
      ensures forall j :: 0 <= j < |rows| ==> flagged[j] == Row(rows[j].key, rows[j].value.(active := rows[j].key == kid))
      ensures found <==> exists j :: 0 <= j < |rows| && rows[j].key == kid
    {
      flagged := rows;
      found := false;
      for i := 0 to |rows|
        invariant |flagged| == |rows|
        invariant forall j :: 0 <= j < i ==> flagged[j] == Row(rows[j].key, rows[j].value.(active := rows[j].key == kid))
        invariant forall j :: i <= j < |rows| ==> flagged[j] == rows[j]
        invariant found <==> exists j :: 0 <= j < i && rows[j].key == kid
      {
        if rows[i].key == kid {
          found := true;
          flagged := flagged[i := Row(rows[i].key, rows[i].value.(active := true))];
        } else {
          flagged := flagged[i := Row(rows[i].key, rows[i].value.(active := false))];
        }
      }
    }

    method Delete(kid: string) returns (found: bool)
      requires Valid()
      modifies this
      ensures Valid() && keys == KeyStore.Delete(old(keys), kid)
      ensures found <==> kid in old(keys).rows
    {
      for i := 0 to |rows|
        invariant rows == old(rows) && Valid() && keys == old(keys)
        invariant forall j :: 0 <= j < i ==> rows[j].key != kid
      {
        if rows[i].key == kid {
          DropRepresents(rows, keys.rows, i);
          rows := rows[..i] + rows[i + 1..];
          if activeKid == kid {
            activeKid := "";
          }
          keys := KeyStore.Delete(keys, kid);
          return true;
        }
      }
      ScannedAll(rows, keys.rows, kid);
      found := false;
    }
  }

  class SqlKeys {
    var rows: SqlRows

    constructor ()
      ensures rows == map[]
    {
      rows := map[];
    }

    /** Finds the active key by its flag. */
    method GetActive() returns (r: Option<string>)
      ensures r.Some? ==> SqlActive(rows, r.value)
      ensures r.None? ==> forall kid :: !SqlActive(rows, kid)
    {
      if kid :| kid in rows && rows[kid].active {
        r := Some(kid);
      } else {
        r := None;
      }
    }

    method Save(kid: string, row: KeyRow)
      modifies this
      ensures rows == SqlSave(old(rows), kid, row)
    {
      if row.active {
        rows := map i | i in rows :: if rows[i].active && i != kid then rows[i].(active := false) else rows[i];
      }
      rows := rows[kid := row];
    }

    method SetActive(kid: string) returns (found: bool)
      modifies this
      ensures rows == SqlSetActive(old(rows), kid)
      ensures found <==> kid in old(rows)
    {
      if kid !in rows {
        return false;
      }
      rows := map i | i in rows :: if rows[i].active && i != kid then rows[i].(active := false) else rows[i];
      rows := rows[kid := rows[kid].(active := true)];
      found := true;
    }

    method Delete(kid: string) returns (found: bool)
      modifies this
      ensures rows == old(rows) - {kid} && (found <==> kid in old(rows))
    {
      found := kid in rows;
      rows := rows - {kid};
    }

    method Verifies(kid: string, now: int) returns (ok: bool)
      ensures ok <==> kid in rows && rows[kid].loads && !rows[kid].IsExpired(now)
    {
      ok := kid in rows && rows[kid].loads && !rows[kid].IsExpired(now);
    }

    /** The repository calls of EnsureActiveKey, RotateKey and CleanupExpiredKeys. */
    method Ensure(newKid: string)
      requires newKid !in rows
      modifies this
      ensures rows == SqlEnsure(old(rows), newKid)
    {
      var active := GetActive();
      if active.Some? {
        return;
      }
      Save(newKid, FRESH_KEY);
      var found := SetActive(newKid);
    }

    method Rotate(newKid: string, now: int, grace: int)
      requires forall a, b :: SqlActive(rows, a) && SqlActive(rows, b) ==> a == b
      requires newKid !in rows
      modifies this
      ensures rows == SqlRotate(old(rows), newKid, now, grace)
    {
      var active := GetActive();
      forall kid | kid in rows
        ensures rows[kid].active <==> active == Some(kid)
      {
        assert rows[kid].active <==> SqlActive(rows, kid);
      }
      if active.Some? {
        Save(active.value, rows[active.value].(active := false, expiresAt := Some(now + grace)));
      }
      assert rows == Retired(old(rows), now + grace);
      Save(newKid, FRESH_KEY);
      var found := SetActive(newKid);
    }

    method Cleanup(now: int)
      modifies this
      ensures rows == SqlCleanup(old(rows), now)
    {
      var left := rows.Keys;
      while left != {}
        invariant left <= rows.Keys <= old(rows).Keys
        invariant forall kid :: kid in rows ==> rows[kid] == old(rows)[kid]
        invariant forall kid :: kid in old(rows) ==>
                    (kid in rows <==> kid in left || !(old(rows)[kid].IsExpired(now) && !old(rows)[kid].active))
        decreases |left|
      {
        var kid :| kid in left;
        left := left - {kid};
        if rows[kid].IsExpired(now) && !rows[kid].active {
          var found := Delete(kid);
        }
      }
    }
  }

  /** The in-process copy of the active key, and when it was stamped. */
  datatype Cache = Cache(kid: Option<string>, at: int)

  function Fresh(c: Cache, ttl: int, now: int): Option<string> {
    if c.kid.None? || ttl <= 0 || now - c.at >= ttl then None else c.kid
  }

  /** The key the repository says to sign with, if it loads. */
  function Stored(k: Keys): Option<string> {
    match KeyStore.GetActive(k)
    case Some(kid) => if k.rows[kid].loads then Some(kid) else None
    case None => None
  }

  class KeyService {
    const repo: FileKeys
    const cacheTTL: int
    var cache: Cache

    ghost predicate Valid()
      reads this, repo
    {
      repo.Valid()
    }

    constructor (repo: FileKeys, cacheTTL: int)
      requires repo.Valid()
      ensures Valid() && this.repo == repo && this.cacheTTL == cacheTTL && cache.kid.None?
    {
      this.repo := repo;
      this.cacheTTL := cacheTTL;
      cache := Cache(None, 0);
    }

    method EnsureActiveKey(newKid: string, stamp: int) returns (r: Option<string>)
      requires Valid() && newKid != "" && newKid !in repo.keys.rows
      modifies this, repo
      ensures Valid() && (repo.keys, r) == KeyStore.EnsureActiveKey(old(repo.keys), newKid)
      ensures cache == if r.Some? then Cache(r, stamp) else old(cache)
    {
      var key := repo.GetActive();
      if key.Some? {
        if !key.value.value.loads {
          return None;
        }
        cache := Cache(Some(key.value.key), stamp);
        return cache.kid;
      }
      repo.Save(newKid, FRESH_KEY);
      var found := repo.SetActive(newKid);
      cache := Cache(Some(newKid), stamp);
      r := cache.kid;
    }

    /** Looks at the cache at now; a key read from the repository is stamped later. */
    method GetActiveKey(now: int, stamp: int) returns (r: Option<string>)
      requires Valid() && now <= stamp
      modifies this
      ensures Valid()
      ensures r == if Fresh(old(cache), cacheTTL, now).Some? then Fresh(old(cache), cacheTTL, now) else Stored(repo.keys)
      ensures cache == if Fresh(old(cache), cacheTTL, now).Some? || r.None? then old(cache) else Cache(r, stamp)
    {
      if cache.kid.Some? && !(cacheTTL <= 0 || now - cache.at >= cacheTTL) {
        return cache.kid;
      }
      var key := repo.GetActive();
      if key.None? || !key.value.value.loads {
        return None;
      }
      cache := Cache(Some(key.value.key), stamp);
      r := cache.kid;
    }

    method RotateKey(newKid: string, now: int, stamp: int, expiresIn: int) returns (r: string)
      requires Valid() && newKid != "" && newKid !in repo.keys.rows && now <= stamp
      modifies this, repo
      ensures Valid() && repo.keys == KeyStore.RotateKey(old(repo.keys), newKid, now, expiresIn)
      ensures r == newKid && cache == Cache(Some(newKid), stamp)
    {
      var oldKey := repo.GetActive();
      if oldKey.Some? {
        repo.Save(oldKey.value.key, oldKey.value.value.(active := false, expiresAt := Some(now + expiresIn)));
      }
      repo.Save(newKid, FRESH_KEY);
      var found := repo.SetActive(newKid);
      cache := Cache(Some(newKid), stamp);
      r := newKid;
    }

    method GetJWKS(now: int) returns (kids: seq<string>)
      requires Valid()
      ensures (set kid | kid in kids) == Published(repo.keys, now)
      ensures forall i, j :: 0 <= i < j < |kids| ==> kids[i] != kids[j]
    {
      kids := [];
      var keys := repo.rows;
      for i := 0 to |keys|
        invariant forall kid :: kid in kids <==>
                    exists j :: 0 <= j < i && keys[j].key == kid && !keys[j].value.IsExpired(now) && keys[j].value.loads
        invariant forall a, b :: 0 <= a < b < |kids| ==> kids[a] != kids[b]
      {
        if keys[i].value.IsExpired(now) {
          continue;
        }
        if !keys[i].value.loads {
          continue;
        }
        assert keys[i].key !in kids;
        kids := kids + [keys[i].key];
      }
    }

    /** What parse asks before it verifies a signature made under kid. */
    method VerificationKey(kid: string, now: int) returns (ok: bool)
      requires Valid()
      ensures ok <==> kid in repo.keys.rows && repo.keys.rows[kid].loads
                      && (repo.keys.rows[kid].expiresAt.None? || now <= repo.keys.rows[kid].expiresAt.value)
      ensures ok <==> Accepts(repo.keys, kid, now)
    {
      var found, row := repo.GetByID(kid);
      if !found || !row.loads {
        return false;
      }
      ok := !row.IsExpired(now);
    }

    method CleanupExpiredKeys(now: int)
      requires Valid()
      modifies repo
      ensures Valid() && repo.keys == KeyStore.CleanupExpiredKeys(old(repo.keys), now)
    {
      ghost var was := repo.keys;
      var keys := repo.rows;
      for i := 0 to |keys|
        invariant Valid() && repo.keys == DeleteDropped(was, keys[..i], now)
      {
        assert keys[..i + 1][..i] == keys[..i];
        if keys[i].value.IsExpired(now) && !keys[i].value.active {
          var found := repo.Delete(keys[i].key);
        }
      }
      assert keys[..|keys|] == keys;
      DeleteDroppedIsCleanup(was, keys, now);
    }
  }

  /** A kid is published exactly when a token naming it would be verified: the scan
      that builds the JWKS and the lookup that parse makes agree about every kid. */
  method PublishedIsVerified(s: KeyService, kid: string, now: int) returns (published: bool, verified: bool)
    requires s.Valid()
    ensures published == verified
    ensures verified <==> Accepts(s.repo.keys, kid, now)
  {
    var kids := s.GetJWKS(now);
    published := kid in kids;
    assert published <==> kid in Published(s.repo.keys, now);
    verified := s.VerificationKey(kid, now);
  }

  /** Once a key has been created there is always one to sign with - unless its PEM does
      not load - and whatever is signed with it verifies, now and until it is retired. */
  lemma SigningKeyVerifies(steps: seq<TimedStep>, t: int)
    requires FreshKids(steps) && exists i :: 0 <= i < |steps| && !steps[i].step.DoCleanup?
    ensures var k := RunKeys(steps);
            && k.activeKid in k.rows
            && Stored(k) == (if k.rows[k.activeKid].loads then Some(k.activeKid) else None)
            && (Stored(k).Some? ==> Accepts(k, k.activeKid, t) && k.activeKid in Published(k, t))
            && forall newKid :: KeyStore.EnsureActiveKey(k, newKid) == (k, Stored(k))
  {
    ReachableOneActive(steps);
  }

  // Fresh kids stay fresh, and the rows the run has reached are what a step may expect.
  lemma NextStep(steps: seq<TimedStep>, i: nat)
    requires FreshKids(steps) && i < |steps|
    ensures var k, step := RunKeys(steps[..i]), steps[i].step;
            && FreshKids(steps[..i]) && RunKeys(steps[..i + 1]) == ApplyKeyStep(k, steps[i])
            && SqlRun(steps[..i + 1]) == SqlStep(SqlRun(steps[..i]), steps[i])
            && SqlRun(steps[..i]) == k.rows
            && (forall a, b :: SqlActive(k.rows, a) && SqlActive(k.rows, b) ==> a == b)
            && (!step.DoCleanup? ==> step.newKid != "" && step.newKid !in k.rows)
  {
    var init := steps[..i];
    assert steps[..i + 1][..i] == init;
    KeyBackendsAgree(init);
    if !steps[i].step.DoCleanup? {
      assert Names(steps[i], steps[i].step.newKid);
      if steps[i].step.newKid in RunKeys(init).rows {
        KidsAreNamed(init, steps[i].step.newKid);
      }
    }
  }

  /** The service over the file repository and the same steps over the SQLite one, side by
      side: they sign with the same key and verify the same kids. */
  method BackendsAgree(steps: seq<TimedStep>, kid: string, now: int)
    returns (activeFile: Option<string>, activeSql: Option<string>, inFile: bool, inSql: bool)
    requires FreshKids(steps)
    ensures activeFile == activeSql == KeyStore.GetActive(RunKeys(steps))
    ensures inFile == inSql && (inFile <==> Accepts(RunKeys(steps), kid, now))
  {
    var repo := new FileKeys();
    var file := new KeyService(repo, 0);
    var sql := new SqlKeys();
    for i := 0 to |steps|
      invariant file.Valid() && fresh(file) && fresh(repo) && fresh(sql) && file.repo == repo
      invariant repo.keys == RunKeys(steps[..i]) && sql.rows == SqlRun(steps[..i])
    {
      NextStep(steps, i);
      var at := steps[i].at;
      match steps[i].step {
        case DoEnsure(newKid) =>
          var r := file.EnsureActiveKey(newKid, at);
          sql.Ensure(newKid);
        case DoRotate(newKid, grace) =>
          var r := file.RotateKey(newKid, at, at, grace);
          sql.Rotate(newKid, at, grace);
        case DoCleanup =>
          file.CleanupExpiredKeys(at);
          sql.Cleanup(at);
      }
    }
    assert steps[..|steps|] == steps;
    KeyBackendsAgree(steps);
    var active := repo.GetActive();
    activeFile := if active.Some? then Some(active.value.key) else None;
    activeSql := sql.GetActive();
    inFile := file.VerificationKey(kid, now);
    inSql := sql.Verifies(kid, now);
  }

  predicate Dropped(row: KeyRow, now: int) {
    row.IsExpired(now) && !row.active
  }

  function DeleteDropped(k: Keys, rows: seq<KeyFileRow>, now: int): Keys {
    if rows == [] then k
    else
      var rest, last := DeleteDropped(k, rows[..|rows| - 1], now), rows[|rows| - 1];
      if Dropped(last.value, now) then Delete(rest, last.key) else rest
  }

  lemma {:induction false} DeleteDroppedEffect(k: Keys, rows: seq<KeyFileRow>, now: int)
    ensures var r := DeleteDropped(k, rows, now);
            && r.rows.Keys <= k.rows.Keys
            && (forall kid :: kid in r.rows ==> r.rows[kid] == k.rows[kid])
            && (forall kid :: kid in k.rows && kid !in r.rows ==> kid in DroppedKids(rows, now))
            && (forall kid :: kid in DroppedKids(rows, now) ==> kid !in r.rows)
            && r.activeKid == if k.activeKid in k.rows && k.activeKid !in r.rows then "" else k.activeKid
  {
    if rows != [] {
      var init, last := rows[..|rows| - 1], rows[|rows| - 1];
      DeleteDroppedEffect(k, init, now);
      assert rows == init + [last];
    }
  }

  function DroppedKids(rows: seq<KeyFileRow>, now: int): set<string> {
    set row | row in rows && Dropped(row.value, now) :: row.key
  }

  lemma DeleteDroppedIsCleanup(k: Keys, rows: seq<KeyFileRow>, now: int)
    requires Represents(rows, k.rows)
    ensures DeleteDropped(k, rows, now) == KeyStore.CleanupExpiredKeys(k, now)
  {
    DeleteDroppedEffect(k, rows, now);
    var r := DeleteDropped(k, rows, now);
    forall kid | kid in k.rows
      ensures kid in DroppedKids(rows, now) <==> Dropped(k.rows[kid], now)
    {
      var i :| 0 <= i < |rows| && rows[i].key == kid;
      assert rows[i] in rows;
    }
    assert r.rows == KeyStore.CleanupExpiredKeys(k, now).rows;
  }
}
