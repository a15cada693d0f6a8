/** The two implementations of the revocation repository: a list of rows scanned
    from the front (file backend) and keyed rows (SQLite backend). */
module RevocationStores {
  import opened Clock
  import opened Rows
  import opened RevocationTable

  type MarkRow = Row<RowKey, Mark>

  function LiveAfter(now: int): Mark -> bool {
    (m: Mark) => m.expiresAt > now
  }

  /** Keeps the rows expiring after now, writing them over the front of a, as
      the filter through data.Revocations[:0] does. Returns how many are kept. */
  method KeepUnexpired(a: array<MarkRow>, now: int) returns (kept: nat)
    modifies a
    ensures kept <= a.Length
    ensures a[..kept] == Filter(old(a[..]), LiveAfter(now))
  {
    ghost var was := a[..];
    kept := 0;
    for i := 0 to a.Length
      invariant kept <= i
      invariant a[..kept] == Filter(was[..i], LiveAfter(now))
      invariant forall j :: i <= j < a.Length ==> a[j] == was[j]
    {
      assert was[..i + 1][..i] == was[..i];
      if a[i].value.expiresAt > now {
        a[kept] := a[i];
        kept := kept + 1;
        assert a[..kept] == a[..kept - 1] + [was[i]];
      }
    }
    assert was[..a.Length] == was;
  }

  class FileRevocations {
    var rows: seq<MarkRow>
    ghost var ledger: Ledger // the table the rows stand for, and the log behind it

    ghost predicate Valid()
      reads this
    {
      Represents(rows, ledger.table)
    }

    constructor ()
      ensures Valid() && ledger == EMPTY
    {
      rows := [];
      ledger := EMPTY;
    }

    method Upsert(kind: Kind, key: string, notBefore: int, expiresAt: int)
      requires Valid()
      modifies this
      ensures Valid() && ledger.log == old(ledger.log)
      ensures ledger.table == RevocationTable.Upsert(old(ledger.table), RowKey(kind, key), Mark(notBefore, expiresAt))
    {
      var k := RowKey(kind, key);
      var i := 0;
      while i < |rows|
        invariant 0 <= i <= |rows|
        invariant rows == old(rows) && ledger == old(ledger)
        invariant forall j :: 0 <= j < i ==> rows[j].key != k
      {
        if rows[i].key == k {
          var m := rows[i].value;
          if notBefore > m.notBefore {
            m := m.(notBefore := notBefore);
          }
          if expiresAt > m.expiresAt {
            m := m.(expiresAt := expiresAt);
          }
          UpdateRepresents(rows, ledger.table, i, m);
          rows := rows[i := Row(k, m)];
          ledger := ledger.(table := ledger.table[k := m]);
          return;
        }
        i := i + 1;
      }
      ScannedAll(rows, ledger.table, k);
      AppendRepresents(rows, ledger.table, k, Mark(notBefore, expiresAt));
      rows := rows + [Row(k, Mark(notBefore, expiresAt))];
      ledger := ledger.(table := ledger.table[k := Mark(notBefore, expiresAt)]);
    }

    method RevokeAccessToken(jti: string, expiresAt: int, now: int)
      requires Valid()
      modifies this
      ensures Valid() && ledger == CutToken(old(ledger), jti, expiresAt, now)
    {
      Upsert(JTI, jti, now, expiresAt);
      ledger := ledger.(log := ledger.log + {TokenCut(jti, expiresAt)});
    }

    method RevokeBefore(kind: Kind, key: string, notBefore: int)
      requires Valid()
      modifies this
      ensures Valid() && ledger == CutBefore(old(ledger), kind, key, notBefore)
    {
      Upsert(kind, key, notBefore, notBefore + REVOCATION_RETENTION);
      ledger := ledger.(log := ledger.log + {GrantCut(kind, key, notBefore)});
    }

    method IsRevoked(jti: string, userID: string, clientID: string, issuedAt: int) returns (revoked: bool)
      requires Valid()
      ensures revoked <==> Revoked(ledger.table, Subject(jti, userID, clientID, issuedAt))
    {
      ghost var s := Subject(jti, userID, clientID, issuedAt);
      var i := 0;
      while i < |rows|
        invariant 0 <= i <= |rows|
        invariant forall j :: 0 <= j < i ==> !Hit(rows[j], s)
      {
        var row := rows[i];
        match row.key.kind {
          case JTI =>
            if row.key.key == jti {
              assert row.key == RowKey(JTI, jti);
              return true;
            }
          case ByUser =>
            if row.key.key == userID && issuedAt <= row.value.notBefore {
              assert row.key == RowKey(ByUser, userID);
              return true;
            }
          case ByUserClient =>
            if row.key.key == UserClientKey(userID, clientID) && issuedAt <= row.value.notBefore {
              assert row.key == RowKey(ByUserClient, UserClientKey(userID, clientID));
              return true;
            }
          case ByClient =>
            if row.key.key == clientID && issuedAt <= row.value.notBefore {
              assert row.key == RowKey(ByClient, clientID);
              return true;
            }
        }
        i := i + 1;
      }
      RevokedByRow(ledger.table, s);
      revoked := false;
    }

    method DeleteExpired(now: int)
      requires Valid()
      modifies this
      ensures Valid() && ledger == PurgeLedger(old(ledger), now)
    {
      var loaded := rows;
      var a := new MarkRow[|loaded|](i requires 0 <= i < |loaded| => loaded[i]);
      assert a[..] == loaded;
      PurgeRepresents(loaded, ledger.table, now);
      var kept := KeepUnexpired(a, now);
      rows := a[..kept];
      ledger := PurgeLedger(ledger, now);
    }
  }

  lemma PurgeRepresents(rows: seq<MarkRow>, t: Table, now: int)
    requires Represents(rows, t)
    ensures Represents(Filter(rows, LiveAfter(now)), Purge(t, now))
  {
    FilterRepresents(rows, t, LiveAfter(now), Purge(t, now));
  }

  /** One row of the table refuses s. */
  predicate Hit(row: MarkRow, s: Subject) {
    row.key.key == KeyOf(row.key.kind, s) && (row.key.kind == JTI || s.issuedAt <= row.value.notBefore)
  }

  lemma RevokedByRow(t: Table, s: Subject)
    ensures Revoked(t, s) <==> exists k :: k in t && Hit(Row(k, t[k]), s)
  {
    if Revoked(t, s) {
      var k := if RowKey(JTI, s.jti) in t then RowKey(JTI, s.jti)
               else if WatermarkHits(t, RowKey(ByUser, s.userID), s.issuedAt) then RowKey(ByUser, s.userID)
               else if WatermarkHits(t, RowKey(ByClient, s.clientID), s.issuedAt) then RowKey(ByClient, s.clientID)
               else RowKey(ByUserClient, UserClientKey(s.userID, s.clientID));
      assert Hit(Row(k, t[k]), s);
    }
  }

  class SqlRevocations {
    var table: Table

    constructor ()
      ensures table == map[]
    {
      table := map[];
    }

    /** Inserts the row or, where the key is taken, raises both columns to their maximum. */
    method Upsert(kind: Kind, key: string, notBefore: int, expiresAt: int)
      modifies this
      ensures table == RevocationTable.Upsert(old(table), RowKey(kind, key), Mark(notBefore, expiresAt))
    {
      var k := RowKey(kind, key);
      if k !in table {
        table := table[k := Mark(notBefore, expiresAt)];
      } else {
        table := table[k := Mark(Max(table[k].notBefore, notBefore), Max(table[k].expiresAt, expiresAt))];
      }
    }

    method RevokeAccessToken(jti: string, expiresAt: int, now: int)
      modifies this
      ensures table == RevocationTable.Upsert(old(table), RowKey(JTI, jti), Mark(now, expiresAt))
    {
      Upsert(JTI, jti, now, expiresAt);
    }

    method RevokeBefore(kind: Kind, key: string, notBefore: int)
      modifies this
      ensures table == RevocationTable.Upsert(old(table), RowKey(kind, key), Mark(notBefore, notBefore + REVOCATION_RETENTION))
    {
      Upsert(kind, key, notBefore, notBefore + REVOCATION_RETENTION);
    }

    /** Asks whether any row is hit through one of the four keys. */
    method IsRevoked(jti: string, userID: string, clientID: string, issuedAt: int) returns (revoked: bool)
      ensures revoked <==> Revoked(table, Subject(jti, userID, clientID, issuedAt))
    {
      revoked := exists k :: k in table && Hit(Row(k, table[k]), Subject(jti, userID, clientID, issuedAt));
      RevokedByRow(table, Subject(jti, userID, clientID, issuedAt));
    }

    method DeleteExpired(now: int)
      modifies this
      ensures table == Purge(old(table), now)
    {
      table := map k | k in table && !(table[k].expiresAt <= now) :: table[k];
    }
  }

  /** The two backends, given the same calls, give the same answer: the one of the
      specification, which by PurgingNeverRevives is the answer of the full log. */
  method BackendsAgree(calls: seq<Call>, s: Subject) returns (inFile: bool, inSql: bool)
    ensures inFile == inSql
    ensures inFile <==> Revoked(Run(calls).table, s)
  {
    var file := new FileRevocations();
    var sql := new SqlRevocations();
    for i := 0 to |calls|
      invariant file.Valid() && fresh(file) && fresh(sql)
      invariant file.ledger == Run(calls[..i]) && sql.table == Run(calls[..i]).table
    {
      assert calls[..i + 1][..i] == calls[..i];
      match calls[i].op {
        case RevokeAccessToken(jti, exp) =>
          file.RevokeAccessToken(jti, exp, calls[i].at);
          sql.RevokeAccessToken(jti, exp, calls[i].at);
        case RevokeBefore(kind, key, notBefore) =>
          file.RevokeBefore(kind, key, notBefore);
          sql.RevokeBefore(kind, key, notBefore);
        case DeleteExpired =>
          file.DeleteExpired(calls[i].at);
          sql.DeleteExpired(calls[i].at);
      }
    }
    assert calls[..|calls|] == calls;
    inFile := file.IsRevoked(s.jti, s.userID, s.clientID, s.issuedAt);
    inSql := sql.IsRevoked(s.jti, s.userID, s.clientID, s.issuedAt);
  }
}
