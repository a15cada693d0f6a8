/** The file backend of the code and token repositories: a list of rows, scanned
    from the front and written back. Every operation is proved to do to the rows
    exactly what GrantStore says the operation does. */
module FileStores {
  import opened Rows
  import opened RevocationTable
  import opened RevocationStores
  import opened GrantStore

  type CodeRow = Row<string, AuthCode>
  type TokenRow = Row<string, Token>

  class FileAuthCodes {
    var rows: seq<CodeRow>
    ghost var codes: Codes

    ghost predicate Valid()
      reads this
    {
      Represents(rows, codes)
    }

    constructor ()
      ensures Valid() && codes == map[]
    {
      rows := [];
      codes := map[];
    }

    method Create(code: string, row: AuthCode)
      requires Valid() && code !in codes
      modifies this
      ensures Valid() && codes == old(codes)[code := row]
    {
      AppendRepresents(rows, codes, code, row);
      rows := rows + [Row(code, row)];
      codes := codes[code := row];
    }

    method GetByCode(code: string) returns (found: bool, row: AuthCode)
      requires Valid()
      ensures found <==> code in codes
      ensures found ==> row == codes[code]
    {
      row := AuthCode("", "", "", "", "", "", 0, false);
      for i := 0 to |rows|
        invariant forall j :: 0 <= j < i ==> rows[j].key != code
      {
        if rows[i].key == code {
          return true, rows[i].value;
        }
      }
      ScannedAll(rows, codes, code);
      found := false;
    }

    method MarkUsed(code: string) returns (outcome: Consumption)
      requires Valid()
      modifies this
      ensures Valid() && (codes, outcome) == GrantStore.MarkUsed(old(codes), code)
    {
      for i := 0 to |rows|
        invariant rows == old(rows) && codes == old(codes)
        invariant forall j :: 0 <= j < i ==> rows[j].key != code
      {
        if rows[i].key == code {
          if rows[i].value.used {
            return Conflict;
          }
          var used := rows[i].value.(used := true);
          UpdateRepresents(rows, codes, i, used);
          rows := rows[i := Row(code, used)];
          codes := codes[code := used];
          return Consumed;
        }
      }
      ScannedAll(rows, codes, code);
      outcome := NotFound;
    }

    method DeleteExpired(now: int)
      requires Valid()
      modifies this
      ensures Valid() && codes == PurgeCodes(old(codes), now)
    {
      var live := (c: AuthCode) => c.expiresAt > now;
      var filtered: seq<CodeRow> := [];
      for i := 0 to |rows|
        invariant rows == old(rows) && codes == old(codes)
        invariant filtered == Filter(rows[..i], live)
      {
        assert rows[..i + 1][..i] == rows[..i];
        if rows[i].value.expiresAt > now {
          filtered := filtered + [rows[i]];
        }
      }
      assert rows[..|rows|] == rows;
      FilterRepresents(rows, codes, live, PurgeCodes(codes, now));
      rows := filtered;
      codes := PurgeCodes(codes, now);
    }
  }

  class FileTokens {
    var rows: seq<TokenRow>
    ghost var tokens: Tokens
    const revocations: FileRevocations

    ghost predicate Valid()
      reads this, revocations
    {
      Represents(rows, tokens) && revocations.Valid()
    }

    constructor (revocations: FileRevocations)
      requires revocations.Valid()
      ensures Valid() && tokens == map[] && this.revocations == revocations
    {
      rows := [];
      tokens := map[];
      this.revocations := revocations;
    }

    method Create(id: string, t: Token)
      requires Valid() && id !in tokens
      modifies this
      ensures Valid() && tokens == old(tokens)[id := t]
    {
      AppendRepresents(rows, tokens, id, t);
      rows := rows + [Row(id, t)];
      tokens := tokens[id := t];
    }

    method GetByID(id: string) returns (found: bool, t: Token)
      requires Valid()
      ensures found <==> id in tokens
      ensures found ==> t == tokens[id]
    {
      t := Token("", "", "", 0, false);
      for i := 0 to |rows|
        invariant forall j :: 0 <= j < i ==> rows[j].key != id
      {
        if rows[i].key == id {
          return true, rows[i].value;
        }
      }
      ScannedAll(rows, tokens, id);
      found := false;
    }

    /** Revokes the row and, with it, the access tokens of the same grant. */
    method Revoke(id: string, now: int) returns (found: bool)
      requires Valid()
      modifies this, revocations
      ensures Valid() && tokens == RevokeOne(old(tokens), id)
      ensures found <==> id in old(tokens)
      ensures revocations.ledger ==
              if found then
                CutBefore(old(revocations.ledger), ByUserClient, UserClientKey(old(tokens)[id].userID, old(tokens)[id].clientID), now)
              else
                old(revocations.ledger)
    {
      for i := 0 to |rows|
        invariant rows == old(rows) && tokens == old(tokens)
        invariant Valid() && revocations.ledger == old(revocations.ledger)
        invariant forall j :: 0 <= j < i ==> rows[j].key != id
      {
        if rows[i].key == id {
          var t := rows[i].value.(revoked := true);
          UpdateRepresents(rows, tokens, i, t);
          rows := rows[i := Row(id, t)];
          tokens := tokens[id := t];
          revocations.RevokeBefore(ByUserClient, UserClientKey(t.userID, t.clientID), now);
          return true;
        }
      }
      ScannedAll(rows, tokens, id);
      found := false;
    }

    method Rotate(id: string) returns (outcome: Consumption)
      requires Valid()
      modifies this
      ensures Valid() && (tokens, outcome) == GrantStore.Rotate(old(tokens), id)
    {
      for i := 0 to |rows|
        invariant rows == old(rows) && tokens == old(tokens)
        invariant forall j :: 0 <= j < i ==> rows[j].key != id
      {
        if rows[i].key == id {
          if rows[i].value.revoked {
            return Conflict;
          }
          var t := rows[i].value.(revoked := true);
          UpdateRepresents(rows, tokens, i, t);
          rows := rows[i := Row(id, t)];
          tokens := tokens[id := t];
          return Consumed;
        }
      }
      ScannedAll(rows, tokens, id);
      outcome := NotFound;
    }

    method RevokeByUserID(userID: string, now: int)
      requires Valid()
      modifies this, revocations
      ensures Valid() && tokens == RevokeUserTokens(old(tokens), userID)
      ensures revocations.ledger == CutBefore(old(revocations.ledger), ByUser, userID, now)
    {
      ghost var was := rows;
      for i := 0 to |rows|
        invariant |rows| == |was| && tokens == old(tokens)
        invariant revocations.ledger == old(revocations.ledger) && revocations.Valid()
        invariant forall j :: 0 <= j < i ==>
                    rows[j] == if was[j].value.userID == userID then Row(was[j].key, was[j].value.(revoked := true)) else was[j]
        invariant forall j :: i <= j < |rows| ==> rows[j] == was[j]
      {
        if rows[i].value.userID == userID {
          rows := rows[i := Row(rows[i].key, rows[i].value.(revoked := true))];
        }
      }
      ReplaceValues(was, tokens, rows, RevokeUserTokens(tokens, userID));
      tokens := RevokeUserTokens(tokens, userID);
      revocations.RevokeBefore(ByUser, userID, now);
    }

    method RevokeByClientID(clientID: string, now: int)
      requires Valid()
      modifies this, revocations
      ensures Valid() && tokens == RevokeClientTokens(old(tokens), clientID)
      ensures revocations.ledger == CutBefore(old(revocations.ledger), ByClient, clientID, now)
    {
      ghost var was := rows;
      for i := 0 to |rows|
        invariant |rows| == |was| && tokens == old(tokens)
        invariant revocations.ledger == old(revocations.ledger) && revocations.Valid()
        invariant forall j :: 0 <= j < i ==>
                    rows[j] == if was[j].value.clientID == clientID then Row(was[j].key, was[j].value.(revoked := true)) else was[j]
        invariant forall j :: i <= j < |rows| ==> rows[j] == was[j]
      {
        if rows[i].value.clientID == clientID {
          rows := rows[i := Row(rows[i].key, rows[i].value.(revoked := true))];
        }
      }
      ReplaceValues(was, tokens, rows, RevokeClientTokens(tokens, clientID));
      tokens := RevokeClientTokens(tokens, clientID);
      revocations.RevokeBefore(ByClient, clientID, now);
    }

    method DeleteExpired(now: int)
      requires Valid()
      modifies this
      ensures Valid() && tokens == PurgeTokens(old(tokens), now)
    {
      var live := (t: Token) => t.expiresAt > now;
      var filtered: seq<TokenRow> := [];
      for i := 0 to |rows|
        invariant rows == old(rows) && tokens == old(tokens)
        invariant filtered == Filter(rows[..i], live)
      {
        assert rows[..i + 1][..i] == rows[..i];
        if rows[i].value.expiresAt > now {
          filtered := filtered + [rows[i]];
        }
      }
      assert rows[..|rows|] == rows;
      FilterRepresents(rows, tokens, live, PurgeTokens(tokens, now));
      rows := filtered;
      tokens := PurgeTokens(tokens, now);
    }

    /** The user's unexpired rows, revoked ones included. */
    method ListByUserID(userID: string, now: int) returns (out: seq<TokenRow>)
      requires Valid()
      ensures forall k :: 0 <= k < |out| ==> out[k].key in tokens && out[k].value == tokens[out[k].key]
      ensures forall k :: 0 <= k < |out| ==> out[k].value.userID == userID && out[k].value.expiresAt > now
      ensures forall id :: id in tokens && tokens[id].userID == userID && tokens[id].expiresAt > now ==>
                exists k :: 0 <= k < |out| && out[k].key == id
      ensures forall k, l :: 0 <= k < l < |out| ==> out[k].key != out[l].key
    {
      var listed := (t: Token) => t.userID == userID && t.expiresAt > now;
      out := [];
      for i := 0 to |rows|
        invariant out == Filter(rows[..i], listed)
      {
        assert rows[..i + 1][..i] == rows[..i];
        if rows[i].value.userID == userID && rows[i].value.expiresAt > now {
          out := out + [rows[i]];
        }
      }
      assert rows[..|rows|] == rows;
      FilteredRows(rows, tokens, listed);
    }
  }
}
