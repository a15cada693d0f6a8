/** The gap kept between password-reset emails to one address, and the pruning that
    stops the table from growing. */
module Throttle {
  /** When the last email to each normalised address was sent. */
  type Sends = map<string, int>

  datatype Policy = Policy(interval: int, normalise: string -> string)

  const PRUNE_ABOVE := 1000

  function Pruned(p: Policy, s: Sends, now: int): Sends {
    if |s| > PRUNE_ABOVE then map k | k in s && now - s[k] < p.interval :: s[k] else s
  }

  predicate TooSoon(p: Policy, s: Sends, key: string, now: int) {
    p.interval > 0 && key in s && now - s[key] < p.interval
  }

  function Record(p: Policy, s: Sends, key: string, now: int): Sends {
    if p.interval <= 0 || TooSoon(p, s, key, now) then s else s[key := now]
  }

  class ResetThrottle {
    const p: Policy
    var lastReset: Sends

    constructor (p: Policy)
      ensures this.p == p && lastReset == map[]
    {
      this.p := p;
      lastReset := map[];
    }

    method Throttled(email: string, now: int) returns (refused: bool)
      modifies this
      ensures var kept := if p.interval <= 0 then old(lastReset) else Pruned(p, old(lastReset), now);
              && refused == TooSoon(p, kept, p.normalise(email), now)
              && lastReset == Record(p, kept, p.normalise(email), now)
    {
      if p.interval <= 0 {
        return false;
      }
      var key := p.normalise(email);
      if |lastReset| > PRUNE_ABOVE {
        var unseen := lastReset.Keys;
        while unseen != {}
          invariant unseen <= old(lastReset).Keys
          invariant forall k :: k in lastReset <==> k in old(lastReset) && (k in unseen || now - old(lastReset)[k] < p.interval)
          invariant forall k :: k in lastReset ==> lastReset[k] == old(lastReset)[k]
          decreases |unseen|
        {
          var k :| k in unseen;
          if now - lastReset[k] >= p.interval {
            lastReset := lastReset - {k};
          }
          unseen := unseen - {k};
        }
      }
      assert lastReset == Pruned(p, old(lastReset), now);
      if key in lastReset && now - lastReset[key] < p.interval {
        return true;
      }
      lastReset := lastReset[key := now];
      return false;
    }
  }

  // ----- runs

  datatype Call = Call(email: string, at: int)

  function Step(p: Policy, s: Sends, c: Call): Sends {
    Record(p, if p.interval <= 0 then s else Pruned(p, s, c.at), p.normalise(c.email), c.at)
  }

  function Run(p: Policy, calls: seq<Call>): Sends {
    if calls == [] then map[] else Step(p, Run(p, calls[..|calls| - 1]), calls[|calls| - 1])
  }

  predicate Refused(p: Policy, calls: seq<Call>, i: nat)
    requires i < |calls|
  {
    var s := Run(p, calls[..i]);
    TooSoon(p, if p.interval <= 0 then s else Pruned(p, s, calls[i].at), p.normalise(calls[i].email), calls[i].at)
  }

  /** The version that never deletes an entry. */
  function RunUnpruned(p: Policy, calls: seq<Call>): Sends {
    if calls == [] then map[]
    else
      var c := calls[|calls| - 1];
      Record(p, RunUnpruned(p, calls[..|calls| - 1]), p.normalise(c.email), c.at)
  }

  predicate RefusedUnpruned(p: Policy, calls: seq<Call>, i: nat)
    requires i < |calls|
  {
    TooSoon(p, RunUnpruned(p, calls[..i]), p.normalise(calls[i].email), calls[i].at)
  }

  ghost predicate Ordered(calls: seq<Call>) {
    forall i, j :: 0 <= i < j < |calls| ==> calls[i].at <= calls[j].at
  }

  /** What pruning has dropped could no longer refuse anything. */
  ghost predicate OnlyStaleGone(p: Policy, pruned: Sends, full: Sends, now: int) {
    && (forall k :: k in pruned ==> k in full && pruned[k] == full[k])
    && (forall k :: k in full && now - full[k] < p.interval ==> k in pruned)
  }

  lemma {:induction false} PrunedRun(p: Policy, calls: seq<Call>, now: int)
    requires Ordered(calls) && forall i :: 0 <= i < |calls| ==> calls[i].at <= now
    ensures OnlyStaleGone(p, Run(p, calls), RunUnpruned(p, calls), now)
  {
    if calls != [] {
      PrunedRun(p, calls[..|calls| - 1], calls[|calls| - 1].at);
    }
  }

  /** Pruning is invisible: with a clock that never goes back, every call is answered
      as by the version that never deletes. */
  lemma PruningInvisible(p: Policy, calls: seq<Call>, i: nat)
    requires Ordered(calls) && i < |calls|
    ensures Refused(p, calls, i) <==> RefusedUnpruned(p, calls, i)
  {
    PrunedRun(p, calls[..i], calls[i].at);
  }

  /** Whether call i sent an email to key. */
  predicate Sent(p: Policy, calls: seq<Call>, i: nat, key: string)
    requires i < |calls|
  {
    p.normalise(calls[i].email) == key && !Refused(p, calls, i)
  }

  /** full dates the last email sent to key. */
  ghost predicate Dates(p: Policy, full: Sends, calls: seq<Call>, key: string) {
    && (key in full ==> exists i :: 0 <= i < |calls| && Sent(p, calls, i, key) && calls[i].at == full[key])
    && forall i :: 0 <= i < |calls| && Sent(p, calls, i, key) ==> key in full && calls[i].at <= full[key]
  }

  lemma SentEarlier(p: Policy, calls: seq<Call>, n: nat, i: nat, key: string)
    requires i < n <= |calls|
    ensures Sent(p, calls, i, key) <==> Sent(p, calls[..n], i, key)
  {
    assert calls[..n][..i] == calls[..i];
  }

  lemma DatesOneMore(p: Policy, full: Sends, calls: seq<Call>, key: string)
    requires calls != [] && Ordered(calls) && p.interval > 0
    requires Dates(p, full, calls[..|calls| - 1], key)
    requires var c := calls[|calls| - 1];
             Refused(p, calls, |calls| - 1) <==> TooSoon(p, full, p.normalise(c.email), c.at)
    ensures var c := calls[|calls| - 1];
            Dates(p, Record(p, full, p.normalise(c.email), c.at), calls, key)
  {
    var n := |calls| - 1;
    var init, c := calls[..n], calls[n];
    var after := Record(p, full, p.normalise(c.email), c.at);
    forall i | 0 <= i < |calls| && Sent(p, calls, i, key)
      ensures key in after && calls[i].at <= after[key]
    {
      if i < n {
        SentEarlier(p, calls, n, i, key);
        assert Sent(p, init, i, key);
      }
    }
    if Sent(p, calls, n, key) {
      assert after[key] == calls[n].at;
    } else if key in after {
      var i :| 0 <= i < |init| && Sent(p, init, i, key) && init[i].at == full[key];
      SentEarlier(p, calls, n, i, key);
      assert Sent(p, calls, i, key) && calls[i].at == after[key];
    }
  }

  lemma {:induction false} LastSend(p: Policy, calls: seq<Call>, key: string)
    requires Ordered(calls) && p.interval > 0
    ensures Dates(p, RunUnpruned(p, calls), calls, key)
  {
    if calls != [] {
      var n := |calls| - 1;
      LastSend(p, calls[..n], key);
      PruningInvisible(p, calls, n);
      DatesOneMore(p, RunUnpruned(p, calls[..n]), calls, key);
    }
  }

  /** A request is refused exactly when an email went to its address less than the
      interval ago, so any two emails to one address are at least that far apart; an
      interval of zero or less refuses nothing. */
  lemma SendsApart(p: Policy, calls: seq<Call>, j: nat)
    requires Ordered(calls) && j < |calls|
    ensures var key := p.normalise(calls[j].email);
            Refused(p, calls, j) <==>
            exists i :: 0 <= i < j && Sent(p, calls, i, key) && calls[j].at - calls[i].at < p.interval
  {
    var key := p.normalise(calls[j].email);
    var before := calls[..j];
    if p.interval <= 0 {
      return;
    }
    LastSend(p, before, key);
    PruningInvisible(p, calls, j);
    forall i | 0 <= i < j
      ensures Sent(p, calls, i, key) <==> Sent(p, before, i, key)
    {
      SentEarlier(p, calls, j, i, key);
    }
    if Refused(p, calls, j) {
      var i :| 0 <= i < |before| && Sent(p, before, i, key) && before[i].at == RunUnpruned(p, before)[key];
      assert Sent(p, calls, i, key);
    }
  }
}
