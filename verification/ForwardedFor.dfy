/** Which hop of X-Forwarded-For a request is attributed to, behind trusted proxies. */
module ForwardedFor {
  import opened Text
  import opened Wrappers

  /** parse reads an address (an IPv4-mapped one as IPv4) and gives its canonical text;
      trusted is membership in the proxies' prefixes. */
  datatype Network = Network(parse: string -> Option<string>, trusted: string -> bool)

  // ----- from header values to hops

  /** strings.Split at commas */
  function Split(s: string): (parts: seq<string>)
    ensures parts != []
    decreases |s|
  {
    if s == "" then [""] else AddFront(s[0], Split(s[1..]))
  }

  function AddFront(c: char, parts: seq<string>): (r: seq<string>)
    requires parts != []
    ensures r != []
  {
    if c == ',' then [""] + parts else [[c] + parts[0]] + parts[1..]
  }

  /** The non-empty parts, trimmed. */
  function Kept(parts: seq<string>): seq<string> {
    if parts == [] then []
    else
      var last := TrimSpace(parts[|parts| - 1]);
      Kept(parts[..|parts| - 1]) + if last != "" then [last] else []
  }

  function Hops(values: seq<string>): seq<string> {
    if values == [] then []
    else Hops(values[..|values| - 1]) + Kept(Split(values[|values| - 1]))
  }

  lemma AddFrontAppend(c: char, p: seq<string>, q: seq<string>)
    requires p != []
    ensures AddFront(c, p + q) == AddFront(c, p) + q
  {
    assert (p + q)[1..] == p[1..] + q;
  }

  lemma {:induction false} SplitJoined(a: string, b: string)
    ensures Split(a + "," + b) == Split(a) + Split(b)
  {
    var s := a + "," + b;
    if a == "" {
      assert s[1..] == b;
    } else {
      SplitJoined(a[1..], b);
      assert s[0] == a[0] && s[1..] == a[1..] + "," + b;
      AddFrontAppend(a[0], Split(a[1..]), Split(b));
    }
  }

  /** Text without a comma is one part; together with SplitJoined this is Split. */
  lemma {:induction false} SplitPlain(a: string)
    requires ',' !in a
    ensures Split(a) == [a]
  {
    if a != "" {
      SplitPlain(a[1..]);
      assert a == [a[0]] + a[1..];
    }
  }

  /** A part becomes a hop, trimmed, unless nothing is left of it. */
  lemma PlainHop(a: string)
    requires ',' !in a
    ensures Hops([a]) == if TrimSpace(a) == "" then [] else [TrimSpace(a)]
  {
    SplitPlain(a);
    assert [a][..0] == [];
    assert Kept([a]) == Kept([]) + if TrimSpace(a) != "" then [TrimSpace(a)] else [];
    assert Hops([a]) == Hops([]) + Kept([a]);
  }

  lemma {:induction false} KeptAppend(p: seq<string>, q: seq<string>)
    ensures Kept(p + q) == Kept(p) + Kept(q)
  {
    if q == [] {
      assert p + q == p;
    } else {
      KeptAppend(p, q[..|q| - 1]);
      assert (p + q)[..|p + q| - 1] == p + q[..|q| - 1];
    }
  }

  lemma HopsLast(values: seq<string>, v: string)
    ensures Hops(values + [v]) == Hops(values) + Kept(Split(v))
  {
    assert (values + [v])[..|values|] == values;
  }

  /** Hops read the same however they are split across header values. */
  lemma {:induction false} HopsAppend(values: seq<string>, more: seq<string>)
    ensures Hops(values + more) == Hops(values) + Hops(more)
  {
    if more == [] {
      assert values + more == values;
    } else {
      var init, v := more[..|more| - 1], more[|more| - 1];
      HopsAppend(values, init);
      HopsAppendOne(values, init, v);
      assert more == init + [v];
    }
  }

  lemma HopsAppendOne(values: seq<string>, init: seq<string>, v: string)
    requires Hops(values + init) == Hops(values) + Hops(init)
    ensures Hops(values + (init + [v])) == Hops(values) + Hops(init + [v])
  {
    HopsLast(init, v);
    HopsLast(values + init, v);
    Regroup(values, init, [v]);
    Regroup(Hops(values), Hops(init), Kept(Split(v)));
  }

  lemma Regroup(p: seq<string>, q: seq<string>, r: seq<string>)
    ensures (p + q) + r == p + (q + r)
  {
  }

  /** Two header values and the one value that joins them with a comma (section 5.2 of
      RFC 9110) carry the same hops. */
  lemma JoinedValues(before: seq<string>, a: string, b: string, after: seq<string>)
    ensures Hops(before + [a + "," + b] + after) == Hops(before + [a, b] + after)
  {
    SplitJoined(a, b);
    KeptAppend(Split(a), Split(b));
    assert [a, b][..1] == [a] && [a][..0] == [] && [a + "," + b][..0] == [];
    assert Hops([a, b]) == Hops([a + "," + b]);
    HopsAppend(before, [a, b]);
    HopsAppend(before, [a + "," + b]);
    HopsAppend(before + [a, b], after);
    HopsAppend(before + [a + "," + b], after);
  }

  // ----- the walk from the right

  function Walk(n: Network, hops: seq<string>): Option<string> {
    if hops == [] then None
    else
      var i := |hops| - 1;
      var addr := n.parse(hops[i]);
      if addr.None? then None
      else if i == 0 || !n.trusted(addr.value) then addr
      else Walk(n, hops[..i])
  }

  method ClientFromForwardedFor(n: Network, values: seq<string>) returns (client: Option<string>)
    ensures client == Walk(n, Hops(values))
  {
    var hops: seq<string> := [];
    for v := 0 to |values|
      invariant hops == Hops(values[..v])
    {
      hops := AppendHops(hops, Split(values[v]));
      assert values[..v + 1] == values[..v] + [values[v]];
      HopsLast(values[..v], values[v]);
    }
    assert values[..|values|] == values;
    var i := |hops| - 1;
    assert hops[..|hops|] == hops;
    while i >= 0
      invariant -1 <= i < |hops|
      invariant Walk(n, hops) == Walk(n, hops[..i + 1])
    {
      var addr := n.parse(hops[i]);
      if addr.None? {
        return None;
      }
      if i == 0 || !n.trusted(addr.value) {
        return addr;
      }
      assert hops[..i + 1][..i] == hops[..i];
      i := i - 1;
    }
    return None;
  }

  method AppendHops(hops: seq<string>, parts: seq<string>) returns (longer: seq<string>)
    ensures longer == hops + Kept(parts)
  {
    longer := hops;
    for k := 0 to |parts|
      invariant longer == hops + Kept(parts[..k])
    {
      assert parts[..k + 1][..k] == parts[..k];
      var h := TrimSpace(parts[k]);
      if h != "" {
        longer := longer + [h];
      }
    }
    assert parts[..|parts|] == parts;
  }

  predicate IsTrusted(n: Network, hop: string) {
    n.parse(hop).Some? && n.trusted(n.parse(hop).value)
  }

  ghost predicate AllTrusted(n: Network, hops: seq<string>) {
    forall i :: 0 <= i < |hops| ==> IsTrusted(n, hops[i])
  }

  /** The walk stops at hop i: only trusted hops to its right, and it is not one. */
  ghost predicate StopsAt(n: Network, hops: seq<string>, i: nat) {
    i < |hops| && !IsTrusted(n, hops[i]) && AllTrusted(n, hops[i + 1..])
  }

  lemma {:induction false} WalkPassesTrusted(n: Network, hops: seq<string>, right: seq<string>)
    requires hops != [] && AllTrusted(n, right)
    ensures Walk(n, hops + right) == Walk(n, hops)
  {
    if right == [] {
      assert hops + right == hops;
    } else {
      WalkPassesTrusted(n, hops, right[..|right| - 1]);
      assert (hops + right)[..|hops + right| - 1] == hops + right[..|right| - 1];
      assert IsTrusted(n, right[|right| - 1]);
    }
  }

  /** The rightmost hop that is not a trusted proxy decides, whatever stands to its left:
      it is the client, or, if it is no address, there is none. */
  lemma StopDecides(n: Network, hops: seq<string>, i: nat)
    requires StopsAt(n, hops, i)
    ensures Walk(n, hops) == n.parse(hops[i])
  {
    assert hops == hops[..i + 1] + hops[i + 1..];
    WalkPassesTrusted(n, hops[..i + 1], hops[i + 1..]);
  }

  /** Where every hop is trusted the leftmost one is the client. */
  lemma AllTrustedLeftmost(n: Network, hops: seq<string>)
    requires hops != [] && AllTrusted(n, hops)
    ensures Walk(n, hops) == n.parse(hops[0])
  {
    assert hops == [hops[0]] + hops[1..];
    WalkPassesTrusted(n, [hops[0]], hops[1..]);
    assert [hops[0]][..0] == [];
  }

  lemma {:induction false} StopsOrAllTrusted(n: Network, hops: seq<string>)
    ensures AllTrusted(n, hops) || exists i: nat :: StopsAt(n, hops, i)
  {
    if hops != [] {
      var last := |hops| - 1;
      if IsTrusted(n, hops[last]) {
        StopsOrAllTrusted(n, hops[..last]);
        if !AllTrusted(n, hops[..last]) {
          var i: nat :| StopsAt(n, hops[..last], i);
          assert hops[i + 1..] == hops[..last][i + 1..] + [hops[last]];
          assert StopsAt(n, hops, i);
        } else {
          assert hops == hops[..last] + [hops[last]];
        }
      } else {
        assert StopsAt(n, hops, last);
      }
    }
  }

  lemma StopDecidesShifted(n: Network, extra: seq<string>, hops: seq<string>, i: nat)
    requires StopsAt(n, hops, i)
    ensures Walk(n, extra + hops) == n.parse(hops[i])
  {
    assert (extra + hops)[|extra| + i + 1..] == hops[i + 1..];
    StopDecides(n, extra + hops, |extra| + i);
  }

  ghost predicate PrependingChangesNothing(n: Network, hops: seq<string>) {
    forall extra :: Walk(n, extra + hops) == Walk(n, hops)
  }

  /** What a client prepends cannot change the result exactly when some hop already
      there is not a trusted proxy. */
  lemma PrependedHops(n: Network, hops: seq<string>, address: string, garbage: string)
    requires n.parse(address).Some? && n.parse(garbage).None?
    ensures PrependingChangesNothing(n, hops) <==> exists i: nat :: StopsAt(n, hops, i)
  {
    if i: nat :| StopsAt(n, hops, i) {
      forall extra
        ensures Walk(n, extra + hops) == Walk(n, hops)
      {
        StopDecides(n, hops, i);
        StopDecidesShifted(n, extra, hops, i);
      }
    } else {
      StopsOrAllTrusted(n, hops);
      if hops == [] {
        assert [address] + hops == [address] && [address][..0] == [];
        assert Walk(n, [address] + hops) != Walk(n, hops);
      } else {
        AllTrustedLeftmost(n, hops);
        assert IsTrusted(n, hops[0]);
        assert ([garbage] + hops)[1..] == hops;
        StopDecides(n, [garbage] + hops, 0);
        assert Walk(n, [garbage] + hops) != Walk(n, hops);
      }
    }
  }

  /** On header values: with an untrusted address followed only by trusted ones, whatever
      values are put before it, and however the hops are split, that address is the client. */
  lemma RightmostUntrusted(n: Network, sent: seq<string>, appended: seq<string>, i: nat)
    requires StopsAt(n, Hops(appended), i) && n.parse(Hops(appended)[i]).Some?
    ensures Walk(n, Hops(sent + appended)) == n.parse(Hops(appended)[i])
  {
    HopsAppend(sent, appended);
    StopDecidesShifted(n, Hops(sent), Hops(appended), i);
  }
}
