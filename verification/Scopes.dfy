/** Space-separated scope strings, and the small loops that compare scope lists. */
module Scopes {
  /** The characters unicode.IsSpace accepts. */
  predicate IsSpace(c: char) {
    || '\t' <= c <= '\r'
    || c == ' ' || c == '\U{0085}' || c == '\U{00A0}' || c == '\U{1680}'
    || '\U{2000}' <= c <= '\U{200A}'
    || c == '\U{2028}' || c == '\U{2029}' || c == '\U{202F}' || c == '\U{205F}' || c == '\U{3000}'
  }

  predicate IsWord(w: string) {
    w != "" && forall i :: 0 <= i < |w| ==> !IsSpace(w[i])
  }

  /** The length of the run of non-space characters at the front of s. */
  function WordLength(s: string): (n: nat)
    ensures n <= |s|
    ensures forall i :: 0 <= i < n ==> !IsSpace(s[i])
    ensures n < |s| ==> IsSpace(s[n])
  {
    if s == "" || IsSpace(s[0]) then 0 else 1 + WordLength(s[1..])
  }

  /** strings.Fields */
  function Fields(s: string): (words: seq<string>)
    ensures forall w :: w in words ==> IsWord(w)
    decreases |s|
  {
    if s == "" then []
    else if IsSpace(s[0]) then Fields(s[1..])
    else
      var n := WordLength(s);
      [s[..n]] + Fields(s[n..])
  }

  /** strings.Join with a single space */
  function Join(words: seq<string>): string {
    if words == [] then ""
    else if |words| == 1 then words[0]
    else words[0] + " " + Join(words[1..])
  }

  lemma {:induction false} WordThenRest(w: string, rest: string)
    requires forall i :: 0 <= i < |w| ==> !IsSpace(w[i])
    requires rest == "" || IsSpace(rest[0])
    ensures WordLength(w + rest) == |w|
  {
    if w == "" {
      assert w + rest == rest;
    } else {
      WordThenRest(w[1..], rest);
      assert (w + rest)[1..] == w[1..] + rest;
    }
  }

  lemma FieldsOfWord(w: string, rest: string)
    requires IsWord(w)
    requires rest == "" || IsSpace(rest[0])
    ensures Fields(w + rest) == [w] + Fields(rest)
  {
    WordThenRest(w, rest);
    assert (w + rest)[0] == w[0];
    assert (w + rest)[..|w|] == w && (w + rest)[|w|..] == rest;
  }

  lemma FieldsSkipSpace(s: string)
    ensures Fields(" " + s) == Fields(s)
  {
    assert (" " + s)[1..] == s;
  }

  /** Splitting what was joined gives the words back. */
  lemma {:induction false} FieldsOfJoin(words: seq<string>)
    requires forall w :: w in words ==> IsWord(w)
    ensures Fields(Join(words)) == words
  {
    if |words| == 1 {
      assert words[0] + "" == words[0];
      FieldsOfWord(words[0], "");
    } else if |words| > 1 {
      var later := Join(words[1..]);
      FieldsOfJoin(words[1..]);
      FieldsSkipSpace(later);
      FieldsOfWord(words[0], " " + later);
      assert words[0] + " " + later == words[0] + (" " + later);
      assert words == [words[0]] + words[1..];
    }
  }

  /** The scopes a scope string grants. */
  function ScopeSet(scope: string): set<string> {
    set w | w in Fields(scope)
  }

  predicate HasScope(scope: string, want: string) {
    want in Fields(scope)
  }

  method ScopeSubset(requested: string, granted: string) returns (ok: bool)
    ensures ok <==> ScopeSet(requested) <= ScopeSet(granted)
  {
    var have: map<string, bool> := map[];
    var words := Fields(granted);
    for i := 0 to |words|
      invariant forall w :: w in have <==> w in words[..i]
      invariant forall w :: w in have ==> have[w]
    {
      have := have[words[i] := true];
    }
    assert words[..|words|] == words;
    var asked := Fields(requested);
    for i := 0 to |asked|
      invariant forall w :: w in asked[..i] ==> w in words
    {
      if !(asked[i] in have && have[asked[i]]) {
        assert asked[i] in ScopeSet(requested);
        return false;
      }
    }
    assert asked[..|asked|] == asked;
    ok := true;
  }

  /** The list with every repetition after the first occurrence dropped. */
  function Dedup(list: seq<string>): seq<string> {
    if list == [] then []
    else
      var init, last := Dedup(list[..|list| - 1]), list[|list| - 1];
      if last in init then init else init + [last]
  }

  lemma {:induction false} DedupMeaning(list: seq<string>)
    ensures forall w :: w in Dedup(list) <==> w in list
    ensures forall i, j :: 0 <= i < j < |Dedup(list)| ==> Dedup(list)[i] != Dedup(list)[j]
  {
    if list != [] {
      var init, last := list[..|list| - 1], list[|list| - 1];
      DedupMeaning(init);
      assert list == init + [last];
    }
  }

  method UnionScopes(a: seq<string>, b: seq<string>) returns (out: seq<string>)
    ensures out == Dedup(a + b)
    ensures (set w | w in out) == (set w | w in a) + (set w | w in b)
  {
    var seen: set<string> := {};
    out := [];
    var lists := [a, b];
    var all := a + b;
    ghost var done := 0;
    for l := 0 to 2
      invariant done == if l == 0 then 0 else if l == 1 then |a| else |all|
      invariant out == Dedup(all[..done])
      invariant seen == set w | w in out
    {
      for i := 0 to |lists[l]|
        invariant done == (if l == 0 then 0 else |a|) + i
        invariant out == Dedup(all[..done])
        invariant seen == set w | w in out
      {
        var s := lists[l][i];
        assert all[done] == s;
        assert all[..done + 1][..done] == all[..done];
        done := done + 1;
        if s !in seen {
          seen := seen + {s};
          out := out + [s];
        }
      }
    }
    assert all[..|all|] == all;
    DedupMeaning(all);
  }

  /** Consent.Covers */
  method ConsentCovers(granted: seq<string>, scopes: seq<string>) returns (ok: bool)
    ensures ok <==> forall s :: s in scopes ==> s in granted
  {
    var have: set<string> := {};
    for i := 0 to |granted|
      invariant have == set s | s in granted[..i]
    {
      have := have + {granted[i]};
      assert granted[..i + 1] == granted[..i] + [granted[i]];
    }
    assert granted[..|granted|] == granted;
    for i := 0 to |scopes|
      invariant forall s :: s in scopes[..i] ==> s in granted
    {
      if scopes[i] !in have {
        return false;
      }
    }
    assert scopes[..|scopes|] == scopes;
    ok := true;
  }
}
