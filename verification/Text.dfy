/** The few string helpers several components share. */
module Text {
  import opened Scopes

  /** strings.TrimSpace */
  function TrimSpace(s: string): string {
    TrimRight(TrimLeft(s))
  }

  function TrimLeft(s: string): string {
    if s != "" && IsSpace(s[0]) then TrimLeft(s[1..]) else s
  }

  function TrimRight(s: string): string {
    if s != "" && IsSpace(s[|s| - 1]) then TrimRight(s[..|s| - 1]) else s
  }

  /** s without the given characters. */
  function Without(s: string, dropped: set<char>): string {
    if s == "" then ""
    else (if s[0] in dropped then "" else [s[0]]) + Without(s[1..], dropped)
  }

  predicate AllSpace(s: string) {
    forall i :: 0 <= i < |s| ==> IsSpace(s[i])
  }

  lemma {:induction false} TrimLeftMeaning(s: string) returns (left: string)
    ensures s == left + TrimLeft(s) && AllSpace(left)
    ensures TrimLeft(s) != "" ==> !IsSpace(TrimLeft(s)[0])
  {
    if s != "" && IsSpace(s[0]) {
      var rest := TrimLeftMeaning(s[1..]);
      left := [s[0]] + rest;
      assert s == [s[0]] + s[1..];
    } else {
      left := "";
    }
  }

  lemma {:induction false} TrimRightMeaning(s: string) returns (right: string)
    ensures s == TrimRight(s) + right && AllSpace(right)
    ensures TrimRight(s) != "" ==> !IsSpace(TrimRight(s)[|TrimRight(s)| - 1])
    ensures TrimRight(s) != "" ==> s != "" && TrimRight(s)[0] == s[0]
    decreases |s|
  {
    if s != "" && IsSpace(s[|s| - 1]) {
      var rest := TrimRightMeaning(s[..|s| - 1]);
      right := rest + [s[|s| - 1]];
      assert s == s[..|s| - 1] + [s[|s| - 1]];
    } else {
      right := "";
    }
  }

  /** Trimming takes spaces off both ends, all of them and nothing else. */
  lemma TrimMeaning(s: string) returns (left: string, right: string)
    ensures s == left + TrimSpace(s) + right && AllSpace(left) && AllSpace(right)
    ensures TrimSpace(s) != "" ==> !IsSpace(TrimSpace(s)[0]) && !IsSpace(TrimSpace(s)[|TrimSpace(s)| - 1])
  {
    left := TrimLeftMeaning(s);
    right := TrimRightMeaning(TrimLeft(s));
  }

  /** s is t with dropped characters put in. */
  ghost predicate Weaves(s: string, t: string, dropped: set<char>)
    decreases |s|
  {
    if s == "" then t == ""
    else if s[0] in dropped then Weaves(s[1..], t, dropped)
    else t != "" && t[0] == s[0] && Weaves(s[1..], t[1..], dropped)
  }

  /** Exactly the dropped characters go, and the others keep their order. */
  lemma {:induction false} WithoutMeaning(s: string, dropped: set<char>)
    ensures Weaves(s, Without(s, dropped), dropped)
    ensures forall i :: 0 <= i < |Without(s, dropped)| ==> Without(s, dropped)[i] !in dropped
  {
    if s != "" {
      var rest := Without(s[1..], dropped);
      WithoutMeaning(s[1..], dropped);
      if s[0] in dropped {
        assert "" + rest == rest;
        assert Without(s, dropped) == rest;
      } else {
        assert Without(s, dropped) == [s[0]] + rest;
        assert ([s[0]] + rest)[1..] == rest;
      }
    }
  }
}
