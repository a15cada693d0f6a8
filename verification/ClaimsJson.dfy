/** JWT claims as JSON: typed claims and extra ones share one flat object, and reading
    the object back tells them apart by name. */
module ClaimsJson {
  import opened Wrappers

  /** A member name: one of the typed claims', or any other text. */
  datatype Name =
    | Email | EmailVerified | FullName | Groups | Scope | ClientID
    | Iss | Sub | Aud | Exp | Nbf | Iat | Jti
    | Other(text: string)

  datatype Json =
    | Null
    | Bool(b: bool)
    | Num(n: int)
    | Str(s: string)
    | Arr(items: seq<Json>)
    | Obj(members: map<string, Json>)

  /** groups is None when the scope was not granted, Some([]) for a user in no group.
      Dates are whole seconds. */
  datatype Typed = Typed(
    email: string,
    emailVerified: bool,
    name: string,
    groups: Option<seq<string>>,
    scope: string,
    clientID: string,
    iss: string,
    sub: string,
    aud: seq<string>,
    exp: Option<int>,
    nbf: Option<int>,
    iat: Option<int>,
    jti: string
  )

  const ZERO := Typed("", false, "", None, "", "", "", "", [], None, None, None, "")

  datatype Claims = Claims(typed: Typed, extra: map<Name, Json>)

  // ----- writing

  function Strs(s: seq<string>): seq<Json> {
    if s == [] then [] else [Str(s[0])] + Strs(s[1..])
  }

  function StrOrOmit(s: string): Option<Json> {
    if s == "" then None else Some(Str(s))
  }

  function ListOrOmit(s: seq<string>): Option<Json> {
    if s == [] then None else Some(Arr(Strs(s)))
  }

  function NumOrOmit(n: Option<int>): Option<Json> {
    if n.None? then None else Some(Num(n.value))
  }

  /** The member the struct encoder writes for a typed claim; omitempty leaves it out. */
  function Encoded(t: Typed, name: Name): Option<Json> {
    match name
    case Email => StrOrOmit(t.email)
    case EmailVerified => if t.emailVerified then Some(Bool(true)) else None
    case FullName => StrOrOmit(t.name)
    case Groups => if t.groups.None? then None else ListOrOmit(t.groups.value)
    case Scope => StrOrOmit(t.scope)
    case ClientID => StrOrOmit(t.clientID)
    case Iss => StrOrOmit(t.iss)
    case Sub => StrOrOmit(t.sub)
    case Aud => ListOrOmit(t.aud)
    case Exp => NumOrOmit(t.exp)
    case Nbf => NumOrOmit(t.nbf)
    case Iat => NumOrOmit(t.iat)
    case Jti => StrOrOmit(t.jti)
    case Other(_) => None
  }

  /** The typed member that ends up in the object: a granted but empty group list is
      written although omitempty drops it. */
  function TypedMember(t: Typed, name: Name): Option<Json> {
    if name == Groups && t.groups == Some([]) then Some(Arr([])) else Encoded(t, name)
  }

  /** The member of a name in the flat object: a typed claim that is present wins. */
  function Written(c: Claims, name: Name): Option<Json> {
    if TypedMember(c.typed, name).Some? then TypedMember(c.typed, name)
    else if name in c.extra then Some(c.extra[name])
    else None
  }

  datatype Member = Member(name: Name, value: Json)

  ghost predicate Distinct(out: seq<Member>) {
    forall i, j :: 0 <= i < j < |out| ==> out[i].name != out[j].name
  }

  ghost predicate Names(out: seq<Member>, name: Name) {
    exists i :: 0 <= i < |out| && out[i].name == name
  }

  /** out lists the members of m in some order. */
  ghost predicate Lists(out: seq<Member>, m: map<Name, Json>) {
    && Distinct(out)
    && (forall i :: 0 <= i < |out| ==> out[i].name in m && out[i].value == m[out[i].name])
    && (forall name :: name in m ==> Names(out, name))
  }

  /** out is the flat object of c, its members in some order. */
  ghost predicate Encodes(out: seq<Member>, c: Claims) {
    && Distinct(out)
    && (forall i :: 0 <= i < |out| ==> Written(c, out[i].name) == Some(out[i].value))
    && (forall name :: Written(c, name).Some? ==> Names(out, name))
  }

  /** The struct encoder. */
  function EncodedMembers(t: Typed): map<Name, Json> {
    map name | name in {Email, EmailVerified, FullName, Groups, Scope, ClientID, Iss, Sub, Aud, Exp, Nbf, Iat, Jti}
               && Encoded(t, name).Some? :: Encoded(t, name).value
  }

  lemma AppendLists(out: seq<Member>, m: map<Name, Json>, name: Name, v: Json)
    requires Lists(out, m) && name !in m
    ensures Lists(out + [Member(name, v)], m[name := v])
  {
    var longer := out + [Member(name, v)];
    assert longer[|out|].name == name;
    forall n | n in m
      ensures Names(longer, n)
    {
      var i :| 0 <= i < |out| && out[i].name == n;
      assert longer[i].name == n;
    }
  }

  method List(m: map<Name, Json>) returns (out: seq<Member>)
    ensures Lists(out, m)
  {
    out := [];
    var left := m.Keys;
    ghost var listed: map<Name, Json> := map[];
    while left != {}
      invariant left <= m.Keys && listed == m - left
      invariant Lists(out, listed)
      decreases |left|
    {
      var name :| name in left;
      AppendLists(out, listed, name, m[name]);
      out := out + [Member(name, m[name])];
      left := left - {name};
      listed := listed[name := m[name]];
    }
    assert m - {} == m;
  }

  method MarshalJSON(c: Claims) returns (out: seq<Member>)
    ensures Encodes(out, c)
  {
    var merged := EncodedMembers(c.typed);
    var emptyGroups := c.typed.groups == Some([]);
    if c.extra != map[] || emptyGroups {
      if emptyGroups {
        merged := merged[Groups := Arr([])];
      }
      merged := MergeExtra(merged, c.extra);
    }
    assert forall name :: Written(c, name) == if name in merged then Some(merged[name]) else None;
    out := List(merged);
  }

  /** The loop over the extra claims: a name already taken is left alone. */
  method MergeExtra(typed: map<Name, Json>, extra: map<Name, Json>) returns (merged: map<Name, Json>)
    ensures forall k :: k in merged <==> k in typed || k in extra
    ensures forall k :: k in merged ==> merged[k] == if k in typed then typed[k] else extra[k]
  {
    merged := typed;
    var left := extra.Keys;
    while left != {}
      invariant left <= extra.Keys
      invariant forall k :: k in merged <==> k in typed || (k in extra && k !in left)
      invariant forall k :: k in merged ==> merged[k] == if k in typed then typed[k] else extra[k]
      decreases |left|
    {
      var k :| k in left;
      left := left - {k};
      if k !in merged {
        merged := merged[k := extra[k]];
      }
    }
  }

  // ----- reading

  function Strings(items: seq<Json>): Option<seq<string>> {
    if items == [] then Some([])
    else
      var rest := Strings(items[1..]);
      if !items[0].Str? || rest.None? then None else Some([items[0].s] + rest.value)
  }

  function ReadStr(current: string, v: Json): Option<string> {
    match v case Str(s) => Some(s) case Null => Some(current) case _ => None
  }

  function ReadDate(v: Json): Option<Option<int>> {
    match v case Num(n) => Some(Some(n)) case Null => Some(None) case _ => None
  }

  function ReadGroups(v: Json): Option<Option<seq<string>>> {
    match v
    case Null => Some(None)
    case Arr(items) => (match Strings(items) case Some(s) => Some(Some(s)) case None => None)
    case _ => None
  }

  function ReadAudience(current: seq<string>, v: Json): Option<seq<string>> {
    match v
    case Null => Some(current)
    case Str(s) => Some([s])
    case Arr(items) => Strings(items)
    case _ => None
  }

  /** The struct decoder on one member; None for a value of the wrong type. */
  function Assign(t: Typed, name: Name, v: Json): Option<Typed> {
    match name
    case Email => (match ReadStr(t.email, v) case Some(s) => Some(t.(email := s)) case None => None)
    case EmailVerified =>
      (match v case Bool(b) => Some(t.(emailVerified := b)) case Null => Some(t) case _ => None)
    case FullName => (match ReadStr(t.name, v) case Some(s) => Some(t.(name := s)) case None => None)
    case Groups => (match ReadGroups(v) case Some(g) => Some(t.(groups := g)) case None => None)
    case Scope => (match ReadStr(t.scope, v) case Some(s) => Some(t.(scope := s)) case None => None)
    case ClientID => (match ReadStr(t.clientID, v) case Some(s) => Some(t.(clientID := s)) case None => None)
    case Iss => (match ReadStr(t.iss, v) case Some(s) => Some(t.(iss := s)) case None => None)
    case Sub => (match ReadStr(t.sub, v) case Some(s) => Some(t.(sub := s)) case None => None)
    case Aud => (match ReadAudience(t.aud, v) case Some(a) => Some(t.(aud := a)) case None => None)
    case Exp => (match ReadDate(v) case Some(n) => Some(t.(exp := n)) case None => None)
    case Nbf => (match ReadDate(v) case Some(n) => Some(t.(nbf := n)) case None => None)
    case Iat => (match ReadDate(v) case Some(n) => Some(t.(iat := n)) case None => None)
    case Jti => (match ReadStr(t.jti, v) case Some(s) => Some(t.(jti := s)) case None => None)
    case Other(_) => Some(t)
  }

  /** The field encoding/json assigns a member to: the one of its name or, failing
      that, the one whose name it matches without regard to case, which fold finds. */
  function FieldOf(fold: string -> Name, name: Name): Name {
    match name case Other(text) => fold(text) case _ => name
  }

  function Decode(fold: string -> Name, members: seq<Member>, t: Typed): Option<Typed> {
    if members == [] then Some(t)
    else
      match Assign(t, FieldOf(fold, members[0].name), members[0].value)
      case None => None
      case Some(t') => Decode(fold, members[1..], t')
  }

  function Unknown(members: seq<Member>): map<Name, Json> {
    if members == [] then map[]
    else
      var m, rest := members[|members| - 1], Unknown(members[..|members| - 1]);
      if m.name.Other? then rest[m.name := m.value] else rest
  }

  function Unmarshal(fold: string -> Name, members: seq<Member>): Option<Claims> {
    match Decode(fold, members, ZERO)
    case None => None
    case Some(t) => Some(Claims(t, Unknown(members)))
  }

  method UnmarshalJSON(fold: string -> Name, members: seq<Member>) returns (c: Option<Claims>)
    ensures c == Unmarshal(fold, members)
  {
    var typed := Decode(fold, members, ZERO);
    if typed.None? {
      return None;
    }
    var extra := map[];
    for i := 0 to |members|
      invariant extra == Unknown(members[..i])
    {
      assert members[..i + 1][..i] == members[..i];
      if members[i].name.Other? {
        extra := extra[members[i].name := members[i].value];
      }
    }
    assert members[..|members|] == members;
    return Some(Claims(typed.value, extra));
  }

  // ----- the round trip

  /** The claims of t named in s, the others zero. */
  function Part(t: Typed, s: set<Name>): Typed {
    Typed(
      if Email in s then t.email else "",
      if EmailVerified in s then t.emailVerified else false,
      if FullName in s then t.name else "",
      if Groups in s then t.groups else None,
      if Scope in s then t.scope else "",
      if ClientID in s then t.clientID else "",
      if Iss in s then t.iss else "",
      if Sub in s then t.sub else "",
      if Aud in s then t.aud else [],
      if Exp in s then t.exp else None,
      if Nbf in s then t.nbf else None,
      if Iat in s then t.iat else None,
      if Jti in s then t.jti else ""
    )
  }

  lemma {:induction false} StringsOfStrs(s: seq<string>)
    ensures Strings(Strs(s)) == Some(s)
  {
    if s != [] {
      StringsOfStrs(s[1..]);
      assert Strs(s)[1..] == Strs(s[1..]);
      assert s == [s[0]] + s[1..];
    }
  }

  lemma AssignRestoresLists(t: Typed, s: set<Name>, name: Name)
    requires name == Aud || name == Groups
    requires TypedMember(t, name).Some?
    ensures Assign(Part(t, s), name, TypedMember(t, name).value) == Some(Part(t, s + {name}))
  {
    StringsOfStrs(if name == Aud then t.aud else t.groups.value);
  }

  lemma AssignRestoresStrings(t: Typed, s: set<Name>, name: Name)
    requires name.Email? || name.FullName? || name.Scope? || name.ClientID? || name.Iss? || name.Sub? || name.Jti?
    requires TypedMember(t, name).Some?
    ensures Assign(Part(t, s), name, TypedMember(t, name).value) == Some(Part(t, s + {name}))
  {
  }

  /** Reading a typed member gives its claim back and touches no other. */
  lemma AssignRestores(t: Typed, s: set<Name>, name: Name)
    requires !name.Other? && TypedMember(t, name).Some?
    ensures Assign(Part(t, s), name, TypedMember(t, name).value) == Some(Part(t, s + {name}))
  {
    if name == Aud || name == Groups {
      AssignRestoresLists(t, s, name);
    } else if !(name.Exp? || name.Nbf? || name.Iat? || name.EmailVerified?) {
      AssignRestoresStrings(t, s, name);
    }
  }

  function NamesOf(members: seq<Member>): set<Name> {
    set i | 0 <= i < |members| :: members[i].name
  }

  lemma {:induction false} DecodeRestores(fold: string -> Name, t: Typed, members: seq<Member>, s: set<Name>)
    requires forall i :: 0 <= i < |members| ==>
               var name := members[i].name;
               if name.Other? then FieldOf(fold, name).Other? else TypedMember(t, name) == Some(members[i].value)
    ensures Decode(fold, members, Part(t, s)) == Some(Part(t, s + NamesOf(members)))
  {
    if members == [] {
      assert s + NamesOf(members) == s;
    } else {
      var m, rest := members[0], members[1..];
      assert NamesOf(members) == {m.name} + NamesOf(rest) by {
        forall i | 0 <= i < |members|
          ensures members[i].name in {m.name} + NamesOf(rest)
        {
          assert i > 0 ==> rest[i - 1].name == members[i].name;
        }
        assert forall i :: 0 <= i < |rest| ==> rest[i].name == members[i + 1].name;
      }
      assert (s + {m.name}) + NamesOf(rest) == s + NamesOf(members);
      if !m.name.Other? {
        AssignRestores(t, s, m.name);
      } else {
        assert Part(t, s + {m.name}) == Part(t, s);
      }
      DecodeRestores(fold, t, rest, s + {m.name});
    }
  }

  lemma {:induction false} UnknownMembers(members: seq<Member>)
    requires Distinct(members)
    ensures forall name :: name in Unknown(members) <==> name.Other? && Names(members, name)
    ensures forall i :: 0 <= i < |members| && members[i].name.Other? ==>
              members[i].name in Unknown(members) && Unknown(members)[members[i].name] == members[i].value
  {
    if members != [] {
      var n := |members| - 1;
      var init := members[..n];
      UnknownMembers(init);
      forall name
        ensures name in Unknown(members) <==> name.Other? && Names(members, name)
      {
        if name in Unknown(init) {
          var i :| 0 <= i < |init| && init[i].name == name;
          assert members[i].name == name;
        }
      }
    }
  }

  // A claim that writes no member is zero, so it need not be in s.
  lemma PresentOrZero(t: Typed, s: set<Name>, name: Name)
    requires TypedMember(t, name).Some? ==> name in s
    ensures match name
            case Email => Part(t, s).email == t.email
            case EmailVerified => Part(t, s).emailVerified == t.emailVerified
            case FullName => Part(t, s).name == t.name
            case Groups => Part(t, s).groups == t.groups
            case Scope => Part(t, s).scope == t.scope
            case ClientID => Part(t, s).clientID == t.clientID
            case Iss => Part(t, s).iss == t.iss
            case Sub => Part(t, s).sub == t.sub
            case Aud => Part(t, s).aud == t.aud
            case Exp => Part(t, s).exp == t.exp
            case Nbf => Part(t, s).nbf == t.nbf
            case Iat => Part(t, s).iat == t.iat
            case Jti => Part(t, s).jti == t.jti
            case Other(_) => true
  {
  }

  lemma PartOfPresent(t: Typed, s: set<Name>)
    requires forall name: Name :: !name.Other? && TypedMember(t, name).Some? ==> name in s
    ensures Part(t, s) == t
  {
    PresentOrZero(t, s, Email);
    PresentOrZero(t, s, EmailVerified);
    PresentOrZero(t, s, FullName);
    PresentOrZero(t, s, Groups);
    PresentOrZero(t, s, Scope);
    PresentOrZero(t, s, ClientID);
    PresentOrZero(t, s, Iss);
    PresentOrZero(t, s, Sub);
    PresentOrZero(t, s, Aud);
    PresentOrZero(t, s, Exp);
    PresentOrZero(t, s, Nbf);
    PresentOrZero(t, s, Iat);
    PresentOrZero(t, s, Jti);
  }

  /** Whatever order the members are written in, reading them back restores every typed
      claim and exactly the same extra ones, when no extra name is a known one or
      matches one but for case. */
  lemma RoundTrip(fold: string -> Name, c: Claims, out: seq<Member>)
    requires Encodes(out, c)
    requires forall name :: name in c.extra ==> name.Other? && FieldOf(fold, name).Other?
    ensures Unmarshal(fold, out) == Some(c)
  {
    assert Part(c.typed, {}) == ZERO;
    DecodeRestores(fold, c.typed, out, {});
    forall name: Name | !name.Other? && TypedMember(c.typed, name).Some?
      ensures name in {} + NamesOf(out)
    {
      assert Written(c, name).Some?;
      var i :| 0 <= i < |out| && out[i].name == name;
    }
    PartOfPresent(c.typed, {} + NamesOf(out));
    UnknownMembers(out);
    ExtraRestored(c, out);
  }

  lemma ExtraMember(c: Claims, out: seq<Member>, name: Name)
    requires Encodes(out, c)
    requires forall n :: n in c.extra ==> n.Other?
    ensures name in Unknown(out) <==> name in c.extra
    ensures name in c.extra ==> Unknown(out)[name] == c.extra[name]
  {
    UnknownMembers(out);
    if name in c.extra {
      assert Written(c, name) == Some(c.extra[name]);
      var i :| 0 <= i < |out| && out[i].name == name;
      assert Unknown(out)[out[i].name] == out[i].value;
    }
  }

  lemma ExtraRestored(c: Claims, out: seq<Member>)
    requires Encodes(out, c)
    requires forall name :: name in c.extra ==> name.Other?
    ensures Unknown(out) == c.extra
  {
    forall name
      ensures name in Unknown(out) <==> name in c.extra
      ensures name in c.extra ==> Unknown(out)[name] == c.extra[name]
    {
      ExtraMember(c, out, name);
    }
  }

  /** A typed claim that is present wins over an extra one of the same name, and no
      known name is read back as extra. */
  lemma TypedWins(fold: string -> Name, c: Claims, out: seq<Member>, name: Name)
    requires Encodes(out, c) && !name.Other?
    ensures TypedMember(c.typed, name).Some? ==> Member(name, TypedMember(c.typed, name).value) in out
    ensures TypedMember(c.typed, name).None? && name in c.extra ==> Member(name, c.extra[name]) in out
    ensures Unmarshal(fold, out).Some? ==> name !in Unmarshal(fold, out).value.extra
  {
    UnknownMembers(out);
    if Written(c, name).Some? {
      var i :| 0 <= i < |out| && out[i].name == name;
      assert out[i] == Member(name, Written(c, name).value);
    }
  }

  // ----- exactly which extra names are safe

  predicate Marked(t: Typed) {
    t.email == "x" || t.name == "x" || t.scope == "x" || t.clientID == "x" || t.iss == "x" || t.sub == "x"
    || t.aud == ["x"] || t.jti == "x"
  }

  lemma MarkStep(t: Typed, name: Name)
    requires Marked(t) || !name.Other?
    ensures Assign(t, name, Str("x")).Some? ==> Marked(Assign(t, name, Str("x")).value)
  {
  }

  lemma {:induction false} MarksStay(fold: string -> Name, members: seq<Member>, t: Typed)
    requires forall i :: 0 <= i < |members| ==> members[i].value == Str("x")
    requires Marked(t) || exists i :: 0 <= i < |members| && !FieldOf(fold, members[i].name).Other?
    ensures Decode(fold, members, t).Some? ==> Marked(Decode(fold, members, t).value)
  {
    if members != [] {
      var name := FieldOf(fold, members[0].name);
      var step, rest := Assign(t, name, Str("x")), members[1..];
      if step.Some? {
        if Marked(t) || !name.Other? {
          MarkStep(t, name);
        } else {
          var i :| 0 <= i < |members| && !FieldOf(fold, members[i].name).Other?;
          assert rest[i - 1] == members[i];
        }
        MarksStay(fold, rest, step.value);
      }
    }
  }

  lemma {:induction false} ListingExists(m: map<Name, Json>) returns (out: seq<Member>)
    ensures Lists(out, m)
    decreases |m|
  {
    if m == map[] {
      out := [];
    } else {
      var name :| name in m;
      var rest := m - {name};
      assert m.Keys == rest.Keys + {name};
      out := ListingExists(rest);
      AppendLists(out, rest, name, m[name]);
      out := out + [Member(name, m[name])];
      assert rest[name := m[name]] == m;
    }
  }

  ghost predicate AlwaysRestored(fold: string -> Name, names: set<Name>) {
    forall c: Claims, out: seq<Member> ::
      c.extra.Keys == names && Encodes(out, c) ==> Unmarshal(fold, out) == Some(c)
  }

  // Claims with no typed claim, and "x" under each of the names.
  lemma UnsafeName(fold: string -> Name, names: set<Name>, bad: Name) returns (c: Claims, out: seq<Member>)
    requires forall name :: name in names ==> name.Other?
    requires bad in names && !FieldOf(fold, bad).Other?
    ensures c.extra.Keys == names && Encodes(out, c) && Unmarshal(fold, out) != Some(c)
  {
    c := Claims(ZERO, map name | name in names :: Str("x"));
    out := ListingExists(c.extra);
    assert forall name :: Written(c, name) == if name in names then Some(Str("x")) else None;
    assert Names(out, bad);
    MarksStay(fold, out, ZERO);
  }

  /** Avoiding the known names is not enough, because members are matched to fields
      without regard to case. Given names for the extra claims, the round trip is the
      identity for all claims exactly when none of them matches a known name that way. */
  lemma SafeExtraNames(fold: string -> Name, names: set<Name>)
    requires forall name :: name in names ==> name.Other?
    ensures AlwaysRestored(fold, names) <==> forall name :: name in names ==> FieldOf(fold, name).Other?
  {
    if bad :| bad in names && !FieldOf(fold, bad).Other? {
      var c, out := UnsafeName(fold, names, bad);
    } else {
      forall c: Claims, out: seq<Member> | c.extra.Keys == names && Encodes(out, c)
        ensures Unmarshal(fold, out) == Some(c)
      {
        RoundTrip(fold, c, out);
      }
    }
  }

  /** Such a case: an extra "Scope" fills in a scope claim the token does not have. */
  lemma CaseVariantLeaksIn(fold: string -> Name, v: string)
    requires fold("Scope") == Scope
    ensures var c := Claims(ZERO, map[Other("Scope") := Str(v)]);
            && Encodes([Member(Other("Scope"), Str(v))], c)
            && Unmarshal(fold, [Member(Other("Scope"), Str(v))]) == Some(c.(typed := ZERO.(scope := v)))
  {
    var c, m := Claims(ZERO, map[Other("Scope") := Str(v)]), Member(Other("Scope"), Str(v));
    assert [m][0].name == Other("Scope");
    assert [m][..0] == [] && [m][1..] == [];
    assert Decode(fold, [], ZERO.(scope := v)) == Some(ZERO.(scope := v));
    assert Unknown([]) == map[];
  }
}
