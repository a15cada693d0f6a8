/** Exchange, refresh and revocation requests interleaved at repository-call
    granularity: each call is one atomic step, and between two calls of one request
    any other request, purge or sign-out may run. */
module RefreshFamilies {
  import opened Wrappers
  import opened GrantStore

  /** Where a refresh token came from: a code, or the refresh token made earlier. */
  datatype Origin = FromCode(code: string) | FromToken(parent: nat)

  datatype Made = Made(id: string, origin: Origin)

  /** What a token response was given for. */
  datatype Source = OfCode(code: string) | OfToken(id: string)

  datatype Answer = Issued(source: Source, refreshID: Option<string>) | Refused

  /** A request, by the repository call it makes next. */
  datatype Request =
    | GetCode(code: string)
    | ConsumeCode(code: string, row: AuthCode)   // read unused, its checks passed
    | IssueForCode(code: string, row: AuthCode)  // won the code
    | GetToken(id: string)
    | RotateToken(id: string, token: Token)        // read valid, its checks passed
    | IssueForToken(id: string, token: Token)      // won the rotation
    | ListGrant(userID: string, clientID: string)
    | CutGrant(userID: string, clientID: string, left: seq<string>)
    | RevokeToken(id: string)
    | Answered(answer: Answer)

  predicate IsFirst(q: Request) {
    q.GetCode? || q.GetToken? || q.RevokeToken?
  }

  /** made: every refresh token ever created, in order, and index its position by
      ID; winner: which request consumed a code or refresh token. */
  datatype Machine = Machine(
    codes: Codes,
    tokens: Tokens,
    requests: map<nat, Request>,
    codesEver: set<string>,
    made: seq<Made>,
    index: map<string, nat>,
    winner: map<Source, nat>
  )

  const START := Machine(map[], map[], map[], {}, [], map[], map[])

  /** pass: whether the request's own checks (client, expiry, redirect_uri, PKCE,
      user, scope) let it go on. refreshID: the fresh ID, when a refresh token is due.
      listed: the IDs the grant listing shows (see Lists). */
  datatype Choice = Choice(pass: bool, refreshID: Option<string>, expiresAt: int, listed: seq<string>)

  datatype Action =
    | Arrive(r: nat, request: Request)
    | Call(r: nat, choice: Choice)
    | NewCode(code: string, row: AuthCode)
    | Remove(codes: set<string>, ids: set<string>) // purge, or a cascading delete
    | SignOutUser(userID: string)
    | SignOutClient(clientID: string)

  function Answering(m: Machine, r: nat, a: Answer): Machine {
    m.(requests := m.requests[r := Answered(a)])
  }

  function Going(m: Machine, r: nat, q: Request): Machine {
    m.(requests := m.requests[r := q])
  }

  function OriginOf(m: Machine, source: Source): Origin {
    match source
    case OfCode(code) => FromCode(code)
    case OfToken(id) => FromToken(if id in m.index then m.index[id] else 0)
  }

  /** generateTokens: at most one refresh token per response. */
  function Issue(m: Machine, r: nat, source: Source, userID: string, clientID: string, scope: string, c: Choice): Machine {
    match c.refreshID
    case None => Answering(m, r, Issued(source, None))
    case Some(id) =>
      Answering(m, r, Issued(source, Some(id)))
      .(tokens := m.tokens[id := Token(userID, clientID, scope, c.expiresAt, false)],
        made := m.made + [Made(id, OriginOf(m, source))],
        index := m.index[id := |m.made|])
  }

  /** The next repository call of request r. */
  function CallStep(m: Machine, r: nat, c: Choice): Machine
    requires r in m.requests
  {
    match m.requests[r]
    case GetCode(code) =>
      if code !in m.codes || !c.pass then Answering(m, r, Refused)
      else
        var row := m.codes[code];
        if row.used then Going(m, r, ListGrant(row.userID, row.clientID)) else Going(m, r, ConsumeCode(code, row))
    case ConsumeCode(code, row) =>
      (match MarkUsed(m.codes, code)
       case (_, Conflict) => Going(m, r, ListGrant(row.userID, row.clientID))
       case (_, NotFound) => Answering(m, r, Refused)
       case (codes, Consumed) =>
         Going(m, r, IssueForCode(code, row)).(codes := codes, winner := m.winner[OfCode(code) := r]))
    case IssueForCode(code, row) =>
      if !c.pass then Answering(m, r, Refused)
      else Issue(m, r, OfCode(code), row.userID, row.clientID, row.scope, c)
    case GetToken(id) =>
      if id !in m.tokens || !c.pass then Answering(m, r, Refused)
      else
        var row := m.tokens[id];
        if row.revoked then Going(m, r, ListGrant(row.userID, row.clientID)) else Going(m, r, RotateToken(id, row))
    case RotateToken(id, row) =>
      (match Rotate(m.tokens, id)
       case (_, Conflict) => Going(m, r, ListGrant(row.userID, row.clientID))
       case (_, NotFound) => Answering(m, r, Refused)
       case (tokens, Consumed) =>
         Going(m, r, IssueForToken(id, row)).(tokens := tokens, winner := m.winner[OfToken(id) := r]))
    case IssueForToken(id, row) =>
      if !c.pass then Answering(m, r, Refused)
      else Issue(m, r, OfToken(id), row.userID, row.clientID, row.scope, c)
    case ListGrant(userID, clientID) => Going(m, r, CutGrant(userID, clientID, c.listed))
    case CutGrant(userID, clientID, left) =>
      if left == [] then Answering(m, r, Refused)
      else Going(m, r, CutGrant(userID, clientID, left[1..])).(tokens := RevokeOne(m.tokens, left[0]))
    case RevokeToken(id) => Answering(m, r, Refused).(tokens := RevokeOne(m.tokens, id))
    case Answered(_) => m
  }

  function Act(m: Machine, a: Action): Machine {
    match a
    case Arrive(r, q) => m.(requests := m.requests[r := q])
    case Call(r, c) => if r in m.requests then CallStep(m, r, c) else m
    case NewCode(code, row) => m.(codes := m.codes[code := row], codesEver := m.codesEver + {code})
    case Remove(codes, ids) => m.(codes := m.codes - codes, tokens := m.tokens - ids)
    case SignOutUser(userID) => m.(tokens := RevokeUserTokens(m.tokens, userID))
    case SignOutClient(clientID) => m.(tokens := RevokeClientTokens(m.tokens, clientID))
  }

  ghost predicate Legal(m: Machine, a: Action) {
    match a
    case Arrive(r, q) => r !in m.requests && IsFirst(q)
    case Call(_, c) => c.refreshID.Some? ==> c.refreshID.value !in m.index
    case NewCode(code, row) => code !in m.codesEver && !row.used
    case _ => true
  }

  function Run(actions: seq<Action>): Machine {
    if actions == [] then START else Act(Run(actions[..|actions| - 1]), actions[|actions| - 1])
  }

  ghost predicate LegalRun(actions: seq<Action>) {
    actions == [] ||
    (LegalRun(actions[..|actions| - 1]) && Legal(Run(actions[..|actions| - 1]), actions[|actions| - 1]))
  }

  // ----- the invariant

  /** What the request has won, whether or not it has answered yet. */
  function WonBy(q: Request): Option<Source> {
    match q
    case IssueForCode(code, _) => Some(OfCode(code))
    case IssueForToken(id, _) => Some(OfToken(id))
    case Answered(Issued(source, _)) => Some(source)
    case _ => None
  }

  /** Nobody can win this source again. */
  predicate Spent(m: Machine, source: Source) {
    match source
    case OfCode(code) => code in m.codesEver && (code in m.codes ==> m.codes[code].used)
    case OfToken(id) => id in m.index && (id in m.tokens ==> m.tokens[id].revoked)
  }

  ghost predicate WinnersInv(m: Machine) {
    && (forall s :: s in m.winner ==> Spent(m, s))
    && (forall c :: c in m.codes && m.codes[c].used ==> OfCode(c) in m.winner)
    && (forall r :: r in m.requests && WonBy(m.requests[r]).Some? ==> Winner(m, r, WonBy(m.requests[r]).value))
    && m.codes.Keys <= m.codesEver
    && m.tokens.Keys <= m.index.Keys
  }

  predicate Winner(m: Machine, r: nat, source: Source) {
    source in m.winner && m.winner[source] == r
  }

  ghost predicate IndexInv(m: Machine) {
    && (forall id :: id in m.index ==> m.index[id] < |m.made| && m.made[m.index[id]].id == id)
    && (forall k :: 0 <= k < |m.made| ==> m.made[k].id in m.index && m.index[m.made[k].id] == k)
  }

  /** Token k was issued in the one response to its origin. */
  ghost predicate MadeByWinner(m: Machine, k: nat)
    requires k < |m.made|
  {
    match m.made[k].origin
    case FromCode(code) => AnsweredOnce(m, OfCode(code), m.made[k].id)
    case FromToken(p) => p < k && AnsweredOnce(m, OfToken(m.made[p].id), m.made[k].id)
  }

  ghost predicate AnsweredOnce(m: Machine, source: Source, id: string) {
    && source in m.winner
    && m.winner[source] in m.requests
    && m.requests[m.winner[source]] == Answered(Issued(source, Some(id)))
  }

  ghost predicate MadeInv(m: Machine) {
    forall k :: 0 <= k < |m.made| ==> MadeByWinner(m, k)
  }

  ghost predicate Inv(m: Machine) {
    WinnersInv(m) && IndexInv(m) && MadeInv(m)
  }

  /** What was answered stays answered. */
  ghost predicate AnswersKept(m: Machine, m': Machine) {
    && (forall s :: s in m.winner ==> s in m'.winner && m'.winner[s] == m.winner[s])
    && (forall r :: r in m.requests && m.requests[r].Answered? ==> r in m'.requests && m'.requests[r] == m.requests[r])
  }

  lemma MadeKept(m: Machine, m': Machine, k: nat)
    requires k < |m.made| <= |m'.made| && m.made == m'.made[..|m.made|]
    requires MadeByWinner(m, k) && AnswersKept(m, m')
    ensures MadeByWinner(m', k)
  {
    assert m'.made[k] == m.made[k];
    if m.made[k].origin.FromToken? {
      assert m'.made[m.made[k].origin.parent] == m.made[m.made[k].origin.parent];
    }
  }

  /** A change that consumes and issues nothing: rows vanish or become revoked, codes
      appear, and request r moves to a state in which it has won nothing. */
  ghost predicate Idle(m: Machine, m': Machine, r: nat) {
    && m'.made == m.made && m'.index == m.index && m'.winner == m.winner
    && m.codesEver <= m'.codesEver && m'.codes.Keys <= m'.codesEver
    && (forall c :: c in m'.codes && c in m.codesEver ==> c in m.codes && m'.codes[c] == m.codes[c])
    && (forall c :: c in m'.codes && c !in m.codesEver ==> !m'.codes[c].used)
    && (forall id :: id in m'.tokens ==> id in m.tokens && (m.tokens[id].revoked ==> m'.tokens[id].revoked))
    && (forall q :: q in m'.requests ==> (q in m.requests && m'.requests[q] == m.requests[q]) || (q == r && WonBy(m'.requests[q]).None?))
    && (forall q :: q in m.requests && m.requests[q].Answered? ==> q in m'.requests && m'.requests[q] == m.requests[q])
  }

  lemma IdleKeeps(m: Machine, m': Machine, r: nat)
    requires Inv(m) && Idle(m, m', r)
    ensures Inv(m')
  {
    forall s | s in m'.winner
      ensures Spent(m', s)
    {
      assert Spent(m, s);
    }
    forall q | q in m'.requests && WonBy(m'.requests[q]).Some?
      ensures Winner(m', q, WonBy(m'.requests[q]).value)
    {
      assert Winner(m, q, WonBy(m.requests[q]).value);
    }
    forall k | 0 <= k < |m'.made|
      ensures MadeByWinner(m', k)
    {
      assert m.made == m'.made[..|m.made|];
      MadeKept(m, m', k);
    }
  }

  /** Request r, which has won nothing, consumes source. */
  ghost predicate Wins(m: Machine, m': Machine, r: nat, source: Source) {
    && m'.made == m.made && m'.index == m.index && m'.winner == m.winner[source := r]
    && m'.codesEver == m.codesEver && m'.codes.Keys == m.codes.Keys && m'.tokens.Keys == m.tokens.Keys
    && (forall s :: Spent(m, s) ==> Spent(m', s))
    && !Spent(m, source) && Spent(m', source)
    && (forall c :: c in m'.codes && m'.codes[c].used ==> (c in m.codes && m.codes[c].used) || OfCode(c) == source)
    && r in m.requests && !m.requests[r].Answered?
    && m'.requests.Keys == m.requests.Keys
    && (forall q :: q in m.requests && q != r ==> m'.requests[q] == m.requests[q])
    && WonBy(m'.requests[r]) == Some(source)
  }

  lemma WinningKeeps(m: Machine, m': Machine, r: nat, source: Source)
    requires Inv(m) && Wins(m, m', r, source)
    ensures Inv(m')
  {
    assert source !in m.winner;
    forall q | q in m'.requests && WonBy(m'.requests[q]).Some?
      ensures Winner(m', q, WonBy(m'.requests[q]).value)
    {
      if q != r {
        assert Winner(m, q, WonBy(m.requests[q]).value);
      }
    }
    forall k | 0 <= k < |m'.made|
      ensures MadeByWinner(m', k)
    {
      assert m.made == m'.made[..|m.made|];
      MadeKept(m, m', k);
    }
  }

  /** Request r goes on without having won anything; rows may become revoked. */
  lemma GoingKeeps(m: Machine, r: nat, q: Request, tokens': Tokens)
    requires Inv(m) && r in m.requests && !m.requests[r].Answered? && WonBy(q).None?
    requires forall id :: id in tokens' ==> id in m.tokens && (m.tokens[id].revoked ==> tokens'[id].revoked)
    ensures Inv(m.(requests := m.requests[r := q], tokens := tokens'))
  {
    IdleKeeps(m, m.(requests := m.requests[r := q], tokens := tokens'), r);
  }

  lemma ConsumeCodeKeeps(m: Machine, r: nat, c: Choice)
    requires Inv(m) && r in m.requests && m.requests[r].ConsumeCode?
    ensures Inv(CallStep(m, r, c))
  {
    var ConsumeCode(code, row) := m.requests[r];
    if code in m.codes && !m.codes[code].used {
      WinCodeKeeps(m, r, code, row);
    } else {
      var q := CallStep(m, r, c).requests[r];
      GoingKeeps(m, r, q, m.tokens);
      assert CallStep(m, r, c) == m.(requests := m.requests[r := q], tokens := m.tokens);
    }
  }

  lemma WinCodeKeeps(m: Machine, r: nat, code: string, row: AuthCode)
    requires Inv(m) && r in m.requests && m.requests[r].ConsumeCode?
    requires code in m.codes && !m.codes[code].used
    ensures Inv(m.(requests := m.requests[r := IssueForCode(code, row)],
                   codes := m.codes[code := m.codes[code].(used := true)],
                   winner := m.winner[OfCode(code) := r]))
  {
    var m' := m.(requests := m.requests[r := IssueForCode(code, row)],
                 codes := m.codes[code := m.codes[code].(used := true)],
                 winner := m.winner[OfCode(code) := r]);
    WinningKeeps(m, m', r, OfCode(code));
  }

  lemma RotateTokenKeeps(m: Machine, r: nat, c: Choice)
    requires Inv(m) && r in m.requests && m.requests[r].RotateToken?
    ensures Inv(CallStep(m, r, c))
  {
    var RotateToken(id, row) := m.requests[r];
    if id in m.tokens && !m.tokens[id].revoked {
      WinTokenKeeps(m, r, id, row);
    } else {
      var q := CallStep(m, r, c).requests[r];
      GoingKeeps(m, r, q, m.tokens);
      assert CallStep(m, r, c) == m.(requests := m.requests[r := q], tokens := m.tokens);
    }
  }

  lemma WinTokenKeeps(m: Machine, r: nat, id: string, row: Token)
    requires Inv(m) && r in m.requests && m.requests[r].RotateToken?
    requires id in m.tokens && !m.tokens[id].revoked
    ensures Inv(m.(requests := m.requests[r := IssueForToken(id, row)],
                   tokens := m.tokens[id := m.tokens[id].(revoked := true)],
                   winner := m.winner[OfToken(id) := r]))
  {
    var m' := m.(requests := m.requests[r := IssueForToken(id, row)],
                 tokens := m.tokens[id := m.tokens[id].(revoked := true)],
                 winner := m.winner[OfToken(id) := r]);
    WinningKeeps(m, m', r, OfToken(id));
  }

  /** Request r, which has won source, answers; a refresh token may be added. */
  ghost predicate Adds(m: Machine, m': Machine, r: nat, source: Source, id: Option<string>) {
    && m'.codes == m.codes && m'.codesEver == m.codesEver && m'.winner == m.winner
    && m'.requests == m.requests[r := Answered(Issued(source, id))]
    && (id.None? ==> m'.made == m.made && m'.index == m.index && m'.tokens == m.tokens)
    && (id.Some? ==>
          && id.value !in m.index
          && m'.made == m.made + [Made(id.value, OriginOf(m, source))]
          && m'.index == m.index[id.value := |m.made|]
          && m'.tokens.Keys == m.tokens.Keys + {id.value}
          && forall t :: t in m.tokens && t != id.value ==> m'.tokens[t] == m.tokens[t])
  }

  lemma AddingKeepsWinners(m: Machine, m': Machine, r: nat, source: Source, id: Option<string>)
    requires Inv(m) && Adds(m, m', r, source, id) && Winner(m, r, source)
    ensures WinnersInv(m')
  {
    forall s | s in m'.winner
      ensures Spent(m', s)
    {
      assert Spent(m, s);
    }
    forall q | q in m'.requests && WonBy(m'.requests[q]).Some?
      ensures Winner(m', q, WonBy(m'.requests[q]).value)
    {
      if q != r {
        assert m'.requests[q] == m.requests[q];
        assert Winner(m, q, WonBy(m.requests[q]).value);
      }
    }
  }

  lemma AddingKeepsMade(m: Machine, m': Machine, r: nat, source: Source, id: Option<string>)
    requires Inv(m) && Adds(m, m', r, source, id) && Winner(m, r, source)
    requires r in m.requests && !m.requests[r].Answered?
    ensures IndexInv(m') && MadeInv(m')
  {
    assert Spent(m, source);
    assert AnswersKept(m, m');
    assert m.made == m'.made[..|m.made|];
    forall k | 0 <= k < |m'.made|
      ensures MadeByWinner(m', k)
    {
      if k < |m.made| {
        MadeKept(m, m', k);
      } else {
        assert m'.made[k] == Made(id.value, OriginOf(m, source));
        if source.OfToken? {
          assert m'.made[m.index[source.id]] == m.made[m.index[source.id]];
        }
      }
    }
  }

  lemma IssueKeeps(m: Machine, r: nat, source: Source, userID: string, clientID: string, scope: string, c: Choice)
    requires Inv(m) && r in m.requests && WonBy(m.requests[r]) == Some(source) && !m.requests[r].Answered?
    requires c.refreshID.Some? ==> c.refreshID.value !in m.index
    ensures Inv(Issue(m, r, source, userID, clientID, scope, c))
  {
    var m' := Issue(m, r, source, userID, clientID, scope, c);
    assert Winner(m, r, source);
    AddingKeepsWinners(m, m', r, source, c.refreshID);
    AddingKeepsMade(m, m', r, source, c.refreshID);
  }

  lemma ReadingKeeps(m: Machine, r: nat, c: Choice)
    requires Inv(m) && r in m.requests && (m.requests[r].GetCode? || m.requests[r].GetToken?)
    ensures Inv(CallStep(m, r, c))
  {
    var q := CallStep(m, r, c).requests[r];
    assert WonBy(q).None?;
    GoingKeeps(m, r, q, m.tokens);
    assert CallStep(m, r, c) == m.(requests := m.requests[r := q], tokens := m.tokens);
  }

  lemma CuttingKeeps(m: Machine, r: nat, c: Choice)
    requires Inv(m) && r in m.requests
    requires m.requests[r].ListGrant? || m.requests[r].CutGrant? || m.requests[r].RevokeToken?
    ensures Inv(CallStep(m, r, c))
  {
    var q, tokens' := CallStep(m, r, c).requests[r], CallStep(m, r, c).tokens;
    assert WonBy(q).None?;
    GoingKeeps(m, r, q, tokens');
    assert CallStep(m, r, c) == m.(requests := m.requests[r := q], tokens := tokens');
  }

  lemma RefusingKeeps(m: Machine, r: nat)
    requires Inv(m) && r in m.requests && !m.requests[r].Answered?
    ensures Inv(Answering(m, r, Refused))
  {
    GoingKeeps(m, r, Answered(Refused), m.tokens);
  }

  lemma CallKeeps(m: Machine, r: nat, c: Choice)
    requires Inv(m) && r in m.requests
    requires c.refreshID.Some? ==> c.refreshID.value !in m.index
    ensures Inv(CallStep(m, r, c))
  {
    match m.requests[r] {
      case GetCode(_) => ReadingKeeps(m, r, c);
      case GetToken(_) => ReadingKeeps(m, r, c);
      case ConsumeCode(_, _) => ConsumeCodeKeeps(m, r, c);
      case RotateToken(_, _) => RotateTokenKeeps(m, r, c);
      case IssueForCode(code, row) =>
        RefusingKeeps(m, r);
        IssueKeeps(m, r, OfCode(code), row.userID, row.clientID, row.scope, c);
      case IssueForToken(id, row) =>
        RefusingKeeps(m, r);
        IssueKeeps(m, r, OfToken(id), row.userID, row.clientID, row.scope, c);
      case ListGrant(_, _) => CuttingKeeps(m, r, c);
      case CutGrant(_, _, _) => CuttingKeeps(m, r, c);
      case RevokeToken(_) => CuttingKeeps(m, r, c);
      case Answered(_) =>
    }
  }

  lemma ActKeeps(m: Machine, a: Action)
    requires Inv(m) && Legal(m, a)
    ensures Inv(Act(m, a))
  {
    match a {
      case Arrive(r, _) => IdleKeeps(m, Act(m, a), r);
      case Call(r, c) =>
        if r in m.requests {
          CallKeeps(m, r, c);
        }
      case NewCode(_, _) => IdleKeeps(m, Act(m, a), 0);
      case Remove(_, _) => IdleKeeps(m, Act(m, a), 0);
      case SignOutUser(_) => IdleKeeps(m, Act(m, a), 0);
      case SignOutClient(_) => IdleKeeps(m, Act(m, a), 0);
    }
  }

  lemma {:induction false} RunKeeps(actions: seq<Action>)
    requires LegalRun(actions)
    ensures Inv(Run(actions))
  {
    if actions != [] {
      RunKeeps(actions[..|actions| - 1]);
      ActKeeps(Run(actions[..|actions| - 1]), actions[|actions| - 1]);
    }
  }

  // ----- single use

  predicate Answers(m: Machine, r: nat, source: Source) {
    r in m.requests && m.requests[r].Answered? && m.requests[r].answer.Issued? && m.requests[r].answer.source == source
  }

  /** In every interleaving a code yields at most one token response, and so does
      each refresh token. */
  lemma OneResponseEach(actions: seq<Action>, r1: nat, r2: nat, source: Source)
    requires LegalRun(actions)
    requires Answers(Run(actions), r1, source) && Answers(Run(actions), r2, source)
    ensures r1 == r2
  {
    RunKeeps(actions);
    var m := Run(actions);
    assert Winner(m, r1, source) && Winner(m, r2, source);
  }

  /** A request about to consume a code that it read as row: it wins exactly when the
      row is still there and no request has won it; if one has, it is the reuse, and
      goes on to cut off the grant. */
  lemma ConsumingOutcome(actions: seq<Action>, r: nat, c: Choice)
    requires LegalRun(actions)
    requires r in Run(actions).requests && Run(actions).requests[r].ConsumeCode?
    ensures var m := Run(actions);
            var ConsumeCode(code, row) := m.requests[r];
            CallStep(m, r, c).requests[r] ==
              if code !in m.codes then Answered(Refused)
              else if OfCode(code) in m.winner then ListGrant(row.userID, row.clientID)
              else IssueForCode(code, row)
  {
    RunKeeps(actions);
    var m := Run(actions);
    var code := m.requests[r].code;
    if OfCode(code) in m.winner {
      assert Spent(m, OfCode(code));
    }
  }

  /** The same for a refresh token that another request has already rotated. */
  lemma RotatingAfterWinner(actions: seq<Action>, r: nat, c: Choice)
    requires LegalRun(actions)
    requires r in Run(actions).requests && Run(actions).requests[r].RotateToken?
    requires OfToken(Run(actions).requests[r].id) in Run(actions).winner
    ensures var m := Run(actions);
            var RotateToken(id, row) := m.requests[r];
            CallStep(m, r, c).requests[r] ==
              if id in m.tokens then ListGrant(row.userID, row.clientID) else Answered(Refused)
  {
    RunKeeps(actions);
    assert Spent(Run(actions), OfToken(Run(actions).requests[r].id));
  }

  // ----- cut-off under interleaving

  /** What the listing of a grant at now comes to: the rows of the pair that expire after
      now. */
  ghost predicate Lists(m: Machine, userID: string, clientID: string, now: int, listed: seq<string>) {
    forall id :: id in listed <==> id in m.tokens && InGrant(m.tokens[id], userID, clientID, now)
  }

  /** Request r is cutting off a grant and has id still to do, or id is done. */
  ghost predicate Cutting(m: Machine, r: nat, id: string) {
    && r in m.requests && id in m.index
    && match m.requests[r]
       case CutGrant(_, _, left) => id in left || Spent(m, OfToken(id))
       case Answered(_) => Spent(m, OfToken(id))
       case _ => false
  }

  /** m' is a later state: refresh tokens seen before are kept as they were, revoked or
      gone, and no request but r has moved. */
  ghost predicate Ages(m: Machine, m': Machine, r: nat) {
    && m.index.Keys <= m'.index.Keys
    && TokensAge(m.tokens, m'.tokens, m.index.Keys)
    && (forall q :: q in m.requests && q != r ==> q in m'.requests && m'.requests[q] == m.requests[q])
  }

  lemma IssueAges(m: Machine, r: nat, source: Source, userID: string, clientID: string, scope: string, c: Choice)
    requires c.refreshID.Some? ==> c.refreshID.value !in m.index
    ensures Ages(m, Issue(m, r, source, userID, clientID, scope, c), r)
  {
  }

  lemma RotateAges(m: Machine, r: nat, c: Choice)
    requires r in m.requests && m.requests[r].RotateToken?
    ensures Ages(m, CallStep(m, r, c), r)
  {
  }

  lemma CutAges(m: Machine, r: nat, c: Choice)
    requires r in m.requests && (m.requests[r].ListGrant? || m.requests[r].CutGrant? || m.requests[r].RevokeToken?)
    ensures Ages(m, CallStep(m, r, c), r)
  {
  }

  lemma RowsUntouched(m: Machine, r: nat, c: Choice)
    requires r in m.requests
    requires var q := m.requests[r]; q.GetCode? || q.GetToken? || q.ConsumeCode? || q.Answered?
    ensures Ages(m, CallStep(m, r, c), r)
  {
    var m' := CallStep(m, r, c);
    assert m'.tokens == m.tokens && m'.index == m.index;
    assert forall q :: q in m.requests && q != r ==> q in m'.requests && m'.requests[q] == m.requests[q];
  }

  lemma CallAges(m: Machine, r: nat, c: Choice)
    requires r in m.requests
    requires c.refreshID.Some? ==> c.refreshID.value !in m.index
    ensures Ages(m, CallStep(m, r, c), r)
  {
    match m.requests[r] {
      case IssueForCode(code, row) =>
        IssueAges(m, r, OfCode(code), row.userID, row.clientID, row.scope, c);
        assert Ages(m, Answering(m, r, Refused), r);
      case IssueForToken(id, row) =>
        IssueAges(m, r, OfToken(id), row.userID, row.clientID, row.scope, c);
        assert Ages(m, Answering(m, r, Refused), r);
      case RotateToken(_, _) => RotateAges(m, r, c);
      case ListGrant(_, _) => CutAges(m, r, c);
      case CutGrant(_, _, _) => CutAges(m, r, c);
      case RevokeToken(_) => CutAges(m, r, c);
      case _ => RowsUntouched(m, r, c);
    }
  }

  lemma RowsAge(m: Machine, a: Action)
    requires Legal(m, a)
    ensures m.index.Keys <= Act(m, a).index.Keys && TokensAge(m.tokens, Act(m, a).tokens, m.index.Keys)
  {
    if a.Call? && a.r in m.requests {
      CallAges(m, a.r, a.choice);
    }
  }

  lemma OthersWait(m: Machine, a: Action, r: nat)
    requires Legal(m, a) && r in m.requests && !(a.Call? && a.r == r)
    ensures r in Act(m, a).requests && Act(m, a).requests[r] == m.requests[r]
  {
    if a.Call? && a.r in m.requests {
      CallAges(m, a.r, a.choice);
    }
  }

  lemma {:induction false} RunAges(actions: seq<Action>, n: nat)
    requires LegalRun(actions) && n <= |actions|
    ensures var m, before := Run(actions), Run(actions[..n]);
            before.index.Keys <= m.index.Keys && TokensAge(before.tokens, m.tokens, before.index.Keys)
  {
    if n == |actions| {
      assert actions[..n] == actions;
    } else {
      var init := actions[..|actions| - 1];
      assert init[..n] == actions[..n];
      RunAges(init, n);
      RowsAge(Run(init), actions[|actions| - 1]);
    }
  }

  lemma CutCall(m: Machine, r: nat, c: Choice, id: string)
    requires Cutting(m, r, id)
    ensures Cutting(CallStep(m, r, c), r, id)
  {
  }

  lemma CuttingGoesOn(m: Machine, a: Action, r: nat, id: string)
    requires Legal(m, a) && Cutting(m, r, id)
    ensures Cutting(Act(m, a), r, id)
  {
    if a.Call? && a.r == r {
      CutCall(m, r, a.choice, id);
    } else {
      RowsAge(m, a);
      OthersWait(m, a, r);
    }
  }

  /** The action at n is request r listing the grant of the pair at now. */
  ghost predicate ListsAt(actions: seq<Action>, n: nat, r: nat, userID: string, clientID: string, now: int) {
    && n < |actions| && actions[n].Call? && actions[n].r == r
    && var m := Run(actions[..n]);
       && r in m.requests && m.requests[r] == ListGrant(userID, clientID)
       && Lists(m, userID, clientID, now, actions[n].choice.listed)
  }

  lemma {:induction false} CutsWhatItListed(actions: seq<Action>, n: nat, r: nat, userID: string, clientID: string, now: int, id: string)
    requires LegalRun(actions) && ListsAt(actions, n, r, userID, clientID, now)
    requires var m := Run(actions[..n]);
             id in m.tokens && InGrant(m.tokens[id], userID, clientID, now)
    ensures Cutting(Run(actions), r, id)
  {
    var init, last := actions[..|actions| - 1], actions[|actions| - 1];
    if n == |init| {
      RunKeeps(init);
    } else {
      assert init[..n] == actions[..n];
      CutsWhatItListed(init, n, r, userID, clientID, now, id);
      CuttingGoesOn(Run(init), last, r, id);
    }
  }

  /** In every interleaving, once a request that found a reuse has finished, the rows of
      the pair that are unrevoked were all created after it listed the grant, or expired
      by then: every row that the listing could show is revoked or gone. */
  lemma ReuseCutsOff(actions: seq<Action>, n: nat, r: nat, userID: string, clientID: string, now: int)
    requires LegalRun(actions) && ListsAt(actions, n, r, userID, clientID, now)
    requires r in Run(actions).requests && Run(actions).requests[r].Answered?
    ensures var m, before := Run(actions), Run(actions[..n]);
            && (forall id :: id in before.tokens && InGrant(before.tokens[id], userID, clientID, now) ==>
                  id !in m.tokens || m.tokens[id].revoked)
            && (forall id :: id in m.tokens && m.tokens[id].userID == userID && m.tokens[id].clientID == clientID && !m.tokens[id].revoked ==>
                  id !in before.index || (id in before.tokens && before.tokens[id].expiresAt <= now))
  {
    var m, before := Run(actions), Run(actions[..n]);
    forall id | id in before.tokens && InGrant(before.tokens[id], userID, clientID, now)
      ensures id !in m.tokens || m.tokens[id].revoked
    {
      CutsWhatItListed(actions, n, r, userID, clientID, now, id);
    }
    RunAges(actions, n);
  }

  const LATE_CODE := AuthCode("client", "user", "uri", "openid offline_access", "", "", 100, false)

  function Passing(refreshID: Option<string>): Choice {
    Choice(true, refreshID, 100, [])
  }

  /** Two requests with one code: request 0 wins it, request 1 finds the reuse, cuts off
      the grant and is refused, and only then request 0 issues its refresh token. */
  function LateIssue(): seq<Action> {
    [NewCode("code", LATE_CODE),
     Arrive(0, GetCode("code")), Arrive(1, GetCode("code")),
     Call(0, Passing(None)), Call(1, Passing(None)), // both read it unused
     Call(0, Passing(None)),                         // wins
     Call(1, Passing(None)),                         // conflict
     Call(1, Passing(None)),                         // lists nothing
     Call(1, Passing(None)),                         // refused
     Call(0, Passing(Some("late")))]                 // issues
  }

  lemma RunOneMore(actions: seq<Action>, i: nat)
    requires i < |actions| && LegalRun(actions[..i]) && Legal(Run(actions[..i]), actions[i])
    ensures LegalRun(actions[..i + 1]) && Run(actions[..i + 1]) == Act(Run(actions[..i]), actions[i])
  {
    assert actions[..i + 1][..i] == actions[..i];
  }

  // Up to where both requests have read the code.
  lemma BothRead()
    ensures var actions := LateIssue();
            var m := Run(actions[..5]);
            && LegalRun(actions[..5])
            && m.codes == map["code" := LATE_CODE] && m.tokens == map[] && m.index == map[] && m.made == []
            && m.requests == map[0 := ConsumeCode("code", LATE_CODE), 1 := ConsumeCode("code", LATE_CODE)]
  {
    var actions := LateIssue();
    assert actions[..0] == [];
    RunOneMore(actions, 0);
    RunOneMore(actions, 1);
    RunOneMore(actions, 2);
    assert Run(actions[..3]).requests == map[0 := GetCode("code"), 1 := GetCode("code")];
    RunOneMore(actions, 3);
    RunOneMore(actions, 4);
  }

  // Up to where request 0 has won the code.
  lemma CodeWon()
    ensures var actions := LateIssue();
            var m := Run(actions[..6]);
            && LegalRun(actions[..6])
            && "code" in m.codes && m.codes["code"].used && m.tokens == map[] && m.index == map[] && m.made == []
            && m.requests == map[0 := IssueForCode("code", LATE_CODE), 1 := ConsumeCode("code", LATE_CODE)]
  {
    BothRead();
    RunOneMore(LateIssue(), 5);
  }

  // Up to where request 1 has lost it and is about to list the grant.
  lemma ReuseFound()
    ensures var actions := LateIssue();
            var m := Run(actions[..7]);
            && LegalRun(actions[..7])
            && m.tokens == map[] && m.index == map[] && m.made == []
            && m.requests == map[0 := IssueForCode("code", LATE_CODE), 1 := ListGrant("user", "client")]
  {
    CodeWon();
    RunOneMore(LateIssue(), 6);
  }

  lemma ReuseListed()
    ensures var actions := LateIssue();
            var m := Run(actions[..8]);
            && LegalRun(actions[..8])
            && m.tokens == map[] && m.index == map[] && m.made == []
            && m.requests == map[0 := IssueForCode("code", LATE_CODE), 1 := CutGrant("user", "client", [])]
  {
    ReuseFound();
    RunOneMore(LateIssue(), 7);
  }

  // Up to where the grant has been cut off and request 1 refused.
  lemma ReuseRefused()
    ensures var actions := LateIssue();
            var m := Run(actions[..9]);
            && LegalRun(actions[..9])
            && m.tokens == map[] && m.index == map[] && m.made == []
            && m.requests == map[0 := IssueForCode("code", LATE_CODE), 1 := Answered(Refused)]
  {
    ReuseListed();
    RunOneMore(LateIssue(), 8);
  }

  /** So a cut-off does not reach a winner still in flight: in this run the reuse of the
      code is noticed and its grant cut off, and afterwards a refresh token from the very
      same code is unrevoked. */
  lemma LateIssueSurvives()
    ensures var actions := LateIssue();
            var m := Run(actions);
            && LegalRun(actions) && ListsAt(actions, 7, 1, "user", "client", 0)
            && m.requests == map[0 := Answered(Issued(OfCode("code"), Some("late"))), 1 := Answered(Refused)]
            && m.tokens == map["late" := Token("user", "client", LATE_CODE.scope, 100, false)]
            && m.made == [Made("late", FromCode("code"))]
  {
    var actions := LateIssue();
    ReuseFound();
    ReuseRefused();
    RunOneMore(actions, 9);
    assert actions[..10] == actions;
  }

  // ----- families

  /** Parents come before their children, and no two tokens share an origin. */
  ghost predicate Lineage(made: seq<Made>) {
    && (forall k :: 0 <= k < |made| && made[k].origin.FromToken? ==> made[k].origin.parent < k)
    && (forall i, j :: 0 <= i < j < |made| ==> made[i].origin != made[j].origin)
  }

  /** The code a token descends from. */
  function Root(made: seq<Made>, k: nat): string
    requires k < |made|
    requires forall i :: 0 <= i < |made| && made[i].origin.FromToken? ==> made[i].origin.parent < i
  {
    match made[k].origin
    case FromCode(code) => code
    case FromToken(p) => Root(made, p)
  }

  /** j was reached from i by refreshing, in zero or more steps. */
  predicate Descends(made: seq<Made>, i: nat, j: nat)
    requires j < |made|
    requires forall k :: 0 <= k < |made| && made[k].origin.FromToken? ==> made[k].origin.parent < k
    decreases j
  {
    i == j || (made[j].origin.FromToken? && Descends(made, i, made[j].origin.parent))
  }

  lemma {:induction false} ProperDescentHasChild(made: seq<Made>, i: nat, j: nat)
    requires Lineage(made) && j < |made| && Descends(made, i, j) && i != j
    ensures i < j && exists k :: i < k <= j && made[k].origin == FromToken(i)
    decreases j
  {
    var p := made[j].origin.parent;
    if p == i {
      assert made[j].origin == FromToken(i);
    } else {
      ProperDescentHasChild(made, i, p);
      var k :| i < k <= p && made[k].origin == FromToken(i);
      assert i < k <= j;
    }
  }

  /** Two tokens of one family: the later was reached from the earlier. */
  lemma {:induction false} FamilyIsChain(made: seq<Made>, i: nat, j: nat)
    requires Lineage(made) && i <= j < |made| && Root(made, i) == Root(made, j)
    ensures Descends(made, i, j)
    decreases j, i
  {
    if i < j {
      match made[j].origin {
        case FromCode(code) =>
          CodeHasFirst(made, i, code); // so i's family would start twice
        case FromToken(p) =>
          if i <= p {
            FamilyIsChain(made, i, p);
          } else {
            FamilyIsChain(made, p, i);
            ProperDescentHasChild(made, p, i); // so p would have two children
          }
      }
    }
  }

  lemma {:induction false} CodeHasFirst(made: seq<Made>, i: nat, code: string)
    requires Lineage(made) && i < |made| && Root(made, i) == code
    ensures exists k :: 0 <= k <= i && made[k].origin == FromCode(code)
    decreases i
  {
    match made[i].origin {
      case FromCode(_) =>
      case FromToken(p) =>
        CodeHasFirst(made, p, code);
        var k :| 0 <= k <= p && made[k].origin == FromCode(code);
        assert 0 <= k <= i;
    }
  }

  lemma LineageHolds(m: Machine)
    requires Inv(m)
    ensures Lineage(m.made)
  {
    forall k | 0 <= k < |m.made| && m.made[k].origin.FromToken?
      ensures m.made[k].origin.parent < k
    {
      assert MadeByWinner(m, k);
    }
    forall i, j | 0 <= i < j < |m.made|
      ensures m.made[i].origin != m.made[j].origin
    {
      assert MadeByWinner(m, i) && MadeByWinner(m, j);
    }
  }

  predicate Unrevoked(m: Machine, k: nat)
    requires k < |m.made|
  {
    m.made[k].id in m.tokens && !m.tokens[m.made[k].id].revoked
  }

  /** In every interleaving, all refresh tokens descending from one code form a single
      chain of successors, and at most one of them is unrevoked: the last. */
  lemma SingleChain(actions: seq<Action>, i: nat, j: nat)
    requires LegalRun(actions)
    requires i < j < |Run(actions).made|
    ensures var made := Run(actions).made;
            && Lineage(made)
            && (Root(made, i) == Root(made, j) ==> Descends(made, i, j) && !Unrevoked(Run(actions), i))
  {
    RunKeeps(actions);
    var m := Run(actions);
    LineageHolds(m);
    if Root(m.made, i) == Root(m.made, j) {
      FamilyIsChain(m.made, i, j);
      ProperDescentHasChild(m.made, i, j);
      var k :| i < k <= j && m.made[k].origin == FromToken(i);
      assert MadeByWinner(m, k);
    }
  }
}
