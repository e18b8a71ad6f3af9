/** Refresh-token families: rotation, reuse detection and family revocation, the pattern of
    section 5.2.2.3 of RFC 6819. Each committed transaction and each `updateMany` is one
    atomic step; the gap between detecting a reuse and revoking the family is two. */
module RefreshTokens {
  import opened Prelude

  /** A token stands for its row id and its hash, which determine each other. */
  type Token = nat
  type User = nat
  type Family = nat

  datatype Record = Record(user: User, family: Family, expiresAt: int,
                           revokedAt: Option<int>, replacedBy: Option<Token>)

  type Table = map<Token, Record>

  datatype RotateError = InvalidRefreshToken | TokenReuseDetected | TokenExpired | Unauthorized | DuplicateToken

  predicate Live(table: Table, t: Token) {
    t in table && table[t].revokedAt == None
  }

  predicate FamilyUsed(table: Table, f: Family) {
    exists t :: t in table && table[t].family == f
  }

  function Issue(table: Table, user: User, token: Token, family: Family, expiresAt: int): Table {
    table[token := Record(user, family, expiresAt, None, None)]
  }

  /** The rotation transaction: the verdict on the presented token, in the order of the checks. */
  function RotateVerdict(table: Table, token: Token, newToken: Token, now: int, userActive: bool): Result<(), RotateError> {
    if token !in table then Err(InvalidRefreshToken)
    else if table[token].revokedAt != None then Err(TokenReuseDetected)
    else if table[token].expiresAt < now then Err(TokenExpired)
    else if !userActive then Err(Unauthorized)
    else if newToken in table then Err(DuplicateToken)
    else Ok(())
  }

  function Rotated(table: Table, token: Token, newToken: Token, now: int, lifetime: nat): Table
    requires token in table
  {
    var r := table[token];
    Issue(table, r.user, newToken, r.family, now + lifetime)
      [token := r.(revokedAt := Some(now), replacedBy := Some(newToken))]
  }

  /** `updateMany` over the rows that the filter selects and that are not revoked. */
  function RevokeFamily(table: Table, family: Family, now: int): Table {
    map t | t in table :: if table[t].family == family && table[t].revokedAt == None
                          then table[t].(revokedAt := Some(now)) else table[t]
  }

  function RevokeUser(table: Table, user: User, now: int): Table {
    map t | t in table :: if table[t].user == user && table[t].revokedAt == None
                          then table[t].(revokedAt := Some(now)) else table[t]
  }

  function LiveTokensOf(table: Table, user: User): set<Token> {
    set t | t in table && table[t].user == user && table[t].revokedAt == None
  }

  /* ---- The state machine ---- */

  /** pending: families whose revocation has been decided (a reuse was detected, or a
      logout has looked its token up) but whose `updateMany` has not run yet. */
  datatype State = State(table: Table, pending: multiset<Family>)

  datatype Step =
    | Create(user: User, token: Token, family: Family, now: int, lifetime: nat)
    | Rotate(token: Token, newToken: Token, now: int, lifetime: nat, userActive: bool)
    | Logout(token: Token)
    | RunRevocation(family: Family, now: int)
    | RevokeAll(user: User, now: int)

  /** Token ids and families are random; a step that would reuse one does not happen. */
  function Next(s: State, step: Step): State {
    match step
    case Create(user, token, family, now, lifetime) =>
      if token in s.table || FamilyUsed(s.table, family) then s
      else s.(table := Issue(s.table, user, token, family, now + lifetime))
    case Rotate(token, newToken, now, lifetime, userActive) =>
      (match RotateVerdict(s.table, token, newToken, now, userActive)
       case Ok(_) => s.(table := Rotated(s.table, token, newToken, now, lifetime))
       case Err(e) =>
         if e.TokenReuseDetected? then s.(pending := s.pending + multiset{s.table[token].family}) else s)
    case Logout(token) =>
      if token in s.table then s.(pending := s.pending + multiset{s.table[token].family}) else s
    case RunRevocation(family, now) =>
      if family in s.pending then State(RevokeFamily(s.table, family, now), s.pending - multiset{family}) else s
    case RevokeAll(user, now) => s.(table := RevokeUser(s.table, user, now))
  }

  function Run(s: State, steps: seq<Step>): State {
    if steps == [] then s else Next(Run(s, steps[..|steps| - 1]), steps[|steps| - 1])
  }

  const EMPTY: State := State(map[], multiset{})

  /* ---- What each operation does ---- */

  /** A rotation succeeds if and only if the token is known, not revoked and not past its
      expiry, its user is active, and the new token is new; and each failure is told by the
      first of these that does not hold. */
  lemma RotatesIff(table: Table, token: Token, newToken: Token, now: int, userActive: bool)
    ensures RotateVerdict(table, token, newToken, now, userActive).Ok? <==>
      token in table && table[token].revokedAt == None && now <= table[token].expiresAt && userActive && newToken !in table
    ensures token in table && table[token].revokedAt.Some? <==>
      RotateVerdict(table, token, newToken, now, userActive) == Err(TokenReuseDetected)
    ensures Live(table, token) && table[token].expiresAt < now <==>
      RotateVerdict(table, token, newToken, now, userActive) == Err(TokenExpired)
    ensures Live(table, token) && now <= table[token].expiresAt && !userActive <==>
      RotateVerdict(table, token, newToken, now, userActive) == Err(Unauthorized)
  {
  }

  /** A rotation revokes and links the old token, adds the new one, live and unlinked, in
      the same family and of the same user, with a full life, and touches nothing else. */
  lemma RotationWrites(table: Table, token: Token, newToken: Token, now: int, lifetime: nat)
    requires Live(table, token) && newToken !in table
    ensures var table' := Rotated(table, token, newToken, now, lifetime);
            table'.Keys == table.Keys + {newToken} &&
            table'[newToken] == Record(table[token].user, table[token].family, now + lifetime, None, None) &&
            table'[token] == Record(table[token].user, table[token].family, table[token].expiresAt, Some(now), Some(newToken)) &&
            forall t :: t in table && t != token ==> table'[t] == table[t]
  {
  }

  /** Revoking a family dates exactly its live tokens; revoking a user, exactly the user's. */
  lemma RevocationWrites(table: Table, family: Family, user: User, now: int, t: Token)
    requires t in table
    ensures RevokeFamily(table, family, now).Keys == table.Keys == RevokeUser(table, user, now).Keys
    ensures RevokeFamily(table, family, now)[t] ==
      if table[t].family == family && Live(table, t) then table[t].(revokedAt := Some(now)) else table[t]
    ensures RevokeUser(table, user, now)[t] ==
      if table[t].user == user && Live(table, t) then table[t].(revokedAt := Some(now)) else table[t]
  {
  }

  /** A session opens with one live token, which rotates at any time of its life. */
  lemma CreateOpensFamily(s: State, user: User, token: Token, family: Family, now: int, lifetime: nat,
                          newToken: Token, later: int)
    requires token !in s.table && !FamilyUsed(s.table, family) && newToken !in s.table && newToken != token
    ensures var s' := Next(s, Create(user, token, family, now, lifetime));
            s'.pending == s.pending && s'.table.Keys == s.table.Keys + {token} &&
            s'.table[token] == Record(user, family, now + lifetime, None, None) &&
            (forall t :: t in s.table ==> s'.table[t] == s.table[t]) &&
            (RotateVerdict(s'.table, token, newToken, later, true).Ok? <==> later <= now + lifetime)
  {
  }

  /** A token that has been replaced was so at a time within its life. */
  predicate ReplacedInTime(table: Table) {
    forall t :: t in table && table[t].replacedBy.Some? ==>
      table[t].revokedAt.Some? && table[t].revokedAt.value <= table[t].expiresAt
  }

  lemma NextReplacesInTime(s: State, step: Step)
    requires ReplacedInTime(s.table)
    ensures ReplacedInTime(Next(s, step).table)
  {
    var table' := Next(s, step).table;
    if step.Rotate? {
      RotatesIff(s.table, step.token, step.newToken, step.now, step.userActive);
    } else {
      forall t | t in table' && table'[t].replacedBy.Some?
        ensures table'[t].revokedAt.Some? && table'[t].revokedAt.value <= table'[t].expiresAt
      {
        assert t in s.table ==> s.table[t].replacedBy == table'[t].replacedBy;
      }
    }
  }

  /** In every reachable state no expired token has ever rotated. */
  lemma {:induction false} NoExpiredRotation(steps: seq<Step>)
    ensures ReplacedInTime(Run(EMPTY, steps).table)
  {
    if steps == [] {
    } else {
      NoExpiredRotation(steps[..|steps| - 1]);
      NextReplacesInTime(Run(EMPTY, steps[..|steps| - 1]), steps[|steps| - 1]);
    }
  }

  /* ---- The shape of a family ---- */

  predicate ChainLink(table: Table, chain: seq<Token>, i: nat)
    requires i < |chain| && chain[i] in table
  {
    if i + 1 < |chain|
    then table[chain[i]].replacedBy == Some(chain[i + 1]) && table[chain[i]].revokedAt != None
    else table[chain[i]].replacedBy == None
  }

  /** chain lists every token of the family once, each revoked and replaced by the next,
      the last replaced by none, and all of one user. */
  ghost predicate Chain(table: Table, family: Family, chain: seq<Token>) {
    chain != [] &&
    (forall t :: t in chain <==> t in table && table[t].family == family) &&
    (forall i, j :: 0 <= i < j < |chain| ==> chain[i] != chain[j]) &&
    (forall i :: 0 <= i < |chain| ==> ChainLink(table, chain, i)) &&
    (forall t :: t in chain ==> table[t].user == table[chain[0]].user)
  }

  ghost predicate HasChain(table: Table, family: Family) {
    exists chain :: Chain(table, family, chain)
  }

  ghost predicate Linear(table: Table) {
    forall t :: t in table ==> HasChain(table, table[t].family)
  }

  lemma LiveIsTip(table: Table, family: Family, chain: seq<Token>, t: Token)
    requires Chain(table, family, chain) && Live(table, t) && table[t].family == family
    ensures t == chain[|chain| - 1]
  {
    var i :| 0 <= i < |chain| && chain[i] == t;
    assert ChainLink(table, chain, i);
  }

  lemma RotateExtendsChain(table: Table, chain: seq<Token>, token: Token, newToken: Token, now: int, lifetime: nat)
    requires Live(table, token) && newToken !in table && Chain(table, table[token].family, chain)
    ensures Chain(Rotated(table, token, newToken, now, lifetime), table[token].family, chain + [newToken])
  {
    var family := table[token].family;
    var table', chain' := Rotated(table, token, newToken, now, lifetime), chain + [newToken];
    LiveIsTip(table, family, chain, token);
    assert chain[0] in chain;
    forall i | 0 <= i < |chain'| ensures ChainLink(table', chain', i) {
      if i < |chain| {
        assert ChainLink(table, chain, i) && chain[i] in chain;
      }
    }
    forall t ensures t in chain' <==> t in table' && table'[t].family == family {
      assert t in chain' <==> t in chain || t == newToken;
    }
  }

  /** Two tables whose rows differ only in revocation dates added to live rows. */
  predicate OnlyRevoked(table: Table, table': Table) {
    table.Keys == table'.Keys &&
    forall t :: t in table ==>
      table'[t] == table[t] || (table[t].revokedAt == None && table'[t] == table[t].(revokedAt := table'[t].revokedAt))
  }

  lemma RevocationKeepsChain(table: Table, table': Table, family: Family, chain: seq<Token>)
    requires Chain(table, family, chain) && OnlyRevoked(table, table')
    ensures Chain(table', family, chain)
  {
    forall i | 0 <= i < |chain| ensures ChainLink(table', chain, i) {
      assert ChainLink(table, chain, i);
    }
  }

  lemma ElsewhereKeepsChain(table: Table, table': Table, family: Family, chain: seq<Token>)
    requires Chain(table, family, chain)
    requires forall t :: t in table && table[t].family == family ==> t in table' && table'[t] == table[t]
    requires forall t :: t in table' && t !in table ==> table'[t].family != family
    requires forall t :: t in table && table[t].family != family ==> t in table' && table'[t].family != family
    ensures Chain(table', family, chain)
  {
    forall i | 0 <= i < |chain| ensures chain[i] in table' && ChainLink(table', chain, i) {
      assert ChainLink(table, chain, i) && chain[i] in chain;
    }
  }

  lemma CreateKeepsLinear(table: Table, user: User, token: Token, family: Family, expiresAt: int)
    requires Linear(table) && token !in table && !FamilyUsed(table, family)
    ensures Linear(Issue(table, user, token, family, expiresAt))
  {
    var table' := Issue(table, user, token, family, expiresAt);
    assert ChainLink(table', [token], 0);
    assert Chain(table', family, [token]);
    forall t | t in table ensures HasChain(table', table'[t].family) {
      var chain :| Chain(table, table[t].family, chain);
      ElsewhereKeepsChain(table, table', table[t].family, chain);
    }
  }

  lemma RotateKeepsLinear(table: Table, token: Token, newToken: Token, now: int, lifetime: nat)
    requires Linear(table) && Live(table, token) && newToken !in table
    ensures Linear(Rotated(table, token, newToken, now, lifetime))
  {
    var table' := Rotated(table, token, newToken, now, lifetime);
    forall t | t in table ensures HasChain(table', table[t].family) {
      var chain :| Chain(table, table[t].family, chain);
      if table[t].family == table[token].family {
        RotateExtendsChain(table, chain, token, newToken, now, lifetime);
      } else {
        ElsewhereKeepsChain(table, table', table[t].family, chain);
      }
    }
    assert HasChain(table', table[token].family);
  }

  lemma RevocationKeepsLinear(table: Table, table': Table)
    requires Linear(table) && OnlyRevoked(table, table')
    ensures Linear(table')
  {
    forall t | t in table' ensures HasChain(table', table'[t].family) {
      var chain :| Chain(table, table[t].family, chain);
      RevocationKeepsChain(table, table', table[t].family, chain);
    }
  }

  lemma NextKeepsLinear(s: State, step: Step)
    requires Linear(s.table)
    ensures Linear(Next(s, step).table)
  {
    match step
    case Create(user, token, family, now, lifetime) =>
      if token !in s.table && !FamilyUsed(s.table, family) {
        CreateKeepsLinear(s.table, user, token, family, now + lifetime);
      }
    case Rotate(token, newToken, now, lifetime, userActive) =>
      if RotateVerdict(s.table, token, newToken, now, userActive).Ok? {
        RotateKeepsLinear(s.table, token, newToken, now, lifetime);
      }
    case Logout(_) =>
    case RunRevocation(family, now) =>
      RevocationKeepsLinear(s.table, RevokeFamily(s.table, family, now));
    case RevokeAll(user, now) =>
      RevocationKeepsLinear(s.table, RevokeUser(s.table, user, now));
  }

  /** In every reachable state every family is one chain: its tokens, each once, linked by
      replacement, all of one user, all revoked but possibly the last. */
  lemma {:induction false} FamiliesAreChains(steps: seq<Step>)
    ensures Linear(Run(EMPTY, steps).table)
  {
    if steps == [] {
    } else {
      FamiliesAreChains(steps[..|steps| - 1]);
      NextKeepsLinear(Run(EMPTY, steps[..|steps| - 1]), steps[|steps| - 1]);
    }
  }

  lemma LinearHasOneLive(table: Table, t: Token, u: Token)
    requires Linear(table) && Live(table, t) && Live(table, u) && table[t].family == table[u].family
    ensures t == u
  {
    var chain :| Chain(table, table[t].family, chain);
    LiveIsTip(table, table[t].family, chain, t);
    LiveIsTip(table, table[t].family, chain, u);
  }

  /** Hence a family never has two live tokens. */
  lemma OneLiveToken(steps: seq<Step>, t: Token, u: Token)
    ensures var table := Run(EMPTY, steps).table;
            Live(table, t) && Live(table, u) && table[t].family == table[u].family ==> t == u
  {
    var table := Run(EMPTY, steps).table;
    FamiliesAreChains(steps);
    if Live(table, t) && Live(table, u) && table[t].family == table[u].family {
      LinearHasOneLive(table, t, u);
    }
  }

  /* ---- What later steps cannot undo ---- */

  /** Rows are never removed; owner, family and expiry are fixed; a revocation date, and a
      replacement link, once written are never written again. */
  predicate Extends(table: Table, table': Table) {
    forall t :: t in table ==> (
      t in table' &&
      table'[t].user == table[t].user && table'[t].family == table[t].family &&
      table'[t].expiresAt == table[t].expiresAt &&
      (table[t].revokedAt != None ==> table'[t] == table[t]))
  }

  lemma NextExtends(s: State, step: Step)
    ensures Extends(s.table, Next(s, step).table)
  {
  }

  lemma ExtendsTwice(table: Table, table1: Table, table2: Table)
    requires Extends(table, table1) && Extends(table1, table2)
    ensures Extends(table, table2)
  {
  }

  lemma {:induction false} RevocationIsFinal(s: State, steps: seq<Step>)
    ensures Extends(s.table, Run(s, steps).table)
  {
    if steps == [] {
    } else {
      var mid := Run(s, steps[..|steps| - 1]);
      RevocationIsFinal(s, steps[..|steps| - 1]);
      NextExtends(mid, steps[|steps| - 1]);
      ExtendsTwice(s.table, mid.table, Next(mid, steps[|steps| - 1]).table);
    }
  }

  predicate RotatedBy(s: State, step: Step, t: Token) {
    step.Rotate? && step.token == t && RotateVerdict(s.table, t, step.newToken, step.now, step.userActive).Ok?
  }

  /** A token rotates successfully at most once: every later attempt is taken for a reuse. */
  lemma RotatesOnce(s: State, first: Step, between: seq<Step>, again: Step, t: Token)
    requires RotatedBy(s, first, t) && again.Rotate? && again.token == t
    ensures var later := Run(Next(s, first), between);
            RotateVerdict(later.table, t, again.newToken, again.now, again.userActive) == Err(TokenReuseDetected) &&
            later.table[t].family in Next(later, again).pending
  {
    RevocationIsFinal(Next(s, first), between);
  }

  predicate Dead(table: Table, family: Family) {
    FamilyUsed(table, family) && forall t :: t in table && table[t].family == family ==> table[t].revokedAt != None
  }

  lemma NextKeepsDead(s: State, step: Step, family: Family)
    requires Dead(s.table, family)
    ensures Dead(Next(s, step).table, family)
  {
    var t :| t in s.table && s.table[t].family == family;
    var table' := Next(s, step).table;
    assert t in table' && table'[t].family == family;
    forall u | u in table' && table'[u].family == family ensures table'[u].revokedAt != None {
      if u in s.table {
        assert s.table[u].revokedAt != None;
      }
    }
  }

  lemma {:induction false} DeadStaysDead(s: State, steps: seq<Step>, family: Family)
    requires Dead(s.table, family)
    ensures Dead(Run(s, steps).table, family)
  {
    if steps == [] {
    } else {
      DeadStaysDead(s, steps[..|steps| - 1], family);
      NextKeepsDead(Run(s, steps[..|steps| - 1]), steps[|steps| - 1], family);
    }
  }

  lemma NextPendingOrDead(s: State, step: Step, family: Family)
    requires FamilyUsed(s.table, family) && family in s.pending
    ensures var next := Next(s, step);
            FamilyUsed(next.table, family) && (family in next.pending || Dead(next.table, family))
  {
    var t :| t in s.table && s.table[t].family == family;
    var next := Next(s, step);
    assert t in next.table && next.table[t].family == family;
  }

  /** A decided revocation is either still to run, or has killed the family. */
  lemma {:induction false} PendingOrDead(s: State, steps: seq<Step>, family: Family)
    requires FamilyUsed(s.table, family) && family in s.pending
    ensures var later := Run(s, steps);
            FamilyUsed(later.table, family) && (family in later.pending || Dead(later.table, family))
  {
    if steps == [] {
    } else {
      var mid := Run(s, steps[..|steps| - 1]);
      PendingOrDead(s, steps[..|steps| - 1], family);
      if Dead(mid.table, family) {
        NextKeepsDead(mid, steps[|steps| - 1], family);
      } else {
        NextPendingOrDead(mid, steps[|steps| - 1], family);
      }
    }
  }

  /** Once a reuse has been detected, or a logout has begun, then whatever runs before the
      revocation step and whatever runs after it, the family ends dead. */
  lemma RevokedFamilyStaysDead(s: State, cause: Step, between: seq<Step>, now: int, later: seq<Step>)
    requires match cause
             case Rotate(t, newToken, at, _, active) =>
               RotateVerdict(s.table, t, newToken, at, active) == Err(TokenReuseDetected)
             case Logout(t) => t in s.table
             case _ => false
    ensures var family := s.table[cause.token].family;
            var mid := Run(Next(s, cause), between);
            Dead(Run(Next(mid, RunRevocation(family, now)), later).table, family)
  {
    var family := s.table[cause.token].family;
    var mid := Run(Next(s, cause), between);
    assert cause.token in Next(s, cause).table && Next(s, cause).table[cause.token].family == family;
    PendingOrDead(Next(s, cause), between, family);
    var after := Next(mid, RunRevocation(family, now));
    assert Dead(after.table, family) by {
      var t :| t in mid.table && mid.table[t].family == family;
      assert t in after.table && after.table[t].family == family;
    }
    DeadStaysDead(after, later, family);
  }

  /** Detection alone does not end the session: until the revocation step, the family's
      live token still rotates. */
  lemma LiveTokenRotatesInTheGap(s: State, old_: Token, tip: Token, x: Token, newToken: Token, now: int, lifetime: nat)
    requires old_ in s.table && s.table[old_].revokedAt != None
    requires Live(s.table, tip) && s.table[tip].family == s.table[old_].family
    requires now <= s.table[tip].expiresAt && newToken !in s.table
    ensures var detected := Next(s, Rotate(old_, x, now, lifetime, true));
            var raced := Next(detected, Rotate(tip, newToken, now, lifetime, true));
            s.table[old_].family in detected.pending && Live(raced.table, newToken) &&
            Dead(Next(raced, RunRevocation(s.table[old_].family, now)).table, s.table[old_].family)
  {
    var family := s.table[old_].family;
    var detected := Next(s, Rotate(old_, x, now, lifetime, true));
    var raced := Next(detected, Rotate(tip, newToken, now, lifetime, true));
    assert family in raced.pending;
    var after := Next(raced, RunRevocation(family, now));
    assert newToken in after.table && after.table[newToken].family == family;
  }

  /* ---- Counting ---- */

  function LiveFamiliesOf(table: Table, user: User): set<Family> {
    set t | t in LiveTokensOf(table, user) :: table[t].family
  }

  lemma {:induction false} InjectiveImage(tokens: set<Token>, table: Table)
    requires tokens <= table.Keys
    requires forall t, u :: t in tokens && u in tokens && table[t].family == table[u].family ==> t == u
    ensures |set t | t in tokens :: table[t].family| == |tokens|
  {
    if tokens == {} {
    } else {
      var t :| t in tokens;
      InjectiveImage(tokens - {t}, table);
      assert (set u | u in tokens :: table[u].family) ==
             (set u | u in tokens - {t} :: table[u].family) + {table[t].family};
    }
  }

  lemma RevokeUserKills(table: Table, user: User, now: int, f: Family)
    requires Linear(table) && f in LiveFamiliesOf(table, user)
    ensures Dead(RevokeUser(table, user, now), f)
  {
    var after := RevokeUser(table, user, now);
    var t :| t in LiveTokensOf(table, user) && table[t].family == f;
    assert t in after && after[t].family == f;
    forall u | u in after && after[u].family == f ensures after[u].revokedAt != None {
      if Live(table, u) {
        LinearHasOneLive(table, t, u);
      }
    }
  }

  /** The count returned by `revokeAllUserTokens` is the number of the user's families
      that had a live token, and all of those are dead afterwards. */
  lemma RevokeAllCountsFamilies(steps: seq<Step>, user: User, now: int)
    ensures var table := Run(EMPTY, steps).table;
            |LiveTokensOf(table, user)| == |LiveFamiliesOf(table, user)| &&
            forall f :: f in LiveFamiliesOf(table, user) ==> Dead(RevokeUser(table, user, now), f)
  {
    var table := Run(EMPTY, steps).table;
    FamiliesAreChains(steps);
    forall t, u | t in LiveTokensOf(table, user) && u in LiveTokensOf(table, user) && table[t].family == table[u].family
      ensures t == u
    {
      LinearHasOneLive(table, t, u);
    }
    InjectiveImage(LiveTokensOf(table, user), table);
    forall f | f in LiveFamiliesOf(table, user) ensures Dead(RevokeUser(table, user, now), f) {
      RevokeUserKills(table, user, now, f);
    }
  }

  /* ---- The service ---- */

  class RefreshTokenService {
    var refreshTokens: Table

    constructor ()
      ensures refreshTokens == map[]
    {
      refreshTokens := map[];
    }

    method CreateInitialToken(userId: User, token: Token, familyId: Family, now: int, lifetime: nat)
      requires token !in refreshTokens
      modifies this
      ensures refreshTokens == Issue(old(refreshTokens), userId, token, familyId, now + lifetime)
    {
      var expiresAt := now + lifetime;
      refreshTokens := refreshTokens[token := Record(userId, familyId, expiresAt, None, None)];
    }

    /** The transaction, and the handler that revokes the family after it has rolled back. */
    method RotateToken(token: Token, newToken: Token, now: int, lifetime: nat, userActive: bool)
      returns (r: Result<Token, RotateError>)
      modifies this
      ensures match RotateVerdict(old(refreshTokens), token, newToken, now, userActive)
              case Ok(_) => r == Ok(newToken) && refreshTokens == Rotated(old(refreshTokens), token, newToken, now, lifetime)
              case Err(e) =>
                r == Err(e) &&
                (if e.TokenReuseDetected?
                 then refreshTokens == RevokeFamily(old(refreshTokens), old(refreshTokens)[token].family, now)
                 else refreshTokens == old(refreshTokens))
    {
      var isReuse := false;
      var familyIdToRevoke := None;
      r := Ok(newToken);
      if token !in refreshTokens {
        r := Err(InvalidRefreshToken);
      } else {
        var record := refreshTokens[token];
        if record.revokedAt != None {
          isReuse := true;
          familyIdToRevoke := Some(record.family);
          r := Err(TokenReuseDetected);
        } else if record.expiresAt < now {
          r := Err(TokenExpired);
        } else if !userActive {
          r := Err(Unauthorized);
        } else if newToken in refreshTokens {
          r := Err(DuplicateToken);
        } else {
          refreshTokens := refreshTokens[newToken := Record(record.user, record.family, now + lifetime, None, None)];
          refreshTokens := refreshTokens[token := record.(revokedAt := Some(now), replacedBy := Some(newToken))];
        }
      }
      if isReuse && familyIdToRevoke.Some? {
        var _ := UpdateManyOfFamily(familyIdToRevoke.value, now);
      }
    }

    method UpdateManyOfFamily(familyId: Family, now: int) returns (count: nat)
      modifies this
      ensures refreshTokens == RevokeFamily(old(refreshTokens), familyId, now)
      ensures count == |set t | t in old(refreshTokens) && old(refreshTokens)[t].family == familyId && Live(old(refreshTokens), t)|
    {
      var hit := set t | t in refreshTokens && refreshTokens[t].family == familyId && Live(refreshTokens, t);
      refreshTokens := map t | t in refreshTokens ::
        if t in hit then refreshTokens[t].(revokedAt := Some(now)) else refreshTokens[t];
      count := |hit|;
    }

    method RevokeFamilyByToken(token: Token, now: int) returns (found: bool)
      modifies this
      ensures found == (token in old(refreshTokens))
      ensures refreshTokens ==
        if found then RevokeFamily(old(refreshTokens), old(refreshTokens)[token].family, now) else old(refreshTokens)
    {
      if token !in refreshTokens {
        return false;
      }
      var _ := UpdateManyOfFamily(refreshTokens[token].family, now);
      return true;
    }

    method RevokeAllUserTokens(userId: User, now: int) returns (count: nat)
      modifies this
      ensures refreshTokens == RevokeUser(old(refreshTokens), userId, now)
      ensures count == |LiveTokensOf(old(refreshTokens), userId)|
    {
      var hit := set t | t in refreshTokens && refreshTokens[t].user == userId && Live(refreshTokens, t);
      assert hit == LiveTokensOf(refreshTokens, userId);
      refreshTokens := map t | t in refreshTokens ::
        if t in hit then refreshTokens[t].(revokedAt := Some(now)) else refreshTokens[t];
      count := |hit|;
    }
  }
}
