/**
 Refresh-token rotation (backend/app/services/auth.py) over the token table of
 backend/app/repositories/domain.py, with the commit rule of backend/app/api/v1/auth.py.

 The table is keyed by the hash of the raw token. Hashing is taken to be injective, so
 a `TokenId` stands for the raw token, for its hash and for the row that holds it.
 Every call is one serializable transaction.
 */
module RefreshTokens {
  import opened Options

  type UserId = nat
  type FamilyId = nat
  type TokenId = nat
  type Time = int

  datatype Token = Token(user: UserId, family: FamilyId, expiresAt: Time,
                         revokedAt: Option<Time>, replacedBy: Option<TokenId>)
  {
    predicate Live() { revokedAt.None? }
  }

  type Tokens = map<TokenId, Token>

  /** The committed tables: all token rows, and the users that exist and are active. */
  datatype Store = Store(tokens: Tokens, active: set<UserId>)

  /** `Fault` is any exception that is not an `AppError`; it never commits. */
  datatype Outcome = Issued(token: TokenId) | Unauthorized | Done | Fault

  datatype Result = Result(store: Store, outcome: Outcome)

  datatype Operation =
    | Login(user: UserId, token: TokenId, family: FamilyId)
    | Refresh(raw: TokenId, replacement: TokenId)
    | Logout(raw: TokenId)
    | LogoutAll(user: UserId)
    | SetActive(user: UserId, isActive: bool)

  /** One API call: the operation, the clock it reads, and whether an unexpected exception ends it. */
  datatype Call = Call(op: Operation, now: Time, crashes: bool)

  // ----- What each operation does to the tables -----

  function RevokeFamily(tokens: Tokens, family: FamilyId, now: Time): (r: Tokens)
    ensures r.Keys == tokens.Keys
  {
    map t | t in tokens ::
      if tokens[t].family == family && tokens[t].Live() then tokens[t].(revokedAt := Some(now)) else tokens[t]
  }

  function RevokeUser(tokens: Tokens, user: UserId, now: Time): (r: Tokens)
    ensures r.Keys == tokens.Keys
  {
    map t | t in tokens ::
      if tokens[t].user == user && tokens[t].Live() then tokens[t].(revokedAt := Some(now)) else tokens[t]
  }

  function NewToken(user: UserId, family: FamilyId, now: Time, ttl: int): Token {
    Token(user, family, now + ttl, None, None)
  }

  function Rotated(s: Store, raw: TokenId, replacement: TokenId, now: Time, ttl: int): Result {
    if raw !in s.tokens then
      Result(s, Unauthorized)
    else
      var current := s.tokens[raw];
      if !current.Live() then
        Result(s.(tokens := RevokeFamily(s.tokens, current.family, now)), Unauthorized)
      else if current.expiresAt <= now then
        Result(s.(tokens := s.tokens[raw := current.(revokedAt := Some(now))]), Unauthorized)
      else if current.user !in s.active then
        Result(s.(tokens := RevokeFamily(s.tokens, current.family, now)), Unauthorized)
      else if replacement in s.tokens then
        Result(s, Fault)  // the unique index on token_hash refuses the new row
      else
        var used := current.(revokedAt := Some(now), replacedBy := Some(replacement));
        var added := NewToken(current.user, current.family, now, ttl);
        Result(s.(tokens := s.tokens[raw := used][replacement := added]), Issued(replacement))
  }

  function Apply(s: Store, op: Operation, now: Time, ttl: int): Result {
    match op
    case Login(user, token, family) =>
      if user !in s.active then Result(s, Unauthorized)
      else if token in s.tokens then Result(s, Fault)
      else Result(s.(tokens := s.tokens[token := NewToken(user, family, now, ttl)]), Issued(token))
    case Refresh(raw, replacement) =>
      Rotated(s, raw, replacement, now, ttl)
    case Logout(raw) =>
      if raw in s.tokens && s.tokens[raw].Live() then
        Result(s.(tokens := s.tokens[raw := s.tokens[raw].(revokedAt := Some(now))]), Done)
      else
        Result(s, Done)
    case LogoutAll(user) =>
      Result(s.(tokens := RevokeUser(s.tokens, user, now)), Done)
    case SetActive(user, isActive) =>
      Result(s.(active := if isActive then s.active + {user} else s.active - {user}), Done)
  }

  /** A call commits unless it faults; an `Unauthorized` answer commits too. */
  function Step(s: Store, c: Call, ttl: int): Result {
    var r := Apply(s, c.op, c.now, ttl);
    if c.crashes || r.outcome == Fault then Result(s, Fault) else r
  }

  // ----- The service object -----

  class AuthService {
    const ttl: int
    var tokens: Tokens
    var active: set<UserId>

    constructor (ttl: int)
      ensures this.ttl == ttl && State() == Store(map[], {})
    {
      this.ttl := ttl;
      tokens := map[];
      active := {};
    }

    ghost function State(): Store
      reads this
    {
      Store(tokens, active)
    }

    method RevokeRow(raw: TokenId, now: Time)
      requires raw in tokens
      modifies this`tokens
      ensures tokens == old(tokens)[raw := old(tokens)[raw].(revokedAt := Some(now))]
    {
      tokens := tokens[raw := tokens[raw].(revokedAt := Some(now))];
    }

    method NewSession(user: UserId, token: TokenId, family: FamilyId, now: Time) returns (o: Outcome)
      modifies this`tokens
      ensures token in old(tokens) ==> o == Fault && tokens == old(tokens)
      ensures token !in old(tokens) ==>
                o == Issued(token) && tokens == old(tokens)[token := Token(user, family, now + ttl, None, None)]
    {
      if token in tokens {
        return Fault;
      }
      tokens := tokens[token := Token(user, family, now + ttl, None, None)];
      return Issued(token);
    }

    method Rotate(raw: TokenId, replacement: TokenId, now: Time) returns (o: Outcome)
      modifies this`tokens
      ensures Result(State(), o) == Rotated(old(State()), raw, replacement, now, ttl)
    {
      if raw !in tokens {
        return Unauthorized;
      }
      var current := tokens[raw];
      if current.revokedAt.Some? {
        tokens := RevokeFamily(tokens, current.family, now);
        return Unauthorized;
      }
      if current.expiresAt <= now {
        RevokeRow(raw, now);
        return Unauthorized;
      }
      if current.user !in active {
        tokens := RevokeFamily(tokens, current.family, now);
        return Unauthorized;
      }
      o := NewSession(current.user, replacement, current.family, now);
      if o == Fault {
        return;
      }
      ghost var added := tokens;
      RevokeRow(raw, now);
      tokens := tokens[raw := tokens[raw].(replacedBy := Some(replacement))];
      assert tokens == added[raw := current.(revokedAt := Some(now), replacedBy := Some(replacement))];
      assert tokens == Rotated(old(State()), raw, replacement, now, ttl).store.tokens;
    }

    method Logout(raw: TokenId, now: Time)
      modifies this`tokens
      ensures Result(State(), Done) == Apply(old(State()), Operation.Logout(raw), now, ttl)
    {
      if raw in tokens && tokens[raw].revokedAt.None? {
        RevokeRow(raw, now);
      }
    }

    /** The route around an operation: commit on success and on `AppError`, roll back otherwise. */
    method Commit(c: Call) returns (o: Outcome)
      modifies this
      ensures Result(State(), o) == Step(old(State()), c, ttl)
    {
      var savedTokens, savedActive := tokens, active;
      match c.op {
        case Login(user, token, family) =>
          if user !in active {
            o := Unauthorized;
          } else {
            o := NewSession(user, token, family, c.now);
          }
        case Refresh(raw, replacement) =>
          o := Rotate(raw, replacement, c.now);
        case Logout(raw) =>
          Logout(raw, c.now);
          o := Done;
        case LogoutAll(user) =>
          tokens := RevokeUser(tokens, user, c.now);
          o := Done;
        case SetActive(user, isActive) =>
          active := if isActive then active + {user} else active - {user};
          o := Done;
      }
      if c.crashes || o == Fault {
        tokens, active := savedTokens, savedActive;
        o := Fault;
      }
    }
  }

  // ----- Runs -----

  /** New family ids are fresh; nothing in the schema enforces it, unlike token hashes. */
  ghost predicate FreshFamily(s: Store, op: Operation) {
    op.Login? ==> forall t :: t in s.tokens ==> s.tokens[t].family != op.family
  }

  ghost predicate IsRun(ss: seq<Store>, cs: seq<Call>, ttl: int) {
    && |ss| == |cs| + 1
    && ss[0].tokens == map[]
    && forall i :: 0 <= i < |cs| ==> FreshFamily(ss[i], cs[i].op) && ss[i + 1] == Step(ss[i], cs[i], ttl).store
  }

  ghost predicate ClockIsMonotone(cs: seq<Call>) {
    forall i, j :: 0 <= i <= j < |cs| ==> cs[i].now <= cs[j].now
  }

  /** The call is a `rotate` of `raw` that answers with a new token. */
  ghost predicate Accepts(s: Store, c: Call, raw: TokenId, ttl: int) {
    c.op.Refresh? && c.op.raw == raw && Step(s, c, ttl).outcome.Issued?
  }

  /** The call adds a token to the family: by opening it or by rotating one of its tokens. */
  ghost predicate IssuesIn(s: Store, c: Call, family: FamilyId, ttl: int) {
    && Step(s, c, ttl).outcome.Issued?
    && match c.op
       case Login(_, _, f) => f == family
       case Refresh(raw, _) => raw in s.tokens && s.tokens[raw].family == family
       case _ => false
  }

  ghost predicate Known(s: Store, family: FamilyId) {
    exists t :: t in s.tokens && s.tokens[t].family == family
  }

  ghost predicate Alive(s: Store, family: FamilyId) {
    exists t :: t in s.tokens && s.tokens[t].family == family && s.tokens[t].Live()
  }

  // ----- Rows are written once -----

  /** A row keeps its user, family and expiry; once revoked it never changes again. */
  ghost predicate RowEvolves(before: Token, after: Token) {
    && after.user == before.user && after.family == before.family && after.expiresAt == before.expiresAt
    && (!before.Live() ==> after == before)
  }

  /** Over every run: `revoked_at` is written once and never cleared, and a revoked row is frozen. */
  lemma {:induction false} RowsAreWrittenOnce(ss: seq<Store>, cs: seq<Call>, ttl: int, i: nat, j: nat, t: TokenId)
    requires IsRun(ss, cs, ttl) && i <= j < |ss| && t in ss[i].tokens
    ensures t in ss[j].tokens && RowEvolves(ss[i].tokens[t], ss[j].tokens[t])
  {
    if i < j {
      RowsAreWrittenOnce(ss, cs, ttl, i, j - 1, t);
    }
  }

  /** Over every run, each raw token is accepted by `rotate` at most once. */
  lemma {:induction false} SingleUse(ss: seq<Store>, cs: seq<Call>, ttl: int, i: nat, j: nat, raw: TokenId)
    requires IsRun(ss, cs, ttl) && i < j < |cs|
    requires Accepts(ss[i], cs[i], raw, ttl)
    ensures !Accepts(ss[j], cs[j], raw, ttl)
  {
    RowsAreWrittenOnce(ss, cs, ttl, i + 1, j, raw);
  }

  // ----- Families are linear chains -----

  /**
   `chain` lists every token of the family, oldest first: one user, each token replaced
   by the next, every token but the newest revoked.
   */
  ghost predicate IsChain(tokens: Tokens, family: FamilyId, chain: seq<TokenId>) {
    && |chain| > 0
    && (forall t :: t in chain <==> t in tokens && tokens[t].family == family)
    && (forall i, j :: 0 <= i < j < |chain| ==> chain[i] != chain[j])
    && (forall i :: 0 <= i < |chain| ==> tokens[chain[i]].user == tokens[chain[0]].user)
    && (forall i :: 0 <= i < |chain| - 1 ==>
          !tokens[chain[i]].Live() && tokens[chain[i]].replacedBy == Some(chain[i + 1]))
    && tokens[chain[|chain| - 1]].replacedBy == None
  }

  ghost predicate HasChain(tokens: Tokens, family: FamilyId) {
    exists chain :: IsChain(tokens, family, chain)
  }

  ghost predicate AllChains(tokens: Tokens) {
    forall t :: t in tokens ==> HasChain(tokens, tokens[t].family)
  }

  /** Revoking rows of one table leaves its chains as they were. */
  lemma {:induction false} RevokingKeepsChains(before: Tokens, after: Tokens)
    requires AllChains(before) && after.Keys == before.Keys
    requires forall t :: t in before ==> RowEvolves(before[t], after[t]) && after[t].replacedBy == before[t].replacedBy
    ensures AllChains(after)
  {
    forall t | t in after ensures HasChain(after, after[t].family) {
      var chain :| IsChain(before, before[t].family, chain);
      assert IsChain(after, after[t].family, chain);
    }
  }

  lemma {:induction false} OpeningKeepsChains(before: Tokens, t: TokenId, row: Token)
    requires AllChains(before) && t !in before && row.Live() && row.replacedBy == None
    requires forall u :: u in before ==> before[u].family != row.family
    ensures AllChains(before[t := row])
  {
    var after := before[t := row];
    forall u | u in after ensures HasChain(after, after[u].family) {
      if u == t {
        assert IsChain(after, row.family, [t]);
      } else {
        var chain :| IsChain(before, before[u].family, chain);
        assert IsChain(after, before[u].family, chain);
      }
    }
  }

  /** An accepted rotation appends the new token to its family's chain. */
  lemma {:induction false} RotationExtendsChain(s: Store, c: Call, ttl: int, raw: TokenId, chain: seq<TokenId>)
    requires Accepts(s, c, raw, ttl) && IsChain(s.tokens, s.tokens[raw].family, chain)
    ensures chain[|chain| - 1] == raw
    ensures IsChain(Step(s, c, ttl).store.tokens, s.tokens[raw].family, chain + [c.op.replacement])
  {
    var after, next := Step(s, c, ttl).store.tokens, chain + [c.op.replacement];
    var k :| 0 <= k < |chain| && chain[k] == raw;
    assert after == s.tokens[raw := s.tokens[raw].(revokedAt := Some(c.now), replacedBy := Some(c.op.replacement))]
                            [c.op.replacement := NewToken(s.tokens[raw].user, s.tokens[raw].family, c.now, ttl)];
    forall i | 0 <= i < |next| - 1
      ensures !after[next[i]].Live() && after[next[i]].replacedBy == Some(next[i + 1])
    {
      if i < |chain| - 1 {
        assert next[i] == chain[i] != raw;
      }
    }
  }

  /** A chain survives any change that leaves the rows of its family alone. */
  lemma {:induction false} UntouchedChainSurvives(before: Tokens, after: Tokens, family: FamilyId)
    requires HasChain(before, family)
    requires forall t :: t in before && before[t].family == family ==> t in after && after[t] == before[t]
    requires forall t :: t in after && after[t].family == family ==> t in before
    requires forall t :: t in before && t in after ==> after[t].family == before[t].family
    ensures HasChain(after, family)
  {
    var chain :| IsChain(before, family, chain);
    assert IsChain(after, family, chain);
  }

  lemma {:induction false} OneFamilyChanges(before: Tokens, after: Tokens, family: FamilyId)
    requires AllChains(before) && HasChain(after, family)
    requires forall t :: t in after && t !in before ==> after[t].family == family
    requires forall t :: t in before ==>
               t in after && after[t].family == before[t].family
               && (before[t].family != family ==> after[t] == before[t])
    ensures AllChains(after)
  {
    hide HasChain;
    forall t | t in after ensures HasChain(after, after[t].family) {
      if after[t].family != family {
        UntouchedChainSurvives(before, after, after[t].family);
      }
    }
  }

  lemma {:induction false} RotatingKeepsChains(s: Store, c: Call, ttl: int, raw: TokenId)
    requires AllChains(s.tokens) && Accepts(s, c, raw, ttl)
    ensures AllChains(Step(s, c, ttl).store.tokens)
  {
    var after, family := Step(s, c, ttl).store.tokens, s.tokens[raw].family;
    assert HasChain(after, family) by {
      var chain :| IsChain(s.tokens, family, chain);
      RotationExtendsChain(s, c, ttl, raw, chain);
    }
    RotationAcceptedIff(s, c, ttl);
    hide Step, HasChain, AllChains;
    OneFamilyChanges(s.tokens, after, family);
  }

  lemma {:induction false} OtherCallsOnlyRevoke(s: Store, c: Call, ttl: int)
    requires !Step(s, c, ttl).outcome.Issued?
    ensures var after := Step(s, c, ttl).store.tokens;
            && after.Keys == s.tokens.Keys
            && forall t :: t in s.tokens ==>
                 && RowEvolves(s.tokens[t], after[t]) && after[t].replacedBy == s.tokens[t].replacedBy
                 && after[t].revokedAt in {s.tokens[t].revokedAt, Some(c.now)}
  {
  }

  lemma {:induction false} StepKeepsChains(s: Store, c: Call, ttl: int)
    requires AllChains(s.tokens) && FreshFamily(s, c.op)
    ensures AllChains(Step(s, c, ttl).store.tokens)
  {
    var r := Step(s, c, ttl);
    if !r.outcome.Issued? {
      OtherCallsOnlyRevoke(s, c, ttl);
      RevokingKeepsChains(s.tokens, r.store.tokens);
    } else if c.op.Login? {
      OpeningKeepsChains(s.tokens, c.op.token, NewToken(c.op.user, c.op.family, c.now, ttl));
    } else {
      RotatingKeepsChains(s, c, ttl, c.op.raw);
    }
  }

  /** Over every run, each token family is a single linear chain under `replaced_by_id`. */
  lemma {:induction false} FamiliesAreChains(ss: seq<Store>, cs: seq<Call>, ttl: int, k: nat)
    requires IsRun(ss, cs, ttl) && k < |ss|
    ensures AllChains(ss[k].tokens)
  {
    if k > 0 {
      FamiliesAreChains(ss, cs, ttl, k - 1);
      StepKeepsChains(ss[k - 1], cs[k - 1], ttl);
    }
  }

  /** What the chain says row by row: one user, one predecessor, one live token and no successor of it. */
  lemma {:induction false} ChainShape(tokens: Tokens, t: TokenId, u: TokenId)
    requires AllChains(tokens) && t in tokens && u in tokens && tokens[t].family == tokens[u].family
    ensures tokens[t].user == tokens[u].user
    ensures tokens[t].Live() && tokens[u].Live() ==> t == u
    ensures tokens[t].replacedBy.Some? ==>
              && !tokens[t].Live()
              && tokens[t].replacedBy.value in tokens
              && tokens[tokens[t].replacedBy.value].family == tokens[t].family
    ensures tokens[t].replacedBy.Some? && tokens[u].replacedBy == tokens[t].replacedBy ==> t == u
  {
    var chain :| IsChain(tokens, tokens[t].family, chain);
    var i :| 0 <= i < |chain| && chain[i] == t;
    var j :| 0 <= j < |chain| && chain[j] == u;
    if i < |chain| - 1 {
      assert chain[i + 1] in chain;
    }
    if i < |chain| - 1 && j < |chain| - 1 && i != j {
      assert chain[i + 1] != chain[j + 1];
    }
  }

  /** `rotate` answers with a new token exactly when the presented one is live, unexpired and its user active. */
  lemma {:induction false} RotationAcceptedIff(s: Store, c: Call, ttl: int)
    requires c.op.Refresh?
    ensures var raw, replacement := c.op.raw, c.op.replacement;
            Accepts(s, c, raw, ttl) <==>
            && !c.crashes
            && replacement !in s.tokens
            && raw in s.tokens && s.tokens[raw].Live()
            && c.now < s.tokens[raw].expiresAt
            && s.tokens[raw].user in s.active
    ensures Accepts(s, c, c.op.raw, ttl) ==>
              var after := Step(s, c, ttl).store.tokens;
              && Step(s, c, ttl).outcome == Issued(c.op.replacement)
              && after.Keys == s.tokens.Keys + {c.op.replacement}
              && after[c.op.replacement] == Token(s.tokens[c.op.raw].user, s.tokens[c.op.raw].family, c.now + ttl,
                                                  None, None)
              && after[c.op.raw].revokedAt == Some(c.now) && after[c.op.raw].replacedBy == Some(c.op.replacement)
              && forall t :: t in s.tokens && t != c.op.raw ==> after[t] == s.tokens[t]
  {
  }

  /** A login issues a token exactly for an active user with a new token; then only that row is added. */
  lemma {:induction false} LoginIssuesIff(s: Store, c: Call, ttl: int)
    requires c.op.Login?
    ensures Step(s, c, ttl).outcome.Issued? <==>
            !c.crashes && c.op.user in s.active && c.op.token !in s.tokens
    ensures Step(s, c, ttl).outcome.Issued? ==> Step(s, c, ttl).outcome == Issued(c.op.token)
    ensures Step(s, c, ttl).outcome == Unauthorized <==> !c.crashes && c.op.user !in s.active
    ensures var after := Step(s, c, ttl).store;
            if Step(s, c, ttl).outcome.Issued? then
              after == Store(s.tokens[c.op.token := Token(c.op.user, c.op.family, c.now + ttl, None, None)], s.active)
            else after == s
  {
  }

  /**
   The live rows a call revokes: all of the family on a replay or for a disabled user, the presented one when it
   is expired, used or logged out, and all of the user on a logout-all.
   */
  ghost predicate Revokes(s: Store, c: Call, t: TokenId)
    requires t in s.tokens
  {
    && !c.crashes
    && match c.op
       case Refresh(raw, replacement) =>
         raw in s.tokens && var r := s.tokens[raw];
         if r.revokedAt.Some? then s.tokens[t].family == r.family
         else if r.expiresAt <= c.now then t == raw
         else if r.user !in s.active then s.tokens[t].family == r.family
         else t == raw && replacement !in s.tokens
       case Logout(raw) => t == raw
       case LogoutAll(user) => s.tokens[t].user == user
       case _ => false
  }

  /** Exactly which rows a call revokes, and when; and what it answers. */
  lemma {:induction false} RevokedIff(s: Store, c: Call, ttl: int, t: TokenId)
    requires t in s.tokens && s.tokens[t].revokedAt.None?
    ensures t in Step(s, c, ttl).store.tokens
    ensures Step(s, c, ttl).store.tokens[t].revokedAt == if Revokes(s, c, t) then Some(c.now) else None
  {
  }

  /** What a call answers: a refused rotation is unauthorized, logouts are done, and a clash of ids is a fault. */
  lemma {:induction false} CallsAnswer(s: Store, c: Call, ttl: int)
    ensures c.crashes ==> Step(s, c, ttl).outcome == Fault && Step(s, c, ttl).store == s
    ensures !c.crashes && (c.op.Logout? || c.op.LogoutAll? || c.op.SetActive?) ==> Step(s, c, ttl).outcome == Done
    ensures !c.crashes && c.op.Refresh? ==>
              (Step(s, c, ttl).outcome == Unauthorized <==>
               || c.op.raw !in s.tokens || s.tokens[c.op.raw].revokedAt.Some?
               || s.tokens[c.op.raw].expiresAt <= c.now || s.tokens[c.op.raw].user !in s.active)
    ensures forall user :: user in Step(s, c, ttl).store.active <==>
              if c.op.SetActive? && c.op.user == user && !c.crashes then c.op.isActive else user in s.active
  {
  }

  // ----- Dead families stay dead -----

  /** The calls that end a family, read off the tables before the call. */
  ghost predicate Ends(s: Store, c: Call, family: FamilyId) {
    && !c.crashes
    && match c.op
       case Refresh(raw, _) =>
         && raw in s.tokens && s.tokens[raw].family == family
         && (!s.tokens[raw].Live() || s.tokens[raw].expiresAt <= c.now || s.tokens[raw].user !in s.active)
       case Logout(raw) =>
         raw in s.tokens && s.tokens[raw].family == family && s.tokens[raw].Live()
       case LogoutAll(user) =>
         exists t :: t in s.tokens && s.tokens[t].family == family && s.tokens[t].user == user
       case _ => false
  }

  /**
   A family survives a call exactly when it was alive and the call is not a replay, an expired
   or disabled-user rotation, a logout of its live token, or a logout-all of its user.
   In particular a logout with an already replaced token does not end it.
   */
  lemma {:induction false} FamilySurvivesIff(s: Store, c: Call, ttl: int, family: FamilyId)
    requires AllChains(s.tokens) && FreshFamily(s, c.op) && Known(s, family)
    ensures Alive(Step(s, c, ttl).store, family) <==> Alive(s, family) && !Ends(s, c, family)
  {
    if Alive(s, family) {
      var t :| t in s.tokens && s.tokens[t].family == family && s.tokens[t].Live();
      forall u | u in s.tokens && s.tokens[u].family == family
        ensures s.tokens[u].user == s.tokens[t].user && (s.tokens[u].Live() ==> u == t)
      {
        ChainShape(s.tokens, t, u);
      }
      LiveTokenDecides(s, c, ttl, t);
    } else {
      DeadFamilyStep(s, c, ttl, family);
      StaysDead(s, Step(s, c, ttl).store, family);
    }
  }

  lemma {:induction false} LiveTokenDecides(s: Store, c: Call, ttl: int, t: TokenId)
    requires FreshFamily(s, c.op) && t in s.tokens && s.tokens[t].Live()
    requires forall u :: u in s.tokens && s.tokens[u].family == s.tokens[t].family ==>
               s.tokens[u].user == s.tokens[t].user && (s.tokens[u].Live() ==> u == t)
    ensures Alive(Step(s, c, ttl).store, s.tokens[t].family) <==> !Ends(s, c, s.tokens[t].family)
  {
    var after, family := Step(s, c, ttl).store, s.tokens[t].family;
    if Accepts(s, c, t, ttl) {
      var next := c.op.replacement;
      assert next in after.tokens && after.tokens[next].family == family && after.tokens[next].Live();
    } else {
      assert forall u :: u in after.tokens && after.tokens[u].family == family ==> u in s.tokens;
      assert t in after.tokens && after.tokens[t].family == family;
      assert after.tokens[t].Live() <==> !Ends(s, c, family);
    }
  }

  lemma {:induction false} StaysDead(before: Store, after: Store, family: FamilyId)
    requires !Alive(before, family) && Family(after, family) == Family(before, family)
    ensures !Alive(after, family)
  {
    forall t | t in after.tokens && after.tokens[t].family == family ensures !after.tokens[t].Live() {
      assert t in Family(after, family);
      assert Family(after, family)[t] == Family(before, family)[t];
    }
  }

  /** The rows of one family. */
  ghost function Family(s: Store, family: FamilyId): Tokens {
    map t | t in s.tokens && s.tokens[t].family == family :: s.tokens[t]
  }

  /** Over every run, a family with no live token never changes again and none of its tokens is accepted. */
  lemma {:induction false} DeadFamiliesStayDead(ss: seq<Store>, cs: seq<Call>, ttl: int, family: FamilyId, i: nat,
                                                j: nat)
    requires IsRun(ss, cs, ttl) && i <= j < |ss|
    requires Known(ss[i], family) && !Alive(ss[i], family)
    ensures Family(ss[j], family) == Family(ss[i], family)
    ensures j < |cs| ==> !IssuesIn(ss[j], cs[j], family, ttl)
    ensures !Alive(ss[j], family)
    decreases j - i
  {
    var known :| known in ss[i].tokens && ss[i].tokens[known].family == family;
    assert known in Family(ss[i], family);
    if i < j {
      DeadFamiliesStayDead(ss, cs, ttl, family, i, j - 1);
      assert Family(ss[j - 1], family) == Family(ss[j], family) by {
        DeadFamilyStep(ss[j - 1], cs[j - 1], ttl, family);
      }
    }
    forall t | t in ss[j].tokens && ss[j].tokens[t].family == family ensures !ss[j].tokens[t].Live() {
      assert Family(ss[j], family)[t] == Family(ss[i], family)[t];
    }
    assert known in Family(ss[j], family);
  }

  lemma {:induction false} DeadFamilyStep(s: Store, c: Call, ttl: int, family: FamilyId)
    requires FreshFamily(s, c.op) && Known(s, family) && !Alive(s, family)
    ensures Family(Step(s, c, ttl).store, family) == Family(s, family)
  {
  }

  /**
   Replay, logout of the live token, logout-all and rotation for a disabled user or of an expired
   token each end the family for good, although the rotation itself answered with an error.
   */
  lemma {:induction false} EndedFamilyIssuesNothing(ss: seq<Store>, cs: seq<Call>, ttl: int, family: FamilyId, i: nat,
                                                    j: nat)
    requires IsRun(ss, cs, ttl) && i < j < |cs|
    requires Known(ss[i], family) && Ends(ss[i], cs[i], family)
    ensures Step(ss[i], cs[i], ttl).outcome in {Unauthorized, Done}
    ensures !Alive(ss[i + 1], family) && !IssuesIn(ss[j], cs[j], family, ttl)
  {
    FamiliesAreChains(ss, cs, ttl, i);
    FamilySurvivesIff(ss[i], cs[i], ttl, family);
    var t :| t in ss[i].tokens && ss[i].tokens[t].family == family;
    assert t in ss[i + 1].tokens && ss[i + 1].tokens[t].family == family by {
      RowsAreWrittenOnce(ss, cs, ttl, i, i + 1, t);
    }
    DeadFamiliesStayDead(ss, cs, ttl, family, i + 1, j);
  }

  // ----- Idle families expire -----

  /** Every token was issued by an earlier call of its family and expires one lifetime later. */
  lemma {:induction false} TokensWereIssued(ss: seq<Store>, cs: seq<Call>, ttl: int, k: nat, t: TokenId)
    returns (m: nat)
    requires IsRun(ss, cs, ttl) && k < |ss| && t in ss[k].tokens
    ensures m < k && IssuesIn(ss[m], cs[m], ss[k].tokens[t].family, ttl)
    ensures Step(ss[m], cs[m], ttl).outcome == Issued(t)
    ensures ss[k].tokens[t].expiresAt == cs[m].now + ttl
  {
    if t in ss[k - 1].tokens {
      m := TokensWereIssued(ss, cs, ttl, k - 1, t);
      RowsAreWrittenOnce(ss, cs, ttl, k - 1, k, t);
    } else {
      m := k - 1;
    }
  }

  /**
   A rotation is accepted only while the family's last issue is younger than the lifetime: once every
   issue in the family is at least `ttl` old, no later rotation in it ever succeeds.
   */
  lemma {:induction false} IdleFamilyNeverResumes(ss: seq<Store>, cs: seq<Call>, ttl: int, family: FamilyId, j: nat,
                                                  k: nat)
    requires IsRun(ss, cs, ttl) && ClockIsMonotone(cs)
    requires j <= k < |cs| && Known(ss[j], family)
    requires forall m :: 0 <= m < j && IssuesIn(ss[m], cs[m], family, ttl) ==> cs[m].now + ttl <= cs[j].now
    ensures !IssuesIn(ss[k], cs[k], family, ttl)
    decreases k
  {
    forall m | j <= m < k ensures !IssuesIn(ss[m], cs[m], family, ttl) {
      IdleFamilyNeverResumes(ss, cs, ttl, family, j, m);
    }
    if IssuesIn(ss[k], cs[k], family, ttl) {
      if cs[k].op.Refresh? {
        var m := TokensWereIssued(ss, cs, ttl, k, cs[k].op.raw);
      } else {
        var t :| t in ss[j].tokens && ss[j].tokens[t].family == family;
        RowsAreWrittenOnce(ss, cs, ttl, j, k, t);
      }
    }
  }

  // ----- These things do happen -----

  lemma {:induction false} Extend(ss: seq<Store>, cs: seq<Call>, op: Operation, ttl: int)
    returns (ss': seq<Store>, cs': seq<Call>)
    requires IsRun(ss, cs, ttl) && FreshFamily(ss[|cs|], op)
    ensures IsRun(ss', cs', ttl) && |cs'| == |cs| + 1 && cs'[|cs|].op == op
    ensures cs' == cs + [Call(op, 0, false)] && ss' == ss + [Step(ss[|cs|], Call(op, 0, false), ttl).store]
  {
    ss', cs' := ss + [Step(ss[|cs|], Call(op, 0, false), ttl).store], cs + [Call(op, 0, false)];
  }

  /** Login, refresh, and logout with the token that was replaced: the session is still alive. */
  lemma {:induction false} LogoutWithReplacedTokenKeepsSession(ttl: int) returns (ss: seq<Store>, cs: seq<Call>)
    requires ttl > 0
    ensures IsRun(ss, cs, ttl) && |cs| == 4
    ensures cs[1].op == Login(0, 1, 0) && cs[2].op == Refresh(1, 2) && cs[3].op == Logout(1)
    ensures Alive(ss[4], 0) && 2 in ss[4].tokens && ss[4].tokens[2].Live()
  {
    ss, cs := [Store(map[], {})], [];
    ss, cs := Extend(ss, cs, SetActive(0, true), ttl);
    ss, cs := Extend(ss, cs, Login(0, 1, 0), ttl);
    ss, cs := Extend(ss, cs, Refresh(1, 2), ttl);
    ss, cs := Extend(ss, cs, Logout(1), ttl);
    assert ss[4].tokens[2] == Token(0, 0, ttl, None, None);
  }
}
