// Rotation of refresh tokens: src/domain/services/auth_service.rs. Records are
// keyed by the token itself, because the hash of a token names it.
module Tokens {
  import opened Results
  import opened Time
  import opened Runs

  type RefreshToken = nat
  type FamilyId = nat
  type UserId = nat

  datatype Record = Record(user: UserId, family: FamilyId, generation: nat, expiresAt: Instant)

  // `nextId` stands for the random tokens and family ids; `issued` counts the
  // tokens issued for each family.
  datatype State = State(records: map<RefreshToken, Record>, nextId: nat, issued: map<FamilyId, nat>)

  const LIFETIME := 7 * DAY

  // ---------- One call at a time ----------

  function Issue(s: State, user: UserId, family: FamilyId, generation: nat, now: Instant): State {
    State(s.records[s.nextId := Record(user, family, generation, now + LIFETIME)], s.nextId + 1,
          s.issued[family := if family in s.issued then s.issued[family] + 1 else 1])
  }

  function LoggedIn(s: State, user: UserId, now: Instant): State {
    Issue(s.(nextId := s.nextId + 1), user, s.nextId, 1, now)
  }

  predicate Accepts(s: State, token: RefreshToken, now: Instant) {
    token in s.records && s.records[token].expiresAt >= now
  }

  // An expired token is deleted as well; `issues` tells whether the new pair
  // could be made.
  function Refreshed(s: State, token: RefreshToken, user: UserId, now: Instant, issues: bool): State {
    var spent := s.(records := s.records - {token});
    if Accepts(s, token, now) && issues
    then Issue(spent, user, s.records[token].family, s.records[token].generation + 1, now)
    else spent
  }

  class AuthService {
    var records: map<RefreshToken, Record>
    var nextId: nat
    ghost var issued: map<FamilyId, nat>

    constructor ()
      ensures View() == State(map[], 0, map[])
    {
      records, nextId, issued := map[], 0, map[];
    }

    ghost function View(): State
      reads this
    {
      State(records, nextId, issued)
    }

    method Login(user: UserId, now: Instant) returns (token: RefreshToken)
      modifies this
      ensures View() == LoggedIn(old(View()), user, now)
      ensures token in records && records[token] == Record(user, old(nextId), 1, now + LIFETIME)
    {
      var family := nextId;
      nextId := nextId + 1;
      token := IssueTokenPair(user, family, 1, now);
    }

    method Refresh(raw: RefreshToken, user: UserId, now: Instant, issues: bool) returns (r: Result<RefreshToken>)
      modifies this
      ensures View() == Refreshed(old(View()), raw, user, now, issues)
      ensures r.Ok? <==> Accepts(old(View()), raw, now) && issues
      ensures !Accepts(old(View()), raw, now) ==> r == Err(Unauthorized)
      ensures r.Ok? ==> r.value == old(nextId) && r.value in records
    {
      if raw !in records {
        assert records - {raw} == records;
        return Err(Unauthorized);
      }
      var record := records[raw];
      if record.expiresAt < now {
        records := records - {raw};
        return Err(Unauthorized);
      }
      records := records - {raw};
      if !issues {
        return Err(Internal);
      }
      var token := IssueTokenPair(user, record.family, record.generation + 1, now);
      r := Ok(token);
    }

    method Logout(raw: RefreshToken)
      modifies this
      ensures View() == old(View()).(records := old(records) - {raw})
    {
      records := records - {raw};
    }

    method IssueTokenPair(user: UserId, family: FamilyId, generation: nat, now: Instant) returns (token: RefreshToken)
      modifies this
      ensures View() == Issue(old(View()), user, family, generation, now) && token == old(nextId)
    {
      token := nextId;
      records := records[token := Record(user, family, generation, now + LIFETIME)];
      issued := issued[family := if family in issued then issued[family] + 1 else 1];
      nextId := nextId + 1;
    }
  }

  datatype Call =
    | Login(user: UserId, now: Instant)
    | Refresh(token: RefreshToken, user: UserId, now: Instant, issues: bool)
    | Logout(token: RefreshToken)

  function Step(s: State, call: Call): State {
    match call
    case Login(user, now) => LoggedIn(s, user, now)
    case Refresh(token, user, now, issues) => Refreshed(s, token, user, now, issues)
    case Logout(token) => s.(records := s.records - {token})
  }

  // A family has one live token at most, and its generation counts the tokens
  // issued for the family.
  ghost predicate Inv(s: State) {
    && (forall t :: t in s.records ==> t < s.nextId && s.records[t].family < s.nextId)
    && (forall f :: f in s.issued ==> f < s.nextId)
    && (forall t :: t in s.records ==>
          s.records[t].family in s.issued && s.records[t].generation == s.issued[s.records[t].family])
    && (forall t, u :: t in s.records && u in s.records && s.records[t].family == s.records[u].family ==> t == u)
  }

  ghost predicate Run(run: seq<State>, calls: seq<Call>) {
    Trace(StepRelation(), run, calls) && run[0] == State(map[], 0, map[])
  }

  function StepRelation(): (State, State, Call) -> bool {
    (s: State, s': State, call: Call) => s' == Step(s, call)
  }

  lemma StepsKeepInv()
    ensures Keeps(Inv, StepRelation())
  {
    forall s, s', call | Inv(s) && StepRelation()(s, s', call) ensures Inv(s') {
      StepKeepsInv(s, call);
    }
  }

  // Serial rotation: at every moment a family has at most one live token, of
  // the generation that counts the tokens issued for it.
  lemma OneLiveToken(run: seq<State>, calls: seq<Call>, n: nat)
    requires Run(run, calls) && n < |run|
    ensures Inv(run[n])
  {
    StepsKeepInv();
    Invariant(Inv, StepRelation(), run, calls, n);
  }

  lemma StepKeepsInv(s: State, call: Call)
    requires Inv(s)
    ensures Inv(Step(s, call))
    ensures Step(s, call).nextId >= s.nextId
    ensures forall t :: t < s.nextId && t in Step(s, call).records ==> t in s.records
  {
  }

  // A token that was spent, expired or logged out is never accepted again.
  lemma {:induction false} SpentStaysSpent(run: seq<State>, calls: seq<Call>, m: nat, n: nat, token: RefreshToken,
      now: Instant)
    requires Run(run, calls) && m < n < |run| && token in run[m].records
    requires calls[m] == Logout(token) || (calls[m].Refresh? && calls[m].token == token)
    ensures token < run[n].nextId && token !in run[n].records && !Accepts(run[n], token, now)
    decreases n
  {
    OneLiveToken(run, calls, n - 1);
    StepKeepsInv(run[n - 1], calls[n - 1]);
    assert StepRelation()(run[n - 1], run[n], calls[n - 1]);
    if m < n - 1 {
      SpentStaysSpent(run, calls, m, n - 1, token, now);
    }
  }

  // ---------- Two refreshes at once ----------

  // `refresh` in its two halves: the record is found first, deleted and
  // replaced later.
  function Rotate(s: State, token: RefreshToken, found: Record, now: Instant): State {
    Issue(s.(records := s.records - {token}), found.user, found.family, found.generation + 1, now)
  }

  // When both halves run without a pause, they are the refresh.
  lemma RotateIsRefresh(s: State, token: RefreshToken, now: Instant)
    requires Accepts(s, token, now)
    ensures Rotate(s, token, s.records[token], now) == Refreshed(s, token, s.records[token].user, now, true)
  {
  }

  // The write half keeps one live token per family exactly when the family
  // has no other live token by then.
  lemma RotateExact(s: State, token: RefreshToken, found: Record, now: Instant)
    requires Inv(s) && token < s.nextId && found.family in s.issued
    requires token in s.records ==> s.records[token] == found
    requires found.generation <= s.issued[found.family]
    ensures var after := Rotate(s, token, found, now);
            (forall t, u ::
              t in after.records && u in after.records && after.records[t].family == after.records[u].family ==> t == u)
            <==> forall t :: t in s.records && s.records[t].family == found.family ==> t == token
  {
    var after := Rotate(s, token, found, now);
    if t :| t in s.records && s.records[t].family == found.family && t != token {
      assert t in after.records && s.nextId in after.records
               && after.records[t].family == after.records[s.nextId].family;
    }
  }

  // Two refreshes that both found the same token leave two live tokens.
  lemma TwoRefreshesFork(user: UserId, now: Instant)
    ensures var s := LoggedIn(State(map[], 0, map[]), user, now);
            var found := s.records[1];
            var after := Rotate(Rotate(s, 1, found, now), 1, found, now);
            && Inv(s) && Accepts(s, 1, now)
            && 2 in after.records && 3 in after.records
            && after.records[2].family == after.records[3].family
            && after.records[2].generation == after.records[3].generation
  {
  }
}
