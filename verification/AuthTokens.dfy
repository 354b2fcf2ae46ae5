/**
 Refresh and reset tokens as concurrent requests use them: lookups, conditional deletes and inserts interleave.

 Token columns are unique and new tokens are random, so the tables are keyed by the stored hash and a hash
 is never issued twice. Passwords are compared through `secret`, which stands for the stored hash.
 */
module AuthTokens {
  import opened Wrappers
  import opened Store

  datatype Token = Token(admin: Id, expiresAt: int)

  datatype Tables = Tables(passwords: map<Id, string>, refresh: map<string, Token>, reset: map<string, Token>)

  /** The one-way functions: of tokens, and of passwords. */
  datatype Hashes = Hashes(hash: string -> string, secret: string -> string)

  /** A request. `source` is the refresh token it exchanged, or `None` after a login with a password. */
  datatype Req =
    | Refreshing(token: string)
    | FoundRefresh(token: string, found: Token)
    | Owed(admin: Id, source: Option<string>)
    | Issued(admin: Id, source: Option<string>, next: string)
    | Resetting(token: string, password: string)
    | FoundReset(token: string, found: Token, password: string)
    | Changed(token: string)
    | Refused

  /** `issued` are the hashes of all tokens ever made. */
  datatype State = State(tables: Tables, issued: set<string>, reqs: map<nat, Req>)

  datatype Action =
    | Begin(c: nat, req: Req)
    | Login(c: nat, admin: Id, password: string)
    | Lookup(c: nat)
    | Exchange(c: nat, now: int)
    | Create(c: nat, token: string, expiresAt: int)
    | Forgot(admin: Id, token: string, expiresAt: int)
    | LookupReset(c: nat, now: int)
    | Commit(c: nat)
    | Logout(token: string)

  function OfAdmin(tokens: map<string, Token>, admin: Id): set<string> {
    set h | h in tokens && tokens[h].admin == admin
  }

  function Put(s: State, c: nat, req: Req): State {
    s.(reqs := s.reqs[c := req])
  }

  /** `deleteMany`: whether the row was there is what counts. */
  function ExchangeStep(h: Hashes, s: State, c: nat, token: string, found: Token, now: int): State {
    var key := h.hash(token);
    var deleted := s.(tables := s.tables.(refresh := s.tables.refresh - {key}));
    if found.expiresAt < now || key !in s.tables.refresh then Put(deleted, c, Refused)
    else Put(deleted, c, Owed(found.admin, Some(token)))
  }

  /** The reset transaction: the token goes, the password changes, and the admin's refresh tokens go. */
  function CommitStep(h: Hashes, s: State, c: nat, token: string, found: Token, password: string): State {
    var key := h.hash(token);
    if key !in s.tables.reset then Put(s, c, Refused)
    else
      var t := s.tables;
      Put(s.(tables := Tables(t.passwords[found.admin := h.secret(password)],
          t.refresh - OfAdmin(t.refresh, found.admin), t.reset - {key})),
          c, Changed(token))
  }

  function Step(h: Hashes, s: State, action: Action): Option<State> {
    match action
    case Begin(c, req) => if c !in s.reqs && (req.Refreshing? || req.Resetting?) then Some(Put(s, c, req)) else None
    case Login(c, admin, password) =>
      if c !in s.reqs && admin in s.tables.passwords && s.tables.passwords[admin] == h.secret(password)
      then Some(Put(s, c, Owed(admin, None))) else None
    case Lookup(c) =>
      if c in s.reqs && s.reqs[c].Refreshing? then
        var key := h.hash(s.reqs[c].token);
        Some(Put(s, c, if key in s.tables.refresh then FoundRefresh(s.reqs[c].token, s.tables.refresh[key])
          else Refused))
      else None
    case Exchange(c, now) =>
      if c in s.reqs && s.reqs[c].FoundRefresh? then Some(ExchangeStep(h, s, c, s.reqs[c].token, s.reqs[c].found, now))
        else None
    case Create(c, token, expiresAt) =>
      if c in s.reqs && s.reqs[c].Owed? && h.hash(token) !in s.issued then
        var req := s.reqs[c];
        Some(State(s.tables.(refresh := s.tables.refresh[h.hash(token) := Token(req.admin, expiresAt)]),
                   s.issued + {h.hash(token)},
                   s.reqs[c := Issued(req.admin, req.source, token)]))
      else None
    case Forgot(admin, token, expiresAt) =>
      if admin in s.tables.passwords && h.hash(token) !in s.issued then
        Some(s.(tables := s.tables.(reset := s.tables.reset[h.hash(token) := Token(admin, expiresAt)]),
            issued := s.issued + {h.hash(token)}))
      else None
    case LookupReset(c, now) =>
      if c in s.reqs && s.reqs[c].Resetting? then
        var Resetting(token, password) := s.reqs[c];
        var key := h.hash(token);
        Some(Put(s, c, if key in s.tables.reset && now <= s.tables.reset[key].expiresAt
                       then FoundReset(token, s.tables.reset[key], password) else Refused))
      else None
    case Commit(c) =>
      if c in s.reqs && s.reqs[c].FoundReset?
        then Some(CommitStep(h, s, c, s.reqs[c].token, s.reqs[c].found, s.reqs[c].password)) else None
    case Logout(token) => Some(s.(tables := s.tables.(refresh := s.tables.refresh - {h.hash(token)})))
  }

  function Run(h: Hashes, s: State, actions: seq<Action>): Option<State>
    decreases actions
  {
    if actions == [] then Some(s)
    else
      var next := Step(h, s, actions[0]);
      if next.Some? then Run(h, next.value, actions[1..]) else None
  }

  // At most once

  /** The refresh token the request has exchanged, as it was stored. */
  function Spent(h: Hashes, req: Req): Option<string> {
    if (req.Owed? || req.Issued?) && req.source.Some? then Some(h.hash(req.source.value)) else None
  }

  /** The reset token the request has changed a password with. */
  function SpentReset(h: Hashes, req: Req): Option<string> {
    if req.Changed? then Some(h.hash(req.token)) else None
  }

  /** An exchanged token is gone for good, and no two requests exchanged one. */
  ghost predicate RefreshOnce(h: Hashes, refresh: map<string, Token>, issued: set<string>, reqs: map<nat, Req>) {
    && refresh.Keys <= issued
    && (forall c :: c in reqs && Spent(h, reqs[c]).Some? ==> Spent(h, reqs[c]).value in issued - refresh.Keys)
    && forall c, d :: c in reqs && d in reqs && c != d && Spent(h, reqs[c]).Some? ==>
        Spent(h, reqs[c]) != Spent(h, reqs[d])
  }

  ghost predicate ResetOnce(h: Hashes, reset: map<string, Token>, issued: set<string>, reqs: map<nat, Req>) {
    && reset.Keys <= issued
    && (forall c :: c in reqs && SpentReset(h, reqs[c]).Some? ==> SpentReset(h, reqs[c]).value in issued - reset.Keys)
    && forall c, d :: c in reqs && d in reqs && c != d && SpentReset(h, reqs[c]).Some? ==>
        SpentReset(h, reqs[c]) != SpentReset(h, reqs[d])
  }

  ghost predicate UsedOnce(h: Hashes, s: State) {
    RefreshOnce(h, s.tables.refresh, s.issued, s.reqs) && ResetOnce(h, s.tables.reset, s.issued, s.reqs)
  }

  /** A request moves on without spending anything new; tokens go, or are new. */
  lemma RefreshStays(h: Hashes, refresh: map<string, Token>, issued: set<string>, reqs: map<nat, Req>,
                     refresh': map<string, Token>, issued': set<string>, c: nat, req: Req)
    requires RefreshOnce(h, refresh, issued, reqs)
    requires issued <= issued' && refresh'.Keys <= issued'
    requires forall key :: key in refresh' ==> key in refresh || key !in issued
    requires Spent(h, req) == if c in reqs then Spent(h, reqs[c]) else None
    ensures RefreshOnce(h, refresh', issued', reqs[c := req])
  {
  }

  lemma RefreshTokensChange(h: Hashes, refresh: map<string, Token>, issued: set<string>, reqs: map<nat, Req>,
                            refresh': map<string, Token>, issued': set<string>)
    requires RefreshOnce(h, refresh, issued, reqs)
    requires issued <= issued' && refresh'.Keys <= issued'
    requires forall key :: key in refresh' ==> key in refresh || key !in issued
    ensures RefreshOnce(h, refresh', issued', reqs)
  {
  }

  lemma ResetStays(h: Hashes, reset: map<string, Token>, issued: set<string>, reqs: map<nat, Req>,
                   reset': map<string, Token>, issued': set<string>, c: nat, req: Req)
    requires ResetOnce(h, reset, issued, reqs)
    requires issued <= issued' && reset'.Keys <= issued'
    requires forall key :: key in reset' ==> key in reset || key !in issued
    requires SpentReset(h, req) == if c in reqs then SpentReset(h, reqs[c]) else None
    ensures ResetOnce(h, reset', issued', reqs[c := req])
  {
  }

  lemma ResetTokensChange(h: Hashes, reset: map<string, Token>, issued: set<string>, reqs: map<nat, Req>,
                          reset': map<string, Token>, issued': set<string>)
    requires ResetOnce(h, reset, issued, reqs)
    requires issued <= issued' && reset'.Keys <= issued'
    requires forall key :: key in reset' ==> key in reset || key !in issued
    ensures ResetOnce(h, reset', issued', reqs)
  {
  }

  /** Spending a stored token, which goes with it. */
  lemma RefreshSpends(h: Hashes, refresh: map<string, Token>, issued: set<string>, reqs: map<nat, Req>, c: nat,
                      req: Req)
    requires RefreshOnce(h, refresh, issued, reqs) && Spent(h, req).Some? && Spent(h, req).value in refresh
    ensures RefreshOnce(h, refresh - {Spent(h, req).value}, issued, reqs[c := req])
  {
  }

  lemma ResetSpends(h: Hashes, reset: map<string, Token>, issued: set<string>, reqs: map<nat, Req>, c: nat, req: Req)
    requires ResetOnce(h, reset, issued, reqs) && SpentReset(h, req).Some? && SpentReset(h, req).value in reset
    ensures ResetOnce(h, reset - {SpentReset(h, req).value}, issued, reqs[c := req])
  {
  }

  lemma StepKeepsRefreshOnce(h: Hashes, s: State, action: Action)
    requires UsedOnce(h, s) && Step(h, s, action).Some?
    ensures var s' := Step(h, s, action).value; RefreshOnce(h, s'.tables.refresh, s'.issued, s'.reqs)
  {
    var s' := Step(h, s, action).value;
    var t, t' := s.tables.refresh, s'.tables.refresh;
    if action.Exchange? && s'.reqs[action.c].Owed? {
      RefreshSpends(h, t, s.issued, s.reqs, action.c, s'.reqs[action.c]);
    } else if action.Forgot? || action.Logout? {
      RefreshTokensChange(h, t, s.issued, s.reqs, t', s'.issued);
    } else {
      RefreshStays(h, t, s.issued, s.reqs, t', s'.issued, action.c, s'.reqs[action.c]);
    }
  }

  lemma StepKeepsResetOnce(h: Hashes, s: State, action: Action)
    requires UsedOnce(h, s) && Step(h, s, action).Some?
    ensures var s' := Step(h, s, action).value; ResetOnce(h, s'.tables.reset, s'.issued, s'.reqs)
  {
    var s' := Step(h, s, action).value;
    var t, t' := s.tables.reset, s'.tables.reset;
    if action.Commit? && s'.reqs[action.c].Changed? {
      ResetSpends(h, t, s.issued, s.reqs, action.c, s'.reqs[action.c]);
    } else if action.Forgot? || action.Logout? {
      ResetTokensChange(h, t, s.issued, s.reqs, t', s'.issued);
    } else {
      ResetStays(h, t, s.issued, s.reqs, t', s'.issued, action.c, s'.reqs[action.c]);
    }
  }

  // Sessions

  function OwedTo(reqs: map<nat, Req>, admin: Id): set<nat> {
    set c | c in reqs && reqs[c].Owed? && reqs[c].admin == admin
  }

  /** The refresh tokens an admin has, with those still to be created for running requests. */
  function Sessions(s: State, admin: Id): nat {
    |OfAdmin(s.tables.refresh, admin)| + |OwedTo(s.reqs, admin)|
  }

  /** The requests in which the admin gave the password. */
  function Logins(reqs: map<nat, Req>, admin: Id): set<nat> {
    set c | c in reqs && (reqs[c].Owed? || reqs[c].Issued?) && reqs[c].source.None? && reqs[c].admin == admin
  }

  /** Between two states, an admin has gained no more sessions than logins. */
  predicate NoFreeSession(s: State, s': State, admin: Id) {
    Sessions(s', admin) + |Logins(s.reqs, admin)| <= Sessions(s, admin) + |Logins(s'.reqs, admin)|
  }

  lemma LoginSessions(h: Hashes, s: State, c: nat, a: Id, password: string, admin: Id)
    requires Step(h, s, Login(c, a, password)).Some?
    ensures NoFreeSession(s, Step(h, s, Login(c, a, password)).value, admin)
  {
    var s' := Step(h, s, Login(c, a, password)).value;
    if a == admin {
      assert OwedTo(s'.reqs, admin) == OwedTo(s.reqs, admin) + {c};
      assert Logins(s'.reqs, admin) == Logins(s.reqs, admin) + {c};
    } else {
      assert OwedTo(s'.reqs, admin) == OwedTo(s.reqs, admin);
      assert Logins(s'.reqs, admin) == Logins(s.reqs, admin);
    }
  }

  lemma OtherSessions(h: Hashes, s: State, action: Action, admin: Id)
    requires Step(h, s, action).Some? && !action.Login? && !action.Exchange? && !action.Create?
    ensures NoFreeSession(s, Step(h, s, action).value, admin)
  {
    var s' := Step(h, s, action).value;
    assert OwedTo(s'.reqs, admin) == OwedTo(s.reqs, admin);
    assert Logins(s'.reqs, admin) == Logins(s.reqs, admin);
    SubsetSize(OfAdmin(s'.tables.refresh, admin), OfAdmin(s.tables.refresh, admin));
  }

  /** A step adds a session only with a login. */
  lemma StepSessions(h: Hashes, s: State, action: Action, admin: Id)
    requires Step(h, s, action).Some? && FoundStays(h, s)
    ensures NoFreeSession(s, Step(h, s, action).value, admin)
  {
    match action
    case Login(c, a, password) => LoginSessions(h, s, c, a, password, admin);
    case Exchange(c, now) => ExchangeSessions(h, s, c, now, admin);
    case Create(c, token, expiresAt) => CreateSessions(h, s, c, token, expiresAt, admin);
    case _ => OtherSessions(h, s, action, admin);
  }

  /** A row found and still stored is the row that was found. */
  ghost predicate FoundStays(h: Hashes, s: State) {
    forall c :: c in s.reqs && s.reqs[c].FoundRefresh? ==>
      h.hash(s.reqs[c].token) in s.issued
      && (h.hash(s.reqs[c].token) in s.tables.refresh ==> s.tables.refresh[h.hash(s.reqs[c].token)] == s.reqs[c].found)
  }

  lemma StepKeepsFound(h: Hashes, s: State, action: Action)
    requires FoundStays(h, s) && s.tables.refresh.Keys <= s.issued && Step(h, s, action).Some?
    ensures FoundStays(h, Step(h, s, action).value)
    ensures Step(h, s, action).value.tables.refresh.Keys <= Step(h, s, action).value.issued
  {
  }

  lemma ExchangeOwes(reqs: map<nat, Req>, reqs': map<nat, Req>, c: nat, admin: Id)
    requires c in reqs && reqs[c].FoundRefresh? && c in reqs' && reqs' == reqs[c := reqs'[c]]
    ensures |OwedTo(reqs', admin)| == |OwedTo(reqs, admin)| + if reqs'[c].Owed? && reqs'[c].admin == admin then 1 else 0
  {
    if reqs'[c].Owed? && reqs'[c].admin == admin {
      assert OwedTo(reqs', admin) == OwedTo(reqs, admin) + {c};
    } else {
      assert OwedTo(reqs', admin) == OwedTo(reqs, admin);
    }
  }

  lemma ExchangeIsNoLogin(reqs: map<nat, Req>, reqs': map<nat, Req>, c: nat, admin: Id)
    requires c in reqs && reqs[c].FoundRefresh? && c in reqs' && reqs' == reqs[c := reqs'[c]]
    requires reqs'[c] == Refused || (reqs'[c].Owed? && reqs'[c].source.Some?)
    ensures Logins(reqs', admin) == Logins(reqs, admin)
  {
  }

  lemma ExchangeTokens(refresh: map<string, Token>, key: string, admin: Id)
    ensures |OfAdmin(refresh - {key}, admin)| + (if key in refresh && refresh[key].admin == admin then 1 else 0)
        == |OfAdmin(refresh, admin)|
  {
    if key in refresh && refresh[key].admin == admin {
      assert OfAdmin(refresh, admin) == OfAdmin(refresh - {key}, admin) + {key};
    } else {
      assert OfAdmin(refresh, admin) == OfAdmin(refresh - {key}, admin);
    }
  }

  lemma ExchangeSessions(h: Hashes, s: State, c: nat, now: int, admin: Id)
    requires FoundStays(h, s) && Step(h, s, Exchange(c, now)).Some?
    ensures NoFreeSession(s, Step(h, s, Exchange(c, now)).value, admin)
  {
    var s' := Step(h, s, Exchange(c, now)).value;
    ExchangeOwes(s.reqs, s'.reqs, c, admin);
    ExchangeIsNoLogin(s.reqs, s'.reqs, c, admin);
    ExchangeTokens(s.tables.refresh, h.hash(s.reqs[c].token), admin);
  }

  lemma CreateOwed(s: State, s': State, c: nat, req: Req, admin: Id)
    requires c in s.reqs && s.reqs[c].Owed? && s'.reqs == s.reqs[c := req]
    requires req.Issued? && req.admin == s.reqs[c].admin && req.source == s.reqs[c].source
    ensures |OwedTo(s'.reqs, admin)| + (if s.reqs[c].admin == admin then 1 else 0) == |OwedTo(s.reqs, admin)|
    ensures Logins(s'.reqs, admin) == Logins(s.reqs, admin)
  {
    if s.reqs[c].admin == admin {
      assert OwedTo(s.reqs, admin) == OwedTo(s'.reqs, admin) + {c};
    } else {
      assert OwedTo(s'.reqs, admin) == OwedTo(s.reqs, admin);
    }
  }

  lemma CreateTokens(refresh: map<string, Token>, key: string, token: Token, admin: Id)
    ensures |OfAdmin(refresh[key := token], admin)| <= |OfAdmin(refresh, admin)| + if token.admin == admin then 1 else 0
  {
    if token.admin == admin {
      assert OfAdmin(refresh[key := token], admin) == OfAdmin(refresh, admin) + {key};
    } else {
      assert OfAdmin(refresh[key := token], admin) == OfAdmin(refresh, admin) - {key};
    }
  }

  lemma CreateSessions(h: Hashes, s: State, c: nat, token: string, expiresAt: int, admin: Id)
    requires Step(h, s, Create(c, token, expiresAt)).Some?
    ensures NoFreeSession(s, Step(h, s, Create(c, token, expiresAt)).value, admin)
  {
    var s' := Step(h, s, Create(c, token, expiresAt)).value;
    CreateOwed(s, s', c, s'.reqs[c], admin);
    CreateTokens(s.tables.refresh, h.hash(token), Token(s.reqs[c].admin, expiresAt), admin);
  }

  // Every run

  lemma {:induction false} RunKeepsUsedOnce(h: Hashes, s: State, actions: seq<Action>)
    requires UsedOnce(h, s) && Run(h, s, actions).Some?
    ensures UsedOnce(h, Run(h, s, actions).value)
    decreases actions
  {
    if actions != [] {
      StepKeepsRefreshOnce(h, s, actions[0]);
      StepKeepsResetOnce(h, s, actions[0]);
      RunKeepsUsedOnce(h, Step(h, s, actions[0]).value, actions[1..]);
    }
  }

  /** From any state: an admin gains no more sessions than there are new logins. */
  lemma {:induction false} RunSessions(h: Hashes, s: State, actions: seq<Action>, admin: Id)
    requires FoundStays(h, s) && s.tables.refresh.Keys <= s.issued && Run(h, s, actions).Some?
    ensures NoFreeSession(s, Run(h, s, actions).value, admin)
    decreases actions
  {
    if actions != [] {
      StepSessions(h, s, actions[0], admin);
      StepKeepsFound(h, s, actions[0]);
      RunSessions(h, Step(h, s, actions[0]).value, actions[1..], admin);
    }
  }

  function Start(passwords: map<Id, string>): State {
    State(Tables(passwords, map[], map[]), {}, map[])
  }

  /**
   However requests interleave: one refresh token buys at most one new one, one reset token changes a password
   at most once, and an admin never has more refresh tokens than logins with the password.
   */
  lemma TokensAreUsedOnce(h: Hashes, passwords: map<Id, string>, actions: seq<Action>)
    requires Run(h, Start(passwords), actions).Some?
    ensures var s := Run(h, Start(passwords), actions).value;
      && (forall c, d :: c in s.reqs && d in s.reqs && c != d && Spent(h, s.reqs[c]).Some? ==>
            Spent(h, s.reqs[c]) != Spent(h, s.reqs[d]))
      && (forall c, d :: c in s.reqs && d in s.reqs && c != d && SpentReset(h, s.reqs[c]).Some? ==>
            SpentReset(h, s.reqs[c]) != SpentReset(h, s.reqs[d]))
      && forall admin :: |OfAdmin(s.tables.refresh, admin)| <= |Logins(s.reqs, admin)|
  {
    RunKeepsUsedOnce(h, Start(passwords), actions);
    var s := Run(h, Start(passwords), actions).value;
    forall admin ensures |OfAdmin(s.tables.refresh, admin)| <= |Logins(s.reqs, admin)| {
      RunSessions(h, Start(passwords), actions, admin);
    }
  }

  /**
   When a reset commits, no refresh token of the admin is left, and from then on the admin has no more of them
   than exchanges that were under way and logins made since.
   */
  lemma ResetEndsSessions(h: Hashes, s: State, c: nat, actions: seq<Action>)
    requires FoundStays(h, s) && s.tables.refresh.Keys <= s.issued
    requires Step(h, s, Commit(c)).Some? && Step(h, s, Commit(c)).value.reqs[c].Changed?
    requires Run(h, Step(h, s, Commit(c)).value, actions).Some?
    ensures var admin := s.reqs[c].found.admin;
      var after := Step(h, s, Commit(c)).value;
      var s' := Run(h, after, actions).value;
      && OfAdmin(after.tables.refresh, admin) == {}
      && after.tables.passwords == s.tables.passwords[admin := h.secret(s.reqs[c].password)]
      && |OfAdmin(s'.tables.refresh, admin)| + |Logins(after.reqs, admin)|
           <= |OwedTo(s.reqs, admin)| + |Logins(s'.reqs, admin)|
  {
    var admin, after := s.reqs[c].found.admin, Step(h, s, Commit(c)).value;
    StepKeepsFound(h, s, Commit(c));
    assert OfAdmin(after.tables.refresh, admin) == {};
    assert OwedTo(after.reqs, admin) == OwedTo(s.reqs, admin);
    RunSessions(h, after, actions, admin);
  }

  // The services, one request at a time

  /** A refresh that nothing interrupts. */
  function RefreshAlone(h: Hashes, t: Tables, token: string, now: int, next: string, expiresAt: int): (Result<string>,
                        Tables)
  {
    var key := h.hash(token);
    var rest := t.(refresh := t.refresh - {key});
    if key !in t.refresh then (Err(Unauthorized), t)
    else if t.refresh[key].expiresAt < now then (Err(Unauthorized), rest)
    else (Ok(next), rest.(refresh := rest.refresh[h.hash(next) := Token(t.refresh[key].admin, expiresAt)]))
  }

  lemma RunCons(h: Hashes, s: State, action: Action, next: State, rest: seq<Action>)
    requires Step(h, s, action) == Some(next)
    ensures Run(h, s, [action] + rest) == Run(h, next, rest)
  {
    assert ([action] + rest)[1..] == rest;
  }

  /** It takes the steps of a concurrent refresh one after the other. */
  lemma RefreshAloneIsARun(h: Hashes, s: State, c: nat, token: string, now: int, next: string, expiresAt: int)
    requires c !in s.reqs && h.hash(next) !in s.issued && h.hash(token) in s.tables.refresh
    ensures var found := s.tables.refresh[h.hash(token)];
      var (r, t) := RefreshAlone(h, s.tables, token, now, next, expiresAt);
      if r.Ok? then
        Run(h, s, [Begin(c, Refreshing(token))] +
            ([Lookup(c)] + ([Exchange(c, now)] + ([Create(c, next, expiresAt)] + []))))
          == Some(State(t, s.issued + {h.hash(next)}, s.reqs[c := Issued(found.admin, Some(token), next)]))
      else
        Run(h, s, [Begin(c, Refreshing(token))] + ([Lookup(c)] + ([Exchange(c, now)] + [])))
          == Some(State(t, s.issued, s.reqs[c := Refused]))
  {
    var found := s.tables.refresh[h.hash(token)];
    var (r, t) := RefreshAlone(h, s.tables, token, now, next, expiresAt);
    var s1, s2 := Put(s, c, Refreshing(token)), Put(s, c, FoundRefresh(token, found));
    assert s1.reqs[c := FoundRefresh(token, found)] == s2.reqs;
    var last: seq<Action> := if r.Ok? then [Create(c, next, expiresAt)] + [] else [];
    RunCons(h, s, Begin(c, Refreshing(token)), s1, [Lookup(c)] + ([Exchange(c, now)] + last));
    RunCons(h, s1, Lookup(c), s2, [Exchange(c, now)] + last);
    var s3 := ExchangeStep(h, s2, c, token, found, now);
    RunCons(h, s2, Exchange(c, now), s3, last);
    if r.Ok? {
      var s4 := State(t, s.issued + {h.hash(next)}, s.reqs[c := Issued(found.admin, Some(token), next)]);
      assert s3.reqs == s.reqs[c := Owed(found.admin, Some(token))];
      assert s3.reqs[c := Issued(found.admin, Some(token), next)] == s4.reqs;
      RunCons(h, s3, Create(c, next, expiresAt), s4, []);
    } else {
      assert s3.reqs == s.reqs[c := Refused];
    }
  }

  /** A login that nothing interrupts. */
  function LoginAlone(h: Hashes, t: Tables, admin: Id, password: string, next: string, expiresAt: int): (Result<string>,
                      Tables)
  {
    if admin !in t.passwords || t.passwords[admin] != h.secret(password) then (Err(Unauthorized), t)
    else (Ok(next), t.(refresh := t.refresh[h.hash(next) := Token(admin, expiresAt)]))
  }

  /** It takes the two steps of a concurrent login, or, with the wrong password, none. */
  lemma LoginAloneIsARun(h: Hashes, s: State, c: nat, admin: Id, password: string, next: string, expiresAt: int)
    requires c !in s.reqs && h.hash(next) !in s.issued
    ensures var (r, t) := LoginAlone(h, s.tables, admin, password, next, expiresAt);
      if r.Ok? then
        Run(h, s, [Login(c, admin, password)] + ([Create(c, next, expiresAt)] + []))
          == Some(State(t, s.issued + {h.hash(next)}, s.reqs[c := Issued(admin, None, next)]))
      else t == s.tables && Step(h, s, Login(c, admin, password)).None?
  {
    var (r, t) := LoginAlone(h, s.tables, admin, password, next, expiresAt);
    if r.Ok? {
      var s1 := Put(s, c, Owed(admin, None));
      var s2 := State(t, s.issued + {h.hash(next)}, s.reqs[c := Issued(admin, None, next)]);
      assert s1.reqs[c := Issued(admin, None, next)] == s2.reqs;
      RunCons(h, s, Login(c, admin, password), s1, [Create(c, next, expiresAt)] + []);
      RunCons(h, s1, Create(c, next, expiresAt), s2, []);
    }
  }

  /** A password reset that nothing interrupts. */
  function ResetAlone(h: Hashes, t: Tables, token: string, password: string, now: int): Result<Tables> {
    var key := h.hash(token);
    if key !in t.reset || t.reset[key].expiresAt < now then Err(BadRequest)
    else
      var admin := t.reset[key].admin;
      Ok(Tables(t.passwords[admin := h.secret(password)], t.refresh - OfAdmin(t.refresh, admin), t.reset - {key}))
  }

  /** It takes the steps of a concurrent reset, as far as its token is found in time. */
  lemma ResetAloneIsARun(h: Hashes, s: State, c: nat, token: string, password: string, now: int)
    requires c !in s.reqs
    ensures match ResetAlone(h, s.tables, token, password, now)
      case Ok(t) =>
        Run(h, s, [Begin(c, Resetting(token, password))] + ([LookupReset(c, now)] + ([Commit(c)] + [])))
          == Some(State(t, s.issued, s.reqs[c := Changed(token)]))
      case Err(_) =>
        Run(h, s, [Begin(c, Resetting(token, password))] + ([LookupReset(c, now)] + []))
          == Some(State(s.tables, s.issued, s.reqs[c := Refused]))
  {
    var key := h.hash(token);
    var answer := ResetAlone(h, s.tables, token, password, now);
    var s1 := Put(s, c, Resetting(token, password));
    var next := if answer.Ok? then FoundReset(token, s.tables.reset[key], password) else Refused;
    var s2 := Put(s, c, next);
    var last: seq<Action> := if answer.Ok? then [Commit(c)] + [] else [];
    assert s1.reqs[c := next] == s2.reqs;
    RunCons(h, s, Begin(c, Resetting(token, password)), s1, [LookupReset(c, now)] + last);
    RunCons(h, s1, LookupReset(c, now), s2, last);
    if answer.Ok? {
      var s3 := State(answer.value, s.issued, s.reqs[c := Changed(token)]);
      assert s2.reqs[c := Changed(token)] == s3.reqs;
      RunCons(h, s2, Commit(c), s3, []);
    }
  }

  class AuthService {
    const h: Hashes
    var passwords: map<Id, string>
    var refresh: map<string, Token>
    var reset: map<string, Token>

    function Snapshot(): Tables
      reads this
    {
      Tables(passwords, refresh, reset)
    }

    constructor (h: Hashes, passwords: map<Id, string>)
      ensures this.h == h && Snapshot() == Start(passwords).tables
    {
      this.h, this.passwords := h, passwords;
      refresh, reset := map[], map[];
    }

    /** `next` is the random token made. */
    method GenerateRefreshToken(admin: Id, next: string, expiresAt: int)
      modifies this`refresh
      ensures refresh == old(refresh)[h.hash(next) := Token(admin, expiresAt)]
    {
      refresh := refresh[h.hash(next) := Token(admin, expiresAt)];
    }

    method Login(admin: Id, password: string, next: string, expiresAt: int) returns (r: Result<string>)
      modifies this`refresh
      ensures (r, Snapshot()) == LoginAlone(h, old(Snapshot()), admin, password, next, expiresAt)
    {
      if admin !in passwords || passwords[admin] != h.secret(password) {
        return Err(Unauthorized);
      }
      GenerateRefreshToken(admin, next, expiresAt);
      return Ok(next);
    }

    method RefreshTokens(token: string, now: int, next: string, expiresAt: int) returns (r: Result<string>)
      modifies this`refresh
      ensures (r, Snapshot()) == RefreshAlone(h, old(Snapshot()), token, now, next, expiresAt)
    {
      var key := h.hash(token);
      if key !in refresh {
        return Err(Unauthorized);
      }
      var found := refresh[key];
      refresh := refresh - {key};
      if found.expiresAt < now {
        return Err(Unauthorized);
      }
      GenerateRefreshToken(found.admin, next, expiresAt);
      return Ok(next);
    }

    /** One step of any state `s` that has these tables; an unknown address changes nothing. */
    method ForgotPassword(admin: Option<Id>, token: string, expiresAt: int, ghost s: State)
      requires s.tables == Snapshot() && h.hash(token) !in s.issued && (admin.Some? ==> admin.value in passwords)
      modifies this`reset
      ensures admin.None? ==> Snapshot() == s.tables
      ensures admin.Some? ==>
        Step(h, s, Forgot(admin.value, token, expiresAt))
          == Some(s.(tables := Snapshot(), issued := s.issued + {h.hash(token)}))
    {
      if admin.Some? {
        reset := reset[h.hash(token) := Token(admin.value, expiresAt)];
      }
    }

    method ResetPassword(token: string, password: string, now: int) returns (r: Result<()>)
      modifies this
      ensures match ResetAlone(h, old(Snapshot()), token, password, now)
        case Ok(tables) => r == Ok(()) && Snapshot() == tables
        case Err(e) => r == Err(e) && Snapshot() == old(Snapshot())
    {
      var key := h.hash(token);
      if key !in reset || reset[key].expiresAt < now {
        return Err(BadRequest);
      }
      var admin := reset[key].admin;
      reset := reset - {key};
      passwords := passwords[admin := h.secret(password)];
      refresh := refresh - OfAdmin(refresh, admin);
      return Ok(());
    }

    /** One step of any state `s` that has these tables. */
    method Logout(token: string, ghost s: State)
      requires s.tables == Snapshot()
      modifies this`refresh
      ensures Step(h, s, Action.Logout(token)) == Some(s.(tables := Snapshot()))
    {
      refresh := refresh - {h.hash(token)};
    }
  }
}
