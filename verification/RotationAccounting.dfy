/** Every run of logins, refreshes and revocations, and how many rows stay live. */
module RotationAccounting {
  import opened Options
  import opened RefreshTokens

  /** Row numbers are positions, hashes are distinct, and a row's tenant is the one its
      token names. */
  ghost predicate WellKept(rows: seq<Row>) {
    && (forall i :: 0 <= i < |rows| ==> rows[i].id == i + 1)
    && (forall i, j :: 0 <= i < j < |rows| ==> rows[i].hash != rows[j].hash)
    && (forall i :: 0 <= i < |rows| ==> TenantOf(rows[i].hash.text) == Some(rows[i].tenant) && IsTenant(rows[i].tenant))
  }

  /** No row was ever made for the token text. */
  ghost predicate Unseen(rows: seq<Row>, token: string) {
    forall i :: 0 <= i < |rows| ==> rows[i].hash != Digest(token)
  }

  /** Rows are only added, never removed; what a row stands for never changes and a
      revoked row stays revoked. */
  ghost predicate Extends(before: seq<Row>, after: seq<Row>) {
    && |before| <= |after|
    && forall i :: 0 <= i < |before| ==>
         after[i] == before[i].(revoked := after[i].revoked) && (before[i].revoked ==> after[i].revoked)
  }

  datatype Op =
    | LoginOp(user: Option<User>, passwordOk: bool, loginSecret: string, loginAt: int)
    | RefreshOp(users: Directory, token: string, secret: string, at: int)
    | RevokeAllOp(tenant: string, userId: string, except: Option<nat>)

  function Apply(rows: seq<Row>, op: Op, ttl: nat): seq<Row> {
    match op
    case LoginOp(user, ok, secret, at) => LoggedIn(rows, user, ok, secret, at, ttl).0
    case RefreshOp(users, token, secret, at) => Refreshed(rows, users, token, secret, at, ttl).0
    case RevokeAllOp(tenant, user, except) => AllRevoked(rows, tenant, user, except)
  }

  predicate AcceptsToken(rows: seq<Row>, op: Op) {
    op.RefreshOp? && Accepts(rows, op.users, op.token, op.at).Some?
  }

  /** The random secret an operation draws gives a token text never seen before, and
      tenants have proper names. */
  ghost predicate Draws(rows: seq<Row>, op: Op) {
    match op
    case LoginOp(user, _, secret, _) =>
      user.Some? ==> IsTenant(user.value.tenant) && Unseen(rows, TokenText(user.value.tenant, secret))
    case RefreshOp(users, token, secret, at) =>
      TenantOf(token).Some? ==> Unseen(rows, TokenText(TenantOf(token).value, secret))
    case RevokeAllOp(_, _, _) => true
  }

  lemma IdsFound(rows: seq<Row>, k: nat)
    requires WellKept(rows) && k < |rows|
    ensures FindById(rows, rows[k].tenant, rows[k].id) == k
    ensures Revoked(rows, rows[k].tenant, rows[k].id) == rows[k := rows[k].(revoked := true)]
  {
  }

  lemma CreatedKept(rows: seq<Row>, tenant: string, user: string, secret: string, expires: int)
    requires WellKept(rows) && IsTenant(tenant) && Unseen(rows, TokenText(tenant, secret))
    ensures var after := Created(rows, tenant, user, Digest(TokenText(tenant, secret)), expires);
            WellKept(after) && Extends(rows, after)
  {
    TenantOfOwnToken(tenant, secret);
  }

  lemma RevokedKept(rows: seq<Row>, k: nat, t: string)
    requires WellKept(rows) && k < |rows| && Unseen(rows, t)
    ensures var after := rows[k := rows[k].(revoked := true)];
            WellKept(after) && Extends(rows, after) && Unseen(after, t)
  {
  }

  /** What an accepted refresh does to the table: the row is revoked in place, and a
      row of the same user is added. */
  lemma RefreshedIs(rows: seq<Row>, users: Directory, token: string, secret: string, now: int, ttl: nat)
    requires WellKept(rows) && Accepts(rows, users, token, now).Some?
    ensures var k := Accepts(rows, users, token, now).value;
            k < |rows| && TenantOf(token) == Some(rows[k].tenant) &&
            var row := rows[k];
            Refreshed(rows, users, token, secret, now, ttl).0 ==
            Created(rows[k := row.(revoked := true)], row.tenant, row.user, Digest(TokenText(row.tenant, secret)),
                    now + ttl)
  {
    hide TokenText;
    IdsFound(rows, Accepts(rows, users, token, now).value);
  }

  lemma ExtendsItself(a: seq<Row>)
    ensures Extends(a, a)
  {
  }

  lemma ExtendsChain(a: seq<Row>, b: seq<Row>, c: seq<Row>)
    requires Extends(a, b) && Extends(b, c)
    ensures Extends(a, c)
  {
  }

  lemma SwapKeeps(rows: seq<Row>, k: nat, user: string, secret: string, expires: int)
    requires WellKept(rows) && k < |rows| && Unseen(rows, TokenText(rows[k].tenant, secret))
    ensures var after := Created(rows[k := rows[k].(revoked := true)], rows[k].tenant, user,
                                 Digest(TokenText(rows[k].tenant, secret)), expires);
            WellKept(after) && Extends(rows, after)
  {
    var mid := rows[k := rows[k].(revoked := true)];
    RevokedKept(rows, k, TokenText(rows[k].tenant, secret));
    assert IsTenant(rows[k].tenant);
    hide WellKept;
    hide Extends;
    hide Unseen;
    hide TokenText;
    CreatedKept(mid, rows[k].tenant, user, secret, expires);
    ExtendsChain(rows, mid, Created(mid, rows[k].tenant, user, Digest(TokenText(rows[k].tenant, secret)), expires));
  }

  lemma RefreshKeeps(rows: seq<Row>, users: Directory, token: string, secret: string, now: int, ttl: nat)
    requires WellKept(rows) && Draws(rows, RefreshOp(users, token, secret, now))
    ensures var after := Refreshed(rows, users, token, secret, now, ttl).0;
            WellKept(after) && Extends(rows, after)
  {
    hide WellKept;
    hide Unseen;
    hide TenantOf;
    if Accepts(rows, users, token, now).Some? {
      RefreshedIs(rows, users, token, secret, now, ttl);
      var k := Accepts(rows, users, token, now).value;
      SwapKeeps(rows, k, rows[k].user, secret, now + ttl);
    } else {
      assert Refreshed(rows, users, token, secret, now, ttl).0 == rows;
    }
    hide Accepts;
    hide Refreshed;
  }

  lemma LoginKeeps(rows: seq<Row>, user: Option<User>, ok: bool, secret: string, now: int, ttl: nat)
    requires WellKept(rows) && Draws(rows, LoginOp(user, ok, secret, now))
    ensures var after := LoggedIn(rows, user, ok, secret, now, ttl).0;
            WellKept(after) && Extends(rows, after)
  {
    if user.Some? && ok && user.value.active {
      CreatedKept(rows, user.value.tenant, user.value.id, secret, now + ttl);
    }
  }

  lemma RevokeAllKeeps(rows: seq<Row>, tenant: string, user: string, except: Option<nat>)
    requires WellKept(rows)
    ensures WellKept(AllRevoked(rows, tenant, user, except)) && Extends(rows, AllRevoked(rows, tenant, user, except))
  {
  }

  /** Every operation keeps the table in order and only extends it. */
  lemma StepKeeps(rows: seq<Row>, op: Op, ttl: nat)
    requires WellKept(rows) && Draws(rows, op)
    ensures WellKept(Apply(rows, op, ttl)) && Extends(rows, Apply(rows, op, ttl))
  {
    hide WellKept;
    hide Extends;
    hide Draws;
    hide LoggedIn;
    hide Refreshed;
    match op
    case LoginOp(user, ok, secret, at) => LoginKeeps(rows, user, ok, secret, at, ttl);
    case RefreshOp(users, token, secret, at) => RefreshKeeps(rows, users, token, secret, at, ttl);
    case RevokeAllOp(tenant, user, except) => RevokeAllKeeps(rows, tenant, user, except);
  }

  /** The states a sequence of operations goes through. */
  ghost predicate IsRun(states: seq<seq<Row>>, ops: seq<Op>, ttl: nat) {
    && |states| == |ops| + 1 && states[0] == []
    && forall i :: 0 <= i < |ops| ==> Draws(states[i], ops[i]) && states[i + 1] == Apply(states[i], ops[i], ttl)
  }

  lemma {:induction false} RunKeeps(states: seq<seq<Row>>, ops: seq<Op>, ttl: nat, n: nat)
    requires IsRun(states, ops, ttl) && n < |states|
    ensures WellKept(states[n])
  {
    if n > 0 {
      RunKeeps(states, ops, ttl, n - 1);
      StepKeeps(states[n - 1], ops[n - 1], ttl);
    }
  }

  lemma {:induction false} RunExtends(states: seq<seq<Row>>, ops: seq<Op>, ttl: nat, m: nat, n: nat)
    requires IsRun(states, ops, ttl) && m <= n < |states|
    ensures Extends(states[m], states[n])
    decreases n - m
  {
    hide WellKept, Extends, Draws, Apply;
    assert m == n ==> Extends(states[m], states[n]) by { ExtendsItself(states[m]); }
    if m < n {
      RunKeeps(states, ops, ttl, n - 1);
      StepKeeps(states[n - 1], ops[n - 1], ttl);
      RunExtends(states, ops, ttl, m, n - 1);
      ExtendsChain(states[m], states[n - 1], states[n]);
    }
  }

  /** An accepted token leaves a revoked row behind. */
  lemma AcceptedRevokes(rows: seq<Row>, op: Op, ttl: nat)
    requires WellKept(rows) && Draws(rows, op) && AcceptsToken(rows, op)
    ensures var k := Accepts(rows, op.users, op.token, op.at).value;
            k < |rows| && rows[k].hash == Digest(op.token) && Apply(rows, op, ttl)[k].revoked
  {
    IdsFound(rows, Accepts(rows, op.users, op.token, op.at).value);
  }

  /** Main result: over every run no token is accepted twice. */
  lemma AcceptedOnce(states: seq<seq<Row>>, ops: seq<Op>, ttl: nat, i: nat, j: nat)
    requires IsRun(states, ops, ttl) && i < j < |ops|
    requires AcceptsToken(states[i], ops[i]) && AcceptsToken(states[j], ops[j])
    ensures ops[i].token != ops[j].token
  {
    RunKeeps(states, ops, ttl, i);
    RunKeeps(states, ops, ttl, j);
    AcceptedRevokes(states[i], ops[i], ttl);
    StepKeeps(states[i], ops[i], ttl);
    RunExtends(states, ops, ttl, i + 1, j);
    var k := Accepts(states[i], ops[i].users, ops[i].token, ops[i].at).value;
    assert states[j][k].hash == states[i][k].hash && states[j][k].revoked;
  }

  // ------------------------------------------------------------ what was issued is accepted

  predicate IsActive(users: Directory, tenant: string, user: string) {
    (tenant, user) in users && users[(tenant, user)].active
  }

  /** A new row's token is accepted as long as it is not too old and its user is active. */
  lemma CreatedAccepted(rows: seq<Row>, tenant: string, user: string, secret: string, expires: int,
                        users: Directory, later: int)
    requires WellKept(rows) && IsTenant(tenant) && Unseen(rows, TokenText(tenant, secret))
    ensures var token := TokenText(tenant, secret);
            Accepts(Created(rows, tenant, user, Digest(token), expires), users, token, later) ==
            if later <= expires && IsActive(users, tenant, user) then Some(|rows|) else None
  {
    TenantOfOwnToken(tenant, secret);
    var token := TokenText(tenant, secret);
    var after := Created(rows, tenant, user, Digest(token), expires);
    var k := FindByHash(after, tenant, Digest(token));
    assert after[|rows|] == Row(|rows| + 1, tenant, user, Digest(token), expires, false);
    assert forall i :: 0 <= i < |rows| ==> after[i] == rows[i];
    assert k == |rows|;
    hide TokenText, WellKept, TenantOf;
  }

  /** Main result: a login succeeds exactly for an active user with the right password; otherwise
      the table is left alone. */
  lemma LoginIff(rows: seq<Row>, user: Option<User>, passwordOk: bool, secret: string, now: int, ttl: nat)
    ensures var (after, reply) := LoggedIn(rows, user, passwordOk, secret, now, ttl);
            && (reply.Issued? <==> user.Some? && passwordOk && user.value.active)
            && (!reply.Issued? ==> after == rows)
            && (reply.Issued? ==> after == rows + [Row(|rows| + 1, user.value.tenant, user.value.id,
                                                       Digest(reply.token), now + ttl, false)])
  {
  }

  /** Main result: a refresh succeeds exactly if the token's row is unrevoked and not too old and
      its user is there and active; otherwise, as for a token without a row, the table is left
      alone. */
  lemma RefreshIff(rows: seq<Row>, users: Directory, token: string, secret: string, now: int, ttl: nat)
    requires WellKept(rows)
    ensures var (after, reply) := Refreshed(rows, users, token, secret, now, ttl);
            && (reply.Issued? <==>
                  exists k :: 0 <= k < |rows| && rows[k].hash == Digest(token) && !rows[k].revoked
                              && now <= rows[k].expires && (rows[k].tenant, rows[k].user) in users
                              && users[(rows[k].tenant, rows[k].user)].active)
            && (!reply.Issued? ==> after == rows)
  {
    forall k | 0 <= k < |rows| && rows[k].hash == Digest(token)
      ensures TenantOf(token) == Some(rows[k].tenant) && FindByHash(rows, rows[k].tenant, Digest(token)) == k
    {
      OnlyRow(rows, token, k);
    }
    hide Revoked, Created, TokenText;
  }

  lemma OnlyRow(rows: seq<Row>, token: string, k: nat)
    requires WellKept(rows) && k < |rows| && rows[k].hash == Digest(token)
    ensures TenantOf(token) == Some(rows[k].tenant) && FindByHash(rows, rows[k].tenant, Digest(token)) == k
  {
  }

  /** In a run: a login with a wrong password, of nobody or of an inactive user, and a refresh
      that is refused, leave the table, and so every user's live rows, as they were. */
  lemma RefusedChangesNothing(states: seq<seq<Row>>, ops: seq<Op>, ttl: nat, i: nat)
    requires IsRun(states, ops, ttl) && i < |ops|
    requires match ops[i]
             case LoginOp(user, passwordOk, _, _) => user.None? || !passwordOk || !user.value.active
             case RefreshOp(users, token, _, now) =>
               forall k :: 0 <= k < |states[i]| && states[i][k].hash == Digest(token) ==>
                 states[i][k].revoked || states[i][k].expires < now
                 || (states[i][k].tenant, states[i][k].user) !in users
                 || !users[(states[i][k].tenant, states[i][k].user)].active
             case RevokeAllOp(_, _, _) => false
    ensures states[i + 1] == states[i]
  {
    RunKeeps(states, ops, ttl, i);
    match ops[i]
    case LoginOp(user, passwordOk, secret, at) =>
    case RefreshOp(users, token, secret, now) => RefreshIff(states[i], users, token, secret, now, ttl);
  }

  /** The token a login hands out is accepted until it expires, for its user. */
  lemma LoginIssuesGoodToken(rows: seq<Row>, who: Option<User>, passwordOk: bool, secret: string, now: int, ttl: nat,
                             users: Directory, later: int)
    requires WellKept(rows) && Draws(rows, LoginOp(who, passwordOk, secret, now))
    ensures var (after, reply) := LoggedIn(rows, who, passwordOk, secret, now, ttl);
            reply.Issued? ==>
              Accepts(after, users, reply.token, later) ==
              if later <= now + ttl && IsActive(users, who.value.tenant, who.value.id)
              then Some(reply.sid - 1) else None
  {
    hide WellKept, Accepts, Unseen;
    if who.Some? && passwordOk && who.value.active {
      CreatedAccepted(rows, who.value.tenant, who.value.id, secret, now + ttl, users, later);
    }
  }

  /** So is the token that replaces another, and the one it replaces is refused for good:
      with every table that comes of this one, for any users and at any time. */
  lemma RefreshIssuesGoodToken(rows: seq<Row>, users: Directory, token: string, secret: string, now: int, ttl: nat,
                               others: Directory, later: int, table: seq<Row>)
    requires WellKept(rows) && Draws(rows, RefreshOp(users, token, secret, now))
    requires Accepts(rows, users, token, now).Some?
    ensures var (after, reply) := Refreshed(rows, users, token, secret, now, ttl);
            var k := Accepts(rows, users, token, now).value;
            && reply.Issued? && k < |rows|
            && Accepts(after, others, reply.token, later) ==
               (if later <= now + ttl && IsActive(others, rows[k].tenant, rows[k].user)
                then Some(reply.sid - 1) else None)
            && (Extends(after, table) ==> Accepts(table, others, token, later).None?)
  {
    hide *;
    var k := Accepts(rows, users, token, now).value;
    RefreshedIs(rows, users, token, secret, now, ttl);
    RefreshedReply(rows, users, token, secret, now, ttl);
    ReplacedGoodToken(rows, k, token, secret, now + ttl, others, later, table);
  }

  lemma RefreshedReply(rows: seq<Row>, users: Directory, token: string, secret: string, now: int, ttl: nat)
    requires WellKept(rows) && Draws(rows, RefreshOp(users, token, secret, now))
    requires Accepts(rows, users, token, now).Some?
    ensures var k := Accepts(rows, users, token, now).value;
            && k < |rows| && rows[k].hash == Digest(token) && Unseen(rows, TokenText(rows[k].tenant, secret))
            && Refreshed(rows, users, token, secret, now, ttl).1 ==
               Issued(TokenText(rows[k].tenant, secret), |rows| + 1)
  {
    RefreshedIs(rows, users, token, secret, now, ttl);
  }

  lemma ReplacedGoodToken(rows: seq<Row>, k: nat, token: string, secret: string, expires: int,
                          others: Directory, later: int, table: seq<Row>)
    requires WellKept(rows) && k < |rows| && rows[k].hash == Digest(token)
    requires Unseen(rows, TokenText(rows[k].tenant, secret))
    ensures var row, next := rows[k], TokenText(rows[k].tenant, secret);
            var after := Created(rows[k := row.(revoked := true)], row.tenant, row.user, Digest(next), expires);
            && Accepts(after, others, next, later) ==
               (if later <= expires && IsActive(others, row.tenant, row.user) then Some(|rows|) else None)
            && (Extends(after, table) ==> Accepts(table, others, token, later).None?)
  {
    var row, next := rows[k], TokenText(rows[k].tenant, secret);
    var gone := rows[k := row.(revoked := true)];
    assert IsTenant(row.tenant);
    hide WellKept, Accepts, Unseen, TokenText, TenantOf, Extends;
    RevokedKept(rows, k, next);
    CreatedAccepted(gone, row.tenant, row.user, secret, expires, others, later);
    CreatedKept(gone, row.tenant, row.user, secret, expires);
    var after := Created(gone, row.tenant, row.user, Digest(next), expires);
    if Extends(after, table) {
      ExtendsChain(gone, after, table);
      RevokedRefused(gone, k, token, table, others, later);
    }
  }

  lemma RevokedRefused(rows: seq<Row>, k: nat, token: string, after: seq<Row>, users: Directory, later: int)
    requires WellKept(rows) && k < |rows| && rows[k].revoked && rows[k].hash == Digest(token) && Extends(rows, after)
    ensures Accepts(after, users, token, later).None?
  {
    assert TenantOf(token) == Some(rows[k].tenant);
    assert forall i :: 0 <= i <= k ==> after[i].hash == rows[i].hash;
    assert FindByHash(after, rows[k].tenant, Digest(token)) == k;
  }

  // ------------------------------------------------------------ counting live rows

  predicate IsLive(row: Row, tenant: string, user: string) {
    row.tenant == tenant && row.user == user && !row.revoked
  }

  /** How many unrevoked rows a user of a tenant has. */
  function Live(rows: seq<Row>, tenant: string, user: string): nat {
    if rows == [] then 0
    else Live(rows[..|rows| - 1], tenant, user) + (if IsLive(rows[|rows| - 1], tenant, user) then 1 else 0)
  }

  lemma LiveCreated(rows: seq<Row>, row: Row, tenant: string, user: string)
    ensures Live(rows + [row], tenant, user) == Live(rows, tenant, user) + (if IsLive(row, tenant, user) then 1 else 0)
  {
    assert (rows + [row])[..|rows|] == rows;
  }

  lemma {:induction false} LiveRevoked(rows: seq<Row>, k: nat, tenant: string, user: string)
    requires k < |rows| && !rows[k].revoked
    ensures Live(rows[k := rows[k].(revoked := true)], tenant, user) ==
            Live(rows, tenant, user) - (if IsLive(rows[k], tenant, user) then 1 else 0)
  {
    var after := rows[k := rows[k].(revoked := true)];
    var n := |rows| - 1;
    if k == n {
      assert after[..n] == rows[..n];
    } else {
      assert after[..n] == rows[..n][k := rows[k].(revoked := true)];
      LiveRevoked(rows[..n], k, tenant, user);
    }
  }

  /** A refresh that is accepted leaves every user, the caller included, with as many
      live rows as before. */
  lemma RefreshConserves(rows: seq<Row>, users: Directory, token: string, secret: string, now: int, ttl: nat,
                         tenant: string, user: string)
    requires WellKept(rows)
    ensures Live(Refreshed(rows, users, token, secret, now, ttl).0, tenant, user) == Live(rows, tenant, user)
  {
    if Accepts(rows, users, token, now).Some? {
      RefreshedIs(rows, users, token, secret, now, ttl);
      var k := Accepts(rows, users, token, now).value;
      var row := rows[k];
      var mid := rows[k := row.(revoked := true)];
      LiveRevoked(rows, k, tenant, user);
      LiveCreated(mid, Row(|mid| + 1, row.tenant, row.user, Digest(TokenText(row.tenant, secret)), now + ttl, false),
                  tenant, user);
    }
  }

  /** A login that succeeds gives its user one more live row and nobody else any. */
  lemma LoginAddsOne(rows: seq<Row>, who: Option<User>, passwordOk: bool, secret: string, now: int, ttl: nat,
                     tenant: string, user: string)
    ensures var (after, reply) := LoggedIn(rows, who, passwordOk, secret, now, ttl);
            Live(after, tenant, user) == Live(rows, tenant, user) +
              (if reply.Issued? && who.value.tenant == tenant && who.value.id == user then 1 else 0)
  {
    if who.Some? && passwordOk && who.value.active {
      LiveCreated(rows, Row(|rows| + 1, who.value.tenant, who.value.id,
                            Digest(TokenText(who.value.tenant, secret)), now + ttl, false), tenant, user);
    }
  }

  /** The excepted row is among the user's live ones. */
  ghost predicate HoldsExcepted(rows: seq<Row>, tenant: string, user: string, except: Option<nat>) {
    exists i :: 0 <= i < |rows| && except == Some(rows[i].id) && IsLive(rows[i], tenant, user)
  }

  lemma HoldsExceptedLast(rows: seq<Row>, t: string, u: string, except: Option<nat>)
    requires rows != [] && forall i, j :: 0 <= i < j < |rows| ==> rows[i].id != rows[j].id
    ensures var n := |rows| - 1;
            var last := except == Some(rows[n].id) && IsLive(rows[n], t, u);
            && HoldsExcepted(rows, t, u, except) == (HoldsExcepted(rows[..n], t, u, except) || last)
            && !(HoldsExcepted(rows[..n], t, u, except) && last)
  {
    var n := |rows| - 1;
    assert forall i :: 0 <= i < n ==> rows[..n][i] == rows[i];
  }

  /** Revoking a user's sessions leaves them at most the excepted row, and leaves
      every other user of every tenant exactly as they were. */
  lemma {:induction false} RevokeAllLeaves(rows: seq<Row>, t: string, u: string, except: Option<nat>,
                                           tenant: string, user: string)
    requires forall i, j :: 0 <= i < j < |rows| ==> rows[i].id != rows[j].id
    ensures var after := AllRevoked(rows, t, u, except);
            if (tenant, user) == (t, u) then
              Live(after, t, u) == if HoldsExcepted(rows, t, u, except) then 1 else 0
            else Live(after, tenant, user) == Live(rows, tenant, user)
  {
    if rows != [] {
      var n := |rows| - 1;
      RevokeAllLeaves(rows[..n], t, u, except, tenant, user);
      HoldsExceptedLast(rows, t, u, except);
      assert AllRevoked(rows, t, u, except)[..n] == AllRevoked(rows[..n], t, u, except);
    }
  }

  // ------------------------------------------------------------ two refreshes of one token

  /** The second half of the handler, once the row at `k` has passed the check. */
  function Served(rows: seq<Row>, k: nat, secret: string, expires: int): (r: seq<Row>)
    requires k < |rows|
    ensures |r| == |rows| + 1
  {
    var row := rows[k];
    Created(Revoked(rows, row.tenant, row.id), row.tenant, row.user, Digest(TokenText(row.tenant, secret)), expires)
  }

  predicate FirstWithId(rows: seq<Row>, k: nat) {
    k < |rows| && forall i :: 0 <= i < k ==> rows[i].id != rows[k].id
  }

  lemma ServedLive(rows: seq<Row>, k: nat, secret: string, expires: int)
    requires FirstWithId(rows, k)
    ensures var row := rows[k];
            && Live(Served(rows, k, secret, expires), row.tenant, row.user)
               == Live(rows, row.tenant, row.user) + (if row.revoked then 1 else 0)
            && Served(rows, k, secret, expires)[k] == row.(revoked := true)
            && FirstWithId(Served(rows, k, secret, expires), k)
  {
    hide TokenText, Live;
    var row := rows[k];
    assert FindById(rows, row.tenant, row.id) == k;
    var gone := rows[k := row.(revoked := true)];
    if row.revoked {
      assert gone == rows;
    } else {
      LiveRevoked(rows, k, row.tenant, row.user);
    }
    LiveCreated(gone, Row(|gone| + 1, row.tenant, row.user, Digest(TokenText(row.tenant, secret)), expires, false),
                row.tenant, row.user);
  }

  /** The handler checks and revokes in separate steps, so two requests that both checked
      a token before either revoked it are both served: whatever the table, the user ends
      with one live row more. Single use rests on the token being presented once. */
  lemma CheckedTwiceServedTwice(rows: seq<Row>, users: Directory, token: string, now: int,
                                first: string, second: string, expires: int)
    requires WellKept(rows) && Accepts(rows, users, token, now).Some?
    ensures var k := Accepts(rows, users, token, now).value;
            k < |rows| &&
            var row := rows[k];
            var once := Served(rows, k, first, expires);
            && Live(once, row.tenant, row.user) == Live(rows, row.tenant, row.user)
            && Live(Served(once, k, second, expires), row.tenant, row.user) == Live(rows, row.tenant, row.user) + 1
  {
    var k := Accepts(rows, users, token, now).value;
    assert FirstWithId(rows, k) && !rows[k].revoked;
    hide WellKept, Accepts, Live, Served, FirstWithId;
    ServedLive(rows, k, first, expires);
    ServedLive(Served(rows, k, first, expires), k, second, expires);
  }
}
