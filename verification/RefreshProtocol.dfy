/** Consoles and server together, interleaved at every await and every reply. */
module RefreshProtocol {
  import opened Options
  import opened RefreshTokens
  import opened RotationAccounting

  // A step is a request that meets its response, a page load and the refresh it starts, an
  // await of the refresh handler, or a reply that arrives. A console is one tab with its
  // own session storage. No reply is lost: nobody signs in or out of a console, or loads
  // its page anew, while its refresh is under way. Sessions may be revoked from elsewhere
  // at any moment, and the handler may fail at any await.

  /** How far the server has come with a refresh, between two awaits; `k` is the index
      of the row it found. The reply `Unauthorized` stands for every one that is not ok: the
      console does not tell them apart. */
  datatype Stage =
    | Asked
    | Checked(k: nat)
    | Cleared(k: nat)
    | Killed(k: nat)
    | Answered(reply: Reply)
    | Delivered

  /** One call of the refresh endpoint; `sid`, for the proof only, names the row of the
      presented token. */
  datatype Flight = Flight(client: nat, token: string, sid: nat, stage: Stage)

  /** A console: session storage, the access token (named by its sid), the promise
      shared by concurrent callers, and, for the proof only, the number of its
      rotation chain and the row of its stored token. */
  datatype Client = Client(stored: Option<string>, access: Option<nat>, flight: Option<nat>, chain: nat, row: nat)

  /** An API call that went through the middleware; a page load drops those under way. */
  datatype Phase = Sent | Waiting(flight: nat) | Retried(bearer: Option<nat>) | Returned | Dropped

  datatype Request = Request(client: nat, authUrl: bool, phase: Phase)

  /** For the proof only: `chains[i]` is the rotation chain that row `i` belongs to, and
      `cut` holds the chains in which a row was revoked from elsewhere. */
  datatype State = State(
    rows: seq<Row>, chains: seq<nat>, clients: seq<Client>, flights: seq<Flight>,
    requests: seq<Request>, nextChain: nat, cut: set<nat>)

  datatype Step =
    | SignIn(c: nat, user: User, secret: string, at: int)
    | SignOut(c: nat)
    | RevokeAll(tenant: string, userId: string, except: Option<nat>)
    | Load(c: nat)
    | Boot(c: nat)
    | Send(c: nat, authUrl: bool)
    | Respond(r: nat, unauthorized: bool)
    | Find(f: nat, now: int)
    | CheckUser(f: nat, active: bool)
    | Kill(f: nat)
    | Issue(f: nat, issueSecret: string, issueAt: int)
    | Fail(f: nat)
    | Deliver(f: nat)

  function Initial(n: nat): State {
    State([], [], seq(n, c requires 0 <= c < n => Client(None, None, None, c, 0)), [], [], n, {})
  }

  ghost predicate Enabled(s: State, step: Step) {
    match step
    case SignIn(c, user, secret, _) =>
      && c < |s.clients| && s.clients[c].flight.None?
      && IsTenant(user.tenant) && Unseen(s.rows, TokenText(user.tenant, secret))
    case SignOut(c) => c < |s.clients| && s.clients[c].flight.None?
    case RevokeAll(_, _, _) => true
    case Load(c) => c < |s.clients| && s.clients[c].flight.None?
    case Boot(c) => c < |s.clients| && s.clients[c].access.None? && s.clients[c].stored.Some?
    case Send(c, _) => c < |s.clients|
    case Respond(r, _) => r < |s.requests| && s.requests[r].phase.Sent? && s.requests[r].client < |s.clients|
    case Find(f, _) => f < |s.flights| && s.flights[f].stage.Asked?
    case CheckUser(f, _) => f < |s.flights| && s.flights[f].stage.Checked?
    case Kill(f) => f < |s.flights| && s.flights[f].stage.Cleared? && s.flights[f].stage.k < |s.rows|
    case Issue(f, secret, _) =>
      && f < |s.flights| && s.flights[f].stage.Killed? && s.flights[f].stage.k < |s.rows|
      && s.flights[f].client < |s.clients|
      && Unseen(s.rows, TokenText(s.rows[s.flights[f].stage.k].tenant, secret))
    case Fail(f) =>
      && f < |s.flights| && s.flights[f].client < |s.clients|
      && !s.flights[f].stage.Delivered? && s.flights[f].stage != Answered(Unauthorized)
    case Deliver(f) => f < |s.flights| && s.flights[f].stage.Answered? && s.flights[f].client < |s.clients|
  }

  function WithStage(s: State, f: nat, stage: Stage): State
    requires f < |s.flights|
  {
    s.(flights := s.flights[f := s.flights[f].(stage := stage)])
  }

  /** A refresh of the stored token is sent, and its promise is kept. */
  function Launched(s: State, c: nat): State
    requires c < |s.clients| && s.clients[c].stored.Some?
  {
    s.(clients := s.clients[c := s.clients[c].(flight := Some(|s.flights|))],
       flights := s.flights + [Flight(c, s.clients[c].stored.value, s.clients[c].row, Asked)])
  }

  /** A page load starts from session storage alone: the access token and the requests
      under way are gone. */
  function OnLoad(s: State, c: nat): State
    requires c < |s.clients|
  {
    s.(clients := s.clients[c := s.clients[c].(access := None)],
       requests := Abandoned(s.requests, c))
  }

  function Abandoned(requests: seq<Request>, c: nat): (r: seq<Request>)
    ensures |r| == |requests|
    ensures forall i :: 0 <= i < |r| ==>
      r[i] == if requests[i].client == c && requests[i].phase.Sent? then requests[i].(phase := Dropped) else requests[i]
  {
    seq(|requests|, i requires 0 <= i < |requests| =>
      if requests[i].client == c && requests[i].phase.Sent? then requests[i].(phase := Dropped) else requests[i])
  }

  /** The sessions of a user are revoked from elsewhere, but perhaps one. */
  function OnRevokeAll(s: State, tenant: string, user: string, except: Option<nat>): State {
    s.(rows := AllRevoked(s.rows, tenant, user, except),
       cut := s.cut + set i | 0 <= i < |s.rows| && i < |s.chains|
                              && InScope(s.rows[i], tenant, user, except) :: s.chains[i])
  }

  /** The page that finds a stored token but no user refreshes at once; it shares a refresh
      under way and waits for it without a request. */
  function OnBoot(s: State, c: nat): State
    requires c < |s.clients| && s.clients[c].stored.Some?
  {
    if s.clients[c].flight.Some? then s else Launched(s, c)
  }

  /** The middleware on a response: only a 401 outside the auth routes refreshes;
      a refresh under way is shared; without a stored token the session is cleared. */
  function OnResponse(s: State, r: nat, unauthorized: bool): State
    requires r < |s.requests| && s.requests[r].client < |s.clients|
  {
    var request := s.requests[r];
    var c := request.client;
    var client := s.clients[c];
    if !unauthorized || request.authUrl then
      s.(requests := s.requests[r := request.(phase := Returned)])
    else if client.flight.Some? then
      s.(requests := s.requests[r := request.(phase := Waiting(client.flight.value))])
    else if client.stored.None? then
      s.(requests := s.requests[r := request.(phase := Returned)],
         clients := s.clients[c := client.(access := None)])
    else
      Launched(s, c).(requests := s.requests[r := request.(phase := Waiting(|s.flights|))])
  }

  /** Every caller that shared the refresh goes on: with one retry, or without. */
  function Resumed(requests: seq<Request>, f: nat, phase: Phase): (r: seq<Request>)
    ensures |r| == |requests|
    ensures forall i :: 0 <= i < |r| ==>
      r[i] == if requests[i].phase == Waiting(f) then requests[i].(phase := phase) else requests[i]
  {
    seq(|requests|, i requires 0 <= i < |requests| =>
      if requests[i].phase == Waiting(f) then requests[i].(phase := phase) else requests[i])
  }

  /** The reply reaches the console: the session is replaced or cleared, the shared
      promise is dropped, and its callers resume before anything else happens. */
  function OnReply(s: State, f: nat): State
    requires f < |s.flights| && s.flights[f].stage.Answered? && s.flights[f].client < |s.clients|
  {
    var c := s.flights[f].client;
    var s' := WithStage(s, f, Delivered);
    match s.flights[f].stage.reply
    case Unauthorized =>
      s'.(clients := s.clients[c := s.clients[c].(stored := None, access := None, flight := None)],
          requests := Resumed(s.requests, f, Returned))
    case Issued(token, sid) =>
      var renewed := s.clients[c].(stored := Some(token), access := Some(sid), flight := None, row := sid);
      s'.(clients := s.clients[c := renewed],
          requests := Resumed(s.requests, f, Retried(Some(sid))))
  }

  function Next(s: State, step: Step, ttl: nat): State
    requires Enabled(s, step)
  {
    match step
    case SignIn(c, user, secret, at) =>
      var token := TokenText(user.tenant, secret);
      s.(rows := Created(s.rows, user.tenant, user.id, Digest(token), at + ttl),
         chains := s.chains + [s.nextChain],
         clients := s.clients[c := Client(Some(token), Some(|s.rows| + 1), None, s.nextChain, |s.rows| + 1)],
         nextChain := s.nextChain + 1)
    case SignOut(c) =>
      s.(clients := s.clients[c := s.clients[c].(stored := None, access := None)])
    case RevokeAll(tenant, user, except) => OnRevokeAll(s, tenant, user, except)
    case Load(c) => OnLoad(s, c)
    case Boot(c) => OnBoot(s, c)
    case Send(c, authUrl) =>
      s.(requests := s.requests + [Request(c, authUrl, Sent)])
    case Respond(r, unauthorized) => OnResponse(s, r, unauthorized)
    case Find(f, now) =>
      var token := s.flights[f].token;
      var k := if TenantOf(token).None? then |s.rows| else FindByHash(s.rows, TenantOf(token).value, Digest(token));
      WithStage(s, f, if k == |s.rows| || s.rows[k].revoked || s.rows[k].expires < now
                      then Answered(Unauthorized) else Checked(k))
    case CheckUser(f, active) =>
      WithStage(s, f, if active then Cleared(s.flights[f].stage.k) else Answered(Unauthorized))
    case Kill(f) =>
      var k := s.flights[f].stage.k;
      WithStage(s, f, Killed(k)).(rows := Revoked(s.rows, s.rows[k].tenant, s.rows[k].id))
    case Issue(f, secret, at) =>
      var row := s.rows[s.flights[f].stage.k];
      var token := TokenText(row.tenant, secret);
      WithStage(s, f, Answered(Issued(token, |s.rows| + 1))).(
        rows := Created(s.rows, row.tenant, row.user, Digest(token), at + ttl),
        chains := s.chains + [s.clients[s.flights[f].client].chain])
    case Fail(f) => WithStage(s, f, Answered(Unauthorized))
    case Deliver(f) => OnReply(s, f)
  }

  // ------------------------------------------------------------ the invariant

  ghost predicate RowsOk(s: State) {
    && WellKept(s.rows) && |s.chains| == |s.rows|
    && forall i :: 0 <= i < |s.chains| ==> s.chains[i] < s.nextChain
  }

  /** The row named `sid` was made for the token. */
  predicate IsRow(s: State, sid: nat, token: string) {
    1 <= sid <= |s.rows| && s.rows[sid - 1].hash == Digest(token)
  }

  /** The row named `sid` was never presented. */
  ghost predicate Unpresented(s: State, sid: nat) {
    forall g :: 0 <= g < |s.flights| ==> s.flights[g].sid != sid
  }

  /** The one row of a signed-in console's chain that the server may accept. */
  function GoodSid(s: State, client: Client): Option<nat> {
    if client.flight.None? || client.flight.value >= |s.flights| then Some(client.row)
    else
      match s.flights[client.flight.value].stage
      case Killed(_) => None
      case Answered(Issued(_, sid)) => Some(sid)
      case _ => Some(client.row)
  }

  ghost predicate StageOk(s: State, chain: nat, flight: Flight)
    requires |s.chains| == |s.rows|
  {
    match flight.stage
    case Asked => true
    case Checked(k) => k == flight.sid - 1
    case Cleared(k) => k == flight.sid - 1
    case Killed(k) => k == flight.sid - 1
    case Answered(Unauthorized) => true
    case Answered(Issued(token, sid)) => IsRow(s, sid, token) && s.chains[sid - 1] == chain && Unpresented(s, sid)
    case Delivered => false
  }

  /** The refresh under way will end the session: no reply that is not ok leaves a token. */
  predicate BeingRefused(s: State, client: Client) {
    client.flight.Some? && client.flight.value < |s.flights|
    && s.flights[client.flight.value].stage == Answered(Unauthorized)
  }

  /** The live rows of the console's chain are what they should be. */
  ghost predicate ChainOk(s: State, client: Client)
    requires |s.chains| == |s.rows|
  {
    && (forall i :: 0 <= i < |s.rows| && s.chains[i] == client.chain && !s.rows[i].revoked ==>
          GoodSid(s, client) == Some(i + 1))
    && (client.chain !in s.cut ==>
          forall i :: 0 <= i < |s.rows| && s.chains[i] == client.chain && GoodSid(s, client) == Some(i + 1) ==>
            !s.rows[i].revoked)
  }

  /** A console with a stored token: the token's row is in its chain, an access token it
      still has was issued with it, the live rows of the chain are what they should be unless
      the session is about to end, and the token has been presented exactly when a refresh is
      under way. */
  ghost predicate SignedInOk(s: State, client: Client)
    requires |s.chains| == |s.rows| && client.stored.Some?
  {
    && IsRow(s, client.row, client.stored.value) && s.chains[client.row - 1] == client.chain
    && (client.access.Some? ==> client.access.value == client.row)
    && (!BeingRefused(s, client) ==> ChainOk(s, client))
    && (client.flight.None? ==> Unpresented(s, client.row))
  }

  /** A shared promise is an undelivered refresh of the stored token. */
  ghost predicate FlyingOk(s: State, c: nat, client: Client)
    requires |s.chains| == |s.rows| && client.flight.Some?
  {
    var f := client.flight.value;
    && f < |s.flights| && s.flights[f].client == c && client.stored == Some(s.flights[f].token)
    && client.row == s.flights[f].sid && StageOk(s, client.chain, s.flights[f])
  }

  ghost predicate ClientOk(s: State, c: nat)
    requires |s.chains| == |s.rows| && c < |s.clients|
  {
    var client := s.clients[c];
    && client.chain < s.nextChain
    && (client.stored.Some? ==> SignedInOk(s, client))
    && (client.flight.Some? ==> FlyingOk(s, c, client))
  }

  ghost predicate FlightOk(s: State, f: nat)
    requires f < |s.flights|
  {
    var flight := s.flights[f];
    && flight.client < |s.clients| && IsRow(s, flight.sid, flight.token)
    && (!flight.stage.Delivered? ==> s.clients[flight.client].flight == Some(f))
  }

  ghost predicate RequestOk(s: State, r: nat)
    requires r < |s.requests|
  {
    && s.requests[r].client < |s.clients|
    && (s.requests[r].phase.Waiting? ==>
          s.clients[s.requests[r].client].flight == Some(s.requests[r].phase.flight))
  }

  ghost predicate ChainsDiffer(clients: seq<Client>) {
    forall c, d :: 0 <= c < d < |clients| ==> clients[c].chain != clients[d].chain
  }

  ghost predicate SidsDiffer(flights: seq<Flight>) {
    forall f, g :: 0 <= f < g < |flights| ==> flights[f].sid != flights[g].sid
  }

  ghost predicate Inv(s: State) {
    && RowsOk(s) && ChainsDiffer(s.clients) && SidsDiffer(s.flights)
    && (forall c :: 0 <= c < |s.clients| ==> ClientOk(s, c))
    && (forall f :: 0 <= f < |s.flights| ==> FlightOk(s, f))
    && (forall r :: 0 <= r < |s.requests| ==> RequestOk(s, r))
  }

  // ------------------------------------------------------------ what a step leaves alone

  /** Nothing that console `d` depends on has changed. */
  ghost predicate Frame(s: State, s': State, d: nat)
    requires |s.chains| == |s.rows| && |s'.chains| == |s'.rows| && d < |s.clients|
  {
    var chain := s.clients[d].chain;
    && |s'.clients| == |s.clients| && s'.clients[d] == s.clients[d] && s.nextChain <= s'.nextChain
    && s'.cut == s.cut
    && |s.rows| <= |s'.rows| && |s.flights| <= |s'.flights|
    && (forall i :: 0 <= i < |s.rows| ==>
          s'.chains[i] == s.chains[i] && s'.rows[i].hash == s.rows[i].hash
          && (s.chains[i] == chain ==> s'.rows[i].revoked == s.rows[i].revoked))
    && (forall i :: |s.rows| <= i < |s'.rows| ==> s'.chains[i] != chain)
    && (forall g :: 0 <= g < |s.flights| ==>
          s'.flights[g].sid == s.flights[g].sid && (s.flights[g].client == d ==> s'.flights[g] == s.flights[g]))
    && (forall g :: |s.flights| <= g < |s'.flights| ==>
          1 <= s'.flights[g].sid <= |s.rows| && s.chains[s'.flights[g].sid - 1] != chain)
  }

  lemma FrameKeeps(s: State, s': State, d: nat)
    requires |s.chains| == |s.rows| && |s'.chains| == |s'.rows| && d < |s.clients|
    requires ClientOk(s, d) && Frame(s, s', d)
    ensures ClientOk(s', d)
  {
    var client := s.clients[d];
    if client.flight.Some? {
      var f := client.flight.value;
      assert s'.flights[f] == s.flights[f];
    }
    assert GoodSid(s', client) == GoodSid(s, client);
  }

  /** The whole invariant from the acting console's part and frames for the others. */
  lemma Reassemble(s: State, s': State, c: nat)
    requires Inv(s) && RowsOk(s') && |s'.clients| == |s.clients| && c < |s.clients|
    requires ClientOk(s', c)
    requires forall d :: 0 <= d < |s.clients| && d != c ==> Frame(s, s', d)
    requires ChainsDiffer(s'.clients) && SidsDiffer(s'.flights)
    requires forall f :: 0 <= f < |s'.flights| ==> FlightOk(s', f)
    requires forall r :: 0 <= r < |s'.requests| ==> RequestOk(s', r)
    ensures Inv(s')
  {
    hide ClientOk;
    hide Frame;
    hide FlightOk;
    hide RequestOk;
    forall d | 0 <= d < |s.clients| ensures ClientOk(s', d) {
      if d != c {
        FrameKeeps(s, s', d);
      }
    }
  }

  // ------------------------------------------------------------ the steps

  /** A step of the handler that does not touch the table, a failure at any await included. */
  lemma StageMoves(s: State, f: nat, stage: Stage)
    requires Inv(s) && f < |s.flights| && !s.flights[f].stage.Delivered?
    requires stage != Answered(Unauthorized) ==>
             && (s.flights[f].stage.Asked? || s.flights[f].stage.Checked?)
             && (stage.Checked? || stage.Cleared?) && stage.k == s.flights[f].sid - 1
    ensures Inv(WithStage(s, f, stage))
  {
    hide WellKept;
    var s' := WithStage(s, f, stage);
    var c := s.flights[f].client;
    assert FlightOk(s, f) && ClientOk(s, c);
    assert ClientOk(s', c) by {
      assert stage != Answered(Unauthorized) ==> GoodSid(s', s.clients[c]) == GoodSid(s, s.clients[c]);
    }
    forall d | 0 <= d < |s.clients| && d != c ensures Frame(s, s', d) {
    }
    forall g | 0 <= g < |s'.flights| ensures FlightOk(s', g) {
      assert FlightOk(s, g);
    }
    forall r | 0 <= r < |s'.requests| ensures RequestOk(s', r) {
      assert RequestOk(s, r);
    }
    Reassemble(s, s', c);
  }

  lemma FindOk(s: State, f: nat, now: int, ttl: nat)
    requires Inv(s) && Enabled(s, Find(f, now))
    ensures Inv(Next(s, Find(f, now), ttl))
  {
    assert FlightOk(s, f);
    FoundRow(s, f);
    var k := s.flights[f].sid - 1;
    hide Inv, WellKept;
    StageMoves(s, f, if s.rows[k].revoked || s.rows[k].expires < now then Answered(Unauthorized) else Checked(k));
  }

  lemma CheckUserOk(s: State, f: nat, active: bool, ttl: nat)
    requires Inv(s) && Enabled(s, CheckUser(f, active))
    ensures Inv(Next(s, CheckUser(f, active), ttl))
  {
    assert FlightOk(s, f) && ClientOk(s, s.flights[f].client);
    StageMoves(s, f, if active then Cleared(s.flights[f].stage.k) else Answered(Unauthorized));
  }

  lemma FailOk(s: State, f: nat, ttl: nat)
    requires Inv(s) && Enabled(s, Fail(f))
    ensures Inv(Next(s, Fail(f), ttl))
  {
    hide Inv;
    StageMoves(s, f, Answered(Unauthorized));
  }

  lemma SendOk(s: State, c: nat, authUrl: bool, ttl: nat)
    requires Inv(s) && Enabled(s, Send(c, authUrl))
    ensures Inv(Next(s, Send(c, authUrl), ttl))
  {
    var s' := Next(s, Send(c, authUrl), ttl);
    assert ClientOk(s, c);
    FrameAll(s, s');
    forall g | 0 <= g < |s'.flights| ensures FlightOk(s', g) {
      assert FlightOk(s, g);
    }
    forall r | 0 <= r < |s'.requests| ensures RequestOk(s', r) {
      if r < |s.requests| { assert RequestOk(s, r); }
    }
  }

  /** Steps that leave tables, consoles and refreshes alone. */
  lemma FrameAll(s: State, s': State)
    requires Inv(s) && RowsOk(s') && s' == s.(requests := s'.requests)
    ensures forall c :: 0 <= c < |s'.clients| ==> ClientOk(s', c)
  {
    forall c | 0 <= c < |s'.clients| ensures ClientOk(s', c) {
      assert ClientOk(s, c);
      assert Frame(s, s', c);
      FrameKeeps(s, s', c);
    }
  }

  lemma SignOutOk(s: State, c: nat, ttl: nat)
    requires Inv(s) && Enabled(s, SignOut(c))
    ensures Inv(Next(s, SignOut(c), ttl))
  {
    var s' := Next(s, SignOut(c), ttl);
    assert ClientOk(s, c);
    assert ClientOk(s', c);
    UnflownOk(s, s', c);
  }

  /** A console without a refresh under way may change its session: the frames. */
  lemma UnflownOk(s: State, s': State, c: nat)
    requires Inv(s) && c < |s.clients| && s.clients[c].flight.None?
    requires c < |s'.clients| && s' == s.(clients := s.clients[c := s'.clients[c]])
    requires s'.clients[c].flight.None? && s'.clients[c].chain == s.clients[c].chain && ClientOk(s', c)
    ensures Inv(s')
  {
    forall d | 0 <= d < |s.clients| && d != c ensures Frame(s, s', d) {
    }
    forall g | 0 <= g < |s'.flights| ensures FlightOk(s', g) {
      assert FlightOk(s, g);
    }
    forall r | 0 <= r < |s'.requests| ensures RequestOk(s', r) {
      assert RequestOk(s, r);
    }
    Reassemble(s, s', c);
  }

  lemma SignInOk(s: State, c: nat, user: User, secret: string, at: int, ttl: nat)
    requires Inv(s) && Enabled(s, SignIn(c, user, secret, at))
    ensures Inv(Next(s, SignIn(c, user, secret, at), ttl))
  {
    var s' := Next(s, SignIn(c, user, secret, at), ttl);
    CreatedKept(s.rows, user.tenant, user.id, secret, at + ttl);
    hide WellKept, TokenText;
    SignInClient(s, s', c);
    SignInFrames(s, s', c);
    hide ClientOk, FlightOk, RequestOk, Frame;
    Reassemble(s, s', c);
  }

  lemma SignInFrames(s: State, s': State, c: nat)
    requires Inv(s) && c < |s.clients| && s.clients[c].flight.None?
    requires |s'.rows| == |s.rows| + 1 && s'.rows[..|s.rows|] == s.rows
    requires s'.chains == s.chains + [s.nextChain] && s'.nextChain == s.nextChain + 1
    requires |s'.clients| == |s.clients| && s'.clients == s.clients[c := s'.clients[c]]
    requires s'.clients[c].flight.None? && s'.clients[c].chain == s.nextChain
    requires s'.flights == s.flights && s'.requests == s.requests && s'.cut == s.cut
    ensures forall d :: 0 <= d < |s.clients| && d != c ==> Frame(s, s', d)
    ensures ChainsDiffer(s'.clients)
    ensures forall g :: 0 <= g < |s'.flights| ==> FlightOk(s', g)
    ensures forall r :: 0 <= r < |s'.requests| ==> RequestOk(s', r)
  {
    hide WellKept;
    forall i | 0 <= i < |s.rows| ensures s'.chains[i] == s.chains[i] && s'.rows[i] == s.rows[i] {
      assert s'.rows[i] == s'.rows[..|s.rows|][i];
    }
    forall d | 0 <= d < |s.clients| ensures s.clients[d].chain < s.nextChain {
      assert ClientOk(s, d);
    }
    forall d | 0 <= d < |s.clients| && d != c ensures Frame(s, s', d) {
      assert ClientOk(s, d);
    }
    forall g | 0 <= g < |s'.flights| ensures FlightOk(s', g) {
      assert FlightOk(s, g);
    }
    forall r | 0 <= r < |s'.requests| ensures RequestOk(s', r) {
      assert RequestOk(s, r);
    }
  }

  /** A fresh chain holds nothing but the new row, which nobody has presented. */
  lemma SignInClient(s: State, s': State, c: nat)
    requires Inv(s) && RowsOk(s') && c < |s.clients| == |s'.clients|
    requires |s'.rows| == |s.rows| + 1 && s'.rows[..|s.rows|] == s.rows && !s'.rows[|s.rows|].revoked
    requires s'.chains == s.chains + [s.nextChain] && s'.nextChain == s.nextChain + 1 && s'.flights == s.flights
    requires s'.clients[c] == Client(Some(s'.rows[|s.rows|].hash.text), Some(|s.rows| + 1), None, s.nextChain,
                                     |s.rows| + 1)
    ensures ClientOk(s', c)
  {
    forall g | 0 <= g < |s.flights| ensures s.flights[g].sid != |s.rows| + 1 {
      assert FlightOk(s, g);
    }
    forall i | 0 <= i < |s.rows| ensures s'.chains[i] != s.nextChain {
      assert s'.chains[i] == s.chains[i];
    }
  }

  lemma RespondOk(s: State, r: nat, unauthorized: bool, ttl: nat)
    requires Inv(s) && Enabled(s, Respond(r, unauthorized))
    ensures Inv(Next(s, Respond(r, unauthorized), ttl))
  {
    var request := s.requests[r];
    var c := request.client;
    var client := s.clients[c];
    assert ClientOk(s, c);
    if !unauthorized || request.authUrl || client.flight.Some? {
      RelabelOk(s, r, Next(s, Respond(r, unauthorized), ttl).requests[r].phase);
    } else if client.stored.None? {
      RelabelOk(s, r, Returned);
      var m := s.(requests := s.requests[r := request.(phase := Returned)]);
      assert ClientOk(m, c);
      var s' := m.(clients := m.clients[c := client.(access := None)]);
      assert s' == Next(s, Respond(r, unauthorized), ttl);
      assert ClientOk(s', c);
      UnflownOk(m, s', c);
    } else {
      LaunchOk(s, c);
      RelabelOk(Launched(s, c), r, Waiting(|s.flights|));
    }
  }

  lemma RelabelOk(s: State, r: nat, phase: Phase)
    requires Inv(s) && r < |s.requests|
    requires phase.Waiting? ==>
      s.requests[r].client < |s.clients| && s.clients[s.requests[r].client].flight == Some(phase.flight)
    ensures Inv(s.(requests := s.requests[r := s.requests[r].(phase := phase)]))
  {
    var s' := s.(requests := s.requests[r := s.requests[r].(phase := phase)]);
    FrameAll(s, s');
    forall g | 0 <= g < |s'.flights| ensures FlightOk(s', g) {
      assert FlightOk(s, g);
    }
    forall q | 0 <= q < |s'.requests| ensures RequestOk(s', q) {
      assert RequestOk(s, q);
    }
  }

  /** A refresh starts: the stored token, never presented before, is presented. */
  lemma LaunchOk(s: State, c: nat)
    requires Inv(s) && c < |s.clients| && s.clients[c].flight.None? && s.clients[c].stored.Some?
    ensures Inv(Launched(s, c))
  {
    var s' := Launched(s, c);
    LaunchClient(s, c);
    hide WellKept, ClientOk;
    assert ClientOk(s, c);
    LaunchFrames(s, c);
    hide Frame, FlightOk, RequestOk;
    Reassemble(s, s', c);
  }

  lemma LaunchClient(s: State, c: nat)
    requires Inv(s) && c < |s.clients| && s.clients[c].flight.None? && s.clients[c].stored.Some?
    ensures ClientOk(Launched(s, c), c) && SidsDiffer(Launched(s, c).flights)
  {
    hide WellKept;
    var s' := Launched(s, c);
    assert ClientOk(s, c);
    assert s'.flights[|s.flights|] == Flight(c, s.clients[c].stored.value, s.clients[c].row, Asked);
    assert GoodSid(s', s'.clients[c]) == GoodSid(s, s.clients[c]);
  }

  lemma LaunchFrames(s: State, c: nat)
    requires Inv(s) && c < |s.clients| && s.clients[c].flight.None? && s.clients[c].stored.Some?
    ensures var s' := Launched(s, c);
            && (forall d :: 0 <= d < |s.clients| && d != c ==> Frame(s, s', d))
            && (forall g :: 0 <= g < |s'.flights| ==> FlightOk(s', g))
            && (forall q :: 0 <= q < |s'.requests| ==> RequestOk(s', q))
  {
    hide WellKept;
    var s' := Launched(s, c);
    assert ClientOk(s, c);
    forall d | 0 <= d < |s.clients| && d != c ensures Frame(s, s', d) {
      assert s.clients[d].chain != s.clients[c].chain;
    }
    forall g | 0 <= g < |s'.flights| ensures FlightOk(s', g) {
      if g < |s.flights| { assert FlightOk(s, g); }
    }
    forall q | 0 <= q < |s'.requests| ensures RequestOk(s', q) {
      assert RequestOk(s, q);
    }
  }

  lemma BootOk(s: State, c: nat, ttl: nat)
    requires Inv(s) && Enabled(s, Boot(c))
    ensures Inv(Next(s, Boot(c), ttl))
  {
    if s.clients[c].flight.None? {
      LaunchOk(s, c);
    }
  }

  /** A revocation from elsewhere leaves fewer live rows, and marks the chains it cut. */
  lemma RevokeAllOk(s: State, tenant: string, user: string, except: Option<nat>, ttl: nat)
    requires Inv(s)
    ensures Inv(Next(s, RevokeAll(tenant, user, except), ttl))
  {
    var s' := OnRevokeAll(s, tenant, user, except);
    RevokeAllKeeps(s.rows, tenant, user, except);
    hide WellKept;
    forall c | 0 <= c < |s.clients| ensures ClientOk(s', c) {
      RevokeAllClient(s, c, tenant, user, except);
    }
    forall g | 0 <= g < |s'.flights| ensures FlightOk(s', g) {
      assert FlightOk(s, g);
    }
    forall r | 0 <= r < |s'.requests| ensures RequestOk(s', r) {
      assert RequestOk(s, r);
    }
  }

  lemma CutMarked(s: State, tenant: string, user: string, except: Option<nat>, i: nat)
    requires i < |s.rows| == |s.chains|
    ensures InScope(s.rows[i], tenant, user, except) ==> s.chains[i] in OnRevokeAll(s, tenant, user, except).cut
  {
  }

  lemma RevokeAllClient(s: State, c: nat, tenant: string, user: string, except: Option<nat>)
    requires Inv(s) && c < |s.clients|
    ensures ClientOk(OnRevokeAll(s, tenant, user, except), c)
  {
    hide WellKept;
    var s' := OnRevokeAll(s, tenant, user, except);
    assert ClientOk(s, c);
    var client := s.clients[c];
    assert GoodSid(s', client) == GoodSid(s, client);
    forall i | 0 <= i < |s.rows| && s.chains[i] == client.chain && client.chain !in s'.cut
      ensures s'.rows[i] == s.rows[i]
    {
      CutMarked(s, tenant, user, except, i);
    }
  }

  lemma LoadOk(s: State, c: nat, ttl: nat)
    requires Inv(s) && Enabled(s, Load(c))
    ensures Inv(Next(s, Load(c), ttl))
  {
    hide WellKept;
    var m := s.(requests := Abandoned(s.requests, c));
    FrameAll(s, m);
    forall g | 0 <= g < |m.flights| ensures FlightOk(m, g) {
      assert FlightOk(s, g);
    }
    forall r | 0 <= r < |m.requests| ensures RequestOk(m, r) {
      assert RequestOk(s, r);
    }
    var s' := OnLoad(s, c);
    assert ClientOk(m, c);
    assert ClientOk(s', c);
    UnflownOk(m, s', c);
  }

  lemma KillOk(s: State, f: nat, ttl: nat)
    requires Inv(s) && Enabled(s, Kill(f))
    ensures Inv(Next(s, Kill(f), ttl))
  {
    var s' := Next(s, Kill(f), ttl);
    var k := s.flights[f].stage.k;
    assert FlightOk(s, f) && ClientOk(s, s.flights[f].client);
    assert k == s.flights[f].sid - 1;
    IdsFound(s.rows, k);
    RevokedRowsOk(s, s', k);
    hide WellKept, ClientOk, FlightOk;
    KillClient(s, f, s');
    KillFrames(s, f, s');
    Reassemble(s, s', s.flights[f].client);
  }

  lemma KillFrames(s: State, f: nat, s': State)
    requires Inv(s) && f < |s.flights| && s.flights[f].stage.Cleared? && s.flights[f].stage.k < |s.rows|
    requires var k := s.flights[f].stage.k;
             s' == WithStage(s, f, Killed(k)).(rows := s.rows[k := s.rows[k].(revoked := true)])
    ensures forall d :: 0 <= d < |s.clients| && d != s.flights[f].client ==> Frame(s, s', d)
    ensures forall g :: 0 <= g < |s'.flights| ==> FlightOk(s', g)
    ensures forall r :: 0 <= r < |s'.requests| ==> RequestOk(s', r)
  {
    hide WellKept;
    var c, k := s.flights[f].client, s.flights[f].stage.k;
    assert FlightOk(s, f) && ClientOk(s, c);
    assert s.chains[k] == s.clients[c].chain;
    forall d | 0 <= d < |s.clients| && d != c ensures Frame(s, s', d) {
      assert s.clients[d].chain != s.clients[c].chain;
    }
    forall g | 0 <= g < |s'.flights| ensures FlightOk(s', g) {
      assert FlightOk(s, g);
    }
    forall r | 0 <= r < |s'.requests| ensures RequestOk(s', r) {
      assert RequestOk(s, r);
    }
  }

  lemma RevokedRowsOk(s: State, s': State, k: nat)
    requires RowsOk(s) && k < |s.rows| && s'.rows == s.rows[k := s.rows[k].(revoked := true)]
    requires s'.chains == s.chains && s'.nextChain == s.nextChain
    ensures RowsOk(s')
  {
  }

  /** Once its token's row is revoked the chain has no live row. */
  lemma KillClient(s: State, f: nat, s': State)
    requires Inv(s) && f < |s.flights| && s.flights[f].stage.Cleared? && s.flights[f].stage.k < |s.rows|
    requires var k := s.flights[f].stage.k;
             s' == WithStage(s, f, Killed(k)).(rows := s.rows[k := s.rows[k].(revoked := true)])
    ensures s.flights[f].client < |s'.clients| && ClientOk(s', s.flights[f].client)
  {
    var c, k := s.flights[f].client, s.flights[f].stage.k;
    assert FlightOk(s, f) && ClientOk(s, c);
    assert GoodSid(s, s.clients[c]) == Some(k + 1) && GoodSid(s', s'.clients[c]) == None;
  }

  lemma IssueOk(s: State, f: nat, secret: string, at: int, ttl: nat)
    requires Inv(s) && Enabled(s, Issue(f, secret, at))
    ensures Inv(Next(s, Issue(f, secret, at), ttl))
  {
    var s' := Next(s, Issue(f, secret, at), ttl);
    IssueRowsOk(s, f, secret, at, ttl);
    hide WellKept, TokenText, FlightOk, ClientOk, RequestOk, RowsOk;
    IssueClient(s, f, s');
    IssueFrames(s, f, s');
    Reassemble(s, s', s.flights[f].client);
  }

  lemma IssueRowsOk(s: State, f: nat, secret: string, at: int, ttl: nat)
    requires Inv(s) && Enabled(s, Issue(f, secret, at))
    ensures RowsOk(Next(s, Issue(f, secret, at), ttl))
  {
    var k := s.flights[f].stage.k;
    assert ClientOk(s, s.flights[f].client);
    assert IsTenant(s.rows[k].tenant);
    CreatedKept(s.rows, s.rows[k].tenant, s.rows[k].user, secret, at + ttl);
    hide WellKept, TokenText;
  }

  lemma IssueFrames(s: State, f: nat, s': State)
    requires Inv(s) && RowsOk(s') && f < |s.flights| && s.flights[f].client < |s.clients|
    requires |s'.rows| == |s.rows| + 1 && s'.rows[..|s.rows|] == s.rows
    requires s'.chains == s.chains + [s.clients[s.flights[f].client].chain]
    requires s'.clients == s.clients && s'.nextChain == s.nextChain && s'.requests == s.requests && s'.cut == s.cut
    requires |s'.flights| == |s.flights| && s'.flights == s.flights[f := s.flights[f].(stage := s'.flights[f].stage)]
    requires !s.flights[f].stage.Delivered? && !s'.flights[f].stage.Delivered?
    ensures forall d :: 0 <= d < |s.clients| && d != s.flights[f].client ==> Frame(s, s', d)
    ensures forall g :: 0 <= g < |s'.flights| ==> FlightOk(s', g)
    ensures forall r :: 0 <= r < |s'.requests| ==> RequestOk(s', r)
    ensures SidsDiffer(s'.flights)
  {
    var c := s.flights[f].client;
    forall i | 0 <= i < |s.rows| ensures s'.chains[i] == s.chains[i] && s'.rows[i] == s.rows[i] {
      assert s'.rows[i] == s'.rows[..|s.rows|][i];
    }
    hide WellKept;
    forall d | 0 <= d < |s.clients| && d != c ensures Frame(s, s', d) {
      assert s.clients[d].chain != s.clients[c].chain;
    }
    forall g | 0 <= g < |s'.flights| ensures FlightOk(s', g) {
      assert FlightOk(s, g);
    }
    forall r | 0 <= r < |s'.requests| ensures RequestOk(s', r) {
      assert RequestOk(s, r);
    }
  }

  /** The row that replaces the revoked one is the only live row of its chain. */
  lemma IssueClient(s: State, f: nat, s': State)
    requires Inv(s) && f < |s.flights| && s.flights[f].stage.Killed? && s.flights[f].client < |s.clients|
    requires RowsOk(s') && |s'.rows| == |s.rows| + 1 && s'.rows[..|s.rows|] == s.rows && !s'.rows[|s.rows|].revoked
    requires s'.chains == s.chains + [s.clients[s.flights[f].client].chain]
    requires s'.clients == s.clients && s'.nextChain == s.nextChain
    requires s'.flights == WithStage(s, f, Answered(Issued(s'.rows[|s.rows|].hash.text, |s.rows| + 1))).flights
    ensures ClientOk(s', s.flights[f].client)
  {
    hide WellKept;
    var c := s.flights[f].client;
    assert FlightOk(s, f) && ClientOk(s, c);
    forall g | 0 <= g < |s'.flights| ensures s'.flights[g].sid != |s.rows| + 1 {
      assert FlightOk(s, g);
    }
    forall i | 0 <= i < |s.rows| ensures s'.chains[i] == s.chains[i] && s'.rows[i] == s.rows[i] {
      assert s'.rows[i] == s'.rows[..|s.rows|][i];
    }
    assert GoodSid(s, s.clients[c]) == None && GoodSid(s', s'.clients[c]) == Some(|s.rows| + 1);
  }

  lemma DeliverOk(s: State, f: nat, ttl: nat)
    requires Inv(s) && Enabled(s, Deliver(f))
    ensures Inv(Next(s, Deliver(f), ttl))
  {
    hide WellKept;
    hide ClientOk;
    var s' := OnReply(s, f);
    DeliverClient(s, f);
    DeliverFrames(s, f);
    Reassemble(s, s', s.flights[f].client);
  }

  lemma DeliverFrames(s: State, f: nat)
    requires Inv(s) && Enabled(s, Deliver(f))
    ensures var s' := OnReply(s, f);
            && (forall d :: 0 <= d < |s.clients| && d != s.flights[f].client ==> Frame(s, s', d))
            && (forall g :: 0 <= g < |s'.flights| ==> FlightOk(s', g))
            && (forall r :: 0 <= r < |s'.requests| ==> RequestOk(s', r))
  {
    hide WellKept;
    hide ClientOk;
    var s' := OnReply(s, f);
    assert FlightOk(s, f);
    forall g | 0 <= g < |s'.flights| ensures FlightOk(s', g) {
      assert FlightOk(s, g);
    }
    forall r | 0 <= r < |s'.requests| ensures RequestOk(s', r) {
      assert RequestOk(s, r);
    }
  }

  lemma DeliverClient(s: State, f: nat)
    requires Inv(s) && Enabled(s, Deliver(f))
    ensures ClientOk(OnReply(s, f), s.flights[f].client)
  {
    hide WellKept;
    var c := s.flights[f].client;
    assert FlightOk(s, f) && ClientOk(s, c);
  }

  lemma InitialOk(n: nat)
    ensures Inv(Initial(n))
  {
  }

  /** Every step keeps the invariant. */
  lemma StepOk(s: State, step: Step, ttl: nat)
    requires Inv(s) && Enabled(s, step)
    ensures Inv(Next(s, step, ttl))
  {
    hide Inv;
    hide Next;
    match step
    case SignIn(c, user, secret, at) => SignInOk(s, c, user, secret, at, ttl);
    case SignOut(c) => SignOutOk(s, c, ttl);
    case RevokeAll(tenant, user, except) => RevokeAllOk(s, tenant, user, except, ttl);
    case Load(c) => LoadOk(s, c, ttl);
    case Boot(c) => BootOk(s, c, ttl);
    case Send(c, authUrl) => SendOk(s, c, authUrl, ttl);
    case Respond(r, unauthorized) => RespondOk(s, r, unauthorized, ttl);
    case Find(f, now) => FindOk(s, f, now, ttl);
    case CheckUser(f, active) => CheckUserOk(s, f, active, ttl);
    case Kill(f) => KillOk(s, f, ttl);
    case Issue(f, secret, at) => IssueOk(s, f, secret, at, ttl);
    case Fail(f) => FailOk(s, f, ttl);
    case Deliver(f) => DeliverOk(s, f, ttl);
  }

  // ------------------------------------------------------------ every run

  ghost predicate IsRun(states: seq<State>, steps: seq<Step>, n: nat, ttl: nat) {
    && |states| == |steps| + 1 && states[0] == Initial(n)
    && forall i :: 0 <= i < |steps| ==> Enabled(states[i], steps[i]) && states[i + 1] == Next(states[i], steps[i], ttl)
  }

  lemma {:induction false} RunOk(states: seq<State>, steps: seq<Step>, n: nat, ttl: nat, i: nat)
    requires IsRun(states, steps, n, ttl) && i < |states|
    ensures Inv(states[i])
  {
    hide Inv;
    if i == 0 {
      InitialOk(n);
    } else {
      RunOk(states, steps, n, ttl, i - 1);
      StepOk(states[i - 1], steps[i - 1], ttl);
    }
  }

  /** Main result: whatever the interleaving, a console has at most one refresh that is
      not yet delivered, and no token is ever presented twice. */
  lemma SingleFlight(states: seq<State>, steps: seq<Step>, n: nat, ttl: nat, i: nat, f: nat, g: nat)
    requires IsRun(states, steps, n, ttl) && i < |states| && f < g < |states[i].flights|
    ensures var flights := states[i].flights;
            flights[f].token != flights[g].token &&
            (flights[f].client == flights[g].client ==> flights[f].stage.Delivered? || flights[g].stage.Delivered?)
  {
    RunOk(states, steps, n, ttl, i);
    assert FlightOk(states[i], f) && FlightOk(states[i], g);
  }

  /** A run without a revocation from elsewhere cuts no chain. */
  lemma {:induction false} NothingCut(states: seq<State>, steps: seq<Step>, n: nat, ttl: nat, i: nat)
    requires IsRun(states, steps, n, ttl) && i < |states|
    requires forall j :: 0 <= j < i ==> !steps[j].RevokeAll?
    ensures states[i].cut == {}
  {
    if i > 0 {
      NothingCut(states, steps, n, ttl, i - 1);
      StepCuts(states[i - 1], steps[i - 1], ttl);
    }
  }

  lemma StepCuts(s: State, step: Step, ttl: nat)
    requires Enabled(s, step) && !step.RevokeAll?
    ensures Next(s, step, ttl).cut == s.cut
  {
  }

  /** Main result: between refreshes, the token a console holds has a row, no other row of
      its rotation chain is live, and that row is, unless the chain was cut by a revocation
      from elsewhere. */
  lemma IdleHoldsTheOnlyLiveRow(states: seq<State>, steps: seq<Step>, n: nat, ttl: nat, i: nat, c: nat)
    requires IsRun(states, steps, n, ttl) && i < |states| && c < |states[i].clients|
    requires var client := states[i].clients[c]; client.flight.None? && client.stored.Some?
    ensures var s, client := states[i], states[i].clients[c];
            |s.chains| == |s.rows| && 1 <= client.row <= |s.rows| &&
            var k := client.row - 1;
            && (client.access.Some? ==> client.access.value == client.row)
            && s.rows[k].hash == Digest(client.stored.value) && s.chains[k] == client.chain
            && (forall j :: 0 <= j < |s.rows| && s.chains[j] == client.chain && !s.rows[j].revoked ==> j == k)
            && (client.chain !in s.cut ==> !s.rows[k].revoked)
  {
    RunOk(states, steps, n, ttl, i);
    assert ClientOk(states[i], c);
  }

  /** Main result: a console presents a token that is revoked only if its chain was cut
      from elsewhere; otherwise the handler refuses it for its age or its user only. */
  lemma NeverRefusedAsUsed(states: seq<State>, steps: seq<Step>, n: nat, ttl: nat, i: nat, f: nat, now: int)
    requires IsRun(states, steps, n, ttl) && i < |states| && Enabled(states[i], Find(f, now))
    ensures var s := states[i];
            1 <= s.flights[f].sid <= |s.rows| && s.flights[f].client < |s.clients| &&
            var k := s.flights[f].sid - 1;
            && (s.rows[k].revoked ==> s.clients[s.flights[f].client].chain in s.cut)
            && Next(s, Find(f, now), ttl).flights[f].stage ==
               if s.rows[k].expires < now || s.rows[k].revoked then Answered(Unauthorized) else Checked(k)
  {
    RunOk(states, steps, n, ttl, i);
    var s := states[i];
    assert FlightOk(s, f);
    assert ClientOk(s, s.flights[f].client);
    PresentedRow(s, f);
    hide Inv;
    FoundRow(s, f);
  }

  lemma PresentedRow(s: State, f: nat)
    requires Inv(s) && f < |s.flights| && s.flights[f].stage.Asked?
    ensures 1 <= s.flights[f].sid <= |s.rows| && s.flights[f].client < |s.clients|
    ensures s.rows[s.flights[f].sid - 1].revoked ==> s.clients[s.flights[f].client].chain in s.cut
  {
    hide WellKept;
    assert FlightOk(s, f);
    assert ClientOk(s, s.flights[f].client);
    assert GoodSid(s, s.clients[s.flights[f].client]) == Some(s.flights[f].sid);
  }

  /** The handler finds the row of the presented token, and only that. */
  lemma FoundRow(s: State, f: nat)
    requires WellKept(s.rows) && f < |s.flights| && IsRow(s, s.flights[f].sid, s.flights[f].token)
    ensures TenantOf(s.flights[f].token).Some?
    ensures FindByHash(s.rows, TenantOf(s.flights[f].token).value, Digest(s.flights[f].token)) == s.flights[f].sid - 1
  {
    var token := s.flights[f].token;
    var k := FindByHash(s.rows, s.rows[s.flights[f].sid - 1].tenant, Digest(token));
    assert k < |s.rows| ==> k == s.flights[f].sid - 1;
  }

  /** When the reply arrives nobody is left waiting for it: every caller that shared the
      refresh retries once with the access token just issued, or gives up. */
  lemma ReplyResumesAll(states: seq<State>, steps: seq<Step>, n: nat, ttl: nat, i: nat, f: nat, r: nat)
    requires IsRun(states, steps, n, ttl) && i < |states|
    requires Enabled(states[i], Deliver(f)) && r < |states[i].requests|
    ensures var s := states[i];
            var s', c := Next(s, Deliver(f), ttl), s.flights[f].client;
            && |s'.requests| == |s.requests| && c < |s'.clients| && s'.clients[c].flight.None?
            && s'.requests[r].phase ==
               if s.requests[r].client == c && s.requests[r].phase.Waiting? then
                 (if s.flights[f].stage.reply.Issued? then Retried(s'.clients[c].access) else Returned)
               else s.requests[r].phase
  {
    RunOk(states, steps, n, ttl, i);
    var s := states[i];
    assert RequestOk(s, r) && FlightOk(s, f) && ClientOk(s, s.flights[f].client);
    if s.requests[r].phase == Waiting(f) {
      assert FlyingOk(s, s.requests[r].client, s.clients[s.requests[r].client]) by {
        assert ClientOk(s, s.requests[r].client);
      }
    }
  }

  /** Why the single flight matters: the handler accepts a live token however often it
      is checked, and stops only when a revocation has come between. */
  lemma CheckThenRevoke(rows: seq<Row>, users: Directory, token: string, now: int, later: int)
    requires WellKept(rows) && Accepts(rows, users, token, now).Some? && now <= later
    ensures var k := Accepts(rows, users, token, now).value;
            k < |rows| &&
            Accepts(Revoked(rows, rows[k].tenant, rows[k].id), users, token, later).None? &&
            (Accepts(rows, users, token, later).Some? <==> later <= rows[k].expires)
  {
    IdsFound(rows, Accepts(rows, users, token, now).value);
  }

  // ------------------------------------------------------------ what a step does

  ghost predicate IsPath(states: seq<State>, steps: seq<Step>, ttl: nat) {
    && |states| == |steps| + 1
    && forall i :: 0 <= i < |steps| ==> Enabled(states[i], steps[i]) && states[i + 1] == Next(states[i], steps[i], ttl)
  }

  /** What finding the row comes to, in the handler's terms. */
  lemma FoundIs(s: State, f: nat, users: Directory, now: int, ttl: nat)
    requires Enabled(s, Find(f, now))
    ensures var found, token := Next(s, Find(f, now), ttl), s.flights[f].token;
            && found == WithStage(s, f, found.flights[f].stage)
            && (found.flights[f].stage == Answered(Unauthorized) || found.flights[f].stage.Checked?)
            && (found.flights[f].stage == Answered(Unauthorized) ==> Accepts(s.rows, users, token, now) == None)
            && (found.flights[f].stage.Checked? ==>
                  var k := found.flights[f].stage.k;
                  k < |s.rows| && s.rows[k].hash == Digest(token) && TenantOf(token) == Some(s.rows[k].tenant)
                  && Accepts(s.rows, users, token, now) ==
                     if (s.rows[k].tenant, s.rows[k].user) in users && users[(s.rows[k].tenant, s.rows[k].user)].active
                     then Some(k) else None)
  {
    hide TenantOf;
  }

  lemma CheckIs(s: State, f: nat, active: bool, ttl: nat)
    requires Enabled(s, CheckUser(f, active))
    ensures Next(s, CheckUser(f, active), ttl) ==
            WithStage(s, f, if active then Cleared(s.flights[f].stage.k) else Answered(Unauthorized))
  {
  }

  /** The revocation and the new row, from where the user was found active. */
  lemma ReplacedIs(s: State, f: nat, k: nat, secret: string, now: int, ttl: nat)
    requires WellKept(s.rows) && f < |s.flights| && s.flights[f].client < |s.clients|
    requires s.flights[f].stage == Cleared(k) && k < |s.rows| && Unseen(s.rows, TokenText(s.rows[k].tenant, secret))
    ensures Enabled(s, Kill(f)) && Enabled(Next(s, Kill(f), ttl), Issue(f, secret, now))
    ensures var row, next := s.rows[k], TokenText(s.rows[k].tenant, secret);
            var done := Next(Next(s, Kill(f), ttl), Issue(f, secret, now), ttl);
            && done.rows == Created(Revoked(s.rows, row.tenant, row.id), row.tenant, row.user, Digest(next), now + ttl)
            && done.flights == s.flights[f := s.flights[f].(stage := Answered(Issued(next, |s.rows| + 1)))]
  {
    IdsFound(s.rows, k);
    hide WellKept, TokenText;
  }

  /** Main result: the handler's awaits in a row, with nothing in between, are the handler: they
      end with its reply, and with its table. */
  lemma HandlerInOneGo(s: State, f: nat, users: Directory, secret: string, now: int, ttl: nat)
      returns (states: seq<State>, steps: seq<Step>)
    requires WellKept(s.rows) && f < |s.flights| && s.flights[f].stage.Asked? && s.flights[f].client < |s.clients|
    requires TenantOf(s.flights[f].token).Some? ==>
               Unseen(s.rows, TokenText(TenantOf(s.flights[f].token).value, secret))
    ensures IsPath(states, steps, ttl) && states[0] == s
    ensures var (rows, reply) := Refreshed(s.rows, users, s.flights[f].token, secret, now, ttl);
            var last := states[|states| - 1];
            last.rows == rows && f < |last.flights| && last.flights[f].stage == Answered(reply)
  {
    hide WellKept, TokenText, TenantOf, Accepts, Unseen, Next, Revoked, Created;
    FoundIs(s, f, users, now, ttl);
    var found := Next(s, Find(f, now), ttl);
    states, steps := [s, found], [Find(f, now)];
    if found.flights[f].stage.Checked? {
      var k := found.flights[f].stage.k;
      var row := s.rows[k];
      var active := (row.tenant, row.user) in users && users[(row.tenant, row.user)].active;
      CheckIs(found, f, active, ttl);
      var checked := Next(found, CheckUser(f, active), ttl);
      if active {
        ReplacedIs(checked, f, k, secret, now, ttl);
        hide Enabled;
        var killed := Next(checked, Kill(f), ttl);
        states := [s, found, checked, killed, Next(killed, Issue(f, secret, now), ttl)];
        steps := [Find(f, now), CheckUser(f, active), Kill(f), Issue(f, secret, now)];
      } else {
        states, steps := [s, found, checked], [Find(f, now), CheckUser(f, active)];
      }
    }
  }

  /** And a sign-in is a login that succeeds. */
  lemma SignInIsLogin(s: State, c: nat, user: User, secret: string, at: int, ttl: nat)
    requires Enabled(s, SignIn(c, user, secret, at)) && user.active
    ensures var (rows, reply) := LoggedIn(s.rows, Some(user), true, secret, at, ttl);
            var s' := Next(s, SignIn(c, user, secret, at), ttl);
            && s'.rows == rows && |s'.clients| == |s.clients| && reply.Issued?
            && s'.clients[c].stored == Some(reply.token) && s'.clients[c].access == Some(reply.sid)
            && s'.clients[c].flight == None
  {
  }

  /** A reply that is not ok leaves the console without tokens, any other with both new ones. */
  lemma ReplySettles(s: State, f: nat, ttl: nat)
    requires Enabled(s, Deliver(f))
    ensures var s', c, reply := Next(s, Deliver(f), ttl), s.flights[f].client, s.flights[f].stage.reply;
            && |s'.clients| == |s.clients| && s'.clients[c].flight == None && s'.rows == s.rows
            && s'.clients[c].stored == (if reply.Issued? then Some(reply.token) else None)
            && s'.clients[c].access == (if reply.Issued? then Some(reply.sid) else None)
            && forall d :: 0 <= d < |s.clients| && d != c ==> s'.clients[d] == s.clients[d]
  {
  }

  /** A response passes unless it is a 401 outside the auth routes. Then the request waits for the
      refresh under way, or for one that presents the stored token; without a token it is given
      up and the access token dropped. */
  lemma ResponseActs(s: State, r: nat, unauthorized: bool, ttl: nat)
    requires Enabled(s, Respond(r, unauthorized))
    ensures var s', request := Next(s, Respond(r, unauthorized), ttl), s.requests[r];
            var c, client := request.client, s.clients[request.client];
            && |s'.requests| == |s.requests| && |s'.clients| == |s.clients|
            && if !unauthorized || request.authUrl then
                 s'.requests[r].phase == Returned && s'.clients == s.clients && s'.flights == s.flights
               else if client.flight.Some? then
                 && s'.requests[r].phase == Waiting(client.flight.value)
                 && s'.clients == s.clients && s'.flights == s.flights
               else if client.stored.None? then
                 s'.requests[r].phase == Returned && s'.clients[c].access == None && s'.clients[c].stored == None
                 && s'.flights == s.flights
               else
                 && s'.requests[r].phase == Waiting(|s.flights|) && s'.clients[c].flight == Some(|s.flights|)
                 && s'.flights == s.flights + [Flight(c, client.stored.value, client.row, Asked)]
                 && s'.clients[c].stored == client.stored && s'.clients[c].access == client.access
  {
  }

  /** A page load forgets the access token and keeps the stored one; signing out forgets both. */
  lemma LoadForgets(s: State, c: nat, ttl: nat)
    requires Enabled(s, Load(c)) && Enabled(s, SignOut(c))
    ensures var loaded, left := Next(s, Load(c), ttl), Next(s, SignOut(c), ttl);
            && |loaded.clients| == |left.clients| == |s.clients|
            && loaded.clients[c].access == None && loaded.clients[c].stored == s.clients[c].stored
            && left.clients[c].access == None && left.clients[c].stored == None
            && loaded.rows == left.rows == s.rows
  {
  }
}
