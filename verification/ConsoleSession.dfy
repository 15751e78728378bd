/** The console's own code: its methods are the console's part of the protocol.

    The session module keeps the tokens and shares one refresh among concurrent callers;
    the middleware reacts to a 401, and the shell refreshes once when its page is loaded. */
module ConsoleSession {
  import opened Options
  import opened RefreshTokens
  import opened RefreshProtocol

  /** What calling `refresh` comes to at once: waiting for the refresh under way, a
      refusal for want of a token, or a request that is sent. */
  datatype Started = Shares(flight: nat) | NoToken | Sends(flight: nat, token: string)

  /** How the call of the server ends: with its reply, or with an exception. */
  datatype Outcome = Replies(reply: Reply) | Throws

  /** What the caller of `refresh` gets in the end. */
  datatype Ended = Renewed | Refused | Rethrown

  /** What the middleware does with a response. */
  datatype Reaction = PassOn | Wait(flight: nat)

  /** The session after a reply. */
  function Replied(client: Client, reply: Reply): Client {
    match reply
    case Unauthorized => client.(stored := None, access := None, flight := None)
    case Issued(token, sid) => client.(stored := Some(token), access := Some(sid), flight := None, row := sid)
  }

  /** The session after the middleware met a 401; `flight` numbers a refresh it starts. */
  function Unauthorised(client: Client, flight: nat): Client {
    if client.flight.Some? then client
    else if client.stored.None? then client.(access := None)
    else client.(flight := Some(flight))
  }

  /** The session after the shell was mounted. */
  function Booted(client: Client, flight: nat): Client {
    if client.access.Some? || client.stored.None? || client.flight.Some? then client
    else client.(flight := Some(flight))
  }

  class Session {
    /** Session storage, the access token in memory, and the shared promise. */
    var stored: Option<string>
    var access: Option<nat>
    var refreshInFlight: Option<nat>
    ghost var chain: nat
    ghost var row: nat

    ghost function Now(): Client
      reads this
    {
      Client(stored, access, refreshInFlight, chain, row)
    }

    /** A page load: session storage is what it was, the module's variables are new. */
    constructor (inStorage: Option<string>, ghost chain: nat, ghost row: nat)
      ensures Now() == Client(inStorage, None, None, chain, row)
    {
      stored, access, refreshInFlight := inStorage, None, None;
      this.chain, this.row := chain, row;
    }

    /** Where storage cannot be written the session lives in memory alone, and what was
        stored before stays. */
    method Apply(token: string, sid: nat, writable: bool)
      modifies this
      ensures Now() == if writable then old(Now()).(stored := Some(token), access := Some(sid), row := sid)
                       else old(Now()).(access := Some(sid))
    {
      access := Some(sid);
      if writable {
        stored := Some(token);
        row := sid;
      }
    }

    method ClearSession(writable: bool)
      modifies this
      ensures Now() == if writable then old(Now()).(stored := None, access := None) else old(Now()).(access := None)
    {
      access := None;
      if writable {
        stored := None;
      }
    }

    /** The part of `refresh` before its first await. */
    method BeginRefresh(flight: nat) returns (r: Started)
      modifies this
      ensures r == if old(refreshInFlight).Some? then Shares(old(refreshInFlight).value)
                   else if old(stored).None? then NoToken
                   else Sends(flight, old(stored).value)
      ensures Now() == if r.Sends? then old(Now()).(flight := Some(flight)) else old(Now())
    {
      if refreshInFlight.Some? {
        return Shares(refreshInFlight.value);
      }
      var token := stored;
      if token.None? {
        return NoToken;
      }
      refreshInFlight := Some(flight);
      return Sends(flight, token.value);
    }

    /** The part of `refresh` after the reply; the promise is dropped last, and also when
        the call throws, which leaves the tokens alone. */
    method EndRefresh(outcome: Outcome, writable: bool) returns (ended: Ended)
      modifies this
      ensures outcome.Throws? ==> ended == Rethrown && Now() == old(Now()).(flight := None)
      ensures outcome.Replies? ==> ended == if outcome.reply.Issued? then Renewed else Refused
      ensures refreshInFlight == None
      ensures outcome.Replies? && outcome.reply.Issued? ==>
                access == Some(outcome.reply.sid) && (writable ==> stored == Some(outcome.reply.token))
      ensures outcome.Replies? && outcome.reply.Unauthorized? ==> access == None && (writable ==> stored == None)
      ensures outcome.Replies? && writable ==> Now() == Replied(old(Now()), outcome.reply)
      ensures outcome.Replies? && !writable ==>
                Now() == Replied(old(Now()), outcome.reply).(stored := old(stored), row := old(row))
    {
      match outcome {
        case Throws =>
          ended := Rethrown;
        case Replies(reply) =>
          match reply {
            case Unauthorized =>
              ClearSession(writable);
              ended := Refused;
            case Issued(token, sid) =>
              Apply(token, sid, writable);
              ended := Renewed;
          }
      }
      refreshInFlight := None;
    }

    /** The middleware up to its await. */
    method OnStatus(status: int, authUrl: bool, flight: nat) returns (r: Reaction, sent: Option<string>)
      modifies this
      ensures status != 401 || authUrl ==> r == PassOn && sent == None && Now() == old(Now())
      ensures status == 401 && !authUrl ==>
                && Now() == Unauthorised(old(Now()), flight)
                && r == (if Now().flight.Some? then Wait(Now().flight.value) else PassOn)
                && sent == (if old(refreshInFlight).None? then old(stored) else None)
      ensures status == 401 && !authUrl && old(refreshInFlight).None? ==>
                if old(stored).Some? then
                  refreshInFlight == Some(flight) && stored == old(stored) && access == old(access)
                else refreshInFlight == None && stored == None && access == None
    {
      sent := None;
      if status != 401 {
        return PassOn, None;
      }
      if authUrl {
        return PassOn, None;
      }
      var started := BeginRefresh(flight);
      match started {
        case Shares(f) => r := Wait(f);
        case NoToken =>
          ClearSession(true);
          r := PassOn;
        case Sends(f, token) =>
          r := Wait(f);
          sent := Some(token);
      }
    }

    /** The middleware after its await: one retry with the current access token, or none. */
    method Resume(renewed: bool) returns (phase: Phase)
      modifies this
      ensures phase == if renewed then Retried(old(access)) else Returned
      ensures Now() == if renewed then old(Now()) else old(Now()).(stored := None, access := None)
    {
      if !renewed {
        ClearSession(true);
        return Returned;
      }
      return Retried(access);
    }

    /** The shell when it is mounted: without a user but with a stored token it refreshes. */
    method Boot(flight: nat) returns (started: Option<Started>)
      modifies this
      ensures Now() == Booted(old(Now()), flight)
      ensures started.Some? <==> old(access).None? && old(stored).Some?
      ensures stored == old(stored) && access == old(access)
      ensures refreshInFlight ==
              if started.Some? && old(refreshInFlight).None? then Some(flight) else old(refreshInFlight)
      ensures started.Some? ==>
                started.value == if old(refreshInFlight).Some? then Shares(old(refreshInFlight).value)
                                 else Sends(flight, old(stored).value)
    {
      if access.Some? {
        return None;
      }
      if stored.Some? {
        var r := BeginRefresh(flight);
        return Some(r);
      }
      return None;
    }
  }

  /** The middleware's step of the protocol is what the session's methods do: to the
      console, to the request, and to the wire. */
  lemma OnResponseIsSession(s: State, r: nat, unauthorized: bool)
    requires r < |s.requests| && s.requests[r].client < |s.clients|
    ensures var s', c := OnResponse(s, r, unauthorized), s.requests[r].client;
            var acts := unauthorized && !s.requests[r].authUrl;
            && |s'.clients| == |s.clients| && |s'.requests| == |s.requests|
            && s'.clients == s.clients[c := if acts then Unauthorised(s.clients[c], |s.flights|) else s.clients[c]]
            && s'.requests[r].phase ==
               (if acts && s'.clients[c].flight.Some? then Waiting(s'.clients[c].flight.value) else Returned)
            && (|s'.flights| > |s.flights| <==> acts && s.clients[c].flight.None? && s.clients[c].stored.Some?)
            && (|s'.flights| > |s.flights| ==> s'.flights[|s.flights|].token == s.clients[c].stored.value)
  {
  }

  /** So is the step of a reply; callers that resume after a refusal clear a session that
      is clear already. */
  lemma OnReplyIsSession(s: State, f: nat)
    requires f < |s.flights| && s.flights[f].stage.Answered? && s.flights[f].client < |s.clients|
    ensures var s', c := OnReply(s, f), s.flights[f].client;
            var reply := s.flights[f].stage.reply;
            && s'.clients == s.clients[c := Replied(s.clients[c], reply)]
            && (reply.Unauthorized? ==>
                  Replied(s.clients[c], reply).(stored := None, access := None) == Replied(s.clients[c], reply))
            && forall r :: 0 <= r < |s.requests| && s.requests[r].phase == Waiting(f) ==>
                 && r < |s'.requests|
                 && s'.requests[r].phase == if reply.Issued? then Retried(s'.clients[c].access) else Returned
  {
  }

  /** And so is the step of a page that starts: the shell's refresh after the load. */
  lemma OnBootIsSession(s: State, c: nat)
    requires c < |s.clients| && s.clients[c].access.None? && s.clients[c].stored.Some?
    ensures OnBoot(s, c).clients == s.clients[c := Booted(s.clients[c], |s.flights|)]
    ensures OnBoot(s, c).requests == s.requests
    ensures OnBoot(s, c).flights ==
            if s.clients[c].flight.Some? then s.flights
            else s.flights + [Flight(c, s.clients[c].stored.value, s.clients[c].row, Asked)]
  {
  }
}
