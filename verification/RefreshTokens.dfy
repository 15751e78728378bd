/** Refresh tokens on the server: the repository of rows and the two handlers that
    use it. */
module RefreshTokens {
  import opened Options

  /** The stored hash of a token text; equal hashes mean equal texts. */
  datatype Digest = Digest(text: string)

  /** `id` is the number in the row's name; a row is revoked for good. */
  datatype Row = Row(id: nat, tenant: string, user: string, hash: Digest, expires: int, revoked: bool)

  datatype User = User(id: string, tenant: string, active: bool)

  type Directory = map<(string, string), User>

  // ------------------------------------------------------------ token texts

  /** The position of the first dot, or the length of the text. */
  function Dot(token: string): (k: nat)
    ensures k <= |token|
    ensures k < |token| ==> token[k] == '.'
    ensures forall i :: 0 <= i < k ==> token[i] != '.'
  {
    if token == "" || token[0] == '.' then 0 else 1 + Dot(token[1..])
  }

  /** The tenant a token names, none when there is no dot or nothing before it. */
  function TenantOf(token: string): Option<string> {
    var k := Dot(token);
    if 0 < k < |token| then Some(token[..k]) else None
  }

  function TokenText(tenant: string, secret: string): string { tenant + "." + secret }

  predicate IsTenant(tenant: string) { tenant != "" && '.' !in tenant }

  /** A token names the text before its first dot, if there is any. */
  lemma TenantOfIs(token: string, tenant: string)
    ensures TenantOf(token) == Some(tenant) <==>
            && tenant != "" && '.' !in tenant && |tenant| < |token|
            && token[..|tenant|] == tenant && token[|tenant|] == '.'
  {
    var k := Dot(token);
    if |tenant| < |token| && token[..|tenant|] == tenant && token[|tenant|] == '.' {
      assert forall i :: 0 <= i < |tenant| ==> token[i] == tenant[i];
    }
    if 0 < k < |token| { assert forall i :: 0 <= i < k ==> token[..k][i] == token[i]; }
  }

  lemma TenantOfOwnToken(tenant: string, secret: string)
    requires IsTenant(tenant)
    ensures TenantOf(TokenText(tenant, secret)) == Some(tenant)
  {
    var t := TokenText(tenant, secret);
    var k := Dot(t);
    assert t[|tenant|] == '.';
    assert forall i :: 0 <= i < |tenant| ==> t[i] == tenant[i];
    assert k == |tenant|;
    assert t[..k] == tenant;
  }

  // ------------------------------------------------------------ the rows as values

  function Created(rows: seq<Row>, tenant: string, user: string, hash: Digest, expires: int): seq<Row> {
    rows + [Row(|rows| + 1, tenant, user, hash, expires, false)]
  }

  /** The first row of the tenant with the hash; the number of rows when there is none. */
  function FindByHash(rows: seq<Row>, tenant: string, hash: Digest): (k: nat)
    ensures k <= |rows|
    ensures k < |rows| ==> rows[k].tenant == tenant && rows[k].hash == hash
    ensures forall i :: 0 <= i < k ==> !(rows[i].tenant == tenant && rows[i].hash == hash)
  {
    if rows == [] || (rows[0].tenant == tenant && rows[0].hash == hash) then 0
    else 1 + FindByHash(rows[1..], tenant, hash)
  }

  function FindById(rows: seq<Row>, tenant: string, id: nat): (k: nat)
    ensures k <= |rows|
    ensures k < |rows| ==> rows[k].tenant == tenant && rows[k].id == id
    ensures forall i :: 0 <= i < k ==> !(rows[i].tenant == tenant && rows[i].id == id)
  {
    if rows == [] || (rows[0].tenant == tenant && rows[0].id == id) then 0
    else 1 + FindById(rows[1..], tenant, id)
  }

  function Revoked(rows: seq<Row>, tenant: string, id: nat): (r: seq<Row>)
    ensures |r| == |rows|
  {
    var k := FindById(rows, tenant, id);
    if k < |rows| then rows[k := rows[k].(revoked := true)] else rows
  }

  predicate InScope(row: Row, tenant: string, user: string, except: Option<nat>) {
    row.tenant == tenant && row.user == user && !row.revoked && except != Some(row.id)
  }

  function AllRevoked(rows: seq<Row>, tenant: string, user: string, except: Option<nat>): (r: seq<Row>)
    ensures |r| == |rows|
    ensures forall i :: 0 <= i < |rows| ==>
      r[i] == if InScope(rows[i], tenant, user, except) then rows[i].(revoked := true) else rows[i]
  {
    seq(|rows|, i requires 0 <= i < |rows| =>
      if InScope(rows[i], tenant, user, except) then rows[i].(revoked := true) else rows[i])
  }

  // ------------------------------------------------------------ the repository

  class Repository {
    var rows: seq<Row>

    constructor ()
      ensures rows == []
    {
      rows := [];
    }

    method Create(tenant: string, user: string, hash: Digest, expires: int) returns (id: nat)
      modifies this
      ensures rows == Created(old(rows), tenant, user, hash, expires)
      ensures id == |rows|
    {
      id := |rows| + 1;
      rows := rows + [Row(id, tenant, user, hash, expires, false)];
    }

    method Find(tenant: string, hash: Digest) returns (row: Option<Row>)
      ensures var k := FindByHash(rows, tenant, hash);
              row == if k < |rows| then Some(rows[k]) else None
    {
      var i := 0;
      while i < |rows|
        invariant i <= |rows|
        invariant forall j :: 0 <= j < i ==> !(rows[j].tenant == tenant && rows[j].hash == hash)
      {
        if rows[i].tenant == tenant && rows[i].hash == hash {
          return Some(rows[i]);
        }
        i := i + 1;
      }
      return None;
    }

    method Revoke(tenant: string, id: nat)
      modifies this
      ensures rows == Revoked(old(rows), tenant, id)
    {
      var i := 0;
      while i < |rows|
        invariant i <= |rows| && rows == old(rows)
        invariant forall j :: 0 <= j < i ==> !(rows[j].tenant == tenant && rows[j].id == id)
      {
        if rows[i].tenant == tenant && rows[i].id == id {
          rows := rows[i := rows[i].(revoked := true)];
          return;
        }
        i := i + 1;
      }
    }

    method RevokeAllForUser(tenant: string, user: string, except: Option<nat>)
      modifies this
      ensures rows == AllRevoked(old(rows), tenant, user, except)
    {
      var i := 0;
      while i < |rows|
        invariant i <= |rows| == |old(rows)|
        invariant rows[..i] == AllRevoked(old(rows), tenant, user, except)[..i]
        invariant rows[i..] == old(rows)[i..]
      {
        assert rows[i] == old(rows)[i] by { assert rows[i..][0] == old(rows)[i..][0]; }
        var was := rows;
        if InScope(rows[i], tenant, user, except) {
          rows := rows[i := rows[i].(revoked := true)];
        }
        assert rows[..i] == was[..i] && rows[i + 1..] == was[i + 1..];
        assert rows[..i + 1] == rows[..i] + [rows[i]];
        assert was[i + 1..] == was[i..][1..] && old(rows)[i + 1..] == old(rows)[i..][1..];
        i := i + 1;
      }
      assert rows[..i] == rows;
    }
  }

  // ------------------------------------------------------------ the handlers

  datatype Reply = Unauthorized | Issued(token: string, sid: nat)

  /** What the refresh handler makes of a presented token: the index of the row it
      accepts, or a refusal. */
  function Accepts(rows: seq<Row>, users: Directory, token: string, now: int): Option<nat> {
    match TenantOf(token)
    case None => None
    case Some(tenant) =>
      var k := FindByHash(rows, tenant, Digest(token));
      if k == |rows| || rows[k].revoked || rows[k].expires < now then None
      else if (tenant, rows[k].user) !in users || !users[(tenant, rows[k].user)].active then None
      else Some(k)
  }

  function Refreshed(rows: seq<Row>, users: Directory, token: string, secret: string, now: int, ttl: nat):
      (seq<Row>, Reply)
  {
    match Accepts(rows, users, token, now)
    case None => (rows, Unauthorized)
    case Some(k) =>
      var row := rows[k];
      var next := TokenText(row.tenant, secret);
      (Created(Revoked(rows, row.tenant, row.id), row.tenant, row.user, Digest(next), now + ttl),
       Issued(next, |rows| + 1))
  }

  function LoggedIn(rows: seq<Row>, user: Option<User>, passwordOk: bool, secret: string, now: int, ttl: nat):
      (seq<Row>, Reply)
  {
    if user.None? || !passwordOk || !user.value.active then (rows, Unauthorized)
    else
      var token := TokenText(user.value.tenant, secret);
      (Created(rows, user.value.tenant, user.value.id, Digest(token), now + ttl), Issued(token, |rows| + 1))
  }

  /** POST /v1/auth/login, once the user has been looked up and the password compared. */
  method Login(tokens: Repository, user: Option<User>, passwordOk: bool, secret: string, now: int, ttl: nat)
      returns (reply: Reply)
    modifies tokens
    ensures (tokens.rows, reply) == LoggedIn(old(tokens.rows), user, passwordOk, secret, now, ttl)
    ensures reply.Issued? <==> user.Some? && passwordOk && user.value.active
    ensures !reply.Issued? ==> tokens.rows == old(tokens.rows)
    ensures reply.Issued? ==>
              && reply.token == user.value.tenant + "." + secret && reply.sid == |old(tokens.rows)| + 1
              && tokens.rows == old(tokens.rows) +
                 [Row(reply.sid, user.value.tenant, user.value.id, Digest(reply.token), now + ttl, false)]
  {
    if user.None? || !passwordOk {
      return Unauthorized;
    }
    if !user.value.active {
      return Unauthorized;
    }
    var token := TokenText(user.value.tenant, secret);
    var sid := tokens.Create(user.value.tenant, user.value.id, Digest(token), now + ttl);
    return Issued(token, sid);
  }

  /** POST /v1/auth/refresh, run without interruption. */
  method Refresh(tokens: Repository, users: Directory, token: string, secret: string, now: int, ttl: nat)
      returns (reply: Reply)
    modifies tokens
    ensures (tokens.rows, reply) == Refreshed(old(tokens.rows), users, token, secret, now, ttl)
    ensures !reply.Issued? ==> tokens.rows == old(tokens.rows)
    ensures reply.Issued? ==>
              && |tokens.rows| == |old(tokens.rows)| + 1 && reply.sid == |tokens.rows|
              && exists k :: 0 <= k < |old(tokens.rows)| &&
                   var row := old(tokens.rows)[k];
                   && row.hash == Digest(token) && !row.revoked && now <= row.expires
                   && (row.tenant, row.user) in users && users[(row.tenant, row.user)].active
                   && reply.token == row.tenant + "." + secret
                   && tokens.rows[|tokens.rows| - 1] ==
                      Row(reply.sid, row.tenant, row.user, Digest(reply.token), now + ttl, false)
  {
    var dot := Dot(token);
    if dot <= 0 || dot == |token| {
      return Unauthorized;
    }
    var tenant := token[..dot];
    var row := tokens.Find(tenant, Digest(token));
    if row.None? || row.value.revoked || row.value.expires < now {
      return Unauthorized;
    }
    if (tenant, row.value.user) !in users {
      return Unauthorized;
    }
    if !users[(tenant, row.value.user)].active {
      return Unauthorized;
    }
    tokens.Revoke(tenant, row.value.id);
    var next := TokenText(tenant, secret);
    var sid := tokens.Create(tenant, row.value.user, Digest(next), now + ttl);
    return Issued(next, sid);
  }
}
