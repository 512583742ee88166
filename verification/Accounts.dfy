/** Signup, login and me, over the users table. bcrypt stays abstract: a hash verifies the password
    it was made from, and passwords over 72 bytes are refused. */
module Accounts {
  import opened Base
  import Strconv
  import opened Tokens

  const MIN_PASSWORD: nat := 8
  const BCRYPT_LIMIT: nat := 72

  datatype User = User(id: int, email: string, passwordHash: string, createdAt: int)

  datatype Users = Users(rows: map<int, User>, nextId: int)

  datatype Hasher = Hasher(hash: (string, int) -> string, verify: (string, string) -> bool)
  {
    ghost predicate Faithful() {
      forall password, salt :: verify(hash(password, salt), password)
    }
  }

  datatype Credentials = Credentials(email: string, password: string)

  datatype Db = Up | Down(burned: bool)

  datatype Answer =
    | Token(token: string, userId: int)
    | Account(id: int, email: string)
    | BadJson
    | BadCredentials
    | HashFailed
    | Conflict
    | CreateFailed
    | DbError
    | InvalidCredentials
    | MissingToken
    | InvalidToken
    | UnknownUser

  // ---------- the store ----------

  predicate Taken(u: Users, email: string) {
    exists id :: id in u.rows && u.rows[id].email == email
  }

  datatype Creation = Fresh(user: User) | Duplicate | Failed

  /** INSERT: the sequence value is taken before the unique constraint is checked. */
  function CreateUser(u: Users, email: string, hash: string, now: int, db: Db): (Users, Creation) {
    if u.nextId > Strconv.MAX_INT64 then (u, Failed)
    else if db.Down? then (if db.burned then u.(nextId := u.nextId + 1) else u, Failed)
    else if Taken(u, email) then (u.(nextId := u.nextId + 1), Duplicate)
    else
      var user := User(u.nextId, email, hash, now);
      (Users(u.rows[u.nextId := user], u.nextId + 1), Fresh(user))
  }

  ghost predicate EmailsUnique(u: Users) {
    forall a, b :: a in u.rows && b in u.rows && u.rows[a].email == u.rows[b].email ==> a == b
  }

  ghost predicate WellFormed(u: Users) {
    && 1 <= u.nextId <= Strconv.MAX_INT64 + 1
    && (forall id :: id in u.rows ==> u.rows[id].id == id && 1 <= id < u.nextId)
    && EmailsUnique(u)
  }

  function FindByEmail(u: Users, email: string): (r: Option<User>)
    requires WellFormed(u)
    ensures r.None? <==> !Taken(u, email)
    ensures r.Some? ==> r.value.id in u.rows && u.rows[r.value.id] == r.value && r.value.email == email
  {
    if !Taken(u, email) then None
    else
      var id :| id in u.rows && u.rows[id].email == email;
      Some(u.rows[id])
  }

  // ---------- the handlers ----------

  datatype Request =
    | Signup(creds: Option<Credentials>, salt: int)
    | Login(creds: Option<Credentials>)
    | Me(header: string)

  datatype Service = Service(signer: Signer, hasher: Hasher)

  function Exec(v: Service, u: Users, now: int, req: Request, db: Db): (Users, Answer)
    requires WellFormed(u)
  {
    match req
    case Signup(creds, salt) =>
      if creds.None? then (u, BadJson)
      else
        var c := creds.value;
        if c.email == "" || |c.password| < MIN_PASSWORD then (u, BadCredentials)
        else if |c.password| > BCRYPT_LIMIT then (u, HashFailed)
        else
          var (u', made) := CreateUser(u, c.email, v.hasher.hash(c.password, salt), now, db);
          (u', match made
               case Fresh(user) => Token(Issue(v.signer, user.id, now), user.id)
               case Duplicate => Conflict
               case Failed => CreateFailed)
    case Login(creds) =>
      if creds.None? then (u, BadJson)
      else if db.Down? then (u, DbError)
      else
        var found := FindByEmail(u, creds.value.email);
        if found.None? || !v.hasher.verify(found.value.passwordHash, creds.value.password)
        then (u, InvalidCredentials)
        else (u, Token(Issue(v.signer, found.value.id, now), found.value.id))
    case Me(header) =>
      var tok := TrimPrefix(header, BEARER);
      if tok == header || tok == "" then (u, MissingToken)
      else
        var uid := Parse(v.signer, tok, now);
        if uid.None? then (u, InvalidToken)
        else if db.Down? || uid.value !in u.rows then (u, UnknownUser)
        else (u, Account(u.rows[uid.value].id, u.rows[uid.value].email))
  }

  lemma ExecKeepsWellFormed(v: Service, u: Users, now: int, req: Request, db: Db)
    requires WellFormed(u)
    ensures WellFormed(Exec(v, u, now, req, db).0)
    ensures Exec(v, u, now, req, db).1.Token? ==>
              Exec(v, u, now, req, db).1.userId in Exec(v, u, now, req, db).0.rows
  {
  }

  datatype Call = Call(now: int, req: Request, db: Db)

  /** A token as it was handed out: when, and for which account. */
  datatype Issued = Issued(token: string, at: int, uid: int, email: string)

  /** What one call hands out, read off its answer and the table it leaves behind. */
  function Handed(u: Users, now: int, a: Answer): seq<Issued>
    requires a.Token? ==> a.userId in u.rows
  {
    if a.Token? then [Issued(a.token, now, a.userId, u.rows[a.userId].email)] else []
  }

  function Run(v: Service, u: Users, calls: seq<Call>): (r: (Users, seq<Issued>))
    requires WellFormed(u)
    ensures WellFormed(r.0)
    decreases calls
  {
    if calls == [] then (u, [])
    else
      var (u1, a) := Exec(v, u, calls[0].now, calls[0].req, calls[0].db);
      ExecKeepsWellFormed(v, u, calls[0].now, calls[0].req, calls[0].db);
      var (u2, later) := Run(v, u1, calls[1..]);
      (u2, Handed(u1, calls[0].now, a) + later)
  }

  /** Accounts are never changed or removed, and no two ever share an email. */
  lemma {:induction false} AccountsAreStable(v: Service, u: Users, calls: seq<Call>)
    requires WellFormed(u)
    ensures var after := Run(v, u, calls).0;
            && EmailsUnique(after)
            && forall id :: id in u.rows ==> id in after.rows && after.rows[id] == u.rows[id]
    decreases calls
  {
    if calls != [] {
      ExecKeepsWellFormed(v, u, calls[0].now, calls[0].req, calls[0].db);
      AccountsAreStable(v, Exec(v, u, calls[0].now, calls[0].req, calls[0].db).0, calls[1..]);
    }
  }

  /** Every token handed out in a run names an account that exists at its end, with the same email. */
  lemma {:induction false} IssuedAreBacked(v: Service, u: Users, calls: seq<Call>, k: nat)
    requires WellFormed(u)
    requires k < |Run(v, u, calls).1|
    ensures var (after, issued) := Run(v, u, calls);
            var i := issued[k];
            && i.token == Issue(v.signer, i.uid, i.at)
            && Strconv.IsInt64(i.uid)
            && i.uid in after.rows && after.rows[i.uid].id == i.uid && after.rows[i.uid].email == i.email
    decreases calls
  {
    var c := calls[0];
    var (u1, a) := Exec(v, u, c.now, c.req, c.db);
    ExecKeepsWellFormed(v, u, c.now, c.req, c.db);
    var first := Handed(u1, c.now, a);
    if k < |first| {
      AccountsAreStable(v, u1, calls[1..]);
    } else {
      IssuedAreBacked(v, u1, calls[1..], k - |first|);
    }
  }

  /** Over any run of signups, logins and lookups, with any database failures: every token handed
      out resolves through `me`, until it expires, to the account it was handed out for; from its
      expiry on it is refused. */
  lemma TokensResolve(v: Service, u: Users, calls: seq<Call>, k: nat, now: int)
    requires v.signer.crypto.Faithful() && WellFormed(u)
    requires k < |Run(v, u, calls).1|
    ensures var (after, issued) := Run(v, u, calls);
            var i := issued[k];
            Exec(v, after, now, Me(BEARER + i.token), Up)
            == (after, if now < Expiry(v.signer, i.at) then Account(i.uid, i.email) else InvalidToken)
  {
    var i := Run(v, u, calls).1[k];
    IssuedAreBacked(v, u, calls, k);
    ParseIssued(v.signer, i.uid, i.at, now);
    IssuedHeaderAccepted(v.signer, i.uid, i.at, now);
    var header := BEARER + i.token;
    assert header[|BEARER|..] == i.token;
    assert TrimPrefix(header, BEARER) == i.token;
    var j := Sign(v.signer, Claim(v.signer, i.uid, i.at));
    assert v.signer.crypto.encode(j) != "";
  }

  /** Signup opens an account exactly for a free, nonempty email and a password of length 8 to 72;
      otherwise no account changes. The new row holds the email and the password's hash. */
  lemma SignupIff(v: Service, u: Users, now: int, c: Credentials, salt: int)
    requires WellFormed(u) && u.nextId <= Strconv.MAX_INT64
    ensures var (u', a) := Exec(v, u, now, Signup(Some(c), salt), Up);
            && (a.Token? <==> c.email != "" && 8 <= |c.password| <= 72 && !Taken(u, c.email))
            && (!a.Token? ==> u'.rows == u.rows)
            && (a.Token? ==>
                  && a.userId !in u.rows
                  && a.token == Issue(v.signer, a.userId, now)
                  && u'.rows == u.rows[a.userId :=
                       User(a.userId, c.email, v.hasher.hash(c.password, salt), now)])
  {
  }

  /** A well-formed signup on a healthy store is refused exactly when the email is taken, and then
      no account changes; the sequence value it used is gone. */
  lemma DuplicateSignup(v: Service, u: Users, now: int, c: Credentials, salt: int)
    requires WellFormed(u) && u.nextId <= Strconv.MAX_INT64
    requires c.email != "" && MIN_PASSWORD <= |c.password| <= BCRYPT_LIMIT
    ensures var (u', a) := Exec(v, u, now, Signup(Some(c), salt), Up);
            && (a == Conflict <==> Taken(u, c.email))
            && (a == Conflict ==> u'.rows == u.rows && u'.nextId == u.nextId + 1)
            && (a != Conflict ==> a.Token? && Taken(u', c.email) && |u'.rows| == |u.rows| + 1)
  {
    var (u', a) := Exec(v, u, now, Signup(Some(c), salt), Up);
    if !Taken(u, c.email) {
      assert u.nextId in u'.rows && u'.rows[u.nextId].email == c.email;
      assert u'.rows.Keys == u.rows.Keys + {u.nextId};
    }
  }

  /** Which refusal a signup gets, and that a refused one adds no account. */
  lemma SignupRefusals(v: Service, u: Users, now: int, creds: Option<Credentials>, salt: int, db: Db)
    requires WellFormed(u)
    ensures var (u', a) := Exec(v, u, now, Signup(creds, salt), db);
            && (a == BadJson <==> creds.None?)
            && (creds.Some? ==>
                  var short := creds.value.email == "" || |creds.value.password| < 8;
                  var long := |creds.value.password| > 72;
                  && (a == BadCredentials <==> short)
                  && (a == HashFailed <==> !short && long)
                  && (a == CreateFailed <==> !short && !long && (db.Down? || u.nextId > 9223372036854775807))
                  && (a == Conflict <==>
                        !short && !long && db.Up? && u.nextId <= 9223372036854775807
                        && exists id :: id in u.rows && u.rows[id].email == creds.value.email))
            && (a.Token? || a in {BadJson, BadCredentials, HashFailed, CreateFailed, Conflict})
            && (!a.Token? ==> u'.rows == u.rows)
            && (a.Token? || a == Conflict ==> u'.nextId == u.nextId + 1)
            && (a == CreateFailed ==>
                  u'.nextId == u.nextId + if db == Down(true) && u.nextId <= 9223372036854775807 then 1 else 0)
            && (a == BadJson || a == BadCredentials || a == HashFailed ==> u' == u)
  {
  }

  /** Which refusal a login or a lookup gets; neither ever changes the table. */
  lemma ReadRefusals(v: Service, u: Users, now: int, creds: Option<Credentials>, header: string, db: Db)
    requires WellFormed(u)
    ensures var (u', a) := Exec(v, u, now, Login(creds), db);
            && u' == u
            && (a == BadJson <==> creds.None?)
            && (a == DbError <==> creds.Some? && db.Down?)
            && (a.Token? || a == BadJson || a == DbError || a == InvalidCredentials)
    ensures var (u', a) := Exec(v, u, now, Me(header), db);
            && u' == u
            && (a == MissingToken <==> !("Bearer " <= header) || header == "Bearer ")
            && (a == InvalidToken <==> a != MissingToken && Parse(v.signer, header[7..], now) == None)
            && (a == UnknownUser <==>
                  && a != MissingToken && a != InvalidToken
                  && (db.Down? || Parse(v.signer, header[7..], now).value !in u.rows))
            && (a.Account? || a == MissingToken || a == InvalidToken || a == UnknownUser)
  {
    if "Bearer " <= header {
      assert header == "Bearer " + header[7..];
      assert TrimPrefix(header, BEARER) == header[7..];
    }
  }

  /** Login succeeds exactly with an email on record and a password its hash verifies, for that
      account and no other; it never changes the table. */
  lemma LoginIff(v: Service, u: Users, now: int, c: Credentials)
    requires WellFormed(u)
    ensures var (u', a) := Exec(v, u, now, Login(Some(c)), Up);
            && u' == u
            && (forall id :: a == Token(Issue(v.signer, id, now), id) && id in u.rows ==>
                               u.rows[id].email == c.email && v.hasher.verify(u.rows[id].passwordHash, c.password))
            && (forall id :: id in u.rows && u.rows[id].email == c.email
                             && v.hasher.verify(u.rows[id].passwordHash, c.password) ==>
                               a == Token(Issue(v.signer, id, now), id))
            && (a.Token? ==> a.userId in u.rows)
            && (!a.Token? ==> a == InvalidCredentials)
  {
    forall id | id in u.rows && u.rows[id].email == c.email
                && v.hasher.verify(u.rows[id].passwordHash, c.password)
      ensures Exec(v, u, now, Login(Some(c)), Up).1 == Token(Issue(v.signer, id, now), id)
    {
      assert Taken(u, c.email);
      assert FindByEmail(u, c.email).value.id == id;
    }
  }

  /** What signup opens, login reaches: after any later run, the same credentials log in to the
      account that signup created. */
  lemma SignupThenLogin(v: Service, u: Users, now: int, c: Credentials, salt: int, db: Db, calls: seq<Call>, later: int)
    requires v.hasher.Faithful() && WellFormed(u)
    requires Exec(v, u, now, Signup(Some(c), salt), db).1.Token?
    ensures var (u1, a) := Exec(v, u, now, Signup(Some(c), salt), db);
            && WellFormed(u1)
            && var after := Run(v, u1, calls).0;
               Exec(v, after, later, Login(Some(c)), Up)
               == (after, Token(Issue(v.signer, a.userId, later), a.userId))
  {
    var (u1, a) := Exec(v, u, now, Signup(Some(c), salt), db);
    ExecKeepsWellFormed(v, u, now, Signup(Some(c), salt), db);
    AccountsAreStable(v, u1, calls);
    var after := Run(v, u1, calls).0;
    assert after.rows[a.userId].email == c.email;
    assert v.hasher.verify(v.hasher.hash(c.password, salt), c.password);
  }

  /** me answers with an account exactly when the header has the Bearer prefix, tasks-svc would take
      the caller for that account's id, and the account exists. */
  lemma MeIff(v: Service, u: Users, now: int, header: string, id: int, email: string)
    requires WellFormed(u)
    ensures Exec(v, u, now, Me(header), Up) == (u, Account(id, email)) <==>
            && BEARER <= header
            && AuthMw(v.signer, header, now) == Some(id)
            && id in u.rows && u.rows[id].email == email
  {
    assert BEARER <= header ==> TrimPrefix(header, BEARER) != header;
  }

  // ---------- the service itself ----------

  class App {
    const service: Service
    var rows: map<int, User>
    var nextId: int

    constructor (service: Service)
      ensures this.service == service && State() == Users(map[], 1)
    {
      this.service := service;
      rows, nextId := map[], 1;
    }

    function State(): Users
      reads this
    {
      Users(rows, nextId)
    }

    method Signup(creds: Option<Credentials>, salt: int, now: int, db: Db) returns (a: Answer)
      requires WellFormed(State())
      modifies this
      ensures (State(), a) == Exec(service, old(State()), now, Request.Signup(creds, salt), db)
      ensures WellFormed(State())
    {
      ghost var before := State();
      ExecKeepsWellFormed(service, before, now, Request.Signup(creds, salt), db);
      if creds.None? {
        return BadJson;
      }
      var c := creds.value;
      if c.email == "" || |c.password| < MIN_PASSWORD {
        return BadCredentials;
      }
      if |c.password| > BCRYPT_LIMIT {
        return HashFailed;
      }
      var made := Create(c.email, service.hasher.hash(c.password, salt), now, db);
      match made {
        case Fresh(user) => a := Token(Issue(service.signer, user.id, now), user.id);
        case Duplicate => a := Conflict;
        case Failed => a := CreateFailed;
      }
    }

    method Create(email: string, hash: string, now: int, db: Db) returns (made: Creation)
      modifies this
      ensures (State(), made) == CreateUser(old(State()), email, hash, now, db)
    {
      if nextId > Strconv.MAX_INT64 {
        return Failed;
      }
      if db.Down? {
        if db.burned {
          nextId := nextId + 1;
        }
        return Failed;
      }
      var id := nextId;
      nextId := nextId + 1;
      if exists other :: other in rows && rows[other].email == email {
        return Duplicate;
      }
      var user := User(id, email, hash, now);
      rows := rows[id := user];
      made := Fresh(user);
    }

    method Login(creds: Option<Credentials>, now: int, db: Db) returns (a: Answer)
      requires WellFormed(State())
      ensures (State(), a) == Exec(service, old(State()), now, Request.Login(creds), db)
    {
      if creds.None? {
        return BadJson;
      }
      if db.Down? {
        return DbError;
      }
      var found := FindByEmail(State(), creds.value.email);
      if found.None? {
        return InvalidCredentials;
      }
      if !service.hasher.verify(found.value.passwordHash, creds.value.password) {
        return InvalidCredentials;
      }
      a := Token(Issue(service.signer, found.value.id, now), found.value.id);
    }

    method Me(header: string, now: int, db: Db) returns (a: Answer)
      requires WellFormed(State())
      ensures (State(), a) == Exec(service, old(State()), now, Request.Me(header), db)
    {
      var tok := TrimPrefix(header, BEARER);
      if tok == header || tok == "" {
        return MissingToken;
      }
      var uid := Parse(service.signer, tok, now);
      if uid.None? {
        return InvalidToken;
      }
      if db.Down? || uid.value !in rows {
        return UnknownUser;
      }
      a := Account(rows[uid.value].id, rows[uid.value].email);
    }
  }
}
