/** The user table: registration with a default budget, lookups by id and by
    e-mail, and budget updates. Password hashing and token issuance are
    foreign; the encoded password is given to `Register` as a value. */
module Users {
  import opened Results
  import opened Seqs

  datatype User = User(id: int, name: string, email: string, password: string, monthlyBudget: real)

  datatype RegisterRequest = RegisterRequest(name: string, email: string, password: string)

  datatype UserError = EmailAlreadyRegistered | UserNotFound

  /** The budget every new account starts with. */
  const DEFAULT_MONTHLY_BUDGET: real := 500.0

  /** The message of the `RuntimeException` raised for each failure, given
      by definition; the two failures have different messages. */
  function Message(e: UserError): string {
    match e
    case EmailAlreadyRegistered => "Email already registered"
    case UserNotFound => "User not found"
  }

  /** A client can tell the two failures apart by their messages alone. */
  lemma MessagesDistinct(a: UserError, b: UserError)
    ensures Message(a) == Message(b) ==> a == b
  {
  }

  /** The first user, in id order, whose e-mail is `email`. */
  function FirstWithEmail(users: map<int, User>, ids: seq<int>, email: string): (r: Option<User>)
    requires forall i :: 0 <= i < |ids| ==> ids[i] in users
    ensures r.Some? ==> r.value in users.Values && r.value.email == email
    ensures r.None? <==> forall i :: 0 <= i < |ids| ==> users[ids[i]].email != email
  {
    if ids == [] then None
    else if users[ids[0]].email == email then Some(users[ids[0]])
    else FirstWithEmail(users, ids[1..], email)
  }

  class UserService {
    var users: map<int, User>
    var nextId: int

    /** Rows are keyed by their id, ids are below the next one handed out,
        and no two users share an e-mail. */
    ghost predicate Valid()
      reads this
    {
      1 <= nextId
      && (forall k :: k in users ==> users[k].id == k && k < nextId)
      && (forall a, b :: a in users && b in users && users[a].email == users[b].email ==> a == b)
    }

    constructor ()
      ensures Valid() && users == map[] && nextId == 1
    {
      users := map[];
      nextId := 1;
    }

    /** `existsByEmail`: some stored user has that e-mail. */
    function ExistsByEmail(email: string): (b: bool)
      reads this
      ensures b <==> exists u :: u in users.Values && u.email == email
    {
      var b := exists k :: k in users && users[k].email == email;
      assert b ==> exists u :: u in users.Values && u.email == email by {
        if b {
          var k :| k in users && users[k].email == email;
          assert users[k] in users.Values;
        }
      }
      assert (exists u :: u in users.Values && u.email == email) ==> b by {
        if exists u :: u in users.Values && u.email == email {
          var u :| u in users.Values && u.email == email;
          if forall k :: k in users ==> users[k] != u { assert false; }
          var k :| k in users && users[k] == u;
          assert users[k].email == email;
        }
      }
      b
    }

    /** `getUserById`. */
    function GetUserById(id: int): (r: Result<User, UserError>)
      reads this
      ensures r.Success? <==> id in users
      ensures r.Success? ==> r.value == users[id]
      ensures r.Failure? ==> r.error == UserNotFound
    {
      if id in users then Success(users[id]) else Failure(UserNotFound)
    }

    /** `getUserByEmail`. */
    function GetUserByEmail(email: string): (r: Result<User, UserError>)
      reads this
      ensures r.Success? <==> ExistsByEmail(email)
      ensures r.Success? ==> r.value in users.Values && r.value.email == email
      ensures r.Failure? ==> r.error == UserNotFound
    {
      var ids := KeysAscending(users.Keys);
      var found := FirstWithEmail(users, ids, email);
      assert ExistsByEmail(email) ==> found.Some? by {
        if ExistsByEmail(email) {
          var k :| k in users && users[k].email == email;
          assert k in ids;
          var i :| 0 <= i < |ids| && ids[i] == k;
          assert users[ids[i]].email == email;
        }
      }
      if found.Some? then Success(found.value) else Failure(UserNotFound)
    }

    /** `register`: a duplicate e-mail is refused and nothing is added;
        otherwise the new user gets a fresh id, the request's name and
        e-mail, the encoded password and the default budget. */
    method Register(req: RegisterRequest, encodedPassword: string) returns (r: Result<User, UserError>)
      requires Valid()
      modifies this
      ensures Valid()
      ensures old(ExistsByEmail(req.email)) ==>
        r == Failure(EmailAlreadyRegistered) && users == old(users) && nextId == old(nextId)
      ensures !old(ExistsByEmail(req.email)) ==>
        r == Success(User(old(nextId), req.name, req.email, encodedPassword, DEFAULT_MONTHLY_BUDGET))
        && old(nextId) !in old(users)
        && users == old(users)[old(nextId) := r.value]
      ensures r.Success? ==> GetUserById(r.value.id) == r && GetUserByEmail(req.email) == r
    {
      if ExistsByEmail(req.email) {
        return Failure(EmailAlreadyRegistered);
      }
      var user := User(nextId, req.name, req.email, encodedPassword, DEFAULT_MONTHLY_BUDGET);
      users := users[nextId := user];
      nextId := nextId + 1;
      r := Success(user);
      assert ExistsByEmail(req.email) by { assert users[user.id] == user; }
    }

    /** `updateBudget`: only that user's budget changes. */
    method UpdateBudget(userId: int, budget: real) returns (r: Result<User, UserError>)
      requires Valid()
      modifies this
      ensures Valid()
      ensures userId !in old(users) ==>
        r == Failure(UserNotFound) && users == old(users) && nextId == old(nextId)
      ensures userId in old(users) ==>
        r == Success(old(users)[userId].(monthlyBudget := budget))
        && users == old(users)[userId := r.value] && nextId == old(nextId)
    {
      var found := GetUserById(userId);
      if found.Failure? {
        return found;
      }
      var user := found.value.(monthlyBudget := budget);
      users := users[userId := user];
      r := Success(user);
    }
  }

  /** Registering twice with one e-mail: the second attempt is refused. */
  method RegisterTwiceRefused(s: UserService, req: RegisterRequest, p1: string, p2: string)
    returns (first: Result<User, UserError>, second: Result<User, UserError>)
    requires s.Valid() && !s.ExistsByEmail(req.email)
    modifies s
    ensures first.Success? && second == Failure(EmailAlreadyRegistered)
    ensures s.users == old(s.users)[first.value.id := first.value]
  {
    first := s.Register(req, p1);
    second := s.Register(req, p2);
  }
}
