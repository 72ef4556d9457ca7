/** The user service: registration, editing one's own login and password, and
    logout. Password hashing is left abstract: `hash` maps a password to its hash, or
    to nothing when hashing fails. A string is a sequence of Unicode code points, so
    its length is the code-point count the password rule measures. */
module UserService {
  import opened Errors
  import opened Tables
  import opened Auth
  import UsersRepo

  /** The shortest password accepted, in code points. */
  const MinPasswordLength: int := 8

  /** The outcome of a registration before anything is written: a taken login wins
      over a short password, which wins over a hashing failure. A hashing failure is
      reported through the service's logger, which the constructor never sets, so
      that path aborts with a panic instead of returning an error. */
  function RegistrationCheck(loginTaken: bool, password: string, hashed: Option<string>): (r: Outcome)
    ensures r.Success? <==> !loginTaken && |password| >= MinPasswordLength && hashed.Some?
    ensures loginTaken ==> r == Failure(Biz(UserAlreadyExists))
    ensures !loginTaken && |password| < MinPasswordLength ==> r == Failure(Biz(ShortPassword))
    ensures !loginTaken && |password| >= MinPasswordLength && hashed.None? ==> r == Failure(Panic)
  {
    if loginTaken then Failure(Biz(UserAlreadyExists))
    else if |password| < MinPasswordLength then Failure(Biz(ShortPassword))
    else if hashed.None? then Failure(Panic)
    else Success
  }

  /** A taken login is reported whatever the password, even one that is too short. */
  lemma TakenLoginWins(password: string, other: string, hashed: Option<string>, otherHashed: Option<string>)
    ensures RegistrationCheck(true, password, hashed) == RegistrationCheck(true, other, otherHashed)
    ensures RegistrationCheck(true, password, hashed) != Failure(Biz(ShortPassword))
  {
  }

  class UserService {
    const verify: Verifier
    const hash: string -> Option<string>
    const users: UsersRepo.UserStore

    constructor (verify: Verifier, hash: string -> Option<string>, users: UsersRepo.UserStore)
      ensures this.verify == verify && this.hash == hash && this.users == users
    {
      this.verify := verify;
      this.hash := hash;
      this.users := users;
    }

    /** Registers a user under a fresh id. Only a lookup that finds the login blocks
        registration; a lookup that fails for any other reason lets it proceed. New
        users are never administrators. */
    method NewUser(login: string, password: string, freshUid: string, faults: set<Call>) returns (r: Outcome)
      modifies users.db
      ensures var taken := UserQuery !in faults && exists i :: 0 <= i < |old(users.db.users)| && old(users.db.users)[i].login == login;
        var check := RegistrationCheck(taken, password, hash(password));
        && (check.Failure? ==> r == check && unchanged(users.db))
        && (check.Success? && NewUserExec in faults ==> r == Failure(Biz(InternalServer)) && unchanged(users.db))
        && (check.Success? && NewUserExec !in faults ==>
              r == Success && users.db.users == old(users.db.users) + [UserRow(freshUid, login, hash(password).value, false)])
      ensures users.db.passes == old(users.db.passes) && users.db.passBuildings == old(users.db.passBuildings)
      ensures users.db.buildings == old(users.db.buildings)
    {
      var existing := users.User(login, faults);
      if existing.Ok? {
        return Failure(Biz(UserAlreadyExists));
      }
      if |password| < MinPasswordLength {
        return Failure(Biz(ShortPassword));
      }
      var passHash := hash(password);
      if passHash.None? {
        // the logger call on this path dereferences the unset logger
        return Failure(Panic);
      }
      var saved := users.NewUser(freshUid, login, passHash.value, false, faults);
      if saved.Failure? {
        return Failure(Biz(InternalServer));
      }
      return Success;
    }

    /** Does nothing and succeeds. */
    method Logout(token: string) returns (r: Outcome)
      ensures r == Success
    {
      return Success;
    }

    /** Replaces the login and the password of the token's holder, and of nobody else. */
    method Edit(accessToken: string, newLogin: string, newPassword: string, faults: set<Call>) returns (r: Outcome)
      modifies users.db
      ensures verify(accessToken).None? ==> r == Failure(Biz(AuthToken)) && unchanged(users.db)
      ensures verify(accessToken).Some? && hash(newPassword).None? ==> r == Failure(HashFailure) && unchanged(users.db)
      ensures verify(accessToken).Some? && hash(newPassword).Some? ==>
        && (EditUserExec in faults ==> r == Failure(Biz(InternalServer)) && unchanged(users.db))
        && (EditUserExec !in faults ==> (r == Success &&
              users.db.users == UpdateUsers(old(users.db.users), verify(accessToken).value.uid, newLogin, hash(newPassword).value)))
      // only the rows of the token's holder can change
      ensures |users.db.users| == |old(users.db.users)|
      ensures verify(accessToken).Some? ==> forall i :: 0 <= i < |users.db.users| && old(users.db.users)[i].id != verify(accessToken).value.uid ==>
        users.db.users[i] == old(users.db.users)[i]
      ensures users.db.passes == old(users.db.passes) && users.db.passBuildings == old(users.db.passBuildings)
      ensures users.db.buildings == old(users.db.buildings)
    {
      var claims := Claims(verify, accessToken);
      if claims.Err? {
        return Failure(claims.error);
      }
      var passHash := hash(newPassword);
      if passHash.None? {
        return Failure(HashFailure);
      }
      var edited := users.EditUser(claims.value.uid, newLogin, passHash.value, faults);
      if edited.Failure? {
        return Failure(Biz(InternalServer));
      }
      return Success;
    }
  }
}
