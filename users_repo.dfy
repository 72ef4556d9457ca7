/** The user store the user service reads and writes, over the `users` table. Its
    statements are not part of this model; each is given the meaning its caller
    relies on. */
module UsersRepo {
  import opened Errors
  import opened Tables

  /** The id, the admin flag and the password hash of a user. */
  datatype UserRecord = UserRecord(id: string, isAdmin: bool, passHash: string)

  class UserStore {
    const db: Database

    constructor (db: Database)
      ensures this.db == db
    {
      this.db := db;
    }

    /** The first user with that login; the driver's "no rows" when there is none. */
    method User(login: string, faults: set<Call>) returns (r: Result<UserRecord>)
      ensures r.Ok? <==> UserQuery !in faults && exists i :: 0 <= i < |db.users| && db.users[i].login == login
      ensures r.Ok? ==>
        var u := db.users[FirstUser(db.users, login)];
        r.value == UserRecord(u.id, u.isAdmin, u.passHash) && u.login == login
      ensures r.Err? ==> r.error == if UserQuery in faults then Db(UserQuery) else NoRows
    {
      if UserQuery in faults {
        return Err(Db(UserQuery));
      }
      var k := FirstUser(db.users, login);
      if k == |db.users| {
        return Err(NoRows);
      }
      var u := db.users[k];
      return Ok(UserRecord(u.id, u.isAdmin, u.passHash));
    }

    /** Inserts a user. */
    method NewUser(uid: string, login: string, passHash: string, isAdmin: bool, faults: set<Call>) returns (r: Outcome)
      modifies db
      ensures r.Failure? <==> NewUserExec in faults
      ensures r.Failure? ==> r.error == Db(NewUserExec) && unchanged(db)
      ensures r.Success? ==> db.users == old(db.users) + [UserRow(uid, login, passHash, isAdmin)]
      ensures db.passes == old(db.passes) && db.passBuildings == old(db.passBuildings) && db.buildings == old(db.buildings)
    {
      if NewUserExec in faults {
        return Failure(Db(NewUserExec));
      }
      db.users := db.users + [UserRow(uid, login, passHash, isAdmin)];
      return Success;
    }

    /** Replaces the login and the password hash of the user with that id. */
    method EditUser(uid: string, login: string, passHash: string, faults: set<Call>) returns (r: Outcome)
      modifies db
      ensures r.Failure? <==> EditUserExec in faults
      ensures r.Failure? ==> r.error == Db(EditUserExec) && unchanged(db)
      ensures r.Success? ==> db.users == UpdateUsers(old(db.users), uid, login, passHash)
      ensures db.passes == old(db.passes) && db.passBuildings == old(db.passBuildings) && db.buildings == old(db.buildings)
    {
      if EditUserExec in faults {
        return Failure(Db(EditUserExec));
      }
      db.users := UpdateUsers(db.users, uid, login, passHash);
      return Success;
    }
  }
}
