/** `UsersService` and `AuthService.validateGoogleUser`: the users table, changed in place. */
module AccountService {
  import opened Common
  import opened Accounts

  class AccountService {
    var users: Users

    constructor ()
      ensures Valid() && users == map[]
    {
      users := map[];
    }

    ghost predicate Valid()
      reads this
    {
      Unique(users)
    }

    method FindUserByGoogleId(googleId: string) returns (found: Option<Found>)
      requires Valid()
      ensures found == FindByGoogleId(users, googleId)
    {
      var rows := set id | id in users && users[id].googleId == Some(googleId);
      if rows == {} {
        assert forall id :: id in users ==> id in rows || users[id].googleId != Some(googleId);
        return None;
      }
      var id :| id in rows;
      return Some(Found(id, users[id].email, users[id].googleId));
    }

    method FindUserByEmail(email: string) returns (found: Option<Found>)
      requires Valid()
      ensures found == FindByEmail(users, email)
    {
      var rows := set id | id in users && users[id].email == email;
      if rows == {} {
        assert forall id :: id in users ==> id in rows || users[id].email != email;
        return None;
      }
      var id :| id in rows;
      return Some(Found(id, email, None));
    }

    method Register(email: string, fullName: string, id: string) returns (result: Result)
      requires Valid() && id !in users
      modifies this
      ensures Valid() && (users, result) == Create(old(users), email, fullName, id)
    {
      StepUnique(users, Op.Register(email, fullName, id));
      var existing := FindUserByEmail(email);
      if existing.Some? {
        return Refused(EmailTaken);
      }
      users := users[id := User(email, fullName, None, false)];
      return Signed(id);
    }

    method Link(id: string, googleId: string) returns (result: Result)
      requires Valid() && id in users
      modifies this
      ensures (users, result) == LinkGoogleId(old(users), id, googleId)
    {
      var existing := FindUserByGoogleId(googleId);
      if existing.Some? && existing.value.id != id {
        return Refused(GoogleIdTaken);
      }
      users := users[id := users[id].(googleId := Some(googleId), isActive := true)];
      return Signed(id);
    }

    method UpdateGoogleProfile(id: string, fullName: string)
      requires id in users
      modifies this
      ensures users == UpdateProfile(old(users), id, fullName)
    {
      users := users[id := users[id].(fullName := fullName)];
    }

    method ValidateGoogleUser(d: Details, freshId: string) returns (result: Result)
      requires Valid() && freshId !in users
      modifies this
      ensures Valid() && (users, result) == Validate(old(users), d, freshId)
    {
      StepUnique(users, GoogleSignIn(d, freshId));
      var user := FindUserByGoogleId(d.googleId);
      if user.Some? {
        UpdateGoogleProfile(user.value.id, d.fullName);
        return Signed(user.value.id);
      }
      var existing := FindUserByEmail(d.email);
      if existing.Some? {
        if existing.value.googleId.None? {
          result := Link(existing.value.id, d.googleId);
          if result.Signed? {
            UpdateGoogleProfile(existing.value.id, d.fullName);
          }
          return;
        }
        return Refused(EmailHasOtherGoogleId);
      }
      users := users[freshId := User(d.email, d.fullName, Some(d.googleId), true)];
      return Signed(freshId);
    }
  }
}
