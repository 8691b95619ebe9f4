/**
 Account identity: registration and Google sign-in over the users table.  Every call runs to
 its end, and new ids are fresh.
 */
module Accounts {
  import opened Common

  datatype User = User(email: string, fullName: string, googleId: Option<string>, isActive: bool)

  type Users = map<string, User>

  datatype Error = EmailTaken | GoogleIdTaken | EmailHasOtherGoogleId

  datatype Result = Signed(id: string) | Refused(error: Error)

  datatype Details = Details(email: string, fullName: string, googleId: string)

  /** What a finder returns; `findByEmail` leaves the Google id out. */
  datatype Found = Found(id: string, email: string, googleId: Option<string>)

  /** No two users share an email or a Google id. */
  ghost predicate Unique(users: Users) {
    && (forall a, b :: a in users && b in users && users[a].email == users[b].email ==> a == b)
    && (forall a, b :: a in users && b in users && users[a].googleId.Some? && users[a].googleId == users[b].googleId ==> a == b)
  }

  ghost function FindByGoogleId(users: Users, googleId: string): (r: Option<Found>)
    ensures r.Some? ==> r.value.id in users && users[r.value.id].googleId == Some(googleId)
    ensures r.None? ==> forall id :: id in users ==> users[id].googleId != Some(googleId)
  {
    if id :| id in users && users[id].googleId == Some(googleId)
    then Some(Found(id, users[id].email, users[id].googleId)) else None
  }

  ghost function FindByEmail(users: Users, email: string): (r: Option<Found>)
    ensures r.Some? ==> r.value.id in users && users[r.value.id].email == email && r.value.googleId == None
    ensures r.None? ==> forall id :: id in users ==> users[id].email != email
  {
    if id :| id in users && users[id].email == email then Some(Found(id, users[id].email, None)) else None
  }

  ghost function Create(users: Users, email: string, fullName: string, id: string): (Users, Result) {
    if FindByEmail(users, email).Some? then (users, Refused(EmailTaken))
    else (users[id := User(email, fullName, None, false)], Signed(id))
  }

  ghost function LinkGoogleId(users: Users, id: string, googleId: string): (Users, Result)
    requires id in users
  {
    var other := FindByGoogleId(users, googleId);
    if other.Some? && other.value.id != id then (users, Refused(GoogleIdTaken))
    else (users[id := users[id].(googleId := Some(googleId), isActive := true)], Signed(id))
  }

  function UpdateProfile(users: Users, id: string, fullName: string): Users
    requires id in users
  {
    users[id := users[id].(fullName := fullName)]
  }

  /** `validateGoogleUser`: find by Google id, else link by email, else create. */
  ghost function Validate(users: Users, d: Details, freshId: string): (Users, Result) {
    var byGoogle := FindByGoogleId(users, d.googleId);
    if byGoogle.Some? then (UpdateProfile(users, byGoogle.value.id, d.fullName), Signed(byGoogle.value.id))
    else
      var byEmail := FindByEmail(users, d.email);
      if byEmail.Some? then
        if byEmail.value.googleId.None? then
          var (users', r) := LinkGoogleId(users, byEmail.value.id, d.googleId);
          if r.Signed? then (UpdateProfile(users', byEmail.value.id, d.fullName), r) else (users', r)
        else (users, Refused(EmailHasOtherGoogleId))
      else (users[freshId := User(d.email, d.fullName, Some(d.googleId), true)], Signed(freshId))
  }

  datatype Op =
    | Register(email: string, fullName: string, id: string)
    | GoogleSignIn(details: Details, id: string)

  ghost function Apply(users: Users, op: Op): Users {
    match op
    case Register(email, fullName, id) => Create(users, email, fullName, id).0
    case GoogleSignIn(d, id) => Validate(users, d, id).0
  }

  ghost function Exec(users: Users, ops: seq<Op>): Users {
    if ops == [] then users else Apply(Exec(users, ops[..|ops| - 1]), ops[|ops| - 1])
  }

  /** Each new id is not in use when it is drawn. */
  ghost predicate FreshIds(users: Users, ops: seq<Op>) {
    ops == []
    || (FreshIds(users, ops[..|ops| - 1]) && ops[|ops| - 1].id !in Exec(users, ops[..|ops| - 1]))
  }

  /** Another user has the email, or the Google id, of the row at the moment it is written. */
  ghost predicate Taken(users: Users, user: string, row: User) {
    exists other :: other in users && other != user
      && (users[other].email == row.email || (row.googleId.Some? && users[other].googleId == row.googleId))
  }

  /** A write keeps users unique if and only if nobody else has its email or its Google id when it happens. */
  lemma WriteUniqueIff(users: Users, user: string, row: User)
    requires Unique(users)
    ensures Unique(users[user := row]) <==> !Taken(users, user, row)
  {
    var users' := users[user := row];
    if other :| other in users && other != user
                && (users[other].email == row.email || (row.googleId.Some? && users[other].googleId == row.googleId)) {
      assert users'[other] == users[other] && users'[user] == row;
    }
  }

  lemma CreateUnique(users: Users, email: string, fullName: string, id: string)
    requires Unique(users) && id !in users
    ensures Unique(Create(users, email, fullName, id).0)
  {
    WriteUniqueIff(users, id, User(email, fullName, None, false));
  }

  lemma LinkUnique(users: Users, id: string, googleId: string)
    requires Unique(users) && id in users
    ensures Unique(LinkGoogleId(users, id, googleId).0)
  {
    WriteUniqueIff(users, id, users[id].(googleId := Some(googleId), isActive := true));
  }

  lemma ProfileUnique(users: Users, id: string, fullName: string)
    requires Unique(users) && id in users
    ensures Unique(UpdateProfile(users, id, fullName))
  {
    WriteUniqueIff(users, id, users[id].(fullName := fullName));
  }

  lemma ValidateUnique(users: Users, d: Details, freshId: string)
    requires Unique(users) && freshId !in users
    ensures Unique(Validate(users, d, freshId).0)
  {
    hide Unique, UpdateProfile, LinkGoogleId;
    var byGoogle, byEmail := FindByGoogleId(users, d.googleId), FindByEmail(users, d.email);
    if byGoogle.Some? {
      ProfileUnique(users, byGoogle.value.id, d.fullName);
    } else if byEmail.Some? {
      LinkUnique(users, byEmail.value.id, d.googleId);
      LinkKeeps(users, byEmail.value.id, d.googleId);
      ProfileUnique(LinkGoogleId(users, byEmail.value.id, d.googleId).0, byEmail.value.id, d.fullName);
    } else {
      WriteUniqueIff(users, freshId, User(d.email, d.fullName, Some(d.googleId), true));
    }
  }

  lemma LinkKeeps(users: Users, id: string, googleId: string)
    requires id in users
    ensures id in LinkGoogleId(users, id, googleId).0
  {
  }

  lemma StepUnique(users: Users, op: Op)
    requires Unique(users) && op.id !in users
    ensures Unique(Apply(users, op))
  {
    hide Unique, Create, Validate;
    match op
    case Register(email, fullName, id) => CreateUnique(users, email, fullName, id);
    case GoogleSignIn(d, id) => ValidateUnique(users, d, id);
  }

  /** Over every run from unique users, no two users come to share an email or a Google id. */
  lemma {:induction false} RunUnique(users: Users, ops: seq<Op>)
    requires Unique(users) && FreshIds(users, ops)
    ensures Unique(Exec(users, ops))
  {
    hide Apply;
    if ops != [] {
      RunUnique(users, ops[..|ops| - 1]);
      StepUnique(Exec(users, ops[..|ops| - 1]), ops[|ops| - 1]);
    }
  }

  /**
   A registration succeeds exactly when nobody has the email.  It then adds one user, with that
   email and name, without a Google id and not yet active; otherwise it changes nothing.
   */
  lemma RegistersIff(users: Users, email: string, fullName: string, id: string)
    ensures var (users', r) := Create(users, email, fullName, id);
            && (r == Signed(id) <==> forall other :: other in users ==> users[other].email != email)
            && (r != Signed(id) ==> users' == users && r == Refused(EmailTaken))
            && (r == Signed(id) ==>
                  users' == users[id := User(email, fullName, None, false)])
  {
  }

  /** Linking succeeds exactly when no other user has the Google id; it sets that and makes the user active. */
  lemma LinksIff(users: Users, id: string, googleId: string)
    requires Unique(users) && id in users
    ensures var (users', r) := LinkGoogleId(users, id, googleId);
            && (r == Signed(id) <==>
                  forall other :: other in users && other != id ==> users[other].googleId != Some(googleId))
            && (r != Signed(id) ==> users' == users && r == Refused(GoogleIdTaken))
            && (r == Signed(id) ==>
                  users' == users[id := User(users[id].email, users[id].fullName, Some(googleId), true)])
  {
  }

  /**
   What a sign-in leaves behind.  The holder of the Google id, if there is one, is signed in and
   gets the new name.  Else the holder of the email is, and gets name and Google id and becomes
   active.  Else a new active user is.  Nobody else changes.
   */
  lemma SignInTold(users: Users, d: Details, freshId: string)
    requires Unique(users)
    ensures var (users', r) := Validate(users, d, freshId);
            && r.Signed?
            && (forall id :: id in users && users[id].googleId == Some(d.googleId) ==>
                  && r.id == id
                  && users' == users[id := User(users[id].email, d.fullName, Some(d.googleId), users[id].isActive)])
            && ((forall id :: id in users ==> users[id].googleId != Some(d.googleId)) ==>
                  && (forall id :: id in users && users[id].email == d.email ==>
                        && r.id == id
                        && users' == users[id := User(d.email, d.fullName, Some(d.googleId), true)])
                  && ((forall id :: id in users ==> users[id].email != d.email) ==>
                        && r.id == freshId
                        && users' == users[freshId := User(d.email, d.fullName, Some(d.googleId), true)]))
  {
  }

  /** Sign-in never fails: the email finder hides Google ids, so its conflict branch is dead. */
  lemma SignInSucceeds(users: Users, d: Details, id: string)
    ensures Validate(users, d, id).1.Signed?
    ensures var (users', r) := Validate(users, d, id);
            r.id in users' && users'[r.id].googleId == Some(d.googleId)
  {
  }

  /** Signing in again with the same details gives the same user. */
  lemma SignInAgain(users: Users, d: Details, id: string, id': string)
    requires Unique(users) && id !in users
    ensures var (users', r) := Validate(users, d, id);
            Validate(users', d, id').1 == r
  {
    StepUnique(users, GoogleSignIn(d, id));
    SignInSucceeds(users, d, id);
  }

  /** A sign-in with this user's email and a Google id that nobody has takes the user over. */
  ghost predicate Rebinds(users: Users, op: Op, user: string)
    requires user in users
  {
    && op.GoogleSignIn? && op.details.email == users[user].email
    && forall id :: id in users ==> users[id].googleId != Some(op.details.googleId)
  }

  /** A user with a Google id keeps it through an operation exactly when that does not rebind the user. */
  lemma KeepsGoogleIdIff(users: Users, op: Op, user: string)
    requires Unique(users) && user in users && users[user].googleId.Some? && op.id !in users
    ensures user in Apply(users, op) && Apply(users, op)[user].email == users[user].email
    ensures Apply(users, op)[user].googleId == users[user].googleId <==> !Rebinds(users, op, user)
  {
  }

  ghost predicate NeverRebinds(users: Users, ops: seq<Op>, user: string) {
    ops == []
    || (&& NeverRebinds(users, ops[..|ops| - 1], user)
        && user in Exec(users, ops[..|ops| - 1])
        && !Rebinds(Exec(users, ops[..|ops| - 1]), ops[|ops| - 1], user))
  }

  lemma {:induction false} KeepsGoogleId(users: Users, ops: seq<Op>, user: string)
    requires Unique(users) && FreshIds(users, ops) && user in users && users[user].googleId.Some?
    requires NeverRebinds(users, ops, user)
    ensures user in Exec(users, ops) && Exec(users, ops)[user].googleId == users[user].googleId
  {
    hide Apply, Rebinds;
    if ops != [] {
      KeepsGoogleId(users, ops[..|ops| - 1], user);
      RunUnique(users, ops[..|ops| - 1]);
      KeepsGoogleIdIff(Exec(users, ops[..|ops| - 1]), ops[|ops| - 1], user);
    }
  }

  /**
   Identity is stable: after a sign-in, whatever others register or sign in, the same Google
   id signs the same user in, as long as nobody signs in with that user's email and an
   unknown Google id.
   */
  lemma StableIdentity(users: Users, d: Details, id: string, ops: seq<Op>, d': Details, id': string)
    requires Unique(users) && id !in users && d'.googleId == d.googleId
    requires var (users', r) := Validate(users, d, id);
             FreshIds(users', ops) && r.Signed? && NeverRebinds(users', ops, r.id)
    ensures var (users', r) := Validate(users, d, id);
            Validate(Exec(users', ops), d', id').1 == r
  {
    hide Exec, FreshIds, NeverRebinds;
    SignInSucceeds(users, d, id);
    StepUnique(users, GoogleSignIn(d, id));
    var (users', r) := Validate(users, d, id);
    KeepsGoogleId(users', ops, r.id);
    RunUnique(users', ops);
  }
}
