/**
 Registration and Google sign-in broken up at every `await`: what was looked up may be out of
 date when a user is written.
 */
module AccountInterleaving {
  import opened Common
  import opened Accounts

  /** What a suspended call is about to do. */
  datatype Task =
    | Inserting(email: string, fullName: string)
    | AskingEmail(details: Details)
    | CheckingLink(details: Details, user: string)
    | Linking(details: Details, user: string)
    | Creating(details: Details)
    | Done

  datatype State = State(users: Users, tasks: seq<Task>)

  /** A write that creates a user carries the id drawn for it. */
  datatype Step =
    | RegisterAsks(email: string, fullName: string)
    | SignInAsks(details: Details)
    | EmailAnswers(task: nat)
    | LinkAnswers(task: nat)
    | Writes(task: nat, id: string)

  function Init(): State { State(map[], []) }

  ghost function Apply(s: State, step: Step): State {
    match step
    case RegisterAsks(email, fullName) =>
      if FindByEmail(s.users, email).Some? then s else s.(tasks := s.tasks + [Inserting(email, fullName)])
    case SignInAsks(d) =>
      if FindByGoogleId(s.users, d.googleId).Some? then s else s.(tasks := s.tasks + [AskingEmail(d)])
    case EmailAnswers(n) =>
      if n < |s.tasks| && s.tasks[n].AskingEmail? then
        var d := s.tasks[n].details;
        var found := FindByEmail(s.users, d.email);
        s.(tasks := s.tasks[n := if found.Some? then CheckingLink(d, found.value.id) else Creating(d)])
      else s
    case LinkAnswers(n) =>
      if n < |s.tasks| && s.tasks[n].CheckingLink? then
        var other := FindByGoogleId(s.users, s.tasks[n].details.googleId);
        s.(tasks := s.tasks[n := if other.Some? && other.value.id != s.tasks[n].user then Done
                                 else Linking(s.tasks[n].details, s.tasks[n].user)])
      else s
    case Writes(n, id) =>
      if n < |s.tasks| && Written(s, s.tasks[n], id).Some? then
        var (user, row) := Written(s, s.tasks[n], id).value;
        State(s.users[user := row], s.tasks[n := Done])
      else s
  }

  /** The row a call writes, if it is about to: for a new user under a fresh id. */
  function Written(s: State, t: Task, id: string): Option<(string, User)> {
    match t
    case Inserting(email, fullName) => if id in s.users then None else Some((id, User(email, fullName, None, false)))
    case Creating(d) => if id in s.users then None else Some((id, User(d.email, d.fullName, Some(d.googleId), true)))
    case Linking(d, user) =>
      if user in s.users then Some((user, s.users[user].(googleId := Some(d.googleId), isActive := true))) else None
    case _ => None
  }

  ghost predicate Collides(s: State, step: Step) {
    && step.Writes? && step.task < |s.tasks|
    && var w := Written(s, s.tasks[step.task], step.id);
       w.Some? && Taken(s.users, w.value.0, w.value.1)
  }

  lemma StepUniqueIff(s: State, step: Step)
    requires Unique(s.users)
    ensures Unique(Apply(s, step).users) <==> !Collides(s, step)
  {
    hide Unique, Taken;
    if step.Writes? && step.task < |s.tasks| && Written(s, s.tasks[step.task], step.id).Some? {
      var w := Written(s, s.tasks[step.task], step.id).value;
      WriteUniqueIff(s.users, w.0, w.1);
    }
  }

  ghost function Exec(steps: seq<Step>): State {
    if steps == [] then Init() else Apply(Exec(steps[..|steps| - 1]), steps[|steps| - 1])
  }

  /** Users are unique at every moment of the run. */
  ghost predicate UniqueThroughout(steps: seq<Step>) {
    Unique(Exec(steps).users) && (steps != [] ==> UniqueThroughout(steps[..|steps| - 1]))
  }

  ghost predicate NeverCollides(steps: seq<Step>) {
    steps != [] ==>
      && NeverCollides(steps[..|steps| - 1])
      && !Collides(Exec(steps[..|steps| - 1]), steps[|steps| - 1])
  }

  /**
   However calls overlap, no two users come to share an email or a Google id, if and only if
   every write finds its email and its Google id still free.
   */
  lemma {:induction false} UniqueThroughoutIff(steps: seq<Step>)
    ensures UniqueThroughout(steps) <==> NeverCollides(steps)
  {
    hide Apply, Collides, Unique;
    if steps == [] {
      NobodyUnique();
    } else {
      UniqueThroughoutIff(steps[..|steps| - 1]);
      if UniqueThroughout(steps[..|steps| - 1]) {
        StepUniqueIff(Exec(steps[..|steps| - 1]), steps[|steps| - 1]);
      }
    }
  }

  lemma NobodyUnique()
    ensures Unique(Init().users)
  {
  }

  /** Two overlapping registrations with one email both pass the check before either inserts. */
  lemma RegistrationsCollide(email: string, fullName: string, a: string, b: string) returns (steps: seq<Step>)
    requires a != b
    ensures var users := Exec(steps).users;
            a in users && b in users && users[a].email == users[b].email == email
  {
    var asks := RegisterAsks(email, fullName);
    steps := [asks, asks, Writes(0, a), Writes(1, b)];
    var s1 := Apply(Init(), asks);
    var s2 := Apply(s1, asks);
    var s3 := Apply(s2, Writes(0, a));
    assert s2.tasks == [Inserting(email, fullName), Inserting(email, fullName)];
    assert steps[..3][..2] == steps[..2] && steps[..2][..1] == steps[..1] && steps[..1][..0] == [];
    assert Exec(steps[..1]) == s1;
    assert Exec(steps[..2]) == s2;
    assert Exec(steps[..3]) == s3;
    assert Exec(steps) == Apply(s3, Writes(1, b));
  }

  // ---- over calls ----

  /** What a call is about: an email, and a Google id if it is a sign-in. */
  datatype Call = Call(email: string, googleId: Option<string>)

  predicate Share(a: Call, b: Call) {
    a.email == b.email || (a.googleId.Some? && a.googleId == b.googleId)
  }

  /** The calls that a step begins: one, or none. */
  function Begun(step: Step): seq<Call> {
    match step
    case RegisterAsks(email, _) => [Call(email, None)]
    case SignInAsks(d) => [Call(d.email, Some(d.googleId))]
    case _ => []
  }

  function Calls(steps: seq<Step>): seq<Call> {
    if steps == [] then [] else Calls(steps[..|steps| - 1]) + Begun(steps[|steps| - 1])
  }

  /** The call that a task belongs to. */
  function CallOf(t: Task): Call
    requires !t.Done?
  {
    if t.Inserting? then Call(t.email, None) else Call(t.details.email, Some(t.details.googleId))
  }

  /** The new call shares nothing with a call that is still under way. */
  ghost predicate Alone(s: State, step: Step) {
    forall n :: 0 <= n < |s.tasks| && !s.tasks[n].Done? ==>
      forall c :: c in Begun(step) ==> !Share(CallOf(s.tasks[n]), c)
  }

  ghost predicate NoSharedOverlap(steps: seq<Step>) {
    steps != [] ==>
      && NoSharedOverlap(steps[..|steps| - 1])
      && Alone(Exec(steps[..|steps| - 1]), steps[|steps| - 1])
  }

  ghost predicate NobodyHasEmail(users: Users, email: string) {
    forall id :: id in users ==> users[id].email != email
  }

  ghost predicate NobodyHasGoogleId(users: Users, googleId: string) {
    forall id :: id in users ==> users[id].googleId != Some(googleId)
  }

  /** Which calls go on after a lookup, and which are refused. */
  lemma CallsRefusedIff(s: State, email: string, fullName: string, d: Details, n: nat)
    ensures Apply(s, RegisterAsks(email, fullName)).tasks
         == s.tasks + if NobodyHasEmail(s.users, email) then [Inserting(email, fullName)] else []
    ensures Apply(s, SignInAsks(d)).tasks
         == s.tasks + if NobodyHasGoogleId(s.users, d.googleId) then [AskingEmail(d)] else []
    ensures n < |s.tasks| && s.tasks[n].AskingEmail? ==>
              (Apply(s, EmailAnswers(n)).tasks[n] == Creating(s.tasks[n].details)
               <==> NobodyHasEmail(s.users, s.tasks[n].details.email))
    ensures n < |s.tasks| && s.tasks[n].CheckingLink? && Unique(s.users) ==>
              var d, user := s.tasks[n].details, s.tasks[n].user;
              Apply(s, LinkAnswers(n)).tasks[n]
              == if exists other :: other in s.users && other != user && s.users[other].googleId == Some(d.googleId)
                 then Done else Linking(d, user)
  {
    if NobodyHasEmail(s.users, email) {
      assert FindByEmail(s.users, email).None?;
    }
    if NobodyHasGoogleId(s.users, d.googleId) {
      assert FindByGoogleId(s.users, d.googleId).None?;
    }
  }

  // ---- a call that nothing overlaps ----

  /** A registration that nothing overlaps does what the whole call does at once. */
  lemma RegistersAlone(users: Users, email: string, fullName: string, id: string)
    requires id !in users
    ensures Apply(Apply(State(users, []), RegisterAsks(email, fullName)), Writes(0, id)).users
         == Create(users, email, fullName, id).0
  {
  }

  ghost function SignInRun(users: Users, d: Details, id: string): Users {
    var s := Apply(Apply(State(users, []), SignInAsks(d)), EmailAnswers(0));
    Apply(Apply(s, LinkAnswers(0)), Writes(0, id)).users
  }

  lemma KnownAlone(users: Users, d: Details, id: string)
    requires FindByGoogleId(users, d.googleId).Some?
    ensures SignInRun(users, d, id) == users
  {
    hide Written;
    assert Apply(State(users, []), SignInAsks(d)) == State(users, []);
  }

  lemma NewAlone(users: Users, d: Details, id: string)
    requires FindByGoogleId(users, d.googleId).None? && FindByEmail(users, d.email).None? && id !in users
    ensures SignInRun(users, d, id) == users[id := User(d.email, d.fullName, Some(d.googleId), true)]
  {
    var s1 := Apply(State(users, []), SignInAsks(d));
    assert s1 == State(users, [AskingEmail(d)]);
    var s2 := Apply(s1, EmailAnswers(0));
    assert s2 == State(users, [Creating(d)]);
    assert Apply(s2, LinkAnswers(0)) == s2;
  }

  lemma LinkAlone(users: Users, d: Details, id: string)
    requires FindByGoogleId(users, d.googleId).None? && FindByEmail(users, d.email).Some?
    ensures SignInRun(users, d, id) == LinkGoogleId(users, FindByEmail(users, d.email).value.id, d.googleId).0
  {
    var user := FindByEmail(users, d.email).value.id;
    var s1 := Apply(State(users, []), SignInAsks(d));
    assert s1 == State(users, [AskingEmail(d)]);
    var s2 := Apply(s1, EmailAnswers(0));
    assert s2 == State(users, [CheckingLink(d, user)]);
    assert Apply(s2, LinkAnswers(0)) == State(users, [Linking(d, user)]);
  }

  /** So does a sign-in, apart from the name of a user it found, which is brought up to date last. */
  lemma SignsInAlone(users: Users, d: Details, id: string)
    requires id !in users
    ensures var users', r := SignInRun(users, d, id), Validate(users, d, id).1;
            && r.Signed? && r.id in users'
            && Validate(users, d, id).0 == if r.id in users then UpdateProfile(users', r.id, d.fullName) else users'
  {
    hide SignInRun;
    var byGoogle, byEmail := FindByGoogleId(users, d.googleId), FindByEmail(users, d.email);
    if byGoogle.Some? {
      KnownAlone(users, d, id);
    } else if byEmail.Some? {
      LinkAlone(users, d, id);
    } else {
      NewAlone(users, d, id);
    }
  }

  /** What a suspended call looked up still holds. */
  ghost predicate StillTrue(users: Users, t: Task) {
    match t
    case Inserting(email, _) => NobodyHasEmail(users, email)
    case AskingEmail(d) => NobodyHasGoogleId(users, d.googleId)
    case Creating(d) => NobodyHasGoogleId(users, d.googleId) && NobodyHasEmail(users, d.email)
    case CheckingLink(d, user) => NobodyHasGoogleId(users, d.googleId) && user in users && users[user].email == d.email
    case Linking(d, user) => NobodyHasGoogleId(users, d.googleId) && user in users && users[user].email == d.email
    case Done => true
  }

  ghost predicate Settled(s: State) {
    && Unique(s.users)
    && (forall n :: 0 <= n < |s.tasks| ==> StillTrue(s.users, s.tasks[n]))
    && forall m, n :: 0 <= m < |s.tasks| && 0 <= n < |s.tasks| && m != n && !s.tasks[m].Done? && !s.tasks[n].Done? ==>
         !Share(CallOf(s.tasks[m]), CallOf(s.tasks[n]))
  }

  lemma AddedSettled(s: State, t: Task)
    requires Settled(s) && StillTrue(s.users, t) && !t.Done?
    requires forall n :: 0 <= n < |s.tasks| && !s.tasks[n].Done? ==> !Share(CallOf(s.tasks[n]), CallOf(t))
    ensures Settled(s.(tasks := s.tasks + [t]))
  {
    hide Unique, StillTrue;
  }

  lemma MovedSettled(s: State, n: nat, t: Task)
    requires Settled(s) && n < |s.tasks| && StillTrue(s.users, t)
    requires !t.Done? ==> !s.tasks[n].Done? && CallOf(t) == CallOf(s.tasks[n])
    ensures Settled(s.(tasks := s.tasks[n := t]))
  {
    hide Unique, StillTrue;
  }

  /** A row that shares nothing with a call leaves true what the call looked up. */
  lemma OthersStillTrue(users: Users, user: string, row: User, t: Task)
    requires StillTrue(users, t) && !t.Done?
    requires row.email != CallOf(t).email && (row.googleId.Some? ==> row.googleId != CallOf(t).googleId)
    requires user in users ==> users[user].email == row.email
    ensures StillTrue(users[user := row], t)
  {
  }

  lemma WriteSettled(s: State, n: nat, id: string)
    requires Settled(s) && n < |s.tasks| && Written(s, s.tasks[n], id).Some?
    ensures Settled(Apply(s, Writes(n, id)))
  {
    var t := s.tasks[n];
    var (user, row) := Written(s, t, id).value;
    assert StillTrue(s.users, t);
    assert row.email == CallOf(t).email && row.googleId == CallOf(t).googleId;
    assert user in s.users ==> s.users[user].email == row.email;
    assert t.Linking? ==> user in s.users;
    assert !Taken(s.users, user, row);
    WriteUniqueIff(s.users, user, row);
    var s' := Apply(s, Writes(n, id));
    hide Unique, StillTrue, Taken, Written;
    forall m | 0 <= m < |s'.tasks|
      ensures StillTrue(s'.users, s'.tasks[m])
    {
      if m == n || s.tasks[m].Done? {
        DoneStillTrue(s'.users);
      } else {
        assert !Share(CallOf(s.tasks[m]), CallOf(t));
        OthersStillTrue(s.users, user, row, s.tasks[m]);
      }
    }
  }

  lemma DoneStillTrue(users: Users)
    ensures StillTrue(users, Done)
  {
  }

  lemma AskSettled(s: State, step: Step)
    requires Settled(s) && Alone(s, step) && (step.RegisterAsks? || step.SignInAsks?)
    ensures Settled(Apply(s, step))
  {
    match step
    case RegisterAsks(email, fullName) =>
      assert Call(email, None) in Begun(step);
      if FindByEmail(s.users, email).None? {
        AddedSettled(s, Inserting(email, fullName));
      }
    case SignInAsks(d) =>
      assert Call(d.email, Some(d.googleId)) in Begun(step);
      if FindByGoogleId(s.users, d.googleId).None? {
        AddedSettled(s, AskingEmail(d));
      }
  }

  lemma AnswerSettled(s: State, step: Step)
    requires Settled(s) && (step.EmailAnswers? || step.LinkAnswers?)
    ensures Settled(Apply(s, step))
  {
    var n := step.task;
    if n < |s.tasks| {
      assert StillTrue(s.users, s.tasks[n]);
      var t := Apply(s, step).tasks[n];
      assert StillTrue(s.users, t);
      MovedSettled(s, n, t);
      assert s.tasks[n := s.tasks[n]] == s.tasks;
    }
  }

  lemma StepSettled(s: State, step: Step)
    requires Settled(s) && Alone(s, step)
    ensures Settled(Apply(s, step))
  {
    hide Settled, Alone, Written, StillTrue;
    match step
    case RegisterAsks(_, _) => AskSettled(s, step);
    case SignInAsks(_) => AskSettled(s, step);
    case EmailAnswers(_) => AnswerSettled(s, step);
    case LinkAnswers(_) => AnswerSettled(s, step);
    case Writes(n, id) =>
      if n < |s.tasks| && Written(s, s.tasks[n], id).Some? { WriteSettled(s, n, id); }
  }

  /** If calls that overlap never share an email or a Google id, users stay unique throughout. */
  lemma {:induction false} ApartStaysUnique(steps: seq<Step>)
    requires NoSharedOverlap(steps)
    ensures Settled(Exec(steps)) && UniqueThroughout(steps)
  {
    hide Apply, Settled, Alone;
    if steps == [] {
      NobodySettled();
    } else {
      ApartStaysUnique(steps[..|steps| - 1]);
      StepSettled(Exec(steps[..|steps| - 1]), steps[|steps| - 1]);
    }
    SettledUnique(Exec(steps));
  }

  lemma NobodySettled()
    ensures Settled(Init())
  {
  }

  lemma SettledUnique(s: State)
    requires Settled(s)
    ensures Unique(s.users)
  {
  }

  // ---- which calls can break uniqueness ----

  /** Every task belongs to one of the calls, and to an earlier one than any yet to begin. */
  ghost predicate FromCalls(s: State, calls: seq<Call>) {
    forall n :: 0 <= n < |s.tasks| && !s.tasks[n].Done? ==> CallOf(s.tasks[n]) in calls
  }

  lemma StepFromCalls(s: State, step: Step, calls: seq<Call>)
    requires FromCalls(s, calls)
    ensures FromCalls(Apply(s, step), calls + Begun(step))
  {
    var s' := Apply(s, step);
    forall n | 0 <= n < |s'.tasks| && !s'.tasks[n].Done?
      ensures CallOf(s'.tasks[n]) in calls + Begun(step)
    {
      if n < |s.tasks| {
        assert CallOf(s.tasks[n]) == CallOf(s'.tasks[n]);
      } else {
        assert Begun(step) == [CallOf(s'.tasks[n])];
      }
    }
  }

  lemma {:induction false} RunFromCalls(steps: seq<Step>)
    ensures FromCalls(Exec(steps), Calls(steps))
  {
    hide Apply, FromCalls, Begun;
    if steps == [] {
      NobodyFromCalls();
    } else {
      RunFromCalls(steps[..|steps| - 1]);
      StepFromCalls(Exec(steps[..|steps| - 1]), steps[|steps| - 1], Calls(steps[..|steps| - 1]));
    }
  }

  lemma NobodyFromCalls()
    ensures FromCalls(Init(), [])
  {
  }

  ghost predicate SomeShare(calls: seq<Call>) {
    exists i, j :: 0 <= i < j < |calls| && Share(calls[i], calls[j])
  }

  lemma {:induction false} UnsharedApart(steps: seq<Step>)
    requires !SomeShare(Calls(steps))
    ensures NoSharedOverlap(steps)
  {
    hide Exec, CallOf, Begun, Share;
    if steps != [] {
      var before, last := steps[..|steps| - 1], steps[|steps| - 1];
      var earlier, calls := Calls(before), Calls(steps);
      assert forall i :: 0 <= i < |earlier| ==> calls[i] == earlier[i];
      UnsharedApart(before);
      RunFromCalls(before);
      var s := Exec(before);
      forall n, c | 0 <= n < |s.tasks| && !s.tasks[n].Done? && c in Begun(last)
        ensures !Share(CallOf(s.tasks[n]), c)
      {
        var i :| 0 <= i < |earlier| && earlier[i] == CallOf(s.tasks[n]);
        var k :| 0 <= k < |Begun(last)| && Begun(last)[k] == c;
        assert calls[|earlier| + k] == c && calls[i] == CallOf(s.tasks[n]);
      }
    }
  }

  /** The step that begins a call. */
  function Asking(c: Call): Step {
    match c.googleId
    case None => RegisterAsks(c.email, "")
    case Some(g) => SignInAsks(Details(c.email, "", g))
  }

  function AskingAll(calls: seq<Call>): seq<Step> {
    seq(|calls|, i requires 0 <= i < |calls| => Asking(calls[i]))
  }

  function FirstTask(c: Call): Task {
    match c.googleId
    case None => Inserting(c.email, "")
    case Some(g) => AskingEmail(Details(c.email, "", g))
  }

  lemma AskedNext(s: State, c: Call)
    requires s.users == map[]
    ensures Apply(s, Asking(c)) == s.(tasks := s.tasks + [FirstTask(c)]) && Begun(Asking(c)) == [c]
  {
  }

  /** When all calls ask before any writes, every one of them goes on. */
  lemma {:induction false} AllAsked(calls: seq<Call>)
    ensures var s := Exec(AskingAll(calls));
            s.users == map[] && |s.tasks| == |calls|
            && forall i :: 0 <= i < |calls| ==> s.tasks[i] == FirstTask(calls[i])
    ensures Calls(AskingAll(calls)) == calls
  {
    hide Apply, Asking, FirstTask, Begun;
    if calls != [] {
      var before := calls[..|calls| - 1];
      AllAsked(before);
      assert AskingAll(calls)[..|calls| - 1] == AskingAll(before);
      assert calls == before + [calls[|calls| - 1]];
      AskedNext(Exec(AskingAll(before)), calls[|calls| - 1]);
    }
  }

  lemma ExecNext(steps: seq<Step>, step: Step)
    ensures Exec(steps + [step]) == Apply(Exec(steps), step)
    ensures Calls(steps + [step]) == Calls(steps) + Begun(step)
  {
    hide Apply, Begun;
    assert (steps + [step])[..|steps|] == steps;
  }

  /** The row that a call writes when nobody is there to be found. */
  function RowFor(c: Call): User {
    User(c.email, "", c.googleId, c.googleId.Some?)
  }

  lemma BothWrite(s: State, a: Call, b: Call, i: nat, j: nat)
    requires s.users == map[] && i < j < |s.tasks| && s.tasks[i] == FirstTask(a) && s.tasks[j] == FirstTask(b)
    ensures var s' := Apply(Apply(Apply(Apply(s, EmailAnswers(i)), EmailAnswers(j)), Writes(i, "a")), Writes(j, "b"));
            s'.users == map["a" := RowFor(a), "b" := RowFor(b)]
  {
    var s1 := Apply(s, EmailAnswers(i));
    assert s1.users == map[] && s1.tasks[j] == FirstTask(b);
    assert s1.tasks[i] == if a.googleId.Some? then Creating(Details(a.email, "", a.googleId.value)) else FirstTask(a);
    var s2 := Apply(s1, EmailAnswers(j));
    assert s2.users == map[] && s2.tasks[i] == s1.tasks[i];
    assert s2.tasks[j] == if b.googleId.Some? then Creating(Details(b.email, "", b.googleId.value)) else FirstTask(b);
    var s3 := Apply(s2, Writes(i, "a"));
    assert s3.users == map["a" := RowFor(a)] && s3.tasks[j] == s2.tasks[j];
  }

  lemma SharedRowsClash(a: Call, b: Call)
    requires Share(a, b)
    ensures !Unique(map["a" := RowFor(a), "b" := RowFor(b)])
  {
    var users := map["a" := RowFor(a), "b" := RowFor(b)];
    assert "a" in users && "b" in users && "a" != "b";
  }

  /** Two calls that share something can both write, if they overlap. */
  lemma SharedCanBreak(calls: seq<Call>, i: nat, j: nat) returns (steps: seq<Step>)
    requires i < j < |calls| && Share(calls[i], calls[j])
    ensures Calls(steps) == calls && !Unique(Exec(steps).users)
  {
    hide Apply, Unique, Share;
    var asks := AskingAll(calls);
    AllAsked(calls);
    BothWrite(Exec(asks), calls[i], calls[j], i, j);
    SharedRowsClash(calls[i], calls[j]);
    ExecNext(asks, EmailAnswers(i));
    ExecNext(asks + [EmailAnswers(i)], EmailAnswers(j));
    ExecNext(asks + [EmailAnswers(i)] + [EmailAnswers(j)], Writes(i, "a"));
    steps := asks + [EmailAnswers(i)] + [EmailAnswers(j)] + [Writes(i, "a")] + [Writes(j, "b")];
    ExecNext(asks + [EmailAnswers(i)] + [EmailAnswers(j)] + [Writes(i, "a")], Writes(j, "b"));
  }

  /**
   Exactly when uniqueness can break: for any sequence of calls, some course in which they begin
   in this order gives two users one email or one Google id, if and only if two of the calls
   share an email or a Google id.
   */
  lemma BreaksIffShared(calls: seq<Call>)
    ensures (exists steps :: Calls(steps) == calls && !Unique(Exec(steps).users)) <==> SomeShare(calls)
  {
    hide Unique, Share, Exec, Calls;
    if SomeShare(calls) {
      var i, j :| 0 <= i < j < |calls| && Share(calls[i], calls[j]);
      var steps := SharedCanBreak(calls, i, j);
    } else {
      forall steps | Calls(steps) == calls
        ensures Unique(Exec(steps).users)
      {
        UnsharedApart(steps);
        ApartStaysUnique(steps);
        SettledUnique(Exec(steps));
      }
    }
  }
}
