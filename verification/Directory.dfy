/**
 The user directory's two tables, changed by transactions that interleave statement by statement:
 every decision about administrators runs under one advisory lock, everything else does not.
 */
module Directory {
  import opened Options

  type Id = nat

  /** Lower case as the database has it, character by character. */
  const LowerChar: char -> char

  function Lower(s: string): string { seq(|s|, i requires 0 <= i < |s| => LowerChar(s[i])) }

  datatype Role = Admin | Other(name: string)

  datatype User = User(subject: Option<string>, email: string, name: string, createdAt: int, arrived: bool)

  type Users = map<Id, User>

  /**
   What a transaction holding the lock is for: admitting a sign-in, or taking an account or its
   administrator role away.
   */
  datatype Task = Admission(subject: string, email: string, name: string) | Removal(target: Id, wholeRow: bool)

  /** Which statement the lock's holder runs next. */
  datatype Stage =
    | Start | Refreshing(id: Id) | Adopting | Claiming(id: Id) | Newcoming | Founding | Removing(sawAdmin: bool)

  datatype Lock = Free | Held(task: Task, stage: Stage)

  /** used and founded only remember: every id ever given out, and how often a stranger became the administrator. */
  datatype Db = Db(users: Users, grants: set<(Id, Role)>, lock: Lock, used: set<Id>, founded: nat)

  /** found is what a lookup carries back: the row it must be, or none if there is none. */
  datatype Move =
    | Create(id: Id, email: string, name: string, at: int)
    | Update(id: Id, email: string, name: string)
    | Grant(id: Id, role: Role)
    | Revoke(id: Id, role: Role)
    | Begin(task: Task)
    | Advance(found: Option<Id>, minted: Id, at: int)

  function Empty(): Db { Db(map[], {}, Free, {}, 0) }

  ghost predicate HasAdmin(s: Db) { exists i :: (i, Admin) in s.grants }

  ghost predicate AdminBesides(s: Db, id: Id) { exists i :: (i, Admin) in s.grants && i != id }

  ghost predicate HoldsSubject(users: Users, id: Id, subject: string) {
    id in users && users[id].subject == Some(subject)
  }

  ghost predicate HoldsAddress(users: Users, id: Id, email: string) {
    id in users && Lower(users[id].email) == Lower(email)
  }

  /** The unique index on lower(email) would refuse the address on row id. */
  ghost predicate Taken(users: Users, email: string, id: Id) {
    exists k :: HoldsAddress(users, k, email) && k != id
  }

  ghost predicate FoundSubject(users: Users, subject: string, found: Option<Id>) {
    match found
    case Some(id) => HoldsSubject(users, id, subject)
    case None => forall id :: !HoldsSubject(users, id, subject)
  }

  ghost predicate FoundAddress(users: Users, email: string, found: Option<Id>) {
    match found
    case Some(id) => HoldsAddress(users, id, email)
    case None => forall id :: !HoldsAddress(users, id, email)
  }

  ghost predicate Enabled(s: Db, m: Move) {
    match m
    case Create(id, _, _, _) => id !in s.used
    case Update(id, _, _) => s.lock.Held? ==> s.lock.stage != Claiming(id)
    case Grant(_, _) => true
    case Revoke(_, role) => role != Admin
    case Begin(_) => s.lock.Free?
    case Advance(found, minted, _) =>
      && s.lock.Held? && minted !in s.used
      && (s.lock.task.Admission? && s.lock.stage.Start? ==> FoundSubject(s.users, s.lock.task.subject, found))
      && (s.lock.task.Admission? && s.lock.stage.Adopting? ==> FoundAddress(s.users, s.lock.task.email, found))
  }

  /** A refusal rolls the transaction back: nothing but the lock changes. */
  function Abort(s: Db): Db { s.(lock := Free) }

  function To(s: Db, stage: Stage): Db
    requires s.lock.Held?
  {
    s.(lock := Held(s.lock.task, stage))
  }

  ghost function Apply(s: Db, m: Move): Db
    requires Enabled(s, m)
  {
    match m
    case Create(id, email, name, at) =>
      if Taken(s.users, email, id) then s
      else s.(users := s.users[id := User(None, email, name, at, false)], used := s.used + {id})
    case Update(id, email, name) =>
      if id !in s.users || Taken(s.users, email, id) then s
      else s.(users := s.users[id := s.users[id].(email := email, name := name)])
    case Grant(id, role) => if id in s.users then s.(grants := s.grants + {(id, role)}) else s
    case Revoke(id, role) => s.(grants := s.grants - {(id, role)})
    case Begin(task) => s.(lock := Held(task, Start))
    case Advance(found, minted, at) =>
      match s.lock.task
      case Admission(subject, email, name) => Admit(s, subject, email, name, found, minted, at)
      case Removal(target, wholeRow) => Remove(s, target, wholeRow)
  }

  ghost function Admit(s: Db, subject: string, email: string, name: string, found: Option<Id>, minted: Id, at: int): Db
    requires s.lock.Held?
  {
    match s.lock.stage
    case Start => To(s, match found case Some(id) => Refreshing(id) case None => Adopting)
    case Refreshing(id) =>
      if id !in s.users || Taken(s.users, email, id) then Abort(s)
      else Abort(s).(users := s.users[id := s.users[id].(email := email, name := name, arrived := true)])
    case Adopting =>
      (match found
       case None => To(s, Newcoming)
       case Some(id) =>
         if id in s.users && s.users[id].subject.Some? && s.users[id].subject.value != subject then Abort(s)
         else To(s, Claiming(id)))
    case Claiming(id) =>
      if id !in s.users || Taken(s.users, email, id) then Abort(s)
      else
        var row := s.users[id].(subject := Some(subject), email := email, name := name, arrived := true);
        Abort(s).(users := s.users[id := row])
    case Newcoming => if HasAdmin(s) then Abort(s) else To(s, Founding)
    case Founding =>
      if Taken(s.users, email, minted) then Abort(s)
      else Abort(s).(users := s.users[minted := User(Some(subject), email, name, at, true)],
                     grants := s.grants + {(minted, Admin)}, used := s.used + {minted}, founded := s.founded + 1)
    case Removing(_) => Abort(s)
  }

  ghost function Remove(s: Db, target: Id, wholeRow: bool): Db
    requires s.lock.Held?
  {
    match s.lock.stage
    case Start =>
      if (target, Admin) in s.grants && !AdminBesides(s, target) then Abort(s) else To(s, Removing(HasAdmin(s)))
    case Removing(_) =>
      if wholeRow then
        Abort(s).(users := s.users - {target}, grants := set g | g in s.grants && g.0 != target)
      else Abort(s).(grants := s.grants - {(target, Admin)})
    case _ => Abort(s)
  }

  // ----- what every transaction keeps ----------------------------------------------------------------

  ghost predicate SubjectsUnique(users: Users) {
    forall a, b, subject :: HoldsSubject(users, a, subject) && HoldsSubject(users, b, subject) ==> a == b
  }

  ghost predicate AddressesUnique(users: Users) {
    forall a, b, email :: HoldsAddress(users, a, email) && HoldsAddress(users, b, email) ==> a == b
  }

  /** What the holder of the lock has established stays so until it commits, whoever else writes meanwhile. */
  ghost predicate HolderKnows(s: Db) {
    s.lock.Held? ==>
      match s.lock.task
      case Admission(subject, email, name) =>
        (match s.lock.stage
         case Start => true
         case Refreshing(id) => HoldsSubject(s.users, id, subject)
         case Claiming(id) =>
           && (forall k :: !HoldsSubject(s.users, k, subject))
           && id in s.users && s.users[id].subject.None?
         case Adopting => forall k :: !HoldsSubject(s.users, k, subject)
         case Newcoming => forall k :: !HoldsSubject(s.users, k, subject)
         case Founding => forall k :: !HoldsSubject(s.users, k, subject)
         case Removing(_) => false)
      case Removal(target, _) =>
        match s.lock.stage
        case Start => true
        case Removing(sawAdmin) => sawAdmin ==> AdminBesides(s, target)
        case _ => false
  }

  ghost predicate Consistent(s: Db) {
    && SubjectsUnique(s.users) && AddressesUnique(s.users)
    && s.users.Keys <= s.used
    && (forall g :: g in s.grants ==> g.0 in s.users)
    && HolderKnows(s)
  }

  lemma AddressesAfter(users: Users, id: Id, row: User)
    requires AddressesUnique(users) && !Taken(users, row.email, id)
    ensures AddressesUnique(users[id := row])
  {
    var more := users[id := row];
    forall a, b, email | HoldsAddress(more, a, email) && HoldsAddress(more, b, email) ensures a == b {
      assert HoldsAddress(users, a, row.email) ==> a == id;
      assert HoldsAddress(users, b, row.email) ==> b == id;
      assert a != id && b != id ==> HoldsAddress(users, a, email) && HoldsAddress(users, b, email);
    }
  }

  lemma SubjectsAfter(users: Users, id: Id, row: User)
    requires SubjectsUnique(users)
    requires row.subject.Some? ==> forall k :: HoldsSubject(users, k, row.subject.value) ==> k == id
    ensures SubjectsUnique(users[id := row])
  {
    var more := users[id := row];
    forall a, b, subject | HoldsSubject(more, a, subject) && HoldsSubject(more, b, subject) ensures a == b {
      assert row.subject == Some(subject) && HoldsSubject(users, a, subject) ==> a == id;
      assert row.subject == Some(subject) && HoldsSubject(users, b, subject) ==> b == id;
      assert a != id && b != id ==> HoldsSubject(users, a, subject) && HoldsSubject(users, b, subject);
    }
  }

  /** Writing a row's profile leaves who holds which subject alone. */
  lemma SameSubjectAfter(users: Users, id: Id, row: User)
    requires SubjectsUnique(users) && id in users && users[id].subject == row.subject
    ensures SubjectsUnique(users[id := row])
    ensures forall k, subject :: HoldsSubject(users[id := row], k, subject) <==> HoldsSubject(users, k, subject)
  {
    assert row.subject.Some? ==> HoldsSubject(users, id, row.subject.value);
    SubjectsAfter(users, id, row);
  }

  lemma AdminsKept(s: Db, t: Db)
    requires forall id :: (id, Admin) in s.grants ==> (id, Admin) in t.grants
    ensures HasAdmin(s) ==> HasAdmin(t)
    ensures forall id :: AdminBesides(s, id) ==> AdminBesides(t, id)
  {
    forall id | AdminBesides(s, id) ensures AdminBesides(t, id) {
      var i :| (i, Admin) in s.grants && i != id;
      assert (i, Admin) in t.grants;
    }
    if HasAdmin(s) {
      var i :| (i, Admin) in s.grants;
      assert (i, Admin) in t.grants;
    }
  }

  lemma UnclaimedHoldsNothing(users: Users, id: Id, row: User)
    requires id !in users && row.subject.None?
    ensures forall k, subject :: HoldsSubject(users[id := row], k, subject) <==> HoldsSubject(users, k, subject)
  {}

  lemma UnlockedKeeps(s: Db, m: Move)
    requires Enabled(s, m) && Consistent(s) && (m.Create? || m.Update? || m.Grant? || m.Revoke? || m.Begin?)
    ensures Consistent(Apply(s, m))
  {
    hide Taken, HoldsSubject, HoldsAddress;
    var t := Apply(s, m);
    if t.users != s.users {
      assert t.users == s.users[m.id := t.users[m.id]];
      AddressesAfter(s.users, m.id, t.users[m.id]);
      if m.Update? {
        SameSubjectAfter(s.users, m.id, t.users[m.id]);
      } else {
        SubjectsAfter(s.users, m.id, t.users[m.id]);
        UnclaimedHoldsNothing(s.users, m.id, t.users[m.id]);
      }
    }
    assert forall id :: (id, Admin) in s.grants ==> (id, Admin) in t.grants;
    AdminsKept(s, t);
    assert forall k, u :: HoldsSubject(t.users, k, u) <==> HoldsSubject(s.users, k, u);
  }

  lemma AddressIsARow(users: Users, email: string, id: Id)
    requires HoldsAddress(users, id, email)
    ensures id in users
  {}

  lemma AdmitKeeps(s: Db, m: Move)
    requires Enabled(s, m) && Consistent(s) && m.Advance? && s.lock.task.Admission?
    ensures Consistent(Apply(s, m))
  {
    hide Taken, SubjectsUnique, AddressesUnique, HoldsAddress;
    var t := Apply(s, m);
    var id := m.minted;
    if s.lock.stage.Refreshing? || s.lock.stage.Claiming? { id := s.lock.stage.id; }
    if s.lock.stage.Adopting? && m.found.Some? {
      AddressIsARow(s.users, s.lock.task.email, m.found.value);
      assert !HoldsSubject(s.users, m.found.value, s.lock.task.subject);
    }
    if t.users != s.users {
      AddressesAfter(s.users, id, t.users[id]);
      if s.lock.stage.Refreshing? {
        SameSubjectAfter(s.users, id, t.users[id]);
      } else {
        SubjectsAfter(s.users, id, t.users[id]);
      }
    }
  }

  lemma RemoveKeeps(s: Db, m: Move)
    requires Enabled(s, m) && Consistent(s) && m.Advance? && s.lock.task.Removal?
    ensures Consistent(Apply(s, m))
  {
    var t := Apply(s, m);
    assert forall k, subject :: HoldsSubject(t.users, k, subject) ==> HoldsSubject(s.users, k, subject);
    assert forall k, email :: HoldsAddress(t.users, k, email) ==> HoldsAddress(s.users, k, email);
    hide HoldsSubject, HoldsAddress;
  }

  lemma ConsistentKept(s: Db, m: Move)
    requires Enabled(s, m) && Consistent(s)
    ensures Consistent(Apply(s, m))
  {
    hide Consistent, Apply;
    if !m.Advance? {
      UnlockedKeeps(s, m);
    } else if s.lock.task.Admission? {
      AdmitKeeps(s, m);
    } else {
      RemoveKeeps(s, m);
    }
  }

  // ----- administrators ------------------------------------------------------------------------------

  /** A removal has passed its check and is about to write, and its target has become the only administrator. */
  ghost predicate Doomed(s: Db) {
    s.lock.Held? && s.lock.task.Removal? && s.lock.stage.Removing?
    && (s.lock.task.target, Admin) in s.grants && !AdminBesides(s, s.lock.task.target)
  }

  /** That takes a check made while the platform had no administrator at all, and a grant since. */
  lemma DoomNeedsAnEmptyCheck(s: Db)
    requires Consistent(s) && Doomed(s)
    ensures !s.lock.stage.sawAdmin
  {}

  ghost function Run(s: Db, ms: seq<Move>): Db {
    if ms == [] then s
    else
      var t := Run(s, ms[..|ms| - 1]);
      if Enabled(t, ms[|ms| - 1]) then Apply(t, ms[|ms| - 1]) else t
  }

  lemma {:induction false} RunIsConsistent(s: Db, ms: seq<Move>)
    requires Consistent(s)
    ensures Consistent(Run(s, ms))
  {
    hide Consistent, Apply, Enabled;
    if ms != [] {
      RunIsConsistent(s, ms[..|ms| - 1]);
      var t := Run(s, ms[..|ms| - 1]);
      if Enabled(t, ms[|ms| - 1]) { ConsistentKept(t, ms[|ms| - 1]); }
    }
  }

  lemma EmptyIsConsistent()
    ensures Consistent(Empty()) && !HasAdmin(Empty())
  {}

  /** From an empty install every interleaving stays consistent. */
  lemma InstallIsConsistent(ms: seq<Move>)
    ensures Consistent(Run(Empty(), ms))
  {
    hide Consistent;
    EmptyIsConsistent();
    RunIsConsistent(Empty(), ms);
  }

  lemma SafeStep(s: Db, m: Move)
    requires Enabled(s, m) && HasAdmin(s) && !Doomed(s)
    ensures HasAdmin(Apply(s, m)) && !Doomed(Apply(s, m))
  {
    var t := Apply(s, m);
    if m.Advance? && s.lock.task.Removal? {
      var target := s.lock.task.target;
      if s.lock.stage.Removing? {
        AdminSurvives(s, t, target);
      } else if t.lock.Held? {
        AdminSurvives(s, t, s.lock.task.target);
      }
    } else {
      AdminsKept(s, t);
    }
  }

  lemma AdminSurvives(s: Db, t: Db, target: Id)
    requires HasAdmin(s) && ((target, Admin) in s.grants ==> AdminBesides(s, target))
    requires forall i :: (i, Admin) in s.grants && i != target ==> (i, Admin) in t.grants
    ensures HasAdmin(t) && AdminBesides(t, target)
  {
    var i :| (i, Admin) in s.grants && i != target;
    assert (i, Admin) in t.grants;
  }

  lemma {:induction false} SafeRun(s: Db, ms: seq<Move>)
    requires HasAdmin(s) && !Doomed(s)
    ensures HasAdmin(Run(s, ms)) && !Doomed(Run(s, ms))
  {
    hide HasAdmin, Doomed, Apply, Enabled;
    if ms != [] {
      SafeRun(s, ms[..|ms| - 1]);
      var t := Run(s, ms[..|ms| - 1]);
      if Enabled(t, ms[|ms| - 1]) { SafeStep(t, ms[|ms| - 1]); }
    }
  }

  /** So a removal checked while there was an administrator leaves one for good. */
  lemma CheckedWithAdminIsSafe(s: Db, ms: seq<Move>)
    requires Consistent(s) && HasAdmin(s)
    requires s.lock.Held? && s.lock.task.Removal? && s.lock.stage.Removing? ==> s.lock.stage.sawAdmin
    ensures HasAdmin(Run(s, ms))
  {
    hide Consistent, HasAdmin, Run, AdminBesides;
    if Doomed(s) {
      DoomNeedsAnEmptyCheck(s);
    } else {
      SafeRun(s, ms);
    }
  }

  lemma {:induction false} UnusedId(used: set<Id>) returns (id: Id)
    ensures forall k :: k in used ==> k < id
  {
    if used == {} {
      id := 0;
    } else {
      var k :| k in used;
      var rest := UnusedId(used - {k});
      id := if k < rest then rest else k + 1;
      forall j | j in used ensures j < id { assert j == k || j in used - {k}; }
    }
  }

  lemma DoomedLoses(s: Db) returns (ms: seq<Move>)
    requires Doomed(s)
    ensures !HasAdmin(Run(s, ms))
  {
    var id := UnusedId(s.used);
    var m := Advance(None, id, 0);
    ms := [m];
    assert ms[..0] == [] && Run(s, []) == s;
    assert Run(s, ms) == Apply(s, m);
  }

  /**
   A platform with an administrator has one for good, through any interleaving whatever, exactly
   when no removal is waiting to write that its only administrator is the target of.
   */
  lemma AdminsForGood(s: Db)
    requires HasAdmin(s)
    ensures (forall ms :: HasAdmin(Run(s, ms))) <==> !Doomed(s)
  {
    hide HasAdmin, Doomed, Run;
    if Doomed(s) {
      var ms := DoomedLoses(s);
    } else {
      forall ms ensures HasAdmin(Run(s, ms)) { SafeRun(s, ms); }
    }
  }

  /**
   Such a state can be reached: an account provisioned and under removal is granted the role between
   check and write.
   */
  lemma DoomIsReachable() returns (ms: seq<Move>)
    ensures Doomed(Run(Empty(), ms)) && HasAdmin(Run(Empty(), ms))
  {
    hide Taken;
    var create, begin := Create(1, "a@example.com", "a", 0), Begin(Removal(1, true));
    var check, grant := Advance(None, 2, 0), Grant(1, Admin);
    var a := Apply(Empty(), create);
    assert a.users.Keys == {1} by { NobodyTakes("a@example.com", 1); }
    var b := Apply(a, begin);
    var c := Apply(b, check);
    var d := Apply(c, grant);
    assert (1, Admin) in d.grants;
    ms := [create, begin, check, grant];
    assert ms[..3] == [create, begin, check] && ms[..3][..2] == [create, begin];
    assert ms[..3][..2][..1] == [create] && ms[..3][..2][..1][..0] == [];
    assert Run(Empty(), []) == Empty();
    assert Run(Empty(), [create]) == a;
    assert Run(Empty(), [create, begin]) == b;
    assert Run(Empty(), [create, begin, check]) == c;
    assert Run(Empty(), ms) == d;
  }

  lemma NobodyTakes(email: string, id: Id)
    ensures !Taken(map[], email, id)
  {}

  /** A stranger has been made administrator at most once, and from then on no removal can be waiting to undo it. */
  ghost predicate FoundedOnce(s: Db) {
    && s.founded <= 1
    && (s.founded == 1 ==> HasAdmin(s) && !Doomed(s))
    && (s.lock.Held? && s.lock.task.Admission? && s.lock.stage.Founding? ==> s.founded == 0)
  }

  lemma FoundedOnceKept(s: Db, m: Move)
    requires Enabled(s, m) && FoundedOnce(s)
    ensures FoundedOnce(Apply(s, m))
  {
    hide Taken, Doomed;
    var t := Apply(s, m);
    if s.founded == 1 {
      SafeStep(s, m);
    } else if t.founded == 1 {
      assert (m.minted, Admin) in t.grants;
      FreeIsNotDoomed(t);
    }
  }

  lemma FreeIsNotDoomed(s: Db)
    requires s.lock.Free?
    ensures !Doomed(s)
  {}

  /**
   From an empty install a stranger becomes its administrator at most once ever, and is then never
   without successors.
   */
  lemma {:induction false} FoundedAtMostOnce(ms: seq<Move>)
    ensures FoundedOnce(Run(Empty(), ms))
  {
    hide FoundedOnce, Enabled, Apply;
    if ms == [] {
      NobodyFounded();
    } else {
      FoundedAtMostOnce(ms[..|ms| - 1]);
      var t := Run(Empty(), ms[..|ms| - 1]);
      if Enabled(t, ms[|ms| - 1]) { FoundedOnceKept(t, ms[|ms| - 1]); }
    }
  }

  lemma NobodyFounded()
    ensures FoundedOnce(Empty())
  {}

  // ----- subjects --------------------------------------------------------------------------------------

  /** A subject once written stays on its row for as long as the row is there. */
  lemma SubjectIsForGood(s: Db, m: Move, id: Id, subject: string)
    requires Enabled(s, m) && Consistent(s) && HoldsSubject(s.users, id, subject)
    ensures id in Apply(s, m).users ==> HoldsSubject(Apply(s, m).users, id, subject)
  {}

  lemma IdsAreNotReused(s: Db, m: Move, id: Id)
    requires Enabled(s, m) && id in s.used && id !in s.users
    ensures id in Apply(s, m).used && id !in Apply(s, m).users
  {
    hide Taken, AdminBesides, HasAdmin;
  }

  lemma {:induction false} GoneIsGone(s: Db, ms: seq<Move>, id: Id)
    requires id in s.used && id !in s.users
    ensures id in Run(s, ms).used && id !in Run(s, ms).users
  {
    hide Apply, Enabled;
    if ms != [] {
      GoneIsGone(s, ms[..|ms| - 1], id);
      var t := Run(s, ms[..|ms| - 1]);
      if Enabled(t, ms[|ms| - 1]) { IdsAreNotReused(t, ms[|ms| - 1], id); }
    }
  }

  /**
   A sign-in subject goes on resolving to the same account, and to no other, until that account's
   row is deleted, through any interleaving whatever.
   */
  lemma {:induction false} SubjectResolvesForGood(s: Db, ms: seq<Move>, id: Id, subject: string)
    requires Consistent(s) && HoldsSubject(s.users, id, subject) && id in Run(s, ms).users
    ensures forall k :: HoldsSubject(Run(s, ms).users, k, subject) <==> k == id
  {
    hide Consistent, Apply, Enabled;
    RunIsConsistent(s, ms);
    if ms != [] {
      var p := ms[..|ms| - 1];
      var t := Run(s, p);
      RunIsConsistent(s, p);
      if id !in t.users {
        WasUsed(s, p, id);
        if Enabled(t, ms[|ms| - 1]) { IdsAreNotReused(t, ms[|ms| - 1], id); }
      } else {
        SubjectResolvesForGood(s, p, id, subject);
        if Enabled(t, ms[|ms| - 1]) { SubjectIsForGood(t, ms[|ms| - 1], id, subject); }
      }
    }
    OneHolder(Run(s, ms), id, subject);
  }

  lemma OneHolder(s: Db, id: Id, subject: string)
    requires Consistent(s)
    ensures HoldsSubject(s.users, id, subject) ==> forall k :: HoldsSubject(s.users, k, subject) <==> k == id
  {}

  lemma {:induction false} WasUsed(s: Db, ms: seq<Move>, id: Id)
    requires Consistent(s) && id in s.users
    ensures id in Run(s, ms).used
  {
    hide Taken, AdminBesides, HasAdmin, HolderKnows, SubjectsUnique, AddressesUnique;
    if ms != [] { WasUsed(s, ms[..|ms| - 1], id); }
  }
}
