/**
 The directory's operations run from start to finish with nobody in between: what each answers and
 leaves behind, and that each is a run of the interleaved tables' own statements.
 */
module UserRepo {
  import opened Options
  import opened Directory

  datatype Refusal = Conflict | SubjectMismatch | NotProvisioned | LastAdmin | NotFound | GranterGone

  datatype Admitted = Admitted(id: Id, created: bool)

  lemma Took(s: Db, ms: seq<Move>, m: Move)
    requires Enabled(Run(s, ms), m)
    ensures Run(s, ms + [m]) == Apply(Run(s, ms), m)
  {
    hide Enabled, Apply;
    assert (ms + [m])[..|ms|] == ms;
  }

  lemma RunNothing(s: Db)
    ensures Run(s, []) == s
  {}

  lemma SubjectIsOne(users: Users, subject: string, id: Id)
    requires SubjectsUnique(users) && HoldsSubject(users, id, subject)
    ensures forall k :: HoldsSubject(users, k, subject) <==> k == id
  {}

  lemma AddressIsOne(users: Users, email: string, id: Id)
    requires AddressesUnique(users) && HoldsAddress(users, id, email)
    ensures forall k :: HoldsAddress(users, k, email) <==> k == id
    ensures !Taken(users, email, id)
  {}

  /** What a sign-in comes to, given the tables as it found them. */
  ghost predicate Answers(s: Db, subject: string, email: string, minted: Id, r: Result<Admitted, Refusal>) {
    && (forall id :: HoldsSubject(s.users, id, subject) ==>
          r == if Taken(s.users, email, id) then Failure(Conflict) else Success(Admitted(id, false)))
    && ((forall id :: !HoldsSubject(s.users, id, subject)) ==>
          && (forall id :: HoldsAddress(s.users, id, email) ==>
                r == if s.users[id].subject.Some? then Failure(SubjectMismatch) else Success(Admitted(id, false)))
          && ((forall id :: !HoldsAddress(s.users, id, email)) ==>
                r == if HasAdmin(s) then Failure(NotProvisioned) else Success(Admitted(minted, true))))
  }

  /** What it leaves behind: the one row brought up to date, and the role with it only if it was made. */
  ghost predicate Leaves(s: Db, t: Db, subject: string, email: string, name: string, r: Result<Admitted, Refusal>) {
    match r
    case Failure(_) => t.users == s.users && t.grants == s.grants
    case Success(a) =>
      && a.id in t.users
      && t.users == s.users[a.id := t.users[a.id]]
      && t.users[a.id].subject == Some(subject) && t.users[a.id].email == email && t.users[a.id].name == name
      && t.users[a.id].arrived && (!a.created ==> a.id in s.users && t.users[a.id].createdAt == s.users[a.id].createdAt)
      && t.grants == if a.created then s.grants + {(a.id, Admin)} else s.grants
  }

  class Repo {
    var db: Db

    constructor ()
      ensures db == Empty()
    {
      db := Empty();
    }

    method FindBySubject(subject: string) returns (found: Option<Id>)
      ensures FoundSubject(db.users, subject, found)
    {
      var todo := db.users.Keys;
      while todo != {}
        invariant todo <= db.users.Keys
        invariant forall id :: HoldsSubject(db.users, id, subject) ==> id in todo
        decreases todo
      {
        var id :| id in todo;
        if db.users[id].subject == Some(subject) {
          return Some(id);
        }
        todo := todo - {id};
      }
      return None;
    }

    method FindByAddress(email: string) returns (found: Option<Id>)
      ensures FoundAddress(db.users, email, found)
    {
      hide Lower;
      var todo := db.users.Keys;
      while todo != {}
        invariant todo <= db.users.Keys
        invariant forall id :: HoldsAddress(db.users, id, email) ==> id in todo
        decreases todo
      {
        var id :| id in todo;
        if Lower(db.users[id].email) == Lower(email) {
          return Some(id);
        }
        todo := todo - {id};
      }
      return None;
    }

    method AddressTaken(email: string, except: Id) returns (taken: bool)
      ensures taken <==> Taken(db.users, email, except)
    {
      hide Lower;
      var todo := db.users.Keys;
      while todo != {}
        invariant todo <= db.users.Keys
        invariant forall id :: HoldsAddress(db.users, id, email) && id != except ==> id in todo
        decreases todo
      {
        var id :| id in todo;
        if Lower(db.users[id].email) == Lower(email) && id != except {
          assert HoldsAddress(db.users, id, email);
          return true;
        }
        todo := todo - {id};
      }
      return false;
    }

    method AnotherAdmin(besides: Option<Id>) returns (found: bool)
      ensures found <==> exists i :: (i, Admin) in db.grants && besides != Some(i)
    {
      var todo := db.grants;
      while todo != {}
        invariant todo <= db.grants
        invariant forall i :: (i, Admin) in db.grants && besides != Some(i) ==> (i, Admin) in todo
        decreases todo
      {
        var g :| g in todo;
        if g.1 == Admin && besides != Some(g.0) {
          assert (g.0, Admin) in db.grants;
          return true;
        }
        todo := todo - {g};
      }
      return false;
    }

    /**
     Resolves a sign-in: the row of its subject, else the row waiting for its address, else the first
     administrator.
     */
    method Admit(subject: string, email: string, name: string, minted: Id, at: int)
      returns (r: Result<Admitted, Refusal>, ghost ms: seq<Move>)
      requires db.lock.Free? && minted !in db.used && Consistent(db)
      modifies this
      ensures db == Run(old(db), ms) && db.lock.Free?
      ensures Answers(old(db), subject, email, minted, r)
      ensures Leaves(old(db), db, subject, email, name, r)
    {
      hide Run, Taken, HoldsAddress;
      ghost var s := db;
      var task := Admission(subject, email, name);
      RunNothing(s);
      Took(s, [], Begin(task));
      db := db.(lock := Held(task, Start));
      var found := FindBySubject(subject);
      ms := [Begin(task)];
      assert [] + [Begin(task)] == ms;
      Took(s, ms, Advance(found, minted, at));
      ms := ms + [Advance(found, minted, at)];
      ghost var next := Advance(None, minted, at);
      if found.Some? {
        var id := found.value;
        SubjectIsOne(s.users, subject, id);
        db := db.(lock := Held(task, Refreshing(id)));
        Took(s, ms, next);
        ms := ms + [next];
        var taken := AddressTaken(email, id);
        db := db.(lock := Free);
        if taken {
          return Failure(Conflict), ms;
        }
        db := db.(users := db.users[id := db.users[id].(email := email, name := name, arrived := true)]);
        return Success(Admitted(id, false)), ms;
      }
      db := db.(lock := Held(task, Adopting));
      var waiting := FindByAddress(email);
      Took(s, ms, Advance(waiting, minted, at));
      ms := ms + [Advance(waiting, minted, at)];
      if waiting.Some? {
        var id := waiting.value;
        AddressIsARow(s.users, email, id);
        AddressIsOne(s.users, email, id);
        assert !HoldsSubject(s.users, id, subject);
        if db.users[id].subject.Some? {
          db := db.(lock := Free);
          return Failure(SubjectMismatch), ms;
        }
        db := db.(lock := Held(task, Claiming(id)));
        Took(s, ms, next);
        ms := ms + [next];
        db := db.(lock := Free);
        var claimed := db.users[id].(subject := Some(subject), email := email, name := name, arrived := true);
        db := db.(users := db.users[id := claimed]);
        return Success(Admitted(id, false)), ms;
      }
      db := db.(lock := Held(task, Newcoming));
      Took(s, ms, next);
      ms := ms + [next];
      var hasAdmin := AnotherAdmin(None);
      if hasAdmin {
        db := db.(lock := Free);
        return Failure(NotProvisioned), ms;
      }
      db := db.(lock := Held(task, Founding));
      Took(s, ms, next);
      ms := ms + [next];
      NoAddressIsTaken(s.users, email, minted);
      db := db.(lock := Free, users := db.users[minted := User(Some(subject), email, name, at, true)],
                grants := db.grants + {(minted, Admin)}, used := db.used + {minted}, founded := db.founded + 1);
      return Success(Admitted(minted, true)), ms;
    }

    /** Provisions an account by address alone; the subject is left for the first sign-in to write. */
    method CreateAccount(email: string, name: string, minted: Id, at: int) returns (r: Option<Refusal>)
      requires minted !in db.used
      modifies this
      ensures db == Apply(old(db), Create(minted, email, name, at))
      ensures r == if Taken(old(db).users, email, minted) then Some(Conflict) else None
    {
      var taken := AddressTaken(email, minted);
      if taken {
        return Some(Conflict);
      }
      db := db.(users := db.users[minted := User(None, email, name, at, false)], used := db.used + {minted});
      return None;
    }

    /** Corrects a profile; the subject is not part of it. */
    method UpdateProfile(id: Id, email: string, name: string) returns (r: Option<Refusal>)
      requires db.lock.Free?
      modifies this
      ensures db == Apply(old(db), Update(id, email, name))
      ensures r == if Taken(old(db).users, email, id) && id in old(db).users then Some(Conflict)
                   else if id !in old(db).users then Some(NotFound) else None
    {
      if id !in db.users {
        return Some(NotFound);
      }
      var taken := AddressTaken(email, id);
      if taken {
        return Some(Conflict);
      }
      db := db.(users := db.users[id := db.users[id].(email := email, name := name)]);
      return None;
    }

    /**
     Granting a role twice is a no-op, whoever grants it. A new grant is refused by one of two foreign
     keys, to nobody or by nobody.
     */
    method GrantRole(id: Id, role: Role, grantedBy: Option<Id>) returns (r: Option<Refusal>)
      modifies this
      ensures db == if r.None? then Apply(old(db), Grant(id, role)) else old(db)
      ensures r.None? <==> (id, role) in old(db).grants
                           || (id in old(db).users && (grantedBy.Some? ==> grantedBy.value in old(db).users))
      ensures r == Some(NotFound) <==> (id, role) !in old(db).grants && id !in old(db).users
      ensures r == Some(GranterGone) <==>
                (id, role) !in old(db).grants && id in old(db).users
                && grantedBy.Some? && grantedBy.value !in old(db).users
      ensures r.None? && Consistent(old(db)) ==> (id, role) in db.grants
    {
      if (id, role) in db.grants {
        assert db.grants + {(id, role)} == db.grants;
        return None;
      }
      if id !in db.users {
        return Some(NotFound);
      }
      if grantedBy.Some? && grantedBy.value !in db.users {
        return Some(GranterGone);
      }
      db := db.(grants := db.grants + {(id, role)});
      return None;
    }

    /** Takes a role away: the administrator's under the lock, any other's outright. */
    method RevokeRole(id: Id, role: Role, minted: Id) returns (r: Option<Refusal>)
      requires db.lock.Free? && minted !in db.used && Consistent(db)
      modifies this
      ensures role != Admin ==> db == Apply(old(db), Revoke(id, role)) && r == None
      ensures role == Admin && (id, Admin) in old(db).grants && !AdminBesides(old(db), id) ==>
                r == Some(LastAdmin) && db.grants == old(db).grants
      ensures role == Admin && !((id, Admin) in old(db).grants && !AdminBesides(old(db), id)) ==>
                r == None && forall g :: g in db.grants <==> g in old(db).grants && g != (id, Admin)
      ensures db.users == old(db).users && (old(HasAdmin(db)) ==> HasAdmin(db))
    {
      if role != Admin {
        RevokeKeepsAdmins(db, id, role);
        db := db.(grants := db.grants - {(id, role)});
        return None;
      }
      ghost var ms;
      r, ms := RemoveUnderLock(id, false, minted);
    }

    /** Deletes an account with its grants, or takes its administrator role, unless it is the last administrator's. */
    method RemoveUnderLock(target: Id, wholeRow: bool, minted: Id) returns (r: Option<Refusal>, ghost ms: seq<Move>)
      requires db.lock.Free? && minted !in db.used && Consistent(db)
      modifies this
      ensures db == Run(old(db), ms) && db.lock.Free?
      ensures r == Some(LastAdmin) <==> (target, Admin) in old(db).grants && !AdminBesides(old(db), target)
      ensures r == Some(NotFound) <==> wholeRow && target !in old(db).users
      ensures r.None? || r == Some(LastAdmin) || r == Some(NotFound)
      ensures r.None? ==>
                && db.users == (if wholeRow then old(db).users - {target} else old(db).users)
                && (forall g :: g in db.grants <==>
                      g in old(db).grants && (if wholeRow then g.0 != target else g != (target, Admin)))
      ensures r.Some? ==> db.users == old(db).users && db.grants == old(db).grants
      ensures old(HasAdmin(db)) ==> HasAdmin(db)
    {
      hide Run;
      ghost var s := db;
      var task := Removal(target, wholeRow);
      ghost var next := Advance(None, minted, 0);
      RunNothing(s);
      Took(s, [], Begin(task));
      db := db.(lock := Held(task, Start));
      ms := [Begin(task)];
      assert [] + [Begin(task)] == ms;
      Took(s, ms, next);
      ms := ms + [next];
      var others := AnotherAdmin(Some(target));
      assert others <==> AdminBesides(s, target);
      if (target, Admin) in db.grants && !others {
        db := db.(lock := Free);
        return Some(LastAdmin), ms;
      }
      var any := AnotherAdmin(None);
      assert any <==> HasAdmin(s);
      db := db.(lock := Held(task, Removing(any)));
      Took(s, ms, next);
      ms := ms + [next];
      if any {
        AdminSurvives(s, Apply(db, next), target);
      }
      db := db.(lock := Free);
      if !wholeRow {
        db := db.(grants := db.grants - {(target, Admin)});
        return None, ms;
      }
      var missing := target !in db.users;
      db := db.(users := db.users - {target}, grants := set g | g in db.grants && g.0 != target);
      if missing {
        assert db.users == s.users && db.grants == s.grants;
        return Some(NotFound), ms;
      }
      return None, ms;
    }
  }

  lemma RevokeKeepsAdmins(s: Db, id: Id, role: Role)
    requires role != Admin
    ensures HasAdmin(s) ==> HasAdmin(s.(grants := s.grants - {(id, role)}))
  {
    AdminsKept(s, s.(grants := s.grants - {(id, role)}));
  }

  lemma NoAddressIsTaken(users: Users, email: string, id: Id)
    requires FoundAddress(users, email, None)
    ensures !Taken(users, email, id)
  {}
}
