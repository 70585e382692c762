/**
 Platform tokens and how they beget one another: sign-ins, key exchanges, renewals, and the
 identities lent to deployments, whose reach no chain of renewals can change.
 */
module Renewal {
  import opened Options
  import Trimming

  datatype Role = Admin | Monitor | Developer | Operator | Runtime | CICD

  /** What may be granted to a person; the other two belong to machines and to keys. */
  predicate ValidRole(r: Role) { r == Admin || r == Monitor || r == Developer || r == Operator }

  predicate MayDelegate(held: set<Role>, r: Role) {
    if Admin in held then ValidRole(r) || r == CICD
    else if r == CICD then Developer in held && Operator in held
    else ValidRole(r) && r in held
  }

  /** One grant asked for a deployment; names nobody listed are refused. */
  datatype Access = ToDevelop | ToOperate | Unlisted(name: string)

  function RoleOf(a: Access): Option<Role> {
    match a
    case ToDevelop => Some(Developer)
    case ToOperate => Some(Operator)
    case Unlisted(_) => None
  }

  // ----- what a deployment's token carries -------------------------------------------------------------

  predicate Listed(access: seq<Access>) { forall a :: a in access ==> !a.Unlisted? }

  /** The roles a list of grants adds up to, in order of first mention, the runtime's own first. */
  function RolesFor(access: seq<Access>): seq<Role>
    requires Listed(access)
  {
    if access == [] then [Runtime]
    else
      var before := RolesFor(access[..|access| - 1]);
      var role := RoleOf(access[|access| - 1]).value;
      if role in before then before else before + [role]
  }

  method BuildRoles(access: seq<Access>) returns (r: Result<seq<Role>, Access>)
    ensures r.Success? <==> Listed(access)
    ensures r.Success? ==> r.value == RolesFor(access)
    ensures r.Failure? ==> r.error in access && r.error.Unlisted?
  {
    var roles := [Runtime];
    for i := 0 to |access|
      invariant Listed(access[..i]) && roles == RolesFor(access[..i])
    {
      var role := RoleOf(access[i]);
      if role.None? {
        assert access[i] in access;
        return Failure(access[i]);
      }
      assert access[..i + 1][..i] == access[..i];
      if role.value !in roles {
        roles := roles + [role.value];
      }
    }
    assert access[..|access|] == access;
    return Success(roles);
  }

  /** The grants whose roles a token carries. */
  function AccessOf(roles: seq<Role>): seq<Access> {
    (if Developer in roles then [ToDevelop] else []) + (if Operator in roles then [ToOperate] else [])
  }

  /** Reads every listed grant in whatever order the table yields them, then sorts. */
  method ReadAccess(roles: seq<Role>) returns (access: seq<Access>)
    ensures access == AccessOf(roles)
  {
    access := [];
    var table := {ToDevelop, ToOperate};
    while table != {}
      invariant table <= {ToDevelop, ToOperate}
      invariant forall a :: a in access <==> a !in table && a in {ToDevelop, ToOperate} && RoleOf(a).value in roles
      invariant |access| <= 2 && (|access| == 2 ==> table == {} && access[0] != access[1])
      invariant |access| == 1 ==> table != {ToDevelop, ToOperate}
      decreases table
    {
      var grant :| grant in table;
      if RoleOf(grant).value in roles {
        access := access + [grant];
      }
      table := table - {grant};
    }
    assert ToDevelop in access <==> Developer in roles;
    assert ToOperate in access <==> Operator in roles;
    if |access| == 2 {
      assert access[0] in access && access[1] in access;
      if access[0] == ToOperate {
        access := [access[1], access[0]];
      }
    } else if |access| == 1 {
      assert access[0] in access;
    }
  }

  lemma {:induction false} RolesForMembers(access: seq<Access>, role: Role)
    requires Listed(access)
    ensures role in RolesFor(access) <==> role == Runtime || exists a :: a in access && RoleOf(a) == Some(role)
  {
    if access != [] {
      var before, last := access[..|access| - 1], access[|access| - 1];
      assert forall a :: a in access <==> a in before || a == last;
      RolesForMembers(before, role);
    }
  }

  /** Reading access back off the token it was minted into finds what was granted, up to order and repetition. */
  lemma AccessSurvives(access: seq<Access>)
    requires Listed(access)
    ensures forall a :: a in AccessOf(RolesFor(access)) <==> a in access
  {
    RolesForMembers(access, Developer);
    RolesForMembers(access, Operator);
    forall a ensures a in AccessOf(RolesFor(access)) <==> a in access {
      assert a in access ==> RoleOf(a).Some?;
    }
  }

  /** And minting from what was read back carries the same roles as before. */
  lemma RolesSurvive(access: seq<Access>, role: Role)
    requires Listed(access)
    ensures Listed(AccessOf(RolesFor(access)))
    ensures role in RolesFor(AccessOf(RolesFor(access))) <==> role in RolesFor(access)
  {
    AccessSurvives(access);
    RolesForMembers(access, role);
    RolesForMembers(AccessOf(RolesFor(access)), role);
  }

  // ----- the decisions ---------------------------------------------------------------------------------

  function Held(roles: seq<Role>): set<Role> { set r | r in roles }

  /** The key's roles its owner may still hand on, in the key's order. */
  function Delegable(keyRoles: seq<Role>, owner: set<Role>): seq<Role> {
    if keyRoles == [] then []
    else Delegable(keyRoles[..|keyRoles| - 1], owner)
         + if MayDelegate(owner, keyRoles[|keyRoles| - 1]) then [keyRoles[|keyRoles| - 1]] else []
  }

  method FilterRoles(keyRoles: seq<Role>, owner: set<Role>) returns (roles: seq<Role>)
    ensures roles == Delegable(keyRoles, owner)
  {
    roles := [];
    for i := 0 to |keyRoles|
      invariant roles == Delegable(keyRoles[..i], owner)
    {
      assert keyRoles[..i + 1][..i] == keyRoles[..i];
      if MayDelegate(owner, keyRoles[i]) {
        roles := roles + [keyRoles[i]];
      }
    }
    assert keyRoles[..|keyRoles|] == keyRoles;
  }

  /** A key's token carries only what the key names and its owner may hand on now. */
  lemma {:induction false} DelegableMembers(keyRoles: seq<Role>, owner: set<Role>, role: Role)
    ensures role in Delegable(keyRoles, owner) <==> role in keyRoles && MayDelegate(owner, role)
  {
    if keyRoles != [] {
      var before := keyRoles[..|keyRoles| - 1];
      assert role in keyRoles <==> role in before || role == keyRoles[|keyRoles| - 1];
      DelegableMembers(before, owner, role);
    }
  }

  predicate MayDeploy(owner: set<Role>) { Admin in owner || Operator in owner }

  predicate MayLend(owner: set<Role>, access: seq<Access>)
    requires Listed(access)
  {
    forall a :: a in access ==> MayDelegate(owner, RoleOf(a).value)
  }

  method CheckLoan(owner: set<Role>, access: seq<Access>) returns (ok: bool)
    requires Listed(access)
    ensures ok <==> MayLend(owner, access)
  {
    for i := 0 to |access|
      invariant forall k :: 0 <= k < i ==> MayDelegate(owner, RoleOf(access[k]).value)
    {
      if !MayDelegate(owner, RoleOf(access[i]).value) {
        return false;
      }
    }
    return true;
  }

  predicate KeyMayLend(roles: seq<Role>, access: seq<Access>) {
    (CICD in roles || Operator in roles) && access == []
  }

  // ----- tokens and where they came from -----------------------------------------------------------------

  datatype Origin = SignedIn | FromKey | Renewed(from: nat) | Lent(lender: nat, access: seq<Access>)

  /** A minted token's claims; origin is not in the token, it only remembers. */
  datatype Token = Token(subject: nat, roles: seq<Role>, deployment: string, apiKey: string, origin: Origin)

  datatype Refusal = Unauthenticated | Forbidden | Invalid | Unavailable

  /** What verifying a token or a key comes to; Unread when the database could not say. */
  datatype Standing = Live | PastDue | Foreign | Unread

  /** What the directory says of a token's subject. */
  datatype Owner = Found(roles: seq<Role>) | Missing | Unreachable

  /** One request, with what the database answered while it ran; tokens are named by the order they were minted in. */
  datatype Request =
    | Exchange(user: nat, roles: seq<Role>)
    | ExchangeKey(key: string, standing: Standing, keyRoles: seq<Role>, user: nat, owner: Owner)
    | Refresh(token: nat, standing: Standing, owner: Owner)
    | MintMachine(token: nat, standing: Standing, deployment: string, access: seq<Access>, owner: Owner)

  function Answer(log: seq<Token>, q: Request): Result<Token, Refusal> {
    match q
    case Exchange(user, roles) => Success(Token(user, roles, "", "", SignedIn))
    case ExchangeKey(key, standing, keyRoles, user, owner) =>
      if standing == Unread then Failure(Unavailable)
      else if standing != Live || key == "" then Failure(Unauthenticated)
      else if !owner.Found? then Failure(NoOwner(owner))
      else
        var roles := Delegable(keyRoles, Held(owner.roles));
        if roles == [] then Failure(Forbidden) else Success(Token(user, roles, "", key, FromKey))
    case Refresh(i, standing, owner) =>
      if i >= |log| || standing == Foreign then Failure(Unauthenticated)
      else if standing == Unread then Failure(Unavailable)
      else if standing == PastDue && log[i].deployment == "" then Failure(Unauthenticated)
      else if !owner.Found? then Failure(NoOwner(owner))
      else if log[i].apiKey != "" then Failure(Unauthenticated)
      else if log[i].deployment != "" then
        var access := AccessOf(log[i].roles);
        assert Listed(access);
        Success(Token(log[i].subject, RolesFor(access), log[i].deployment, "", Renewed(i)))
      else Success(Token(log[i].subject, owner.roles, "", "", Renewed(i)))
    case MintMachine(i, standing, requested, access, owner) =>
      var deployment := Trimming.TrimSpace(requested);
      if deployment == "" || !Listed(access) then Failure(Invalid)
      else if i >= |log| || standing != Live || log[i].deployment != "" || !owner.Found? then Failure(Unauthenticated)
      else if if log[i].apiKey != "" then !KeyMayLend(log[i].roles, access)
              else !MayDeploy(Held(owner.roles)) || !MayLend(Held(owner.roles), access) then Failure(Forbidden)
      else Success(Token(log[i].subject, RolesFor(access), deployment, "", Lent(i, access)))
  }

  /** A deployment named by white space alone is no deployment, whoever asks. */
  lemma BlankDeploymentIsInvalid(log: seq<Token>, q: Request)
    requires q.MintMachine? && forall i :: 0 <= i < |q.deployment| ==> Trimming.IsSpace(q.deployment[i])
    ensures Answer(log, q) == Failure(Invalid)
  {
    hide Trimming.IsSpace, Trimming.TrimSpace;
    Trimming.TrimsToNothing(q.deployment);
  }

  function NoOwner(owner: Owner): Refusal { if owner == Unreachable then Unavailable else Unauthenticated }

  function After(log: seq<Token>, q: Request): seq<Token> {
    match Answer(log, q)
    case Success(t) => log + [t]
    case Failure(_) => log
  }

  function Serve(qs: seq<Request>): seq<Token> {
    if qs == [] then [] else After(Serve(qs[..|qs| - 1]), qs[|qs| - 1])
  }

  lemma AccessIsListed(roles: seq<Role>)
    ensures Listed(AccessOf(roles))
  {}

  /** The service as it runs, one request at a time. */
  class Service {
    var log: seq<Token>

    constructor ()
      ensures log == []
    {
      log := [];
    }

    method ExchangeToken(user: nat, held: seq<Role>) returns (r: Result<Token, Refusal>)
      modifies this
      ensures r == Answer(old(log), Exchange(user, held)) && log == After(old(log), Exchange(user, held))
    {
      var t := Token(user, held, "", "", SignedIn);
      log := log + [t];
      return Success(t);
    }

    method ExchangeKeyToken(key: string, standing: Standing, keyRoles: seq<Role>, user: nat, owner: Owner)
      returns (r: Result<Token, Refusal>)
      requires key != ""
      modifies this
      ensures var q := ExchangeKey(key, standing, keyRoles, user, owner);
              r == Answer(old(log), q) && log == After(old(log), q)
    {
      if standing != Live {
        return Failure(if standing == Unread then Unavailable else Unauthenticated);
      }
      if !owner.Found? {
        return Failure(NoOwner(owner));
      }
      var roles := FilterRoles(keyRoles, Held(owner.roles));
      if |roles| == 0 {
        return Failure(Forbidden);
      }
      var t := Token(user, roles, "", key, FromKey);
      log := log + [t];
      return Success(t);
    }

    method RefreshToken(i: nat, standing: Standing, owner: Owner) returns (r: Result<Token, Refusal>)
      requires i < |log|
      modifies this
      ensures var q := Refresh(i, standing, owner); r == Answer(old(log), q) && log == After(old(log), q)
    {
      hide RolesFor, AccessOf, Listed, Held;
      AccessIsListed(log[i].roles);
      var claims := log[i];
      if standing != Live && !(standing == PastDue && claims.deployment != "") {
        return Failure(if standing == Unread then Unavailable else Unauthenticated);
      }
      if !owner.Found? {
        return Failure(NoOwner(owner));
      }
      if claims.apiKey != "" {
        return Failure(Unauthenticated);
      }
      var t := Token(claims.subject, owner.roles, "", "", Renewed(i));
      if claims.deployment != "" {
        var access := ReadAccess(claims.roles);
        var roles := BuildRoles(access);
        t := Token(claims.subject, roles.value, claims.deployment, "", Renewed(i));
      }
      log := log + [t];
      return Success(t);
    }

    method MintMachineToken(i: nat, standing: Standing, requested: string, access: seq<Access>, owner: Owner)
      returns (r: Result<Token, Refusal>)
      requires i < |log|
      modifies this
      ensures var q := MintMachine(i, standing, requested, access, owner);
              r == Answer(old(log), q) && log == After(old(log), q)
    {
      hide RolesFor, Listed, Held, MayDeploy, MayLend, KeyMayLend, Trimming.TrimSpace;
      var deployment := Trimming.TrimSpace(requested);
      if deployment == "" {
        return Failure(Invalid);
      }
      var roles := BuildRoles(access);
      if roles.Failure? {
        return Failure(Invalid);
      }
      var claims := log[i];
      if standing != Live {
        return Failure(Unauthenticated);
      }
      if claims.deployment != "" {
        return Failure(Unauthenticated);
      }
      if !owner.Found? {
        return Failure(Unauthenticated);
      }
      var held := Held(owner.roles);
      if claims.apiKey != "" {
        if !KeyMayLend(claims.roles, access) {
          return Failure(Forbidden);
        }
      } else if !MayDeploy(held) {
        return Failure(Forbidden);
      } else {
        var ok := CheckLoan(held, access);
        if !ok {
          return Failure(Forbidden);
        }
      }
      var t := Token(claims.subject, roles.value, deployment, "", Lent(i, access));
      log := log + [t];
      return Success(t);
    }
  }

  // ----- every run -----------------------------------------------------------------------------------

  /** What is true of a token given those minted before it. */
  ghost predicate Founded(log: seq<Token>, k: nat)
    requires k < |log|
  {
    var t := log[k];
    match t.origin
    case SignedIn => t.deployment == "" && t.apiKey == ""
    case FromKey => t.deployment == "" && t.apiKey != ""
    case Renewed(i) =>
      && i < k && log[i].apiKey == "" && t.apiKey == ""
      && t.deployment == log[i].deployment && t.subject == log[i].subject
      && (t.deployment != "" ==> forall r :: r in t.roles <==> r in log[i].roles)
    case Lent(i, access) =>
      && i < k && log[i].deployment == "" && t.deployment != "" && t.apiKey == ""
      && t.subject == log[i].subject && Listed(access) && t.roles == RolesFor(access)
      && (log[i].apiKey != "" ==> access == [] && (CICD in log[i].roles || Operator in log[i].roles))
  }

  ghost predicate AllFounded(log: seq<Token>) {
    forall k :: 0 <= k < |log| ==> Founded(log, k)
  }

  /** The token a chain of renewals began with. */
  ghost function Root(log: seq<Token>, k: nat): (r: nat)
    requires k < |log| && AllFounded(log)
    ensures r <= k && !log[r].origin.Renewed?
    decreases k
  {
    assert Founded(log, k);
    if log[k].origin.Renewed? then Root(log, log[k].origin.from) else k
  }

  /**
   A deployment's token anywhere on a chain carries the runtime's role and those of what was first
   granted, and no others.
   */
  lemma {:induction false} ChainKeepsItsReach(log: seq<Token>, k: nat)
    requires k < |log| && AllFounded(log) && log[k].deployment != ""
    ensures var root := log[Root(log, k)];
            && root.origin.Lent? && Listed(root.origin.access)
            && root.deployment == log[k].deployment && root.subject == log[k].subject
            && (forall r :: r in log[k].roles <==> r in RolesFor(root.origin.access))
    decreases k
  {
    assert Founded(log, k);
    if log[k].origin.Renewed? {
      ChainKeepsItsReach(log, log[k].origin.from);
    }
  }

  lemma DeploymentRolesAreAccess(log: seq<Token>, k: nat) returns (access: seq<Access>)
    requires k < |log| && AllFounded(log) && log[k].deployment != ""
    ensures Listed(access) && forall r :: r in log[k].roles <==> r in RolesFor(access)
  {
    ChainKeepsItsReach(log, k);
    access := log[Root(log, k)].origin.access;
  }

  /** Renewal itself keeps the roles: the token it reads them off is one of ours. */
  lemma RenewalKeepsRoles(log: seq<Token>, k: nat)
    requires k < |log| && AllFounded(log) && log[k].deployment != ""
    ensures var access := AccessOf(log[k].roles);
            Listed(access) && forall r :: r in RolesFor(access) <==> r in log[k].roles
  {
    var access := DeploymentRolesAreAccess(log, k);
    assert AccessOf(log[k].roles) == AccessOf(RolesFor(access));
    forall r ensures Listed(AccessOf(log[k].roles)) && (r in RolesFor(AccessOf(log[k].roles)) <==> r in log[k].roles) {
      RolesSurvive(access, r);
    }
  }

  lemma FoundedStays(log: seq<Token>, t: Token)
    requires AllFounded(log) && Founded(log + [t], |log|)
    ensures AllFounded(log + [t])
  {
    var more := log + [t];
    forall k | 0 <= k < |more| ensures Founded(more, k) {
      if k < |log| { assert Founded(log, k); }
    }
  }

  lemma AnswerIsFounded(log: seq<Token>, q: Request)
    requires AllFounded(log) && Answer(log, q).Success?
    ensures Founded(log + [Answer(log, q).value], |log|)
  {
    hide RolesFor, AccessOf, Delegable, MayDeploy, MayDelegate, Trimming.TrimSpace, Trimming.IsSpace;
    if q.Refresh? && log[q.token].deployment != "" {
      RenewalKeepsRoles(log, q.token);
    }
  }

  lemma {:induction false} ServedIsFounded(qs: seq<Request>)
    ensures AllFounded(Serve(qs))
  {
    hide AllFounded, Answer, Founded;
    if qs == [] {
      NothingIsFounded();
    } else {
      var log, q := Serve(qs[..|qs| - 1]), qs[|qs| - 1];
      ServedIsFounded(qs[..|qs| - 1]);
      if Answer(log, q).Success? {
        AnswerIsFounded(log, q);
        FoundedStays(log, Answer(log, q).value);
      }
    }
  }

  lemma NothingIsFounded()
    ensures AllFounded([])
  {}

  /**
   Whatever was exchanged, renewed and lent, in whatever order: a deployment's token traces back to
   one loan by a token that was no deployment's, speaks for the same person and deployment, and
   carries exactly the runtime's role and the roles of the access that loan granted.
   */
  lemma DeploymentsReachWhatTheyWereLent(qs: seq<Request>, k: nat, role: Role)
    requires k < |Serve(qs)| && Serve(qs)[k].deployment != ""
    ensures AllFounded(Serve(qs))
    ensures var log := Serve(qs);
            var root := log[Root(log, k)];
            && root.origin.Lent? && root.origin.lender < |log| && log[root.origin.lender].deployment == ""
            && root.deployment == log[k].deployment
            && root.subject == log[k].subject == log[root.origin.lender].subject
            && (role in log[k].roles <==>
                  role == Runtime || exists a :: a in root.origin.access && RoleOf(a) == Some(role))
            && (log[root.origin.lender].apiKey != "" ==> (role in log[k].roles <==> role == Runtime))
  {
    ServedIsFounded(qs);
    hide Serve, RolesFor;
    var log := Serve(qs);
    ChainKeepsItsReach(log, k);
    assert Founded(log, Root(log, k));
    RolesForMembers(log[Root(log, k)].origin.access, role);
  }

  /** A token exchanged for a key is never renewed, by anyone. */
  lemma KeyTokensAreNotRenewed(qs: seq<Request>, k: nat)
    requires k < |Serve(qs)| && Serve(qs)[k].origin.Renewed?
    ensures var log := Serve(qs); log[k].origin.from < k && log[log[k].origin.from].apiKey == "" && log[k].apiKey == ""
  {
    ServedIsFounded(qs);
    hide Serve;
    assert Founded(Serve(qs), k);
  }

  /** And a loan by a person gives nothing its owner could not have handed on when it was made. */
  lemma LoansAreDelegable(log: seq<Token>, q: Request, role: Role)
    requires q.MintMachine? && Answer(log, q).Success? && log[q.token].apiKey == ""
    requires role in Answer(log, q).value.roles && role != Runtime
    ensures q.owner.Found? && MayDeploy(Held(q.owner.roles)) && MayDelegate(Held(q.owner.roles), role)
  {
    RolesForMembers(q.access, role);
  }
}
