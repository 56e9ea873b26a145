/**
 Bans, roles and erasure in the admin panel (src/admin/admin-users.service.ts, src/admin/role-policy.ts)
 behind the two guards of its routes (src/auth/jwt-auth.guard.ts, src/auth/roles.guard.ts).
 */
module AdminUsers {
  import opened Wrappers

  datatype Role = User | Admin | SuperAdmin

  datatype Account = Account(role: Role, bannedAt: Option<int>, deletedAt: Option<int>)
  {
    predicate Live() { deletedAt == None }

    /** What the token guard lets in. */
    predicate Usable() { Live() && bannedAt == None }
  }

  type Users = map<string, Account>

  datatype Actor = Actor(id: string, role: Role)

  datatype Refusal =
    | Unauthorized | Forbidden
    | NotFound | CannotTargetSelf | CannotDemoteSelf | SuperAdminRequired
    | LastSuperAdmin | LastAdmin | AlreadyErased | EmailTaken

  datatype Op = Ban(id: string) | Unban(id: string) | ChangeRole(id: string, role: Role) | Erase(id: string)

  datatype Request = Request(actor: string, op: Op, at: int)

  type Answer = Result<Account, Refusal>

  // ---------------------------------------------------------------------------
  // The policy
  // ---------------------------------------------------------------------------

  predicate IsAdminRole(r: Role) { r == Admin || r == SuperAdmin }

  function Rank(r: Role): nat {
    match r
    case User => 0
    case Admin => 1
    case SuperAdmin => 2
  }

  function RoleChangeDenial(actor: Role, target: Role, next: Role, isSelf: bool): Option<Refusal> {
    if target == next then None
    else if isSelf && Rank(next) < Rank(target) then Some(CannotDemoteSelf)
    else if actor == SuperAdmin then None
    else if target == User && next == Admin then None
    else Some(SuperAdminRequired)
  }

  function BanDenial(actor: Role, target: Role): Option<Refusal> {
    if IsAdminRole(target) && actor != SuperAdmin then Some(SuperAdminRequired) else None
  }

  function LiveSuperAdmins(users: Users): set<string> {
    set u | u in users && users[u].role == SuperAdmin && users[u].Live()
  }

  function LiveAdmins(users: Users): set<string> {
    set u | u in users && IsAdminRole(users[u].role) && users[u].Live()
  }

  // ---------------------------------------------------------------------------
  // What each request is refused for, and what it does otherwise
  // ---------------------------------------------------------------------------

  function BanRefusal(users: Users, id: string, actor: Actor): Option<Refusal> {
    if id == actor.id then Some(CannotTargetSelf)
    else if id !in users then Some(NotFound)
    else BanDenial(actor.role, users[id].role)
  }

  function UnbanRefusal(users: Users, id: string, actor: Actor): Option<Refusal> {
    if id !in users then Some(NotFound) else BanDenial(actor.role, users[id].role)
  }

  function ChangeRoleRefusal(users: Users, id: string, role: Role, actor: Actor): Option<Refusal> {
    if id !in users then Some(NotFound)
    else if RoleChangeDenial(actor.role, users[id].role, role, id == actor.id).Some? then
      RoleChangeDenial(actor.role, users[id].role, role, id == actor.id)
    else if users[id].role == role then None
    else if users[id].role == SuperAdmin && |LiveSuperAdmins(users)| <= 1 then Some(LastSuperAdmin)
    else if IsAdminRole(users[id].role) && !IsAdminRole(role) && |LiveAdmins(users)| <= 1 then Some(LastAdmin)
    else None
  }

  function EraseRefusal(users: Users, id: string, actor: Actor): Option<Refusal> {
    if id == actor.id then Some(CannotTargetSelf)
    else if actor.role != SuperAdmin then Some(SuperAdminRequired)
    else if id !in users then Some(NotFound)
    else if users[id].deletedAt.Some? then Some(AlreadyErased)
    else if users[id].role == SuperAdmin && |LiveSuperAdmins(users)| <= 1 then Some(LastSuperAdmin)
    else None
  }

  function OpRefusal(users: Users, op: Op, actor: Actor): Option<Refusal> {
    match op
    case Ban(id) => BanRefusal(users, id, actor)
    case Unban(id) => UnbanRefusal(users, id, actor)
    case ChangeRole(id, role) => ChangeRoleRefusal(users, id, role, actor)
    case Erase(id) => EraseRefusal(users, id, actor)
  }

  /** Whom the guards admit to the routes of the panel. */
  predicate Admitted(users: Users, actor: string) {
    actor in users && users[actor].Usable() && IsAdminRole(users[actor].role)
  }

  function RefusalOf(users: Users, r: Request): Option<Refusal> {
    if r.actor !in users || !users[r.actor].Usable() then Some(Unauthorized)
    else if !IsAdminRole(users[r.actor].role) then Some(Forbidden)
    else OpRefusal(users, r.op, Actor(r.actor, users[r.actor].role))
  }

  /** The account a granted request leaves behind. */
  function Changed(a: Account, op: Op, at: int): Account {
    match op
    case Ban(_) => if a.bannedAt.Some? then a else a.(bannedAt := Some(at))
    case Unban(_) => a.(bannedAt := None)
    case ChangeRole(_, role) => a.(role := role)
    case Erase(_) => a.(deletedAt := Some(at))
  }

  function Granted(users: Users, op: Op, at: int): Users
    requires op.id in users
  {
    users[op.id := Changed(users[op.id], op, at)]
  }

  function After(users: Users, r: Request): Users {
    if RefusalOf(users, r) == None && r.op.id in users then Granted(users, r.op, r.at) else users
  }

  ghost function AfterAll(users: Users, rs: seq<Request>): Users {
    if rs == [] then users else After(AfterAll(users, rs[..|rs| - 1]), rs[|rs| - 1])
  }

  /**
   A request to the panel, a user who leaves, or a sign-up. A sign-up names the account that is
   stored under its address; a new address stands for an account that is not there yet.
   */
  datatype Call = Panel(request: Request) | Leave(user: string, when: int) | SignUp(user: string)

  function AfterCall(users: Users, c: Call): Users {
    match c
    case Panel(r) => After(users, r)
    case Leave(u, t) =>
      if u in users && users[u].Usable() then users[u := users[u].(deletedAt := Some(t))] else users
    case SignUp(u) =>
      users[u := if u in users then users[u].(deletedAt := None) else Account(User, None, None)]
  }

  ghost function AfterCalls(users: Users, cs: seq<Call>): Users {
    if cs == [] then users else AfterCall(AfterCalls(users, cs[..|cs| - 1]), cs[|cs| - 1])
  }

  // ---------------------------------------------------------------------------
  // The service
  // ---------------------------------------------------------------------------

  /** The accounts of these roles that are not erased. */
  ghost function LiveOf(users: Users, roles: set<Role>): set<string> {
    set u | u in users && users[u].role in roles && users[u].deletedAt == None
  }

  lemma LiveRoles(users: Users)
    ensures LiveSuperAdmins(users) == LiveOf(users, {SuperAdmin})
    ensures LiveAdmins(users) == LiveOf(users, {Admin, SuperAdmin})
  {
  }

  /** How an operation must end: as the refusal says, or with the changed account stored. */
  ghost predicate Ends(before: Users, op: Op, at: int, refusal: Option<Refusal>, after: Users, r: Answer) {
    match refusal
    case Some(e) => r == Err(e) && after == before
    case None => op.id in before && after == Granted(before, op, at) && r == Ok(after[op.id])
  }

  class AdminUsersService {
    var users: Users

    constructor (users: Users)
      ensures this.users == users
    {
      this.users := users;
    }

    method BanUser(id: string, actor: Actor, now: int) returns (r: Answer)
      modifies this
      ensures Ends(old(users), Ban(id), now, BanRefusal(old(users), id, actor), users, r)
      ensures r == if id == actor.id then Err(CannotTargetSelf)
                   else if id !in old(users) then Err(NotFound)
                   else if old(users)[id].role != User && actor.role != SuperAdmin then Err(SuperAdminRequired)
                   else if old(users)[id].bannedAt != None then Ok(old(users)[id])
                   else Ok(old(users)[id].(bannedAt := Some(now)))
      ensures users == if r.Ok? then old(users)[id := r.value] else old(users)
    {
      if id == actor.id { return Err(CannotTargetSelf); }
      if id !in users { return Err(NotFound); }
      var user := users[id];
      var denial := BanDenial(actor.role, user.role);
      if denial.Some? { return Err(denial.value); }
      if user.bannedAt.Some? { return Ok(user); }
      users := users[id := user.(bannedAt := Some(now))];
      return Ok(users[id]);
    }

    method UnbanUser(id: string, actor: Actor, now: int) returns (r: Answer)
      modifies this
      ensures Ends(old(users), Unban(id), now, UnbanRefusal(old(users), id, actor), users, r)
      ensures r == if id !in old(users) then Err(NotFound)
                   else if old(users)[id].role != User && actor.role != SuperAdmin then Err(SuperAdminRequired)
                   else Ok(old(users)[id].(bannedAt := None))
      ensures users == if r.Ok? then old(users)[id := r.value] else old(users)
    {
      if id !in users { return Err(NotFound); }
      var user := users[id];
      var denial := BanDenial(actor.role, user.role);
      if denial.Some? { return Err(denial.value); }
      users := users[id := user.(bannedAt := None)];
      return Ok(users[id]);
    }

    method ChangeRoleOf(id: string, role: Role, actor: Actor, now: int) returns (r: Answer)
      modifies this
      ensures Ends(old(users), ChangeRole(id, role), now, ChangeRoleRefusal(old(users), id, role, actor), users, r)
      ensures r == if id !in old(users) then Err(NotFound)
                   else
                     var was := old(users)[id].role;
                     if role == was then Ok(old(users)[id])
                     else if id == actor.id && (was == SuperAdmin || (was == Admin && role == User)) then
                       Err(CannotDemoteSelf)
                     else if actor.role != SuperAdmin && !(was == User && role == Admin) then Err(SuperAdminRequired)
                     else if was == SuperAdmin && |LiveOf(old(users), {SuperAdmin})| <= 1 then Err(LastSuperAdmin)
                     else if was != User && role == User && |LiveOf(old(users), {Admin, SuperAdmin})| <= 1 then
                       Err(LastAdmin)
                     else Ok(old(users)[id].(role := role))
      ensures users == if r.Ok? then old(users)[id := r.value] else old(users)
    {
      LiveRoles(users);
      if id !in users { return Err(NotFound); }
      var user := users[id];
      var denial := RoleChangeDenial(actor.role, user.role, role, id == actor.id);
      if denial.Some? { return Err(denial.value); }
      if user.role == role { return Ok(user); }
      if user.role == SuperAdmin {
        var superAdmins := |LiveSuperAdmins(users)|;
        if superAdmins <= 1 { return Err(LastSuperAdmin); }
      }
      if IsAdminRole(user.role) && !IsAdminRole(role) {
        var adminCount := |LiveAdmins(users)|;
        if adminCount <= 1 { return Err(LastAdmin); }
      }
      users := users[id := user.(role := role)];
      return Ok(users[id]);
    }

    method EraseUser(id: string, actor: Actor, now: int) returns (r: Answer)
      modifies this
      ensures Ends(old(users), Erase(id), now, EraseRefusal(old(users), id, actor), users, r)
      ensures r == if id == actor.id then Err(CannotTargetSelf)
                   else if actor.role != SuperAdmin then Err(SuperAdminRequired)
                   else if id !in old(users) then Err(NotFound)
                   else if old(users)[id].deletedAt != None then Err(AlreadyErased)
                   else if old(users)[id].role == SuperAdmin && |LiveOf(old(users), {SuperAdmin})| <= 1 then
                     Err(LastSuperAdmin)
                   else Ok(old(users)[id].(deletedAt := Some(now)))
      ensures users == if r.Ok? then old(users)[id := r.value] else old(users)
    {
      LiveRoles(users);
      if id == actor.id { return Err(CannotTargetSelf); }
      if actor.role != SuperAdmin { return Err(SuperAdminRequired); }
      if id !in users { return Err(NotFound); }
      var user := users[id];
      if user.deletedAt.Some? { return Err(AlreadyErased); }
      if user.role == SuperAdmin {
        var superAdmins := |LiveSuperAdmins(users)|;
        if superAdmins <= 1 { return Err(LastSuperAdmin); }
      }
      users := users[id := user.(deletedAt := Some(now))];
      return Ok(users[id]);
    }

    /** A request through both guards, with the actor's role as it is now. */
    method Handle(req: Request) returns (r: Answer)
      modifies this
      ensures users == After(old(users), req)
      ensures match RefusalOf(old(users), req)
              case Some(e) => r == Err(e)
              case None => req.op.id in users && r == Ok(users[req.op.id])
      ensures r == Err(Unauthorized) <==>
                || req.actor !in old(users)
                || old(users)[req.actor].deletedAt != None || old(users)[req.actor].bannedAt != None
      ensures r == Err(Forbidden) <==>
                req.actor in old(users) && old(users)[req.actor] == Account(User, None, None)
      ensures forall u :: u in users <==> u in old(users)
      ensures forall u :: u in users && u != req.op.id ==> users[u] == old(users)[u]
      ensures r.Err? ==> users == old(users)
    {
      if req.actor !in users || !users[req.actor].Usable() { return Err(Unauthorized); }
      if !IsAdminRole(users[req.actor].role) { return Err(Forbidden); }
      var actor := Actor(req.actor, users[req.actor].role);
      match req.op {
        case Ban(id) => r := BanUser(id, actor, req.at);
        case Unban(id) => r := UnbanUser(id, actor, req.at);
        case ChangeRole(id, role) => r := ChangeRoleOf(id, role, actor, req.at);
        case Erase(id) => r := EraseUser(id, actor, req.at);
      }
    }

    /** A user erases their own account; only the token guard stands before it. */
    method EraseMe(user: string, now: int) returns (r: Result<(), Refusal>)
      modifies this
      ensures users == AfterCall(old(users), Leave(user, now))
      ensures if r.Ok? then user in old(users) && users == old(users)[user := old(users)[user].(deletedAt := Some(now))]
              else users == old(users)
      ensures r == if user in old(users) && old(users)[user].Usable() then Ok(()) else Err(Unauthorized)
    {
      if user !in users || !users[user].Usable() { return Err(Unauthorized); }
      users := users[user := users[user].(deletedAt := Some(now))];
      return Ok(());
    }

    /** Registration: refused for a live account, otherwise an upsert. */
    method Register(user: string) returns (r: Result<(), Refusal>)
      modifies this
      ensures users == AfterCall(old(users), SignUp(user))
      ensures r.Ok? ==> users == old(users)[user := if user in old(users) then old(users)[user].(deletedAt := None)
                                                    else Account(User, None, None)]
      ensures r.Err? ==> users == old(users)
      ensures r == if user in old(users) && old(users)[user].Live() then Err(EmailTaken) else Ok(())
    {
      if user in users && users[user].Live() { return Err(EmailTaken); }
      OauthUpsert(user);
      return Ok(());
    }

    /** The sign-up behind an identity provider is an upsert for every account. */
    method OauthUpsert(user: string)
      modifies this
      ensures users == AfterCall(old(users), SignUp(user))
      ensures users == old(users)[user := if user in old(users) then old(users)[user].(deletedAt := None)
                                          else Account(User, None, None)]
    {
      if user in users {
        users := users[user := users[user].(deletedAt := None)];
      } else {
        users := users[user := Account(User, None, None)];
      }
    }

    method HandleAll(reqs: seq<Request>)
      modifies this
      ensures users == AfterAll(old(users), reqs)
    {
      for i := 0 to |reqs|
        invariant users == AfterAll(old(users), reqs[..i])
      {
        assert reqs[..i + 1][..i] == reqs[..i];
        var _ := Handle(reqs[i]);
      }
      assert reqs[..|reqs|] == reqs;
    }
  }

  // ---------------------------------------------------------------------------
  // Who can do what to whom
  // ---------------------------------------------------------------------------

  predicate UsableSuperAdmin(users: Users, u: string) {
    u in users && users[u].role == SuperAdmin && users[u].Usable()
  }

  ghost predicate HasUsableSuperAdmin(users: Users) {
    exists u :: UsableSuperAdmin(users, u)
  }

  /** A request touches its target alone, nobody else and no other part of the table. */
  lemma OnlyTheTarget(users: Users, r: Request)
    ensures After(users, r).Keys == users.Keys
    ensures forall u :: u in users && u != r.op.id ==> After(users, r)[u] == users[u]
  {
  }

  /** What the guards ask for, written out. */
  ghost predicate MayCall(users: Users, actor: string) {
    actor in users && users[actor].deletedAt == None && users[actor].bannedAt == None && users[actor].role != User
  }

  /** Which requests are granted, role by role. */
  lemma GrantedExactly(users: Users, r: Request)
    ensures RefusalOf(users, r) == None <==>
              && MayCall(users, r.actor) && r.op.id in users
              && var (super, target) := (users[r.actor].role == SuperAdmin, users[r.op.id]);
                 match r.op
                 case Ban(id) => id != r.actor && (super || target.role == User)
                 case Unban(_) => super || target.role == User
                 case Erase(id) => super && id != r.actor && target.deletedAt == None
                 case ChangeRole(id, role) =>
                   || role == target.role
                   || (target.role == User && role == Admin)
                   || (super && id != r.actor
                       && (target.role == SuperAdmin && target.deletedAt != None ==>
                             LiveOf(users, {SuperAdmin}) != {r.actor})
                       && (target.role == Admin && role == User && target.deletedAt != None ==>
                             LiveOf(users, {Admin, SuperAdmin}) != {r.actor})
                       && (target.role == SuperAdmin && role == User && target.deletedAt != None ==>
                             LiveOf(users, {Admin, SuperAdmin}) != {r.actor}))
  {
    LiveRoles(users);
    if MayCall(users, r.actor) {
      AtMostOne(LiveOf(users, {Admin, SuperAdmin}), r.actor);
      if users[r.actor].role == SuperAdmin {
        AtMostOne(LiveOf(users, {SuperAdmin}), r.actor);
        if r.op.id in users && users[r.op.id].deletedAt == None && users[r.op.id].role != User {
          assert r.op.id in LiveOf(users, {Admin, SuperAdmin});
          assert users[r.op.id].role == SuperAdmin ==> r.op.id in LiveOf(users, {SuperAdmin});
        }
      }
    }
  }

  /** What a granted request does to its target. */
  lemma GrantedIsDone(users: Users, r: Request)
    requires RefusalOf(users, r) == None
    ensures r.op.id in users && r.op.id in After(users, r)
    ensures var (before, now) := (users[r.op.id], After(users, r)[r.op.id]);
            match r.op
            case Ban(_) =>
              && now.bannedAt == (if before.bannedAt == None then Some(r.at) else before.bannedAt) && now.bannedAt.Some?
              && !now.Usable() && now.role == before.role && now.deletedAt == before.deletedAt
            case Unban(_) => now.bannedAt == None && now.role == before.role && now.deletedAt == before.deletedAt
            case ChangeRole(_, role) =>
              now.role == role && now.bannedAt == before.bannedAt && now.deletedAt == before.deletedAt
            case Erase(_) =>
              && now.deletedAt == Some(r.at) && !now.Usable()
              && now.role == before.role && now.bannedAt == before.bannedAt
  {
    hide LiveSuperAdmins, LiveAdmins;
  }

  /** A ban holds, and its holder is turned away at the door, until somebody lifts it. */
  lemma {:induction false} BannedIsLockedOut(users: Users, rs: seq<Request>, u: string, r: Request)
    requires u in users && users[u].bannedAt != None && r.actor == u
    requires forall i :: 0 <= i < |rs| ==> rs[i].op != Unban(u)
    ensures u in AfterAll(users, rs) && AfterAll(users, rs)[u].bannedAt == users[u].bannedAt
    ensures RefusalOf(AfterAll(users, rs), r) == Some(Unauthorized)
    ensures After(AfterAll(users, rs), r) == AfterAll(users, rs)
  {
    hide LiveSuperAdmins, LiveAdmins;
    if rs != [] {
      var (front, last) := (rs[..|rs| - 1], rs[|rs| - 1]);
      BannedIsLockedOut(users, front, u, r);
      BanOutlasts(AfterAll(users, front), last, u);
    }
  }

  lemma BanOutlasts(users: Users, r: Request, u: string)
    requires u in users && users[u].bannedAt != None && r.op != Unban(u)
    ensures u in After(users, r) && After(users, r)[u].bannedAt == users[u].bannedAt
  {
    hide LiveSuperAdmins, LiveAdmins, RefusalOf;
  }

  /** Nobody changes their own account through the panel, in no way and for better or worse. */
  lemma NobodyChangesThemselves(users: Users, r: Request)
    requires r.actor in users
    ensures After(users, r)[r.actor] == users[r.actor]
  {
    hide LiveSuperAdmins, LiveAdmins;
  }

  /** A plain admin leaves everyone of admin rank exactly as they are. */
  lemma AdminsAreOutOfReach(users: Users, r: Request, u: string)
    requires u in users && IsAdminRole(users[u].role)
    requires !UsableSuperAdmin(users, r.actor)
    ensures After(users, r)[u] == users[u]
  {
    hide LiveSuperAdmins, LiveAdmins;
  }

  /** What a plain admin can do to the others: bans, and the step from user to admin. */
  lemma PlainAdminsReach(users: Users, r: Request, u: string)
    requires u in users && !UsableSuperAdmin(users, r.actor)
    ensures var (a, b) := (users[u], After(users, r)[u]);
            b.deletedAt == a.deletedAt && (b.role == a.role || (a.role == User && b.role == Admin))
  {
    hide LiveSuperAdmins, LiveAdmins;
  }

  /** A super admin comes only from a super admin. */
  lemma SuperAdminsMakeSuperAdmins(users: Users, r: Request, u: string)
    requires u in users && users[u].role != SuperAdmin && After(users, r)[u].role == SuperAdmin
    ensures UsableSuperAdmin(users, r.actor)
  {
    hide LiveSuperAdmins, LiveAdmins;
  }

  /** No request to the panel takes an erasure back. */
  lemma {:induction false} ErasedStaysErased(users: Users, rs: seq<Request>, u: string)
    requires u in users && users[u].deletedAt.Some?
    ensures u in AfterAll(users, rs) && AfterAll(users, rs)[u].deletedAt == users[u].deletedAt
  {
    hide LiveSuperAdmins, LiveAdmins;
    if rs != [] { ErasedStaysErased(users, rs[..|rs| - 1], u); }
  }

  lemma OneStepKeepsASuperAdmin(users: Users, r: Request)
    ensures HasUsableSuperAdmin(After(users, r)) <==> HasUsableSuperAdmin(users)
  {
    hide After, RefusalOf;
    if UsableSuperAdmin(users, r.actor) {
      OnlyTheTarget(users, r);
      NobodyChangesThemselves(users, r);
      assert UsableSuperAdmin(After(users, r), r.actor);
    } else {
      OnlyTheTarget(users, r);
      forall u | u in users
        ensures UsableSuperAdmin(After(users, r), u) <==> UsableSuperAdmin(users, u)
      {
        PlainAdminsReach(users, r, u);
        if IsAdminRole(users[u].role) { AdminsAreOutOfReach(users, r, u); }
      }
      assert forall u :: UsableSuperAdmin(After(users, r), u) <==> UsableSuperAdmin(users, u);
    }
  }

  /** However long the panel is used: a usable super admin is never lost, and none comes from nowhere. */
  lemma {:induction false} ASuperAdminRemains(users: Users, rs: seq<Request>)
    ensures HasUsableSuperAdmin(AfterAll(users, rs)) <==> HasUsableSuperAdmin(users)
  {
    if rs != [] {
      ASuperAdminRemains(users, rs[..|rs| - 1]);
      OneStepKeepsASuperAdmin(AfterAll(users, rs[..|rs| - 1]), rs[|rs| - 1]);
    }
  }

  /** Without a usable super admin the accounts of admin rank are frozen. */
  lemma {:induction false} FrozenWithoutASuperAdmin(users: Users, rs: seq<Request>, u: string)
    requires !HasUsableSuperAdmin(users) && u in users && IsAdminRole(users[u].role)
    ensures u in AfterAll(users, rs) && AfterAll(users, rs)[u] == users[u]
  {
    hide After, RefusalOf;
    if rs != [] {
      var (before, r) := (AfterAll(users, rs[..|rs| - 1]), rs[|rs| - 1]);
      FrozenWithoutASuperAdmin(users, rs[..|rs| - 1], u);
      ASuperAdminRemains(users, rs[..|rs| - 1]);
      assert !UsableSuperAdmin(before, r.actor);
      OnlyTheTarget(before, r);
      AdminsAreOutOfReach(before, r, u);
    }
  }

  /** The only usable super admin leaves. */
  ghost predicate LastOneLeaves(users: Users, c: Call) {
    c.Leave? && UsableSuperAdmin(users, c.user) && forall u :: UsableSuperAdmin(users, u) ==> u == c.user
  }

  /** A sign-up under the address of an erased super admin, whose role and ban are still stored. */
  predicate SuperAdminReturns(users: Users, c: Call) {
    && c.SignUp? && c.user in users && users[c.user].role == SuperAdmin
    && !users[c.user].Live() && users[c.user].bannedAt == None
  }

  lemma LeavingBySelf(users: Users, gone: string, t: int)
    ensures var after := AfterCall(users, Leave(gone, t));
            forall u :: UsableSuperAdmin(after, u) <==> UsableSuperAdmin(users, u) && u != gone
  {
  }

  lemma SigningUp(users: Users, u: string)
    ensures var c := SignUp(u);
            forall v :: UsableSuperAdmin(AfterCall(users, c), v) <==>
              UsableSuperAdmin(users, v) || (v == u && SuperAdminReturns(users, c))
  {
  }

  /** When a usable super admin is there after one call. */
  lemma SuperAdminAfterCall(users: Users, c: Call)
    ensures HasUsableSuperAdmin(AfterCall(users, c)) <==>
              (HasUsableSuperAdmin(users) && !LastOneLeaves(users, c)) || SuperAdminReturns(users, c)
  {
    hide AfterCall;
    match c {
      case Panel(r) =>
        PanelIsAfter(users, r);
        OneStepKeepsASuperAdmin(users, r);
      case Leave(gone, t) =>
        LeavingBySelf(users, gone, t);
      case SignUp(u) =>
        SigningUp(users, u);
        assert SuperAdminReturns(users, c) ==> UsableSuperAdmin(AfterCall(users, c), u);
    }
  }

  /** Nobody usable at the start, an erased super admin, and one sign-up. */
  lemma ASuperAdminReturns()
    ensures var users := map["s" := Account(SuperAdmin, None, Some(1))];
            !HasUsableSuperAdmin(users) && HasUsableSuperAdmin(AfterCall(users, SignUp("s")))
  {
    var users := map["s" := Account(SuperAdmin, None, Some(1))];
    assert UsableSuperAdmin(AfterCall(users, SignUp("s")), "s");
  }

  lemma PanelIsAfter(users: Users, r: Request)
    ensures AfterCall(users, Panel(r)) == After(users, r)
  {
  }

  /** Before call `i` there is a usable super admin: from the start, or because one has just returned. */
  ghost predicate Appears(users: Users, cs: seq<Call>, i: nat)
    requires i <= |cs|
  {
    if i == 0 then HasUsableSuperAdmin(users) else SuperAdminReturns(AfterCalls(users, cs[..i - 1]), cs[i - 1])
  }

  /** And from there on the last one never leaves. */
  ghost predicate Remains(users: Users, cs: seq<Call>, i: nat)
    requires i <= |cs|
  {
    forall j :: i <= j < |cs| ==> !LastOneLeaves(AfterCalls(users, cs[..j]), cs[j])
  }

  /**
   Over any sequence of calls: a usable super admin is there at the end exactly when one was there at
   the start or returned by a sign-up, and from then on the last one never left.
   */
  lemma {:induction false} WhenASuperAdminIsThere(users: Users, cs: seq<Call>)
    ensures HasUsableSuperAdmin(AfterCalls(users, cs)) <==>
              exists i :: 0 <= i <= |cs| && Appears(users, cs, i) && Remains(users, cs, i)
  {
    hide AfterCall, LastOneLeaves, HasUsableSuperAdmin, SuperAdminReturns;
    if cs == [] {
      assert Remains(users, cs, 0) && (Appears(users, cs, 0) <==> HasUsableSuperAdmin(users));
    } else {
      var (front, n) := (cs[..|cs| - 1], |cs| - 1);
      var (before, last) := (AfterCalls(users, front), cs[n]);
      WhenASuperAdminIsThere(users, front);
      SuperAdminAfterCall(before, last);
      assert Appears(users, cs, n + 1) <==> SuperAdminReturns(before, last);
      assert Remains(users, cs, n + 1);
      forall i | 0 <= i <= n
        ensures Appears(users, cs, i) <==> Appears(users, front, i)
        ensures Remains(users, cs, i) <==> Remains(users, front, i) && !LastOneLeaves(before, last)
      {
        OneCallMore(users, cs, i);
      }
    }
  }

  lemma OneCallMore(users: Users, cs: seq<Call>, i: nat)
    requires i < |cs|
    ensures var (front, n) := (cs[..|cs| - 1], |cs| - 1);
            && (Appears(users, cs, i) <==> Appears(users, front, i))
            && (Remains(users, cs, i) <==>
                  Remains(users, front, i) && !LastOneLeaves(AfterCalls(users, front), cs[n]))
  {
    hide AfterCall, AfterCalls, LastOneLeaves, HasUsableSuperAdmin, SuperAdminReturns;
    var front := cs[..|cs| - 1];
    assert forall j :: 0 <= j < |front| ==> front[..j] == cs[..j] && front[j] == cs[j];
  }

  /** What ends an erasure is a sign-up under the stored address, and nothing else. */
  lemma {:induction false} ErasedUntilSignUp(users: Users, cs: seq<Call>, u: string)
    requires u in users && !users[u].Live()
    ensures u in AfterCalls(users, cs)
    ensures SignUp(u) !in cs ==> AfterCalls(users, cs)[u].deletedAt == users[u].deletedAt
    ensures AfterCalls(users, cs + [SignUp(u)])[u].Live()
  {
    hide LiveSuperAdmins, LiveAdmins, AfterCall;
    assert (cs + [SignUp(u)])[..|cs|] == cs;
    if cs != [] {
      var (front, last) := (cs[..|cs| - 1], cs[|cs| - 1]);
      assert cs == front + [last];
      ErasedUntilSignUp(users, front, u);
      ErasureOutlasts(AfterCalls(users, front), last, u);
    }
    SignedUpIsLive(AfterCalls(users, cs), u);
  }

  lemma ErasureOutlasts(users: Users, c: Call, u: string)
    requires u in users
    ensures u in AfterCall(users, c)
    ensures !users[u].Live() && c != SignUp(u) ==> AfterCall(users, c)[u].deletedAt == users[u].deletedAt
  {
    hide LiveSuperAdmins, LiveAdmins;
  }

  lemma SignedUpIsLive(users: Users, u: string)
    ensures u in AfterCall(users, SignUp(u)) && AfterCall(users, SignUp(u))[u].Live()
  {
  }

  // ---------------------------------------------------------------------------
  // The last guards
  // ---------------------------------------------------------------------------

  lemma AtLeastTwo(s: set<string>, a: string, b: string)
    requires a in s && b in s && a != b
    ensures |s| >= 2
  {
    assert {a, b} <= s;
    Smaller({a, b}, s);
  }

  lemma {:induction false} Smaller(s: set<string>, t: set<string>)
    requires s <= t
    ensures |s| <= |t|
  {
    if s != {} {
      var x :| x in s;
      Smaller(s - {x}, t - {x});
    }
  }

  lemma AtMostOne(s: set<string>, a: string)
    requires a in s
    ensures |s| <= 1 <==> s == {a}
  {
    if s != {a} {
      var b :| b in s && b != a;
      AtLeastTwo(s, a, b);
    }
  }

  /**
   The guard of the last super admin fires in exactly one situation: a super admin, the only live
   one, changes the role of an erased super admin. On a live target it never does, and in `erase` never.
   */
  lemma WhenTheLastSuperAdminIsGuarded(users: Users, r: Request)
    ensures RefusalOf(users, r) == Some(LastSuperAdmin) <==>
              && Admitted(users, r.actor) && users[r.actor].role == SuperAdmin
              && r.op.ChangeRole? && r.op.role != SuperAdmin
              && r.op.id in users && users[r.op.id].role == SuperAdmin && !users[r.op.id].Live()
              && LiveSuperAdmins(users) == {r.actor}
  {
    if Admitted(users, r.actor) && users[r.actor].role == SuperAdmin {
      AtMostOne(LiveSuperAdmins(users), r.actor);
      if r.op.id in users && users[r.op.id].role == SuperAdmin && users[r.op.id].Live() {
        assert r.op.id in LiveSuperAdmins(users);
      }
    }
  }

  /** The guard of the last admin likewise: the only live admin of either rank, and an erased plain admin. */
  lemma WhenTheLastAdminIsGuarded(users: Users, r: Request)
    ensures RefusalOf(users, r) == Some(LastAdmin) <==>
              && Admitted(users, r.actor) && users[r.actor].role == SuperAdmin
              && r.op.ChangeRole? && r.op.role == User
              && r.op.id in users && users[r.op.id].role == Admin && !users[r.op.id].Live()
              && LiveAdmins(users) == {r.actor}
  {
    if Admitted(users, r.actor) && users[r.actor].role == SuperAdmin {
      AtMostOne(LiveAdmins(users), r.actor);
      AtMostOne(LiveSuperAdmins(users), r.actor);
      assert LiveSuperAdmins(users) <= LiveAdmins(users);
      if r.op.id in users && IsAdminRole(users[r.op.id].role) && users[r.op.id].Live() {
        assert r.op.id in LiveAdmins(users);
      }
    }
  }

  /** A ban and its lifting by the same admin: the account is as it was before any ban. */
  lemma UnbanUndoesBan(users: Users, actor: string, id: string, at: int, later: int)
    requires RefusalOf(users, Request(actor, Ban(id), at)) == None
    ensures id in users
    ensures RefusalOf(After(users, Request(actor, Ban(id), at)), Request(actor, Unban(id), later)) == None
    ensures After(After(users, Request(actor, Ban(id), at)), Request(actor, Unban(id), later))
            == users[id := users[id].(bannedAt := None)]
  {
  }
}
