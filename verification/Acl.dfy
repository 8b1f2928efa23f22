/** Role-based access control with a parent per role. */
module Acl {
  import opened Common
  import opened Ledger

  type Role = nat
  type Permission = nat

  const MAX_DEPTH: nat := 10

  datatype State = State(
    roles: set<Role>,
    userRoles: map<Address, seq<Role>>,
    perms: map<Role, seq<Permission>>,
    parents: map<Role, Role>)

  const Empty: State := State({}, map[], map[], map[])

  datatype Call =
    | CreateRole(role: Role)
    | AssignRole(user: Address, role: Role)
    | AssignPermission(role: Role, permission: Permission)
    | AssignPermissions(role: Role, permissions: seq<Permission>)
    | SetParent(child: Role, parent: Role)

  function RolesOf(s: State, user: Address): seq<Role> {
    if user in s.userRoles then s.userRoles[user] else []
  }

  function PermsOf(perms: map<Role, seq<Permission>>, role: Role): seq<Permission> {
    if role in perms then perms[role] else []
  }

  function AddOnce<T(==)>(list: seq<T>, x: T): seq<T> {
    if x in list then list else list + [x]
  }

  function DoCreate(s: State, role: Role): State {
    s.(roles := s.roles + {role})
  }

  function DoAssignRole(s: State, user: Address, role: Role): State {
    DoCreate(s, role).(userRoles := s.userRoles[user := AddOnce(RolesOf(s, user), role)])
  }

  function DoAssignPermission(s: State, role: Role, permission: Permission): State {
    DoCreate(s, role).(perms := s.perms[role := AddOnce(PermsOf(s.perms, role), permission)])
  }

  /** The single form over the list, first to last. */
  function AssignEach(s: State, role: Role, permissions: seq<Permission>): State
    decreases |permissions|
  {
    if permissions == [] then s
    else DoAssignPermission(AssignEach(s, role, permissions[..|permissions| - 1]), role, permissions[|permissions| - 1])
  }

  /** The batch form makes sure of the role before its loop. */
  function DoAssignPermissions(s: State, role: Role, permissions: seq<Permission>): State {
    AssignEach(DoCreate(s, role), role, permissions)
  }

  /** A role may not be its own parent; longer cycles are not looked for. None when the call aborts. */
  function DoSetParent(s: State, child: Role, parent: Role): Option<State> {
    if child == parent then None
    else Some(DoCreate(DoCreate(s, child), parent).(parents := s.parents[child := parent]))
  }

  function Execute(s: State, c: Call): Option<State> {
    match c
    case CreateRole(role) => Some(DoCreate(s, role))
    case AssignRole(user, role) => Some(DoAssignRole(s, user, role))
    case AssignPermission(role, permission) => Some(DoAssignPermission(s, role, permission))
    case AssignPermissions(role, permissions) => Some(DoAssignPermissions(s, role, permissions))
    case SetParent(child, parent) => DoSetParent(s, child, parent)
  }

  function Step(s: State, c: Call): State {
    if Execute(s, c).Some? then Execute(s, c).value else s
  }

  function Run(s: State, calls: seq<Call>): State
    decreases |calls|
  {
    if calls == [] then s else Step(Run(s, calls[..|calls| - 1]), calls[|calls| - 1])
  }

  // ---------------------------------------------------------------- queries

  /** TooDeep is the abort after eleven roles. */
  datatype Answer = Granted | Refused | TooDeep

  function CheckRole(
    perms: map<Role, seq<Permission>>, parents: map<Role, Role>, role: Role, permission: Permission, depth: nat): Answer
    decreases MAX_DEPTH + 1 - depth
  {
    if depth > MAX_DEPTH then TooDeep
    else if permission in PermsOf(perms, role) then Granted
    else if role in parents then CheckRole(perms, parents, parents[role], permission, depth + 1)
    else Refused
  }

  /** Roles are tried in order until one does not simply refuse. */
  function CheckRoles(s: State, roles: seq<Role>, permission: Permission): Answer
    decreases |roles|
  {
    if roles == [] then Refused
    else
      var before := CheckRoles(s, roles[..|roles| - 1], permission);
      if before.Refused? then CheckRole(s.perms, s.parents, roles[|roles| - 1], permission, 0) else before
  }

  function HasPermission(s: State, user: Address, permission: Permission): Answer {
    CheckRoles(s, RolesOf(s, user), permission)
  }

  // ---------------------------------------------------------------- reachability

  /** The role k parents up, if the chain is that long. */
  function Ancestor(parents: map<Role, Role>, role: Role, k: nat): Option<Role>
    decreases k
  {
    if k == 0 then Some(role)
    else if role in parents then Ancestor(parents, parents[role], k - 1)
    else None
  }

  predicate CarriesAt(s: State, role: Role, permission: Permission, k: nat) {
    Ancestor(s.parents, role, k).Some? && permission in PermsOf(s.perms, Ancestor(s.parents, role, k).value)
  }

  /** The role or one of its ancestors carries the permission. */
  ghost predicate Reaches(s: State, role: Role, permission: Permission) {
    exists k: nat :: CarriesAt(s, role, permission, k)
  }

  ghost predicate CarriesWithin(s: State, role: Role, permission: Permission, n: nat) {
    exists k: nat :: k <= n && CarriesAt(s, role, permission, k)
  }

  /** The chain from the role up has at most n roles. */
  predicate ChainAtMost(s: State, role: Role, n: nat) {
    Ancestor(s.parents, role, n).None?
  }

  lemma {:induction false} ChainsEnd(parents: map<Role, Role>, role: Role, n: nat, k: nat)
    requires Ancestor(parents, role, n).None? && n <= k
    ensures Ancestor(parents, role, k).None?
    decreases n
  {
    if n > 0 && role in parents {
      ChainsEnd(parents, parents[role], n - 1, k - 1);
    }
  }

  lemma CarriesUp(s: State, role: Role, permission: Permission, n: nat)
    requires role in s.parents && n > 0
    ensures CarriesWithin(s, role, permission, n)
       <==> CarriesAt(s, role, permission, 0) || CarriesWithin(s, s.parents[role], permission, n - 1)
  {
    hide PermsOf;
    if CarriesWithin(s, role, permission, n) && !CarriesAt(s, role, permission, 0) {
      var k: nat :| k <= n && CarriesAt(s, role, permission, k);
      assert CarriesAt(s, s.parents[role], permission, k - 1);
    }
    if CarriesWithin(s, s.parents[role], permission, n - 1) {
      var k: nat :| k <= n - 1 && CarriesAt(s, s.parents[role], permission, k);
      assert CarriesAt(s, role, permission, k + 1);
    }
  }

  lemma CarriesHere(s: State, role: Role, permission: Permission, n: nat)
    requires role !in s.parents || n == 0
    ensures CarriesWithin(s, role, permission, n) <==> permission in PermsOf(s.perms, role)
  {
    if permission in PermsOf(s.perms, role) {
      assert CarriesAt(s, role, permission, 0);
    }
  }

  /** The walk answers for every parent map, cycles included: granted when the permission is found
      among the first eleven roles, too deep when it is not and a twelfth role follows. */
  lemma {:induction false} CheckRoleIsExact(s: State, role: Role, permission: Permission, depth: nat)
    requires depth <= MAX_DEPTH
    ensures var answer := CheckRole(s.perms, s.parents, role, permission, depth);
      && (answer.Granted? <==> CarriesWithin(s, role, permission, MAX_DEPTH - depth))
      && (answer.TooDeep? <==> !CarriesWithin(s, role, permission, MAX_DEPTH - depth)
                               && !ChainAtMost(s, role, MAX_DEPTH + 1 - depth))
    decreases MAX_DEPTH + 1 - depth
  {
    hide CarriesWithin, PermsOf;
    if role in s.parents {
      if depth == MAX_DEPTH {
        CarriesHere(s, role, permission, 0);
        assert Ancestor(s.parents, s.parents[role], 0).Some?;
      } else {
        CheckRoleIsExact(s, s.parents[role], permission, depth + 1);
        CarriesUp(s, role, permission, MAX_DEPTH - depth);
      }
    } else {
      CarriesHere(s, role, permission, MAX_DEPTH - depth);
    }
  }

  /** An answer that is not an abort is reachability, whatever the parent map. */
  lemma CheckRoleIsReachability(s: State, role: Role, permission: Permission)
    requires !CheckRole(s.perms, s.parents, role, permission, 0).TooDeep?
    ensures CheckRole(s.perms, s.parents, role, permission, 0).Granted? <==> Reaches(s, role, permission)
  {
    hide CheckRole, PermsOf;
    CheckRoleIsExact(s, role, permission, 0);
    if Reaches(s, role, permission) {
      var k: nat :| CarriesAt(s, role, permission, k);
      if !CarriesWithin(s, role, permission, MAX_DEPTH) {
        ChainsEnd(s.parents, role, MAX_DEPTH + 1, k);
        assert false;
      }
    }
  }

  predicate AllRefuse(s: State, roles: seq<Role>, permission: Permission, n: nat)
    requires n <= |roles|
  {
    forall i :: 0 <= i < n ==> CheckRole(s.perms, s.parents, roles[i], permission, 0).Refused?
  }

  /** Role i is the first that does not refuse. */
  predicate Decides(s: State, roles: seq<Role>, permission: Permission, i: int) {
    && 0 <= i < |roles|
    && AllRefuse(s, roles, permission, i)
    && !CheckRole(s.perms, s.parents, roles[i], permission, 0).Refused?
  }

  /** The scan gives the answer of the first role that does not refuse. */
  lemma {:induction false} FirstThatDecides(s: State, roles: seq<Role>, permission: Permission)
    ensures CheckRoles(s, roles, permission).Refused? <==> AllRefuse(s, roles, permission, |roles|)
    ensures !CheckRoles(s, roles, permission).Refused? <==> exists i :: Decides(s, roles, permission, i)
    ensures forall i :: Decides(s, roles, permission, i) ==>
      CheckRoles(s, roles, permission) == CheckRole(s.perms, s.parents, roles[i], permission, 0)
    decreases |roles|
  {
    hide CheckRole, AllRefuse;
    if roles == [] {
      NobodyDecides(s, permission);
    } else {
      var n := |roles| - 1;
      FirstThatDecides(s, roles[..n], permission);
      AllRefuseLast(s, roles, permission);
      forall i: int
        ensures Decides(s, roles, permission, i)
          <==> (Decides(s, roles[..n], permission, i) || (i == n && Decides(s, roles, permission, n)))
        ensures Decides(s, roles, permission, i) && i < n ==> roles[i] == roles[..n][i]
      {
        DecidesFront(s, roles, permission, i);
      }
      if CheckRoles(s, roles[..n], permission).Refused? {
        LastDecides(s, roles, roles[..n], permission);
      } else {
        var i :| Decides(s, roles[..n], permission, i);
        assert Decides(s, roles, permission, i);
        forall j | Decides(s, roles, permission, j)
          ensures CheckRoles(s, roles, permission) == CheckRole(s.perms, s.parents, roles[j], permission, 0)
        {
          DecidesOnce(s, roles, permission, i, j);
        }
      }
    }
  }

  lemma NobodyDecides(s: State, permission: Permission)
    ensures AllRefuse(s, [], permission, 0)
    ensures forall i :: !Decides(s, [], permission, i)
  {
  }

  lemma DecidesOnce(s: State, roles: seq<Role>, permission: Permission, i: int, j: int)
    requires Decides(s, roles, permission, i) && Decides(s, roles, permission, j)
    ensures i == j
  {
    hide CheckRole;
  }

  lemma AllRefuseLast(s: State, roles: seq<Role>, permission: Permission)
    requires roles != []
    ensures AllRefuse(s, roles, permission, |roles|) <==>
      AllRefuse(s, roles[..|roles| - 1], permission, |roles| - 1)
      && CheckRole(s.perms, s.parents, roles[|roles| - 1], permission, 0).Refused?
  {
    hide CheckRole;
    assert forall i :: 0 <= i < |roles| - 1 ==> roles[i] == roles[..|roles| - 1][i];
  }

  lemma DecidesFront(s: State, roles: seq<Role>, permission: Permission, i: int)
    requires roles != []
    ensures var n := |roles| - 1;
      && (Decides(s, roles, permission, i)
          <==> (Decides(s, roles[..n], permission, i) || (i == n && Decides(s, roles, permission, n))))
      && (Decides(s, roles, permission, i) && i < n ==> roles[i] == roles[..n][i])
  {
    hide CheckRole;
    var n := |roles| - 1;
    assert forall j :: 0 <= j < n ==> roles[j] == roles[..n][j];
  }

  lemma LastDecides(s: State, roles: seq<Role>, front: seq<Role>, permission: Permission)
    requires roles != [] && front == roles[..|roles| - 1] && AllRefuse(s, roles[..|roles| - 1], permission, |roles| - 1)
    ensures Decides(s, roles, permission, |roles| - 1)
       <==> !CheckRole(s.perms, s.parents, roles[|roles| - 1], permission, 0).Refused?
    ensures forall i :: !Decides(s, front, permission, i)
  {
    hide CheckRole;
    assert forall i :: 0 <= i < |roles| - 1 ==> roles[i] == roles[..|roles| - 1][i];
  }

  ghost predicate ReachesFromAny(s: State, roles: seq<Role>, permission: Permission) {
    exists i :: 0 <= i < |roles| && Reaches(s, roles[i], permission)
  }

  /** The query refines reachability: whenever it answers at all it says whether one of the user's
      roles, or an ancestor of one, carries the permission; and with chains of at most eleven roles it
      always answers. */
  lemma HasPermissionIsReachability(s: State, user: Address, permission: Permission)
    ensures HasPermission(s, user, permission).Granted? ==> ReachesFromAny(s, RolesOf(s, user), permission)
    ensures HasPermission(s, user, permission).Refused? ==> !ReachesFromAny(s, RolesOf(s, user), permission)
    ensures (forall role <- RolesOf(s, user) :: ChainAtMost(s, role, MAX_DEPTH + 1))
      ==> !HasPermission(s, user, permission).TooDeep?
  {
    hide CheckRole, CheckRoles, Reaches, ChainAtMost, CarriesWithin;
    var roles := RolesOf(s, user);
    FirstThatDecides(s, roles, permission);
    if HasPermission(s, user, permission).Refused? {
      forall i | 0 <= i < |roles|
        ensures !Reaches(s, roles[i], permission)
      {
        CheckRoleIsReachability(s, roles[i], permission);
      }
    } else {
      var i :| Decides(s, roles, permission, i);
      assert roles[i] in roles;
      CheckRoleIsExact(s, roles[i], permission, 0);
      if HasPermission(s, user, permission).Granted? {
        CheckRoleIsReachability(s, roles[i], permission);
      }
    }
  }

  // ---------------------------------------------------------------- what calls keep

  /** More roles and permissions over the same parents. */
  ghost predicate Grows(a: State, b: State) {
    && b.parents == a.parents
    && (forall role: Role, p: Permission :: p in PermsOf(a.perms, role) ==> p in PermsOf(b.perms, role))
    && (forall user: Address :: RolesOf(a, user) <= RolesOf(b, user))
  }

  lemma {:induction false} CheckRoleGrows(a: State, b: State, role: Role, permission: Permission, depth: nat)
    requires Grows(a, b)
    ensures CheckRole(a.perms, a.parents, role, permission, depth).Granted? ==>
      CheckRole(b.perms, b.parents, role, permission, depth).Granted?
    ensures CheckRole(a.perms, a.parents, role, permission, depth).Refused? ==>
      !CheckRole(b.perms, b.parents, role, permission, depth).TooDeep?
    decreases MAX_DEPTH + 1 - depth
  {
    if depth <= MAX_DEPTH && role in a.parents {
      CheckRoleGrows(a, b, a.parents[role], permission, depth + 1);
    }
  }

  lemma {:induction false} CheckRolesGrow(a: State, b: State, roles: seq<Role>, permission: Permission)
    requires Grows(a, b)
    ensures CheckRoles(a, roles, permission).Granted? ==> CheckRoles(b, roles, permission).Granted?
    ensures CheckRoles(a, roles, permission).Refused? ==> !CheckRoles(b, roles, permission).TooDeep?
    decreases |roles|
  {
    hide CheckRole, Grows;
    if roles != [] {
      CheckRolesGrow(a, b, roles[..|roles| - 1], permission);
      CheckRoleGrows(a, b, roles[|roles| - 1], permission, 0);
    }
  }

  lemma {:induction false} MoreRolesKeepGranted(s: State, roles: seq<Role>, more: seq<Role>, permission: Permission)
    requires roles <= more && CheckRoles(s, roles, permission).Granted?
    ensures CheckRoles(s, more, permission).Granted?
    decreases |more|
  {
    hide CheckRole;
    if |roles| == |more| {
      assert roles == more;
    } else {
      assert roles <= more[..|more| - 1];
      MoreRolesKeepGranted(s, roles, more[..|more| - 1], permission);
    }
  }

  lemma GrowthKeepsGranted(a: State, b: State, user: Address, permission: Permission)
    requires Grows(a, b) && HasPermission(a, user, permission).Granted?
    ensures HasPermission(b, user, permission).Granted?
  {
    hide CheckRoles, CheckRole;
    CheckRolesGrow(a, b, RolesOf(a, user), permission);
    assert RolesOf(a, user) <= RolesOf(b, user);
    MoreRolesKeepGranted(b, RolesOf(a, user), RolesOf(b, user), permission);
  }

  lemma AssignPermissionGrows(s: State, role: Role, permission: Permission)
    ensures Grows(s, DoAssignPermission(s, role, permission))
  {
  }

  lemma GrowsTwice(a: State, b: State, c: State)
    requires Grows(a, b) && Grows(b, c)
    ensures Grows(a, c)
  {
    hide RolesOf, PermsOf;
    forall user: Address
      ensures RolesOf(a, user) <= RolesOf(c, user)
    {
      assert RolesOf(a, user) <= RolesOf(b, user) <= RolesOf(c, user);
    }
  }

  lemma {:induction false} AssignEachGrows(s: State, role: Role, permissions: seq<Permission>)
    ensures Grows(s, AssignEach(s, role, permissions))
    decreases |permissions|
  {
    hide DoAssignPermission;
    if permissions == [] {
    } else {
      var m := AssignEach(s, role, permissions[..|permissions| - 1]);
      AssignEachGrows(s, role, permissions[..|permissions| - 1]);
      AssignPermissionGrows(m, role, permissions[|permissions| - 1]);
      GrowsTwice(s, m, AssignEach(s, role, permissions));
    }
  }

  lemma StepGrows(s: State, c: Call)
    requires !c.SetParent?
    ensures Grows(s, Step(s, c))
  {
    match c {
      case CreateRole(_) =>
      case AssignRole(_, _) =>
      case AssignPermission(role, permission) => AssignPermissionGrows(s, role, permission);
      case AssignPermissions(role, permissions) => AssignEachGrows(DoCreate(s, role), role, permissions);
    }
  }

  /** Over any run of calls that leave the parents alone a granted permission stays granted. */
  lemma {:induction false} RunKeepsGranted(s: State, calls: seq<Call>, user: Address, permission: Permission)
    requires forall i :: 0 <= i < |calls| ==> !calls[i].SetParent?
    requires HasPermission(s, user, permission).Granted?
    ensures HasPermission(Run(s, calls), user, permission).Granted?
    decreases |calls|
  {
    hide Step, HasPermission, Grows;
    if calls != [] {
      var m := Run(s, calls[..|calls| - 1]);
      RunKeepsGranted(s, calls[..|calls| - 1], user, permission);
      StepGrows(m, calls[|calls| - 1]);
      GrowthKeepsGranted(m, Step(m, calls[|calls| - 1]), user, permission);
    }
  }

  /** The batch form is the single form applied in turn; only for an empty list does it do more, and
      then it just makes sure of the role. */
  lemma {:induction false} BatchIsEach(s: State, role: Role, permissions: seq<Permission>)
    requires permissions != []
    ensures DoAssignPermissions(s, role, permissions) == AssignEach(s, role, permissions)
    decreases |permissions|
  {
    if |permissions| == 1 {
      assert permissions[..0] == [];
      assert s.roles + {role} + {role} == s.roles + {role};
      assert DoAssignPermission(DoCreate(s, role), role, permissions[0]) == DoAssignPermission(s, role, permissions[0]);
      assert AssignEach(s, role, permissions[..0]) == s;
      assert AssignEach(DoCreate(s, role), role, permissions[..0]) == DoCreate(s, role);
    } else {
      BatchIsEach(s, role, permissions[..|permissions| - 1]);
    }
  }

  /** What a batch leaves: the role's permissions and the list, nothing else touched. */
  lemma {:induction false} BatchAssigns(s: State, role: Role, permissions: seq<Permission>)
    ensures var after := DoAssignPermissions(s, role, permissions);
      && after == s.(roles := s.roles + {role}, perms := after.perms)
      && (forall p: Permission :: p in PermsOf(after.perms, role) <==> p in PermsOf(s.perms, role) || p in permissions)
      && (forall other: Role :: other != role ==> PermsOf(after.perms, other) == PermsOf(s.perms, other))
    decreases |permissions|
  {
    if permissions != [] {
      BatchAssigns(s, role, permissions[..|permissions| - 1]);
      assert permissions == permissions[..|permissions| - 1] + [permissions[|permissions| - 1]];
    }
  }

  /** An assignment adds the role to the user's list, at its end and once, and changes no other list. */
  lemma AssignRoleEffect(s: State, user: Address, role: Role)
    ensures var after := DoAssignRole(s, user, role);
      && RolesOf(s, user) <= RolesOf(after, user)
      && (forall r: Role :: r in RolesOf(after, user) <==> r in RolesOf(s, user) || r == role)
      && (forall other: Address :: other != user ==> RolesOf(after, other) == RolesOf(s, other))
      && after.perms == s.perms && after.parents == s.parents && after.roles == s.roles + {role}
  {
  }

  lemma SameRolesSameReach(a: State, b: State, role: Role, permission: Permission)
    requires b.perms == a.perms && b.parents == a.parents && Reaches(a, role, permission)
    ensures Reaches(b, role, permission)
  {
    var k: nat :| CarriesAt(a, role, permission, k);
    assert CarriesAt(b, role, permission, k);
  }

  lemma SameParentsSameChain(a: State, b: State, role: Role)
    requires a.parents == b.parents
    ensures ChainAtMost(a, role, MAX_DEPTH + 1) <==> ChainAtMost(b, role, MAX_DEPTH + 1)
  {
  }

  /** A role with a chain of at most eleven roles gives its holder all it reaches. */
  lemma AssignedRoleIsGranted(s: State, user: Address, role: Role, permission: Permission)
    requires Reaches(s, role, permission)
    requires forall r <- RolesOf(s, user) + [role] :: ChainAtMost(s, r, MAX_DEPTH + 1)
    ensures HasPermission(DoAssignRole(s, user, role), user, permission).Granted?
  {
    hide Reaches, ChainAtMost, HasPermission;
    var after := DoAssignRole(s, user, role);
    AssignRoleEffect(s, user, role);
    SameRolesSameReach(s, after, role, permission);
    var i :| 0 <= i < |RolesOf(after, user)| && RolesOf(after, user)[i] == role;
    assert ReachesFromAny(after, RolesOf(after, user), permission);
    forall r <- RolesOf(after, user)
      ensures ChainAtMost(after, r, MAX_DEPTH + 1)
    {
      assert r in RolesOf(s, user) + [role];
      SameParentsSameChain(s, after, r);
    }
    HasPermissionIsReachability(after, user, permission);
  }

  /** Every role named anywhere exists, no list repeats an entry, no role is its own parent. */
  ghost predicate Tidy(s: State) {
    && (forall user <- s.userRoles :: Distinct(s.userRoles[user]))
    && (forall user <- s.userRoles :: forall role <- s.userRoles[user] :: role in s.roles)
    && (forall role <- s.perms :: role in s.roles && Distinct(s.perms[role]))
    && (forall role <- s.parents :: role in s.roles && s.parents[role] in s.roles && s.parents[role] != role)
  }

  lemma AssignPermissionKeepsTidy(s: State, role: Role, permission: Permission)
    requires Tidy(s)
    ensures Tidy(DoAssignPermission(s, role, permission))
  {
  }

  lemma {:induction false} AssignEachKeepsTidy(s: State, role: Role, permissions: seq<Permission>)
    requires Tidy(s)
    ensures Tidy(AssignEach(s, role, permissions))
    decreases |permissions|
  {
    hide Tidy, DoAssignPermission;
    if permissions != [] {
      AssignEachKeepsTidy(s, role, permissions[..|permissions| - 1]);
      AssignPermissionKeepsTidy(AssignEach(s, role, permissions[..|permissions| - 1]), role, permissions[|permissions| - 1]);
    }
  }

  lemma StepKeepsTidy(s: State, c: Call)
    requires Tidy(s)
    ensures Tidy(Step(s, c))
  {
    match c {
      case CreateRole(_) =>
      case AssignRole(user, role) => assert Distinct(AddOnce(RolesOf(s, user), role));
      case AssignPermission(role, permission) => AssignPermissionKeepsTidy(s, role, permission);
      case AssignPermissions(role, permissions) => AssignEachKeepsTidy(DoCreate(s, role), role, permissions);
      case SetParent(_, _) =>
    }
  }

  lemma {:induction false} RunKeepsTidy(calls: seq<Call>)
    ensures Tidy(Run(Empty, calls))
    decreases |calls|
  {
    assert Tidy(Empty);
    hide Step, Tidy;
    if calls == [] {
    } else {
      RunKeepsTidy(calls[..|calls| - 1]);
      StepKeepsTidy(Run(Empty, calls[..|calls| - 1]), calls[|calls| - 1]);
    }
  }

  /** A question that none of the user's roles grants aborts exactly when some role of the user starts a chain
      of more than eleven roles, and is refused otherwise. */
  lemma UngrantedAbortsIff(s: State, user: Address, permission: Permission)
    requires !ReachesFromAny(s, RolesOf(s, user), permission)
    ensures HasPermission(s, user, permission).TooDeep?
       <==> exists role <- RolesOf(s, user) :: !ChainAtMost(s, role, MAX_DEPTH + 1)
    ensures !HasPermission(s, user, permission).Granted?
  {
    hide CheckRole, CheckRoles, Reaches, ChainAtMost;
    var roles := RolesOf(s, user);
    FirstThatDecides(s, roles, permission);
    HasPermissionIsReachability(s, user, permission);
    forall i | 0 <= i < |roles|
      ensures CheckRole(s.perms, s.parents, roles[i], permission, 0).TooDeep? <==> !ChainAtMost(s, roles[i], MAX_DEPTH + 1)
    {
      UngrantedWalk(s, roles[i], permission);
    }
    if role :| role in roles && !ChainAtMost(s, role, MAX_DEPTH + 1) {
      var i :| 0 <= i < |roles| && roles[i] == role;
      assert !AllRefuse(s, roles, permission, |roles|);
    }
  }

  lemma UngrantedWalk(s: State, role: Role, permission: Permission)
    requires !Reaches(s, role, permission)
    ensures CheckRole(s.perms, s.parents, role, permission, 0).TooDeep? <==> !ChainAtMost(s, role, MAX_DEPTH + 1)
  {
    hide CheckRole, ChainAtMost, CarriesAt;
    CheckRoleIsExact(s, role, permission, 0);
  }

  /** The chain from the role up comes back to a role it has passed. */
  predicate Circles(s: State, role: Role, i: nat, j: nat) {
    i < j && Ancestor(s.parents, role, i).Some? && Ancestor(s.parents, role, j) == Ancestor(s.parents, role, i)
  }

  lemma {:induction false} AncestorAdds(parents: map<Role, Role>, role: Role, a: nat, b: nat)
    requires Ancestor(parents, role, a).Some?
    ensures Ancestor(parents, role, a + b) == Ancestor(parents, Ancestor(parents, role, a).value, b)
    decreases a
  {
    if a > 0 {
      AncestorAdds(parents, parents[role], a - 1, b);
    }
  }

  /** A chain that comes back never ends. */
  lemma {:induction false} CycleNeverEnds(s: State, role: Role, i: nat, j: nat, k: nat)
    requires Circles(s, role, i, j)
    ensures Ancestor(s.parents, role, k).Some?
    decreases k
  {
    if k > j {
      CycleNeverEnds(s, role, i, j, k - (j - i));
      AncestorAdds(s.parents, role, i, k - j);
      AncestorAdds(s.parents, role, j, k - j);
    } else if Ancestor(s.parents, role, k).None? {
      ChainsEnd(s.parents, role, k, j);
    }
  }

  /** Whatever the parents are: when the chain of some role of the user runs into a cycle, every question that
      the user's roles do not grant aborts. */
  lemma CyclesAbort(s: State, user: Address, permission: Permission, role: Role, i: nat, j: nat)
    requires role in RolesOf(s, user) && Circles(s, role, i, j)
    requires !ReachesFromAny(s, RolesOf(s, user), permission)
    ensures HasPermission(s, user, permission).TooDeep?
  {
    hide HasPermission, ReachesFromAny;
    UngrantedAbortsIff(s, user, permission);
    CycleNeverEnds(s, role, i, j, MAX_DEPTH + 1);
  }

  /** A cycle of two is accepted in every state. */
  lemma CyclesAreAccepted(s: State, a: Role, b: Role)
    requires a != b
    ensures Execute(s, SetParent(a, b)).Some? && Execute(Step(s, SetParent(a, b)), SetParent(b, a)).Some?
    ensures Circles(Step(Step(s, SetParent(a, b)), SetParent(b, a)), a, 0, 2)
  {
    var t := Step(Step(s, SetParent(a, b)), SetParent(b, a));
    assert Ancestor(t.parents, b, 1) == Ancestor(t.parents, a, 0);
  }

  /** A new parent can take a granted permission away. */
  lemma ReparentingTakesAway(user: Address, child: Role, parent: Role, other: Role, permission: Permission)
    requires child != parent && child != other && parent != other
    ensures var s := State({child, parent}, map[user := [child]], map[parent := [permission]], map[child := parent]);
      && HasPermission(s, user, permission).Granted?
      && HasPermission(Step(s, SetParent(child, other)), user, permission).Refused?
  {
    var s := State({child, parent}, map[user := [child]], map[parent := [permission]], map[child := parent]);
    assert CheckRole(s.perms, s.parents, parent, permission, 1).Granted?;
    assert CheckRole(s.perms, s.parents, child, permission, 0).Granted?;
    var t := Step(s, SetParent(child, other));
    assert CheckRole(t.perms, t.parents, other, permission, 1).Refused?;
    assert CheckRole(t.perms, t.parents, child, permission, 0).Refused?;
    OneRole(s, child, permission);
    OneRole(t, child, permission);
  }

  lemma OneRole(s: State, role: Role, permission: Permission)
    ensures CheckRoles(s, [role], permission) == CheckRole(s.perms, s.parents, role, permission, 0)
  {
    hide CheckRole;
    assert [role][..0] == [];
    assert CheckRoles(s, [role][..0], permission) == Refused;
  }

  /** The tables in storage. */
  class Store {
    var roles: set<Role>
    var userRoles: map<Address, seq<Role>>
    var perms: map<Role, seq<Permission>>
    var parents: map<Role, Role>

    ghost function Stored(): State
      reads this
    {
      State(roles, userRoles, perms, parents)
    }

    constructor ()
      ensures Stored() == Empty
    {
      roles, userRoles, perms, parents := {}, map[], map[], map[];
    }

    method CreateRole(role: Role)
      modifies this`roles
      ensures Stored() == Step(old(Stored()), Call.CreateRole(role))
    {
      roles := roles + {role};
    }

    method AssignRole(user: Address, role: Role)
      modifies this`roles, this`userRoles
      ensures Stored() == Step(old(Stored()), Call.AssignRole(user, role))
    {
      if role !in roles {
        CreateRole(role);
      }
      var held := if user in userRoles then userRoles[user] else [];
      if role !in held {
        held := held + [role];
      }
      userRoles := userRoles[user := held];
      assert old(roles) + {role} == roles;
    }

    method AssignPermission(role: Role, permission: Permission)
      modifies this`roles, this`perms
      ensures Stored() == DoAssignPermission(old(Stored()), role, permission)
    {
      if role !in roles {
        CreateRole(role);
      }
      var held := if role in perms then perms[role] else [];
      if permission !in held {
        held := held + [permission];
      }
      perms := perms[role := held];
      assert old(roles) + {role} == roles;
    }

    method AssignPermissionsBatch(role: Role, permissions: seq<Permission>)
      modifies this`roles, this`perms
      ensures Stored() == Step(old(Stored()), Call.AssignPermissions(role, permissions))
    {
      hide DoAssignPermission;
      if role !in roles {
        CreateRole(role);
      }
      assert old(roles) + {role} == roles;
      var i := 0;
      while i < |permissions|
        invariant 0 <= i <= |permissions|
        invariant Stored() == AssignEach(DoCreate(old(Stored()), role), role, permissions[..i])
      {
        AssignPermission(role, permissions[i]);
        assert permissions[..i + 1][..i] == permissions[..i];
        i := i + 1;
      }
      assert permissions[..|permissions|] == permissions;
    }

    method SetParentRole(child: Role, parent: Role) returns (ok: bool)
      modifies this`roles, this`parents
      ensures ok == Execute(old(Stored()), Call.SetParent(child, parent)).Some?
      ensures Stored() == Step(old(Stored()), Call.SetParent(child, parent))
    {
      if child == parent {
        return false;
      }
      if child !in roles {
        CreateRole(child);
      }
      if parent !in roles {
        CreateRole(parent);
      }
      assert old(roles) + {child} + {parent} == roles;
      parents := parents[child := parent];
      ok := true;
    }

    method Permits(user: Address, permission: Permission) returns (answer: Answer)
      ensures answer == HasPermission(Stored(), user, permission)
    {
      hide CheckRole;
      var held := if user in userRoles then userRoles[user] else [];
      var i := 0;
      while i < |held|
        invariant 0 <= i <= |held|
        invariant CheckRoles(Stored(), held[..i], permission).Refused?
      {
        answer := WalkUp(held[i], permission, 0);
        assert held[..i + 1][..i] == held[..i];
        if !answer.Refused? {
          Decided(Stored(), held, permission, i + 1);
          return;
        }
        i := i + 1;
      }
      assert held[..|held|] == held;
      answer := Refused;
    }

    method WalkUp(role: Role, permission: Permission, depth: nat) returns (answer: Answer)
      ensures answer == CheckRole(perms, parents, role, permission, depth)
      decreases MAX_DEPTH + 1 - depth
    {
      if depth > MAX_DEPTH {
        return TooDeep;
      }
      var held := if role in perms then perms[role] else [];
      var i := 0;
      while i < |held|
        invariant 0 <= i <= |held| && permission !in held[..i]
      {
        if held[i] == permission {
          return Granted;
        }
        i := i + 1;
      }
      assert held[..|held|] == held;
      if role in parents {
        answer := WalkUp(parents[role], permission, depth + 1);
      } else {
        answer := Refused;
      }
    }
  }

  /** Once a prefix of the roles decides, the rest are not asked. */
  lemma {:induction false} Decided(s: State, roles: seq<Role>, permission: Permission, k: nat)
    requires k <= |roles| && !CheckRoles(s, roles[..k], permission).Refused?
    ensures CheckRoles(s, roles, permission) == CheckRoles(s, roles[..k], permission)
    decreases |roles|
  {
    hide CheckRole;
    if k == |roles| {
      assert roles[..k] == roles;
    } else {
      assert roles[..|roles| - 1][..k] == roles[..k];
      Decided(s, roles[..|roles| - 1], permission, k);
    }
  }
}
