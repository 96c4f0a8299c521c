/** Role-based access decisions over the role, permission and assignment relations. */
module AccessControl {
  import opened Basics

  const DEFAULT_TENANT := "default"
  const WILDCARD := "*"

  datatype Assignment = Assignment(user: string, role: string, tenant: string)

  datatype Grant = Grant(role: string, permission: string)

  /** `permissions` maps permission IDs to their keys. */
  datatype State = State(
    roles: set<string>, permissions: map<string, string>,
    grants: set<Grant>, assignments: set<Assignment>)

  datatype Op =
    | GrantOp(role: string, permission: string)
    | AssignOp(user: string, role: string, tenant: string)
    | RemoveOp(user: string, role: string, tenant: string)

  /** The service fills in the tenant of an assignment and of a check. */
  function Tenant(t: string): string {
    if t == "" then DEFAULT_TENANT else t
  }

  /** Foreign keys: a row must refer to an existing role and permission. */
  predicate Accepted(s: State, op: Op) {
    match op
    case GrantOp(r, p) => r in s.roles && p in s.permissions
    case AssignOp(_, r, _) => r in s.roles
    case RemoveOp(_, _, _) => true
  }

  /** Rows that refer to a missing role or permission are refused; existing rows are left as they are. */
  function Apply(s: State, op: Op): State {
    match op
    case GrantOp(r, p) =>
      if Accepted(s, op) then s.(grants := s.grants + {Grant(r, p)}) else s
    case AssignOp(u, r, t) =>
      if Accepted(s, op) then s.(assignments := s.assignments + {Assignment(u, r, Tenant(t))}) else s
    case RemoveOp(u, r, t) => s.(assignments := s.assignments - {Assignment(u, r, t)})
  }

  function Run(s: State, ops: seq<Op>): State {
    if ops == [] then s else Apply(Run(s, ops[..|ops| - 1]), ops[|ops| - 1])
  }

  /** select distinct p.key from the join of assignments, grants and permissions */
  function Keys(s: State, user: string, tenant: string): set<string> {
    set a, g | a in s.assignments && g in s.grants && a.user == user && a.tenant == tenant && g.role == a.role
               && g.permission in s.permissions :: s.permissions[g.permission]
  }

  /** The meaning of a decision: some role held in the tenant grants the key or the wildcard. */
  ghost predicate MayDo(s: State, user: string, tenant: string, key: string) {
    exists r, p :: Assignment(user, r, Tenant(tenant)) in s.assignments && Grant(r, p) in s.grants
                   && p in s.permissions && (s.permissions[p] == key || s.permissions[p] == "*")
  }

  // ----- decisions from the history -----

  /** The history leaves the assignment in place: it was there, or some operation made it, and no removal
      came after. */
  ghost predicate Standing(s: State, ops: seq<Op>, a: Assignment) {
    || (a in s.assignments && forall i :: 0 <= i < |ops| ==> !Removes(ops[i], a))
    || (exists i :: MadeAt(s, ops, i, a) && forall j :: i < j < |ops| ==> !Removes(ops[j], a))
  }

  predicate Removes(op: Op, a: Assignment) {
    op.RemoveOp? && Assignment(op.user, op.role, op.tenant) == a
  }

  predicate Makes(s: State, op: Op, a: Assignment) {
    op.AssignOp? && op.role in s.roles && Assignment(op.user, op.role, Tenant(op.tenant)) == a
  }

  predicate MadeAt(s: State, ops: seq<Op>, i: int, a: Assignment) {
    0 <= i < |ops| && Makes(s, ops[i], a)
  }

  predicate Grants(s: State, op: Op, g: Grant) {
    op.GrantOp? && op.role in s.roles && op.permission in s.permissions && Grant(op.role, op.permission) == g
  }

  ghost predicate GrantedBy(s: State, ops: seq<Op>, g: Grant) {
    g in s.grants || exists i :: 0 <= i < |ops| && Grants(s, ops[i], g)
  }

  lemma {:induction false} SchemaFixed(s: State, ops: seq<Op>)
    ensures Run(s, ops).roles == s.roles && Run(s, ops).permissions == s.permissions
  {
    if ops != [] {
      SchemaFixed(s, ops[..|ops| - 1]);
    }
  }

  lemma StandingExtends(s: State, ops: seq<Op>, op: Op, a: Assignment)
    ensures Standing(s, ops + [op], a) <==> Makes(s, op, a) || (Standing(s, ops, a) && !Removes(op, a))
  {
    var all := ops + [op];
    if Makes(s, op, a) {
      assert MadeAt(s, all, |ops|, a);
    } else if Standing(s, ops, a) && !Removes(op, a) {
      if i :| MadeAt(s, ops, i, a) && forall j :: i < j < |ops| ==> !Removes(ops[j], a) {
        assert MadeAt(s, all, i, a);
      }
    }
    if Standing(s, all, a) && !Makes(s, op, a) {
      assert all[|ops|] == op;
      if i :| MadeAt(s, all, i, a) && forall j :: i < j < |all| ==> !Removes(all[j], a) {
        assert MadeAt(s, ops, i, a);
        assert forall j :: i < j < |ops| ==> !Removes(all[j], a) && all[j] == ops[j];
      } else {
        assert forall i :: 0 <= i < |ops| ==> !Removes(all[i], a) && all[i] == ops[i];
      }
    }
  }

  lemma {:induction false} AssignmentsFromHistory(s: State, ops: seq<Op>, a: Assignment)
    ensures a in Run(s, ops).assignments <==> Standing(s, ops, a)
  {
    if ops != [] {
      var init, last := ops[..|ops| - 1], ops[|ops| - 1];
      assert ops == init + [last];
      AssignmentsFromHistory(s, init, a);
      SchemaFixed(s, init);
      StandingExtends(s, init, last, a);
    }
  }

  lemma {:induction false} GrantsFromHistory(s: State, ops: seq<Op>, g: Grant)
    ensures g in Run(s, ops).grants <==> GrantedBy(s, ops, g)
  {
    if ops != [] {
      var init, last := ops[..|ops| - 1], ops[|ops| - 1];
      GrantsFromHistory(s, init, g);
      SchemaFixed(s, init);
      assert forall i :: 0 <= i < |init| ==> init[i] == ops[i];
      if GrantedBy(s, ops, g) && g !in s.grants {
        var i :| 0 <= i < |ops| && Grants(s, ops[i], g);
        assert i < |init| ==> Grants(s, init[i], g);
      }
    }
  }

  /** After any operations, a check allows iff the history has some role standing for the user in the tenant
      and granting the key or the wildcard. */
  lemma DecisionFromHistory(s: State, ops: seq<Op>, user: string, tenant: string, key: string)
    ensures MayDo(Run(s, ops), user, tenant, key) <==>
            exists r, p :: Standing(s, ops, Assignment(user, r, Tenant(tenant))) && GrantedBy(s, ops, Grant(r, p))
                           && p in s.permissions && (s.permissions[p] == key || s.permissions[p] == WILDCARD)
  {
    SchemaFixed(s, ops);
    forall a ensures a in Run(s, ops).assignments <==> Standing(s, ops, a) {
      AssignmentsFromHistory(s, ops, a);
    }
    forall g ensures g in Run(s, ops).grants <==> GrantedBy(s, ops, g) {
      GrantsFromHistory(s, ops, g);
    }
  }

  /** Without removals only the set of operations matters: any reordering or repetition gives the same state. */
  lemma OrderIrrelevant(s: State, ops: seq<Op>, ops': seq<Op>)
    requires (forall op <- ops :: !op.RemoveOp?) && (forall op :: op in ops <==> op in ops')
    ensures Run(s, ops) == Run(s, ops')
  {
    var x, y := Run(s, ops), Run(s, ops');
    SchemaFixed(s, ops);
    SchemaFixed(s, ops');
    forall a ensures a in x.assignments <==> a in y.assignments {
      AssignmentsFromHistory(s, ops, a);
      AssignmentsFromHistory(s, ops', a);
      SameStanding(s, ops, ops', a);
      SameStanding(s, ops', ops, a);
    }
    forall g ensures g in x.grants <==> g in y.grants {
      GrantsFromHistory(s, ops, g);
      GrantsFromHistory(s, ops', g);
      SameGranted(s, ops, ops', g);
      SameGranted(s, ops', ops, g);
    }
    assert x.assignments == y.assignments && x.grants == y.grants;
  }

  lemma SameStanding(s: State, ops: seq<Op>, ops': seq<Op>, a: Assignment)
    requires (forall op <- ops' :: !op.RemoveOp?) && (forall op <- ops :: op in ops')
    ensures Standing(s, ops, a) ==> Standing(s, ops', a)
  {
    assert forall j :: 0 <= j < |ops'| ==> ops'[j] in ops' && !Removes(ops'[j], a);
    if i :| MadeAt(s, ops, i, a) {
      assert ops[i] in ops';
      var k :| 0 <= k < |ops'| && ops'[k] == ops[i];
      assert MadeAt(s, ops', k, a);
    }
  }

  lemma SameGranted(s: State, ops: seq<Op>, ops': seq<Op>, g: Grant)
    requires forall op <- ops :: op in ops'
    ensures GrantedBy(s, ops, g) ==> GrantedBy(s, ops', g)
  {
    if i :| 0 <= i < |ops| && Grants(s, ops[i], g) {
      assert ops[i] in ops';
      var k :| 0 <= k < |ops'| && ops'[k] == ops[i];
      assert Grants(s, ops'[k], g);
    }
  }

  /** An empty tenant means "default", in assignments and in checks. */
  lemma EmptyMeansDefault(s: State, user: string, role: string, key: string)
    ensures Apply(s, AssignOp(user, role, "")) == Apply(s, AssignOp(user, role, "default"))
    ensures role in s.roles ==> Assignment(user, role, "default") in Apply(s, AssignOp(user, role, "")).assignments
    ensures MayDo(s, user, "", key) <==> MayDo(s, user, "default", key)
  {
  }

  // ----- other tenants -----

  /** The operations that can touch assignments in `tenant`, and all grants. */
  predicate Concerns(op: Op, tenant: string) {
    match op
    case GrantOp(_, _) => true
    case AssignOp(_, _, t) => Tenant(t) == tenant
    case RemoveOp(_, _, t) => t == tenant
  }

  function Only(ops: seq<Op>, tenant: string): seq<Op> {
    if ops == [] then []
    else Only(ops[..|ops| - 1], tenant) + if Concerns(ops[|ops| - 1], tenant) then [ops[|ops| - 1]] else []
  }

  ghost predicate AgreeOn(x: State, y: State, tenant: string) {
    && x.roles == y.roles && x.permissions == y.permissions && x.grants == y.grants
    && forall a: Assignment :: a.tenant == tenant ==> (a in x.assignments <==> a in y.assignments)
  }

  lemma {:induction false} OtherTenantsIgnored(s: State, ops: seq<Op>, tenant: string)
    ensures AgreeOn(Run(s, ops), Run(s, Only(ops, tenant)), tenant)
  {
    if ops != [] {
      var init, last := ops[..|ops| - 1], ops[|ops| - 1];
      OtherTenantsIgnored(s, init, tenant);
      if Concerns(last, tenant) {
        var kept := Only(init, tenant) + [last];
        assert kept[..|kept| - 1] == Only(init, tenant);
      } else {
        assert Only(ops, tenant) == Only(init, tenant);
      }
    }
  }

  /** Assignments and removals in other tenants never change a decision. */
  lemma TenantIsolation(s: State, ops: seq<Op>, user: string, tenant: string, key: string)
    ensures MayDo(Run(s, ops), user, tenant, key) <==> MayDo(Run(s, Only(ops, Tenant(tenant))), user, tenant, key)
  {
    OtherTenantsIgnored(s, ops, Tenant(tenant));
  }

  // ----- the repository and the service -----

  datatype Decision = Decision(allowed: bool, reason: string, permissions: seq<string>)

  class Service {
    var state: State

    constructor (roles: set<string>, permissions: map<string, string>)
      ensures state == State(roles, permissions, {}, {})
    {
      state := State(roles, permissions, {}, {});
    }

    method Perform(op: Op) returns (ok: bool)
      modifies this
      ensures state == Apply(old(state), op)
      ensures ok <==> Accepted(old(state), op)
    {
      ok := true;
      match op
      case GrantOp(r, p) =>
        ok := r in state.roles && p in state.permissions;
        if ok {
          state := state.(grants := state.grants + {Grant(r, p)});
        }
      case AssignOp(u, r, t) =>
        var tenant := t;
        if tenant == "" {
          tenant := DEFAULT_TENANT;
        }
        ok := r in state.roles;
        if ok {
          state := state.(assignments := state.assignments + {Assignment(u, r, tenant)});
        }
      case RemoveOp(u, r, t) =>
        state := state.(assignments := state.assignments - {Assignment(u, r, t)});
    }

    /** The rows of the distinct query, in whatever order they come. */
    method UserPermissions(user: string, tenant: string) returns (out: seq<string>)
      ensures Distinct(out)
      ensures forall k :: k in out <==> k in Keys(state, user, tenant)
    {
      out := [];
      var todo := Keys(state, user, tenant);
      while todo != {}
        invariant todo <= Keys(state, user, tenant)
        invariant forall k :: k in out <==> k in Keys(state, user, tenant) && k !in todo
        invariant Distinct(out)
        decreases todo
      {
        var k :| k in todo;
        assert k !in out;
        out := out + [k];
        todo := todo - {k};
      }
    }

    method Check(user: string, tenant: string, key: string) returns (d: Decision)
      ensures d.allowed <==> MayDo(state, user, tenant, key)
      ensures d.reason == if d.allowed then "permission granted" else "permission missing"
      ensures Distinct(d.permissions)
      ensures forall k :: k in d.permissions <==> k in Keys(state, user, Tenant(tenant))
    {
      var t := tenant;
      if t == "" {
        t := DEFAULT_TENANT;
      }
      var perms := UserPermissions(user, t);
      KeysMeanMayDo(state, user, tenant, key);
      var i := 0;
      while i < |perms|
        invariant 0 <= i <= |perms|
        invariant forall k <- perms[..i] :: k != key && k != WILDCARD
      {
        if perms[i] == key || perms[i] == WILDCARD {
          assert perms[i] in perms;
          return Decision(true, "permission granted", perms);
        }
        assert perms[..i + 1] == perms[..i] + [perms[i]];
        i := i + 1;
      }
      assert perms[..i] == perms;
      d := Decision(false, "permission missing", perms);
    }
  }

  /** The join says what a decision means. */
  lemma KeysMeanMayDo(s: State, user: string, tenant: string, key: string)
    ensures (key in Keys(s, user, Tenant(tenant)) || WILDCARD in Keys(s, user, Tenant(tenant))) <==>
            MayDo(s, user, tenant, key)
  {
    if MayDo(s, user, tenant, key) {
      var r, p :| Assignment(user, r, Tenant(tenant)) in s.assignments && Grant(r, p) in s.grants
                  && p in s.permissions && (s.permissions[p] == key || s.permissions[p] == WILDCARD);
      assert s.permissions[p] in Keys(s, user, Tenant(tenant));
    }
  }
}
