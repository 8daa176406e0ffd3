/** `get_unused_iam_roles`: walks the paginated role listing, skips service
    roles and reports a role as unused when CloudTrail has no event for it or
    its latest event is older than the given number of days. The CloudTrail
    lookup (one event at most, the latest) becomes a map from role name to
    that event's time; a name the map lacks has no events. */
module IamScan {
  import opened Common

  datatype Role = Role(roleName: Id, path: string)

  /** One `list_roles` response. */
  type RolePage = seq<Role>

  /** Time of the latest CloudTrail event naming each role. */
  type Trail = map<Id, int>

  const SERVICE_ROLE_PATH: string := "/aws-service-role/"

  predicate IsServiceRole(r: Role) {
    SERVICE_ROLE_PATH <= r.path
  }

  /** Reference definition of an unused role. */
  predicate Unused(r: Role, trail: Trail, cutoff: int) {
    !IsServiceRole(r) && (r.roleName !in trail || trail[r.roleName] < cutoff)
  }

  /** The roles of all pages, in listing order. */
  function Flatten(pages: seq<RolePage>): seq<Role> {
    if pages == [] then [] else Flatten(pages[..|pages| - 1]) + pages[|pages| - 1]
  }

  function RoleNames(roles: seq<Role>): seq<Id> {
    if roles == [] then [] else RoleNames(roles[..|roles| - 1]) + [roles[|roles| - 1].roleName]
  }

  /** The names the loop appends, in order: one per role that passes the
      checks of the loop body. */
  function UnusedRoles(roles: seq<Role>, trail: Trail, cutoff: int): seq<Id> {
    if roles == [] then []
    else
      var r := roles[|roles| - 1];
      UnusedRoles(roles[..|roles| - 1], trail, cutoff) + (if Unused(r, trail, cutoff) then [r.roleName] else [])
  }

  /** The nested loop over pages and roles. */
  method GetUnusedIamRoles(pages: seq<RolePage>, trail: Trail, now: int, days: int) returns (unusedRoles: seq<Id>)
    ensures unusedRoles == UnusedRoles(Flatten(pages), trail, Cutoff(now, days))
  {
    var cutoff := Cutoff(now, days);
    unusedRoles := [];
    for p := 0 to |pages|
      invariant unusedRoles == UnusedRoles(Flatten(pages[..p]), trail, cutoff)
    {
      var listed := Flatten(pages[..p]);
      var response := pages[p];
      assert listed + response[..0] == listed;
      for j := 0 to |response|
        invariant unusedRoles == UnusedRoles(listed + response[..j], trail, cutoff)
      {
        UnusedRolesStep(listed, response, j, trail, cutoff);
        var role := response[j];
        if IsServiceRole(role) {
          continue;
        }
        if role.roleName !in trail {
          unusedRoles := unusedRoles + [role.roleName];
          continue;
        }
        var lastEventTime := trail[role.roleName];
        if lastEventTime < cutoff {
          unusedRoles := unusedRoles + [role.roleName];
        }
      }
      FlattenStep(pages, p);
    }
    assert pages[..|pages|] == pages;
  }

  /** The pages listed so far, one page further. */
  lemma FlattenStep(pages: seq<RolePage>, p: nat)
    requires p < |pages|
    ensures Flatten(pages[..p + 1]) == Flatten(pages[..p]) + pages[p][..|pages[p]|]
  {
    assert pages[..p + 1][..p] == pages[..p];
    assert pages[p][..|pages[p]|] == pages[p];
  }

  /** The inner loop's specification, one role further. */
  lemma UnusedRolesStep(listed: seq<Role>, response: seq<Role>, j: nat, trail: Trail, cutoff: int)
    requires j < |response|
    ensures UnusedRoles(listed + response[..j + 1], trail, cutoff) ==
      UnusedRoles(listed + response[..j], trail, cutoff) + (if Unused(response[j], trail, cutoff) then [response[j].roleName] else [])
  {
    assert (listed + response[..j + 1])[..|listed| + j] == listed + response[..j];
  }

  /** A name is reported exactly when some listed role of that name is unused. */
  lemma {:induction false} UnusedMember(roles: seq<Role>, trail: Trail, cutoff: int, n: Id)
    ensures n in UnusedRoles(roles, trail, cutoff) <==>
      exists i | 0 <= i < |roles| :: roles[i].roleName == n && Unused(roles[i], trail, cutoff)
  {
    if roles != [] {
      var p := roles[..|roles| - 1];
      UnusedMember(p, trail, cutoff, n);
      if n in UnusedRoles(p, trail, cutoff) {
        var i :| 0 <= i < |p| && p[i].roleName == n && Unused(p[i], trail, cutoff);
        assert roles[i] == p[i];
      }
      if exists i | 0 <= i < |roles| :: roles[i].roleName == n && Unused(roles[i], trail, cutoff) {
        var i :| 0 <= i < |roles| && roles[i].roleName == n && Unused(roles[i], trail, cutoff);
        if i < |p| {
          assert p[i] == roles[i];
        }
      }
    }
  }

  /** Role names are unique in an account; then each listed role is reported
      exactly when it is not a service role and either has no events or its
      latest event is before the cutoff. */
  lemma ReportedIff(roles: seq<Role>, trail: Trail, cutoff: int, i: nat)
    requires i < |roles|
    requires forall j | 0 <= j < |roles| && j != i :: roles[j].roleName != roles[i].roleName
    ensures var r := roles[i];
      r.roleName in UnusedRoles(roles, trail, cutoff) <==>
        !(SERVICE_ROLE_PATH <= r.path) && (r.roleName !in trail || trail[r.roleName] < cutoff)
  {
    UnusedMember(roles, trail, cutoff, roles[i].roleName);
  }

  /** A role whose name only service roles carry is never reported. */
  lemma ServiceRolesNeverReported(roles: seq<Role>, trail: Trail, cutoff: int, n: Id)
    requires forall i | 0 <= i < |roles| && roles[i].roleName == n :: SERVICE_ROLE_PATH <= roles[i].path
    ensures n !in UnusedRoles(roles, trail, cutoff)
  {
    UnusedMember(roles, trail, cutoff, n);
  }

  /** Results of an earlier stretch of the listing come before those of a
      later one: the output follows the listing order. */
  lemma {:induction false} UnusedRolesAppend(a: seq<Role>, b: seq<Role>, trail: Trail, cutoff: int)
    ensures UnusedRoles(a + b, trail, cutoff) == UnusedRoles(a, trail, cutoff) + UnusedRoles(b, trail, cutoff)
  {
    if b == [] {
      assert a + b == a;
    } else {
      var p := b[..|b| - 1];
      assert (a + b)[..|a + b| - 1] == a + p;
      UnusedRolesAppend(a, p, trail, cutoff);
    }
  }

  /** The result over all pages is the results of the pages one after another. */
  lemma {:induction false} UnusedRolesByPage(pages: seq<RolePage>, trail: Trail, cutoff: int)
    ensures pages != [] ==>
      UnusedRoles(Flatten(pages), trail, cutoff) ==
        UnusedRoles(Flatten(pages[..|pages| - 1]), trail, cutoff) + UnusedRoles(pages[|pages| - 1], trail, cutoff)
  {
    if pages != [] {
      UnusedRolesAppend(Flatten(pages[..|pages| - 1]), pages[|pages| - 1], trail, cutoff);
    }
  }

  /** Each listed role is appended at most once: a name is reported no more
      often than it is listed. */
  lemma {:induction false} ReportedAtMostOnce(roles: seq<Role>, trail: Trail, cutoff: int, n: Id)
    ensures Count(UnusedRoles(roles, trail, cutoff), n) <= Count(RoleNames(roles), n)
    ensures |UnusedRoles(roles, trail, cutoff)| <= |roles|
  {
    if roles != [] {
      var p, r := roles[..|roles| - 1], roles[|roles| - 1];
      ReportedAtMostOnce(p, trail, cutoff, n);
      CountAppend(UnusedRoles(p, trail, cutoff), if Unused(r, trail, cutoff) then [r.roleName] else [], n);
      CountAppend(RoleNames(p), [r.roleName], n);
    }
  }

  /** A later cutoff (fewer days) reports every role an earlier one does. */
  lemma {:induction false} UnusedMonotone(roles: seq<Role>, trail: Trail, cutoff: int, later: int, n: Id)
    requires cutoff <= later
    ensures n in UnusedRoles(roles, trail, cutoff) ==> n in UnusedRoles(roles, trail, later)
  {
    UnusedMember(roles, trail, cutoff, n);
    UnusedMember(roles, trail, later, n);
    if n in UnusedRoles(roles, trail, cutoff) {
      var i :| 0 <= i < |roles| && roles[i].roleName == n && Unused(roles[i], trail, cutoff);
      assert Unused(roles[i], trail, later);
    }
  }

  /** Four roles over two pages: a service role without events, a role never
      used, one used long ago and one used today. */
  lemma UnusedRolesScenario(now: int)
    ensures var pages := [[Role("svc", "/aws-service-role/elb/"), Role("never", "/")],
                          [Role("stale", "/"), Role("busy", "/app/")]];
      var trail := map["stale" := now - 100 * SECONDS_PER_DAY, "busy" := now];
      UnusedRoles(Flatten(pages), trail, Cutoff(now, 30)) == ["never", "stale"]
  {
    var pages := [[Role("svc", "/aws-service-role/elb/"), Role("never", "/")],
                  [Role("stale", "/"), Role("busy", "/app/")]];
    var trail := map["stale" := now - 100 * SECONDS_PER_DAY, "busy" := now];
    assert IsServiceRole(Role("svc", "/aws-service-role/elb/"));
    assert !IsServiceRole(Role("never", "/"));
    assert !IsServiceRole(Role("stale", "/"));
    assert !IsServiceRole(Role("busy", "/app/"));
    assert Flatten(pages[..1]) == pages[0];
    var roles := Flatten(pages);
    assert roles == pages[0] + pages[1];
    var c := Cutoff(now, 30);
    assert UnusedRoles(roles[..1], trail, c) == [] by {
      assert roles[..1][..0] == [];
    }
    assert roles[..2][..1] == roles[..1];
    assert UnusedRoles(roles[..2], trail, c) == ["never"];
    assert roles[..3][..2] == roles[..2];
    assert UnusedRoles(roles[..3], trail, c) == ["never", "stale"];
    assert roles[..3] == roles[..|roles| - 1];
  }
}
