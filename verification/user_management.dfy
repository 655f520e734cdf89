/**
 * The `UserManagement` construct of lib/constructs/user-management.ts: for
 * each of the four environments it declares an Identity Center user, a
 * permission set carrying the environment's inline policy, and an account
 * assignment binding the two in the environment's account, with explicit
 * ordering edges from the assignment to the user and the permission set.
 *
 * The CDK resource classes are plain records here. An attribute such as
 * `user.attrUserId` is a CloudFormation reference that only resolves at
 * deployment time, so it is modelled as the construct id it refers to.
 */
module UserManagementConstruct {
  import opened Wrappers
  import opened EmailAddress
  import opened PolicyGenerator

  datatype AccountIds = AccountIds(dev: string, staging: string, shared: string, prod: string)

  datatype UserManagementProps = UserManagementProps(
    identityStoreId: string,
    instanceArn: string,
    baseEmail: string,
    accounts: AccountIds,
    organizationId: Option<string>)

  /** One entry of the fixed environment list the constructor walks. */
  datatype EnvironmentSpec = EnvironmentSpec(key: string, name: string, accountId: string)

  /** A reference to an attribute of a resource declared in this construct. */
  datatype Attr = UserIdOf(resource: string) | PermissionSetArnOf(resource: string)

  datatype EmailEntry = EmailEntry(value: string, kind: string, primary: bool)
  datatype PersonName = PersonName(givenName: string, familyName: string)

  datatype CfnUser = CfnUser(
    id: string, identityStoreId: string, userName: string, displayName: string,
    emails: seq<EmailEntry>, name: PersonName)

  datatype CfnPermissionSet = CfnPermissionSet(
    id: string, instanceArn: string, name: string, description: string,
    sessionDuration: string, inlinePolicy: PolicyDocument)

  datatype CfnAccountAssignment = CfnAccountAssignment(
    id: string, instanceArn: string, permissionSetArn: Attr, principalId: Attr,
    principalType: string, targetId: string, targetType: string,
    dependsOn: set<string>)

  datatype EnvironmentUser = EnvironmentUser(
    user: CfnUser, permissionSet: CfnPermissionSet, assignment: CfnAccountAssignment)

  datatype CfnOutput = CfnOutput(id: string, value: Attr, description: string, exportName: string)

  /** The kinds of construct the construct declares per environment; each
      construct id is the environment key followed by the kind's suffix. */
  datatype ResourceKind = UserResource | PermissionSetResource | AssignmentResource
                        | UserIdOutputResource | PermissionSetArnOutputResource

  function Suffix(kind: ResourceKind): string
  {
    match kind
    case UserResource => "User"
    case PermissionSetResource => "PermissionSet"
    case AssignmentResource => "Assignment"
    case UserIdOutputResource => "UserIdOutput"
    case PermissionSetArnOutputResource => "PermissionSetArnOutput"
  }

  function ConstructId(key: string, kind: ResourceKind): string
  {
    key + Suffix(kind)
  }

  /** The environments, in the order the constructor visits them. */
  function Environments(accounts: AccountIds): seq<EnvironmentSpec>
  {
    [ EnvironmentSpec("dev", "Development", accounts.dev),
      EnvironmentSpec("staging", "Staging", accounts.staging),
      EnvironmentSpec("shared", "Shared Services", accounts.shared),
      EnvironmentSpec("prod", "Production", accounts.prod) ]
  }

  /** The keys of a list of environments. */
  function KeysOf(envs: seq<EnvironmentSpec>): set<string>
  {
    if envs == [] then {} else KeysOf(envs[..|envs| - 1]) + {envs[|envs| - 1].key}
  }

  lemma KeysOfPrefix(envs: seq<EnvironmentSpec>, i: nat)
    requires i < |envs|
    ensures KeysOf(envs[..i + 1]) == KeysOf(envs[..i]) + {envs[i].key}
  {
    assert envs[..i + 1][..i] == envs[..i];
  }

  /** The environment keys are `dev`, `staging`, `shared` and `prod`, in that order. */
  lemma EnvironmentKeys(accounts: AccountIds)
    ensures |Environments(accounts)| == 4
    ensures forall i, j | 0 <= i < j < 4 :: Environments(accounts)[i].key != Environments(accounts)[j].key
    ensures KeysOf(Environments(accounts)) == {"dev", "staging", "shared", "prod"}
  {
    var envs := Environments(accounts);
    assert KeysOf(envs[..1]) == {"dev"} by { assert envs[..1][..0] == []; }
    assert KeysOf(envs[..2]) == {"dev", "staging"} by { assert envs[..2][..1] == envs[..1]; }
    assert KeysOf(envs[..3]) == {"dev", "staging", "shared"} by { assert envs[..3][..2] == envs[..2]; }
    assert envs[..4][..3] == envs[..3] && envs[..4] == envs;
  }

  /** `resource.addDependency(target)`: the dependency set grows by the target,
      and nothing else of the resource changes. */
  function AddDependency(a: CfnAccountAssignment, target: string): (r: CfnAccountAssignment)
    ensures r.dependsOn == a.dependsOn + {target}
    ensures r.(dependsOn := a.dependsOn) == a
  {
    a.(dependsOn := a.dependsOn + {target})
  }

  /** The records `createEnvironmentUser(env, props)` declares for one
      environment: the user, its permission set with the environment's policy,
      and the assignment of the two in the environment's account, ordered
      after both. */
  function Provisioned(env: EnvironmentSpec, props: UserManagementProps): (eu: EnvironmentUser)
  {
    var user := CfnUser(
      ConstructId(env.key, UserResource), props.identityStoreId,
      env.key + "-admin", env.name + " Administrator",
      [EmailEntry(GenerateEmailAddress(props.baseEmail, env.key), "work", true)],
      PersonName(env.name, "Administrator"));
    var permissionSet := CfnPermissionSet(
      ConstructId(env.key, PermissionSetResource), props.instanceArn,
      env.name + "AdminAccess", "Administrative access for " + env.name + " environment",
      "PT12H", EnvironmentPolicy(env.key, props.organizationId));
    var assignment := CfnAccountAssignment(
      ConstructId(env.key, AssignmentResource), props.instanceArn,
      PermissionSetArnOf(permissionSet.id), UserIdOf(user.id),
      "USER", env.accountId, "AWS_ACCOUNT", {user.id, permissionSet.id});
    EnvironmentUser(user, permissionSet, assignment)
  }

  /** The wiring of one environment's three resources: ids derived from the
      key, the assignment referring to this entry's own user and permission
      set, and depending on exactly those two. */
  ghost predicate Wired(key: string, eu: EnvironmentUser)
  {
    && eu.user.id == ConstructId(key, UserResource)
    && eu.permissionSet.id == ConstructId(key, PermissionSetResource)
    && eu.assignment.id == ConstructId(key, AssignmentResource)
    && eu.assignment.principalId == UserIdOf(eu.user.id)
    && eu.assignment.permissionSetArn == PermissionSetArnOf(eu.permissionSet.id)
    && eu.assignment.dependsOn == {eu.user.id, eu.permissionSet.id}
  }

  /** The state the constructor leaves behind: one entry per environment key,
      each holding what `createEnvironmentUser` declares for it. */
  ghost predicate Constructed(props: UserManagementProps, users: map<string, EnvironmentUser>)
  {
    && users.Keys == {"dev", "staging", "shared", "prod"}
    && forall i | 0 <= i < |Environments(props.accounts)| ::
         var env := Environments(props.accounts)[i];
         env.key in users && users[env.key] == Provisioned(env, props)
  }

  function UserIdOutputKey(env: string): string { env + "UserId" }
  function PermissionSetArnOutputKey(env: string): string { env + "PermissionSetArn" }

  /** The two outputs `getUserOutputs` declares for one environment. */
  function UserIdOutput(env: string, eu: EnvironmentUser): CfnOutput
  {
    CfnOutput(ConstructId(env, UserIdOutputResource), UserIdOf(eu.user.id),
              "IAM Identity Center User ID for " + env + " environment",
              "UserManagement-" + env + "-UserId")
  }

  function PermissionSetArnOutput(env: string, eu: EnvironmentUser): CfnOutput
  {
    CfnOutput(ConstructId(env, PermissionSetArnOutputResource), PermissionSetArnOf(eu.permissionSet.id),
              "Permission Set ARN for " + env + " environment",
              "UserManagement-" + env + "-PermissionSetArn")
  }

  class UserManagement {
    var users: map<string, EnvironmentUser>

    /** Walks the fixed environment list and records, under each key, what
        `createEnvironmentUser` declares for that environment. */
    constructor (props: UserManagementProps)
      ensures Constructed(props, users)
    {
      users := map[];
      new;
      var environments := Environments(props.accounts);
      EnvironmentKeys(props.accounts);
      for i := 0 to |environments|
        invariant users.Keys == KeysOf(environments[..i])
        invariant forall j | 0 <= j < i ::
                    environments[j].key in users && users[environments[j].key] == Provisioned(environments[j], props)
      {
        var env := environments[i];
        var eu := CreateEnvironmentUser(env, props);
        users := users[env.key := eu];
        KeysOfPrefix(environments, i);
      }
      assert environments[..|environments|] == environments;
    }

    /** `createEnvironmentUser`: declares the user, builds the policy with
        successive pushes, declares the permission set and the assignment, and
        adds the assignment's two dependencies one after the other. */
    method CreateEnvironmentUser(env: EnvironmentSpec, props: UserManagementProps) returns (eu: EnvironmentUser)
      ensures eu == Provisioned(env, props)
    {
      var user := CfnUser(
        ConstructId(env.key, UserResource), props.identityStoreId,
        env.key + "-admin", env.name + " Administrator",
        [EmailEntry(GenerateEmailAddress(props.baseEmail, env.key), "work", true)],
        PersonName(env.name, "Administrator"));
      var policy := CreateEnvironmentPolicy(env.key, props.organizationId);
      var permissionSet := CfnPermissionSet(
        ConstructId(env.key, PermissionSetResource), props.instanceArn,
        env.name + "AdminAccess", "Administrative access for " + env.name + " environment",
        "PT12H", policy);
      var assignment := CfnAccountAssignment(
        ConstructId(env.key, AssignmentResource), props.instanceArn,
        PermissionSetArnOf(permissionSet.id), UserIdOf(user.id),
        "USER", env.accountId, "AWS_ACCOUNT", {});
      assignment := AddDependency(assignment, user.id);
      assignment := AddDependency(assignment, permissionSet.id);
      eu := EnvironmentUser(user, permissionSet, assignment);
    }

    /** `getUserOutputs`: two outputs per recorded environment, keyed
        `<env>UserId` and `<env>PermissionSetArn`, and nothing else. */
    method GetUserOutputs() returns (outputs: map<string, CfnOutput>)
      ensures outputs.Keys == OutputKeys(users.Keys)
      ensures |outputs| == 2 * |users|
      ensures forall env | env in users ::
                && outputs[UserIdOutputKey(env)] == UserIdOutput(env, users[env])
                && outputs[PermissionSetArnOutputKey(env)] == PermissionSetArnOutput(env, users[env])
    {
      outputs := map[];
      var remaining := users.Keys;
      while remaining != {}
        invariant remaining <= users.Keys
        invariant outputs.Keys == OutputKeys(users.Keys - remaining)
        invariant forall env | env in users.Keys - remaining ::
                    && outputs[UserIdOutputKey(env)] == UserIdOutput(env, users[env])
                    && outputs[PermissionSetArnOutputKey(env)] == PermissionSetArnOutput(env, users[env])
        decreases remaining
      {
        var env :| env in remaining;
        var done := users.Keys - remaining;
        OutputKeysAdd(done, env);
        outputs := outputs[UserIdOutputKey(env) := UserIdOutput(env, users[env])];
        outputs := outputs[PermissionSetArnOutputKey(env) := PermissionSetArnOutput(env, users[env])];
        remaining := remaining - {env};
        assert users.Keys - remaining == done + {env};
      }
      assert users.Keys - remaining == users.Keys;
      OutputKeysCount(users.Keys);
    }
  }

  /** The environment a recorded key came from. */
  lemma EntryOf(props: UserManagementProps, users: map<string, EnvironmentUser>, k: string) returns (i: nat)
    requires Constructed(props, users)
    requires k in users
    ensures i < |Environments(props.accounts)|
    ensures Environments(props.accounts)[i].key == k
    ensures users[k] == Provisioned(Environments(props.accounts)[i], props)
  {
    var envs := Environments(props.accounts);
    i := if k == "dev" then 0 else if k == "staging" then 1 else if k == "shared" then 2 else 3;
    assert envs[i].key == k;
  }

  /** Every recorded entry is wired to its own key, and each assignment
      targets the account the props give for its environment. */
  lemma ConstructedAssignments(props: UserManagementProps, users: map<string, EnvironmentUser>)
    requires Constructed(props, users)
    ensures users["dev"].assignment.targetId == props.accounts.dev
    ensures users["staging"].assignment.targetId == props.accounts.staging
    ensures users["shared"].assignment.targetId == props.accounts.shared
    ensures users["prod"].assignment.targetId == props.accounts.prod
    ensures forall k | k in users ::
              && Wired(k, users[k])
              && users[k].assignment.principalType == "USER"
              && users[k].assignment.targetType == "AWS_ACCOUNT"
  {
    var envs := Environments(props.accounts);
    assert envs[0].key == "dev" && envs[1].key == "staging" && envs[2].key == "shared" && envs[3].key == "prod";
    forall k | k in users
      ensures Wired(k, users[k]) && users[k].assignment.principalType == "USER"
              && users[k].assignment.targetType == "AWS_ACCOUNT"
    {
      var i := EntryOf(props, users, k);
    }
  }

  /** Every recorded user and permission set is the one named after its key:
      user `<key>-admin` with the derived work email, a twelve-hour session,
      and the key's policy, which denies only for production. */
  lemma ConstructedEntries(props: UserManagementProps, users: map<string, EnvironmentUser>)
    requires Constructed(props, users)
    ensures forall k | k in users ::
              && users[k].user.userName == k + "-admin"
              && users[k].user.emails == [EmailEntry(GenerateEmailAddress(props.baseEmail, k), "work", true)]
              && users[k].permissionSet.sessionDuration == "PT12H"
              && users[k].permissionSet.inlinePolicy == EnvironmentPolicy(k, props.organizationId)
    ensures forall k | k in users :: Denies(users[k].permissionSet.inlinePolicy) <==> k == "prod"
  {
    forall k | k in users
      ensures && users[k].user.userName == k + "-admin"
              && users[k].user.emails == [EmailEntry(GenerateEmailAddress(props.baseEmail, k), "work", true)]
              && users[k].permissionSet.sessionDuration == "PT12H"
              && users[k].permissionSet.inlinePolicy == EnvironmentPolicy(k, props.organizationId)
    {
      var i := EntryOf(props, users, k);
    }
  }

  /** The display, person and permission-set names come from the
      environment's display name. */
  lemma ConstructedNames(props: UserManagementProps, users: map<string, EnvironmentUser>)
    requires Constructed(props, users)
    ensures forall i | 0 <= i < |Environments(props.accounts)| ::
              var env := Environments(props.accounts)[i];
              && users[env.key].user.displayName == env.name + " Administrator"
              && users[env.key].user.name == PersonName(env.name, "Administrator")
              && users[env.key].permissionSet.name == env.name + "AdminAccess"
  {
  }

  /** The edges `addDependency` creates: resource `a` is deployed after
      resource `d`. */
  ghost predicate DependsOn(users: map<string, EnvironmentUser>, a: string, d: string)
  {
    exists k | k in users :: users[k].assignment.id == a && d in users[k].assignment.dependsOn
  }

  ghost predicate IsAssignment(users: map<string, EnvironmentUser>, id: string)
  {
    exists k | k in users :: users[k].assignment.id == id
  }

  /** An environment's assignment waits for exactly its own user and its own
      permission set. */
  lemma AssignmentDependencies(users: map<string, EnvironmentUser>, k: string, d: string)
    requires forall k | k in users :: Wired(k, users[k])
    requires k in users
    ensures DependsOn(users, ConstructId(k, AssignmentResource), d)
            <==> d == ConstructId(k, UserResource) || d == ConstructId(k, PermissionSetResource)
  {
    if DependsOn(users, ConstructId(k, AssignmentResource), d) {
      var k' :| k' in users && users[k'].assignment.id == ConstructId(k, AssignmentResource)
                && d in users[k'].assignment.dependsOn;
      ConstructIdsUnique(k', k, AssignmentResource, AssignmentResource);
    }
  }

  /** Every edge leaves an assignment and enters a resource that is not one,
      so nothing depends on the target of an edge: no path has two steps and
      the dependency graph has no cycle. */
  lemma DependencyGraphAcyclic(users: map<string, EnvironmentUser>, a: string, d: string)
    requires forall k | k in users :: Wired(k, users[k])
    requires DependsOn(users, a, d)
    ensures IsAssignment(users, a)
    ensures !IsAssignment(users, d)
    ensures forall x :: !DependsOn(users, d, x)
  {
    var k :| k in users && users[k].assignment.id == a && d in users[k].assignment.dependsOn;
    var kind := if d == users[k].user.id then UserResource else PermissionSetResource;
    assert d == ConstructId(k, kind);
    if IsAssignment(users, d) {
      var k' :| k' in users && users[k'].assignment.id == d;
      ConstructIdsUnique(k', k, AssignmentResource, kind);
    }
  }

  /** Export names never collide: one name names one environment and one
      output. */
  lemma ExportNamesUnique(a: string, b: string, eu: EnvironmentUser, eu': EnvironmentUser)
    ensures UserIdOutput(a, eu).exportName == UserIdOutput(b, eu').exportName <==> a == b
    ensures PermissionSetArnOutput(a, eu).exportName == PermissionSetArnOutput(b, eu').exportName <==> a == b
    ensures UserIdOutput(a, eu).exportName != PermissionSetArnOutput(b, eu').exportName
  {
    var p := "UserManagement-";
    assert UserIdOutput(a, eu).exportName == p + (a + "-UserId");
    assert UserIdOutput(b, eu').exportName == p + (b + "-UserId");
    assert PermissionSetArnOutput(a, eu).exportName == p + (a + "-PermissionSetArn");
    assert PermissionSetArnOutput(b, eu').exportName == p + (b + "-PermissionSetArn");
    if p + (a + "-UserId") == p + (b + "-UserId") {
      PrefixInjective(p, a + "-UserId", b + "-UserId");
      SuffixInjective(a, b, "-UserId");
    }
    if p + (a + "-PermissionSetArn") == p + (b + "-PermissionSetArn") {
      PrefixInjective(p, a + "-PermissionSetArn", b + "-PermissionSetArn");
      SuffixInjective(a, b, "-PermissionSetArn");
    }
    DistinctSuffixAt(p + a, p + b, "-UserId", "-PermissionSetArn", 0);
    assert p + (a + "-UserId") == (p + a) + "-UserId";
    assert p + (b + "-PermissionSetArn") == (p + b) + "-PermissionSetArn";
  }

  /** The output keys of a set of environments. */
  ghost function OutputKeys(envs: set<string>): set<string>
  {
    (set env | env in envs :: UserIdOutputKey(env)) + (set env | env in envs :: PermissionSetArnOutputKey(env))
  }

  /** Adding one environment adds its two output keys, which are new. */
  lemma OutputKeysAdd(envs: set<string>, env: string)
    requires env !in envs
    ensures OutputKeys(envs + {env}) == OutputKeys(envs) + {UserIdOutputKey(env), PermissionSetArnOutputKey(env)}
    ensures UserIdOutputKey(env) !in OutputKeys(envs)
    ensures PermissionSetArnOutputKey(env) !in OutputKeys(envs)
    ensures UserIdOutputKey(env) != PermissionSetArnOutputKey(env)
  {
    OutputKeysUnique(env);
  }

  /** Every environment contributes exactly two distinct output keys. */
  lemma {:induction false} OutputKeysCount(envs: set<string>)
    ensures |OutputKeys(envs)| == 2 * |envs|
    decreases |envs|
  {
    if envs != {} {
      var env :| env in envs;
      var rest := envs - {env};
      OutputKeysCount(rest);
      OutputKeysAdd(rest, env);
      assert envs == rest + {env};
    } else {
      assert OutputKeys(envs) == {};
    }
  }

  /** Construct ids never collide: equal ids come from the same key and kind. */
  lemma ConstructIdsUnique(a: string, b: string, k1: ResourceKind, k2: ResourceKind)
    ensures ConstructId(a, k1) == ConstructId(b, k2) <==> a == b && k1 == k2
  {
    if ConstructId(a, k1) == ConstructId(b, k2) {
      if k1 == k2 {
        SuffixInjective(a, b, Suffix(k1));
      } else {
        var s, t := Suffix(k1), Suffix(k2);
        var k := if s[|s| - 1] != t[|t| - 1] then 0
                 else if s[|s| - 2] != t[|t| - 2] then 1
                 else 6;
        DistinctSuffixAt(a, b, s, t, k);
      }
    }
  }

  /** Output keys never collide: one key names one environment and one output. */
  lemma OutputKeysUnique(env: string)
    ensures forall other :: UserIdOutputKey(env) == UserIdOutputKey(other) ==> env == other
    ensures forall other :: PermissionSetArnOutputKey(env) == PermissionSetArnOutputKey(other) ==> env == other
    ensures forall other :: UserIdOutputKey(env) != PermissionSetArnOutputKey(other)
    ensures forall other :: PermissionSetArnOutputKey(env) != UserIdOutputKey(other)
  {
    forall other ensures UserIdOutputKey(env) == UserIdOutputKey(other) ==> env == other {
      if UserIdOutputKey(env) == UserIdOutputKey(other) { SuffixInjective(env, other, "UserId"); }
    }
    forall other ensures PermissionSetArnOutputKey(env) == PermissionSetArnOutputKey(other) ==> env == other {
      if PermissionSetArnOutputKey(env) == PermissionSetArnOutputKey(other) {
        SuffixInjective(env, other, "PermissionSetArn");
      }
    }
    forall other ensures UserIdOutputKey(env) != PermissionSetArnOutputKey(other) {
      DistinctSuffixAt(env, other, "UserId", "PermissionSetArn", 0);
    }
    forall other ensures PermissionSetArnOutputKey(env) != UserIdOutputKey(other) {
      DistinctSuffixAt(env, other, "PermissionSetArn", "UserId", 0);
    }
  }

  lemma SuffixInjective(a: string, b: string, suffix: string)
    requires a + suffix == b + suffix
    ensures a == b
  {
    assert a == (a + suffix)[..|a|];
    assert b == (b + suffix)[..|b|];
  }

  lemma PrefixInjective(p: string, a: string, b: string)
    requires p + a == p + b
    ensures a == b
  {
    assert a == (p + a)[|p|..];
    assert b == (p + b)[|p|..];
  }

  lemma DistinctSuffixAt(a: string, b: string, s: string, t: string, k: nat)
    requires k < |s| && k < |t| && s[|s| - 1 - k] != t[|t| - 1 - k]
    ensures a + s != b + t
  {
    assert (a + s)[|a + s| - 1 - k] == s[|s| - 1 - k];
    assert (b + t)[|b + t| - 1 - k] == t[|t| - 1 - k];
  }
}
