/**
 * The inline IAM policy that every environment's permission set carries
 * (`createEnvironmentPolicy` in lib/constructs/user-management.ts), as a
 * structured document rather than its JSON text.
 */
module PolicyGenerator {
  import opened Wrappers

  datatype Effect = Allow | Deny

  /** A JSON position that holds either a single string or a list of strings
      (`Action` and condition values are written both ways). */
  datatype Strings = One(value: string) | Many(values: seq<string>)

  /** A condition block `{ operator: { key: values } }`. */
  datatype Condition = Condition(operator: string, key: string, values: Strings)

  datatype Statement = Statement(effect: Effect, action: Strings, resource: string, condition: Option<Condition>)

  datatype PolicyDocument = PolicyDocument(version: string, statements: seq<Statement>)

  const PolicyVersion: string := "2012-10-17"

  /** The broad operational grant every environment gets. */
  const BaselineActions: seq<string> := [
    "ec2:*", "lambda:*", "apigateway:*", "cloudformation:*", "iam:*", "s3:*", "logs:*", "cloudwatch:*",
    "ssm:GetParameter*", "ssm:PutParameter", "ecr:*",
    "ce:*", "budgets:View*", "account:GetAccountInformation"
  ]

  /** The destructive actions production denies outside the listed regions. */
  const ProtectedActions: seq<string> := ["iam:DeleteRole", "iam:DeletePolicy", "ec2:TerminateInstances"]
  const ListedRegions: seq<string> := ["ap-southeast-1", "us-east-1"]

  const AssumeRoleAction: string := "sts:AssumeRole"
  const OrganizationAccessRole: string := "arn:aws:iam::*:role/OrganizationAccountAccessRole"

  const Baseline: Statement := Statement(Allow, Many(BaselineActions), "*", None)

  /** Denies the protected actions whenever the requested region is NOT one
      of the listed regions (`StringNotEquals`). */
  const ProdDeny: Statement :=
    Statement(Deny, Many(ProtectedActions), "*",
              Some(Condition("StringNotEquals", "aws:RequestedRegion", Many(ListedRegions))))

  /** Cross-account role assumption, limited to principals of the organization. */
  function OrgAssumeRole(organizationId: string): Statement
  {
    Statement(Allow, One(AssumeRoleAction), OrganizationAccessRole,
              Some(Condition("StringEquals", "aws:PrincipalOrgID", One(organizationId))))
  }

  /** JavaScript truthiness of an optional string: present and non-empty. */
  predicate Truthy(organizationId: Option<string>)
  {
    organizationId.Some? && organizationId.value != ""
  }

  predicate GrantsAssumeRole(st: Statement)
  {
    st.effect == Allow && st.action == One(AssumeRoleAction)
  }

  /** Some statement of the document denies. */
  predicate Denies(doc: PolicyDocument)
  {
    exists k | 0 <= k < |doc.statements| :: doc.statements[k].effect == Deny
  }

  /** Some statement of the document grants `sts:AssumeRole`. */
  predicate GrantsCrossAccount(doc: PolicyDocument)
  {
    exists k | 0 <= k < |doc.statements| :: GrantsAssumeRole(doc.statements[k])
  }

  /**
   * The document `createEnvironmentPolicy(environment, organizationId)`
   * serialises: the baseline grant first, then the production deny, then the
   * organisation-scoped role assumption, each of the last two present only
   * when its condition holds.
   */
  function EnvironmentPolicy(environment: string, organizationId: Option<string>): (doc: PolicyDocument)
    ensures doc.version == "2012-10-17"
    ensures |doc.statements| == 1 + (if environment == "prod" then 1 else 0) + (if Truthy(organizationId) then 1 else 0)
    ensures 1 <= |doc.statements| <= 3
    ensures doc.statements[0] == Baseline
    ensures forall k | 0 < k < |doc.statements| :: doc.statements[k] != Baseline
    ensures Denies(doc) <==> environment == "prod"
    ensures environment == "prod" ==> doc.statements[1] == ProdDeny
    ensures GrantsCrossAccount(doc) <==> Truthy(organizationId)
    ensures Truthy(organizationId) ==> doc.statements[|doc.statements| - 1] == OrgAssumeRole(organizationId.value)
  {
    var deny := if environment == "prod" then [ProdDeny] else [];
    var crossAccount := if Truthy(organizationId) then [OrgAssumeRole(organizationId.value)] else [];
    var doc := PolicyDocument(PolicyVersion, [Baseline] + deny + crossAccount);
    assert forall k | 0 <= k < |doc.statements| ::
      doc.statements[k] == Baseline || doc.statements[k] == ProdDeny
      || (Truthy(organizationId) && doc.statements[k] == OrgAssumeRole(organizationId.value));
    assert environment == "prod" ==> doc.statements[1].effect == Deny;
    assert Truthy(organizationId) ==> GrantsAssumeRole(doc.statements[|doc.statements| - 1]);
    doc
  }

  /**
   * `createEnvironmentPolicy`: starts from an empty statement list and pushes
   * the statements one by one, as the source does.
   */
  method CreateEnvironmentPolicy(environment: string, organizationId: Option<string>) returns (policy: PolicyDocument)
    ensures policy == EnvironmentPolicy(environment, organizationId)
  {
    var statements: seq<Statement> := [];
    statements := statements + [Baseline];
    if environment == "prod" {
      statements := statements + [ProdDeny];
    }
    if organizationId.Some? && organizationId.value != "" {
      statements := statements + [OrgAssumeRole(organizationId.value)];
    }
    policy := PolicyDocument(PolicyVersion, statements);
  }

  /** The deny statement blocks exactly the three destructive actions, on every
      resource, and its condition has the "not equals" polarity: it applies
      outside `ap-southeast-1` and `us-east-1`. */
  lemma ProdDenyShape(organizationId: Option<string>)
    ensures var doc := EnvironmentPolicy("prod", organizationId);
      && doc.statements[1].effect == Deny
      && doc.statements[1].action == Many(["iam:DeleteRole", "iam:DeletePolicy", "ec2:TerminateInstances"])
      && doc.statements[1].resource == "*"
      && doc.statements[1].condition == Some(Condition("StringNotEquals", "aws:RequestedRegion",
                                                         Many(["ap-southeast-1", "us-east-1"])))
  {
  }

  /** The cross-account statement's organisation condition carries exactly the
      given identifier. */
  lemma OrgConditionValue(environment: string, organizationId: string)
    requires organizationId != ""
    ensures var doc := EnvironmentPolicy(environment, Some(organizationId));
      var last := doc.statements[|doc.statements| - 1];
      && last.condition.Some?
      && last.condition.value.key == "aws:PrincipalOrgID"
      && last.condition.value.values == One(organizationId)
      && last.resource == "arn:aws:iam::*:role/OrganizationAccountAccessRole"
  {
  }

  /** The baseline grant lists fourteen actions and applies to every resource,
      without a condition. */
  lemma BaselineShape(environment: string, organizationId: Option<string>)
    ensures var first := EnvironmentPolicy(environment, organizationId).statements[0];
      first.effect == Allow && first.resource == "*" && first.condition.None?
      && first.action.Many? && |first.action.values| == 14
  {
  }
}
