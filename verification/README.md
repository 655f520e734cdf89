# User management for a Control Tower landing zone, in Dafny

This project models the identity part of a multi-account AWS Control Tower
setup: the `UserManagement` construct, which gives each of the four workload
environments an IAM Identity Center administrator, and the static account
tables the rest of the application reads.

For each environment (dev, staging, shared, prod), the construct declares:

- an Identity Store user named `<key>-admin`, whose single work email is
  derived from one base address by `generateEmailAddress`;
- a permission set named `<Name>AdminAccess` with a twelve-hour session and
  an inline policy built by `createEnvironmentPolicy`;
- an account assignment that binds the two in the environment's account and
  is ordered after both with `addDependency`.

`getUserOutputs` exports the user id and the permission-set ARN of every
environment.

Files:

- `wrappers.dfy`: `Option`, for the optional `organizationId`.
- `email_address.dfy` (module `EmailAddress`): JavaScript `split` and
  `includes` on strings, and `generateEmailAddress` with its plus-addressing
  properties.
- `environment_policy.dfy` (module `PolicyGenerator`): the policy as a
  structured document. It has a specification function and a method that
  pushes the statements one by one, as the source does.
- `user_management.dfy` (module `UserManagementConstruct`): the CloudFormation
  resources as records. The class `UserManagement` keeps its `users` map,
  which the constructor's loop fills. The file also holds lemmas about the
  constructed state, the dependency graph and the output names.
- `accounts.dfy` (module `AccountsConfig`): the `accounts` and `core_accounts`
  tables as constants, with lemmas about keys, sizing and emails. It also
  links the tables to the construct's email derivation.

A CDK token such as `user.attrUserId` is modelled as the value
`UserIdOf(<construct id>)`: the model keeps it as an opaque reference to the
construct it belongs to, not the id Identity Store generates at deploy time.
A construct id is the environment key followed by a fixed suffix
(`User`, `PermissionSet`, `Assignment`, `UserIdOutput`,
`PermissionSetArnOutput`).

## Model

| member | source | states |
|---|---|---|
| EmailAddress.Split | lib/constructs/user-management.ts:142 | `split('@')` yields at least one piece. The first piece is the text before the first separator. There are two or more pieces exactly when the separator occurs. No piece contains the separator. |
| EmailAddress.JoinSplit | lib/constructs/user-management.ts:142 | Joining the pieces of a split with the separator gives back the original string. |
| EmailAddress.LocalPart | lib/constructs/user-management.ts:142 | The local part, i.e. the first piece, never contains `@`. |
| EmailAddress.GenerateEmailAddress | lib/constructs/user-management.ts:139-148 | With an `@`, the result is the text before the first `@`, then `+env@`, then the text between the first and second `@`. Without an `@`, it is `env@base`. The result always contains `@`. |
| EmailAddress.PlusAddressing | lib/constructs/user-management.ts:140-143 | A single-`@` address `local@domain` becomes the plus-alias `local+env@domain`. |
| EmailAddress.SecondAtDropsRest | lib/constructs/user-management.ts:142-143 | Everything after a second `@` is dropped: `a@b@c` becomes `a+env@b`. |
| EmailAddress.PlusAddressingExample | lib/constructs/user-management.ts:140-143 | `alice@example.com` with `dev` gives `alice+dev@example.com`. |
| EmailAddress.TwoAtExample | lib/constructs/user-management.ts:142-143 | `a@b@c` with `staging` gives `a+staging@b`. |
| EmailAddress.BareDomainExample | lib/constructs/user-management.ts:144-146 | A base without `@` is used as the domain: `example.com` with `dev` gives `dev@example.com`. |
| EmailAddress.EmptyBaseExample | lib/constructs/user-management.ts:144-146 | An empty base does not fail; it gives `prod@`. |
| PolicyGenerator.EnvironmentPolicy | lib/constructs/user-management.ts:154-216 | Version is `2012-10-17`. The baseline grant comes first and never again. The count is 1 + [prod] + [organisation id non-empty], so between 1 and 3. The document denies iff the environment is `prod`, and the deny is the second statement. It grants `sts:AssumeRole` iff the organisation id is present and non-empty, and that grant is the last statement. |
| PolicyGenerator.CreateEnvironmentPolicy | lib/constructs/user-management.ts:154-217 | Pushing the statements one by one, guarded as in the source, builds exactly that document. |
| PolicyGenerator.ProdDenyShape | lib/constructs/user-management.ts:186-202 | The production deny blocks `iam:DeleteRole`, `iam:DeletePolicy` and `ec2:TerminateInstances` on every resource. Its condition is `StringNotEquals` on `aws:RequestedRegion` with `ap-southeast-1` and `us-east-1`. |
| PolicyGenerator.OrgConditionValue | lib/constructs/user-management.ts:205-216 | The cross-account grant targets `OrganizationAccountAccessRole` in any account. Its `aws:PrincipalOrgID` condition carries exactly the given organisation id. |
| PolicyGenerator.BaselineShape | lib/constructs/user-management.ts:161-183 | The first statement is an unconditional Allow on every resource. |
| UserManagementConstruct.EnvironmentKeys | lib/constructs/user-management.ts:71-76 | The fixed environment list has four entries. Its keys are pairwise distinct and are exactly dev, staging, shared and prod. |
| UserManagementConstruct.AddDependency | lib/constructs/user-management.ts:129-130 | Adding a dependency adds exactly that target and changes nothing else in the assignment. |
| UserManagementConstruct.UserManagement.constructor | lib/constructs/user-management.ts:67-82 | After construction, `users` has exactly the four keys. Each key holds what `createEnvironmentUser` declares for its environment. |
| UserManagementConstruct.UserManagement.CreateEnvironmentUser | lib/constructs/user-management.ts:88-133 | The user, the permission set with its pushed policy, and the assignment with its two added dependencies are the records `Provisioned(env, props)` describes. |
| UserManagementConstruct.UserManagement.GetUserOutputs | lib/constructs/user-management.ts:224-242 | Every recorded environment yields exactly two outputs, `<env>UserId` and `<env>PermissionSetArn`, and there are no others. The output count is twice the number of environments. Each output refers to that environment's own user or permission set. |
| UserManagementConstruct.EntryOf | lib/constructs/user-management.ts:71-81 | Every recorded key comes from one entry of the environment list, and holds the records declared for that entry. |
| UserManagementConstruct.ConstructedAssignments | lib/constructs/user-management.ts:119-130 | Each assignment targets the account the props give for its environment, with principal type `USER` and target type `AWS_ACCOUNT`. Its principal is its own entry's user and its permission set is its own entry's. It depends on exactly those two. |
| UserManagementConstruct.ConstructedEntries | lib/constructs/user-management.ts:94-115 | Each user is `<key>-admin`, with one primary work email derived from the base email. Each session lasts `PT12H`. Each policy is the environment's policy, so only the production entry's policy denies. |
| UserManagementConstruct.ConstructedNames | lib/constructs/user-management.ts:97-112 | The display name is `<Name> Administrator`, the person name is `<Name>` / `Administrator`, and the permission set is `<Name>AdminAccess`. |
| UserManagementConstruct.AssignmentDependencies | lib/constructs/user-management.ts:129-130 | An environment's assignment waits for exactly its own user and its own permission set. |
| UserManagementConstruct.DependencyGraphAcyclic | lib/constructs/user-management.ts:119-130 | Every dependency edge leaves an assignment and enters a resource that is not an assignment. Nothing depends on an edge's target, so the graph has no path of two steps and no cycle. |
| UserManagementConstruct.ConstructIdsUnique | lib/constructs/user-management.ts:94-119 | Two construct ids are equal only for the same environment key and the same resource kind. This covers the resource ids here and the output ids at lines 228 and 234. |
| UserManagementConstruct.OutputKeysUnique | lib/constructs/user-management.ts:228-234 | An output key determines its environment, and a `UserId` key never equals a `PermissionSetArn` key. |
| UserManagementConstruct.OutputKeysCount | lib/constructs/user-management.ts:227-239 | A set of environments has twice as many output keys as environments. |
| UserManagementConstruct.ExportNamesUnique | lib/constructs/user-management.ts:231-237 | Export names of the same kind are equal exactly for the same environment. A user-id export never shares a name with a permission-set export. |
| AccountsConfig.Tier | lib/config/accounts.ts:51-55 | The resource tier is 0 exactly for development and 2 exactly for production. |
| AccountsConfig.AccountKeys | lib/config/accounts.ts:61-150 | The table has exactly the keys dev, staging, shared and prod. Each entry's `environment` equals its key. |
| AccountsConfig.SizingLadder | lib/config/accounts.ts:75-149 | Development is 128 MB / 10 s, staging and shared services are 256 MB / 15 s, and production is 512 MB / 30 s, as the sizing strategy at lines 51-55 documents. |
| AccountsConfig.SizingMonotone | lib/config/accounts.ts:51-55 | Memory and timeout never decrease as the tier rises. Equal tiers are sized alike. |
| AccountsConfig.WorkloadEmailsAreAliases | lib/config/accounts.ts:57-59 | Every workload email (lines 77, 99, 121 and 143) equals `generateEmailAddress` applied to the account's key and the management address at line 187. |
| AccountsConfig.AllEmails | lib/config/accounts.ts:173-217 | The accounts declare seven emails: the three core ones here and the four workload ones at lines 77, 99, 121 and 143. |
| AccountsConfig.EmailsDistinct | lib/config/accounts.ts:164-166 | No two of the seven account emails are equal. |
| AccountsConfig.ConstructedEmailsMatchAccounts | lib/constructs/user-management.ts:98-102 | If the construct is built from the management address, each environment's administrator gets exactly that environment's workload-account email. |

## Left out

- The construct-tree side of CDK is left out: `super(scope, id)`, and registering each resource under its id in a scope. Calling `getUserOutputs` twice on one construct would fail at the second call with a duplicate-id error. The model does not capture that failure; its method returns the same map each time.
- `JSON.stringify(basePolicy, null, 2)` (lib/constructs/user-management.ts:218) is left out. It is a library call, so the model keeps the structured document rather than its pretty-printed text.
- IAM evaluation of the policy, i.e. what the deny actually blocks at run time, is left out. Only the document's shape is modelled.
- `addDependency` is modelled on values. The assignment record is rebuilt with one more dependency, instead of being updated in place. The construct's dependency list is unordered, so the model keeps it as a set.
- The iteration order of `Object.entries` in `getUserOutputs` is not modelled: the result is a map, and its keys do not depend on the order.
- The CDK tokens `attrUserId` and `attrPermissionSetArn` resolve only at deploy time. The model keeps them as references to the construct id they belong to.
- The code does not check for an empty `baseEmail` or an empty account id, and construction does not fail on them: an empty base gives `env@`, and an empty account id is passed through to the assignment.
- The baseline grant is modelled with the fourteen actions the code lists (lib/constructs/user-management.ts:163-181).
- `ExistingUserManager` (lib/constructs/user-management.ts:249-271) is not part of this model; it only emits outputs.
- The Lambda handlers, the application stacks, the construct wiring and the app entry point are not part of this model. They are declarative CDK wiring or process-environment reads.
- A `ctonemessage` field is read elsewhere in the application, but it is not part of the `accountconfig` interface (lib/config/accounts.ts:34-41). It is not part of this model.
- The `helloworldmessage` strings in lib/config/accounts.ts:79-145 are stored mis-encoded: each emoji's UTF-8 bytes were read as Windows-1252 text. The model keeps those characters exactly (for example U+00F0 U+0178 U+2019 U+00BB for line 79) and does not restore the intended emoji (💻, 🧪, 🔧, 🚀). No property of the model depends on the greetings.
- In `accounts.ts`, the `number` fields `memorysize` and `timeout` are modelled as unbounded integers, since every value is a small whole number.
