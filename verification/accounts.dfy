/**
 * The workload and core account tables of the multi-environment landing zone:
 * four workload accounts with their Lambda sizing and greeting, and the three
 * accounts Control Tower itself manages.
 */
module AccountsConfig {
  import opened EmailAddress
  import UserManagementConstruct

  /** The closed set of environment kinds an account may declare. */
  type EnvironmentName = s: string | s == "prod" || s == "staging" || s == "dev" || s == "shared"
    witness "dev"

  /** One workload account: its name, the email it is created with, its
      environment kind, the greeting its function returns, and the function's
      memory (MB) and timeout (seconds). */
  datatype AccountConfig = AccountConfig(
    name: string,
    email: string,
    environment: EnvironmentName,
    helloworldmessage: string,
    memorysize: int,
    timeout: int)

  /** The workload account table, keyed by environment. The greetings are
      spelled character for character as the configuration file holds them:
      each ends in the four characters an emoji's UTF-8 bytes read as in
      Windows-1252, not the emoji itself. */
  const Accounts: map<string, AccountConfig> := map[
    "dev" := AccountConfig("development", "testawsrahardja+dev@gmail.com", "dev",
                           "hello from development! \U{00F0}\U{0178}\U{2019}\U{00BB}", 128, 10),
    "staging" := AccountConfig("staging", "testawsrahardja+staging@gmail.com", "staging",
                               "hello from staging! \U{00F0}\U{0178}\U{00A7}\U{00AA}", 256, 15),
    "shared" := AccountConfig("shared-services", "testawsrahardja+shared@gmail.com", "shared",
                              "hello from shared services! \U{00F0}\U{0178}\U{201D}\U{00A7}", 256, 15),
    "prod" := AccountConfig("production", "testawsrahardja+prod@gmail.com", "prod",
                            "hello from production! \U{00F0}\U{0178}\U{0161}\U{20AC}", 512, 30)
  ]

  /** The core accounts: management (root), audit and log archive. */
  datatype CoreAccountEmails = CoreAccountEmails(management: string, audit: string, logarchive: string)

  const CoreAccounts := CoreAccountEmails(
    "testawsrahardja@gmail.com",
    "testawsrahardjaaudit@gmail.com",
    "testawsrahardjalogs@gmail.com")

  /** Resource tier of an environment kind: development lowest, staging and
      shared services in the middle, production highest. */
  function Tier(environment: EnvironmentName): (t: nat)
    ensures t <= 2
    ensures t == 0 <==> environment == "dev"
    ensures t == 2 <==> environment == "prod"
  {
    match environment
    case "dev" => 0
    case "prod" => 2
    case _ => 1
  }

  /** The table holds exactly the four environments, and each entry declares
      the environment it is filed under. */
  lemma AccountKeys()
    ensures Accounts.Keys == {"dev", "staging", "shared", "prod"}
    ensures forall k | k in Accounts :: Accounts[k].environment == k
  {
  }

  /** The sizing ladder: 128 MB / 10 s for development, 256 MB / 15 s for
      staging and shared services, 512 MB / 30 s for production. */
  lemma SizingLadder()
    ensures Accounts["dev"].memorysize == 128 && Accounts["dev"].timeout == 10
    ensures Accounts["staging"].memorysize == 256 && Accounts["staging"].timeout == 15
    ensures Accounts["shared"].memorysize == 256 && Accounts["shared"].timeout == 15
    ensures Accounts["prod"].memorysize == 512 && Accounts["prod"].timeout == 30
  {
  }

  /** Sizing never shrinks as the tier rises, and equal tiers are sized
      alike. */
  lemma SizingMonotone(a: string, b: string)
    requires a in Accounts && b in Accounts
    requires Tier(Accounts[a].environment) <= Tier(Accounts[b].environment)
    ensures Accounts[a].memorysize <= Accounts[b].memorysize
    ensures Accounts[a].timeout <= Accounts[b].timeout
    ensures Tier(Accounts[a].environment) == Tier(Accounts[b].environment) ==>
              Accounts[a].memorysize == Accounts[b].memorysize && Accounts[a].timeout == Accounts[b].timeout
  {
    AccountKeys();
    SizingLadder();
  }

  /** The management address split at its `@`, as the alias proof below
      needs it. */
  lemma ManagementSpelling()
    ensures CoreAccounts.management == "testawsrahardja" + "@" + "gmail.com"
    ensures '@' !in "testawsrahardja" && '@' !in "gmail.com"
  {
  }

  /** The four workload addresses, spelled as plus-aliases of the management
      address. Kept apart from the alias proof so that each proof stays
      small. */
  lemma AliasSpellings()
    ensures "testawsrahardja+dev@gmail.com" == "testawsrahardja" + "+" + "dev" + "@" + "gmail.com"
    ensures "testawsrahardja+staging@gmail.com" == "testawsrahardja" + "+" + "staging" + "@" + "gmail.com"
    ensures "testawsrahardja+shared@gmail.com" == "testawsrahardja" + "+" + "shared" + "@" + "gmail.com"
    ensures "testawsrahardja+prod@gmail.com" == "testawsrahardja" + "+" + "prod" + "@" + "gmail.com"
  {
  }

  /** The emails the table gives the four workload accounts. */
  lemma WorkloadEmails()
    ensures Accounts["dev"].email == "testawsrahardja+dev@gmail.com"
    ensures Accounts["staging"].email == "testawsrahardja+staging@gmail.com"
    ensures Accounts["shared"].email == "testawsrahardja+shared@gmail.com"
    ensures Accounts["prod"].email == "testawsrahardja+prod@gmail.com"
  {
  }

  /** Every workload email is the plus-alias of the management address that
      `generateEmailAddress` derives for that environment. */
  lemma WorkloadEmailsAreAliases(k: string)
    requires k in Accounts
    ensures Accounts[k].email == GenerateEmailAddress(CoreAccounts.management, k)
  {
    ManagementSpelling();
    AliasSpellings();
    WorkloadEmails();
    AccountKeys();
    PlusAddressing("testawsrahardja", "gmail.com", k);
  }

  /** The seven account emails, workload first, then management, audit and
      log archive. */
  function AllEmails(): (emails: seq<string>)
    ensures |emails| == 7
  {
    [Accounts["dev"].email, Accounts["staging"].email, Accounts["shared"].email, Accounts["prod"].email,
     CoreAccounts.management, CoreAccounts.audit, CoreAccounts.logarchive]
  }

  /** No two accounts share an email address. */
  lemma EmailsDistinct()
    ensures forall i, j | 0 <= i < j < |AllEmails()| :: AllEmails()[i] != AllEmails()[j]
  {
  }

  /** Built from the management address, the user-management construct gives
      each environment's administrator exactly the email of that
      environment's workload account. */
  lemma ConstructedEmailsMatchAccounts(props: UserManagementConstruct.UserManagementProps,
                                       users: map<string, UserManagementConstruct.EnvironmentUser>)
    requires UserManagementConstruct.Constructed(props, users)
    requires props.baseEmail == CoreAccounts.management
    ensures users.Keys == Accounts.Keys
    ensures forall k | k in users :: users[k].user.emails == [UserManagementConstruct.EmailEntry(Accounts[k].email, "work", true)]
  {
    UserManagementConstruct.ConstructedEntries(props, users);
    assert users.Keys == {"dev", "staging", "shared", "prod"};
    AccountKeys();
    forall k | k in users
      ensures users[k].user.emails == [UserManagementConstruct.EmailEntry(Accounts[k].email, "work", true)]
    {
      WorkloadEmailsAreAliases(k);
    }
  }
}
