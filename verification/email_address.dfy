/**
 * Derivation of the per-environment e-mail address of an Identity Center user
 * (`generateEmailAddress` in lib/constructs/user-management.ts), together with
 * the two JavaScript string operations it relies on: `includes` for one
 * character and `split` on a one-character separator. `FirstIndex` is a
 * helper for those two, not a model of `indexOf` (it gives `|s|`, not -1, when
 * there is no match).
 */
module EmailAddress {

  /** Index of the first occurrence of `c` in `s`, or `|s|` when there is none. */
  function FirstIndex(s: string, c: char): (i: nat)
    ensures i <= |s|
    ensures forall j | 0 <= j < i :: s[j] != c
    ensures i < |s| ==> s[i] == c
  {
    if |s| == 0 || s[0] == c then 0 else 1 + FirstIndex(s[1..], c)
  }

  /** JavaScript's `s.split(sep)` for a one-character separator: the pieces of
      `s` between the occurrences of `sep`, in order (`"".split(sep)` is `[""]`). */
  function Split(s: string, sep: char): (parts: seq<string>)
    ensures |parts| >= 1
    ensures parts[0] == s[..FirstIndex(s, sep)]
    ensures |parts| >= 2 <==> sep in s
    ensures forall k | 0 <= k < |parts| :: sep !in parts[k]
    decreases |s|
  {
    var i := FirstIndex(s, sep);
    if i == |s| then [s] else [s[..i]] + Split(s[i + 1..], sep)
  }

  /** JavaScript's `parts.join(sep)`: the inverse of `Split`. */
  function Join(parts: seq<string>, sep: char): (s: string)
    requires |parts| >= 1
  {
    if |parts| == 1 then parts[0] else parts[0] + [sep] + Join(parts[1..], sep)
  }

  /** Joining a list with a first piece in front. */
  lemma JoinCons(first: string, sep: char, rest: seq<string>)
    requires |rest| >= 1
    ensures Join([first] + rest, sep) == first + [sep] + Join(rest, sep)
  {
    assert ([first] + rest)[1..] == rest;
  }

  /** Cutting `s` at an occurrence of `sep` and gluing it back. */
  lemma CutAt(s: string, sep: char, i: nat)
    requires i < |s| && s[i] == sep
    ensures s == s[..i] + [sep] + s[i + 1..]
  {
  }

  /** Splitting and joining again gives back the original text. */
  lemma {:induction false} JoinSplit(s: string, sep: char)
    ensures Join(Split(s, sep), sep) == s
    decreases |s|
  {
    var i := FirstIndex(s, sep);
    if i < |s| {
      var rest := Split(s[i + 1..], sep);
      JoinSplit(s[i + 1..], sep);
      JoinCons(s[..i], sep, rest);
      CutAt(s, sep, i);
    }
  }

  /** The local part of an address: the text before its first `@`. */
  function LocalPart(s: string): (local: string)
    ensures '@' !in local
  {
    s[..FirstIndex(s, '@')]
  }

  /** The text after the first `@` of `s` (empty when there is none). */
  function AfterFirstAt(s: string): string
  {
    if '@' in s then s[FirstIndex(s, '@') + 1..] else []
  }

  /**
   * `generateEmailAddress(baseEmail, environment)`. A base containing `@` is
   * plus-addressed: the environment is inserted as a `+tag` after the local
   * part. Because only the first two pieces of `split('@')` are kept, the
   * domain is the text between the first and the second `@`, and anything
   * after a second `@` is dropped. A base without `@` is taken as a bare
   * domain and the environment becomes the local part; an empty base gives
   * `environment + "@"`.
   */
  function GenerateEmailAddress(baseEmail: string, environment: string): (email: string)
    ensures '@' in baseEmail ==>
              email == LocalPart(baseEmail) + "+" + environment + "@" + LocalPart(AfterFirstAt(baseEmail))
    ensures '@' !in baseEmail ==> email == environment + "@" + baseEmail
    ensures '@' in email
  {
    if '@' in baseEmail then
      var parts := Split(baseEmail, '@');
      parts[0] + "+" + environment + "@" + parts[1]
    else
      environment + "@" + baseEmail
  }

  /** The first `@` of `a + "@" + b` is the one after `a` when `a` has none. */
  lemma FirstAtAfterPrefix(a: string, b: string)
    requires '@' !in a
    ensures FirstIndex(a + "@" + b, '@') == |a|
  {
    assert (a + "@" + b)[|a|] == '@';
  }

  /** A well-formed `local@domain` base becomes `local+environment@domain`. */
  lemma PlusAddressing(local: string, domain: string, environment: string)
    requires '@' !in local && '@' !in domain
    ensures GenerateEmailAddress(local + "@" + domain, environment)
         == local + "+" + environment + "@" + domain
  {
    var s := local + "@" + domain;
    FirstAtAfterPrefix(local, domain);
    assert s[..|local|] == local;
    assert s[|local| + 1..] == domain;
    FirstAtAfterPrefix(domain, "");
    assert FirstIndex(domain, '@') == |domain|;
  }

  /** With two `@`, the text after the second one is dropped: `a@b@c` becomes
      `a+environment@b`. */
  lemma SecondAtDropsRest(a: string, b: string, c: string, environment: string)
    requires '@' !in a && '@' !in b
    ensures GenerateEmailAddress(a + "@" + b + "@" + c, environment)
         == a + "+" + environment + "@" + b
  {
    var s := a + "@" + b + "@" + c;
    assert s == a + "@" + (b + "@" + c);
    FirstAtAfterPrefix(a, b + "@" + c);
    assert s[..|a|] == a;
    assert s[|a| + 1..] == b + "@" + c;
    FirstAtAfterPrefix(b, c);
    assert (b + "@" + c)[..|b|] == b;
  }

  /** Worked example: `alice@example.com` is plus-addressed. */
  lemma PlusAddressingExample()
    ensures GenerateEmailAddress("alice@example.com", "dev") == "alice+dev@example.com"
  {
    assert "alice@example.com" == "alice" + "@" + "example.com";
    assert "alice+dev@example.com" == "alice" + "+" + "dev" + "@" + "example.com";
    PlusAddressing("alice", "example.com", "dev");
  }

  /** Worked example: `a@b@c` keeps only the text up to the second `@`. */
  lemma TwoAtExample()
    ensures GenerateEmailAddress("a@b@c", "staging") == "a+staging@b"
  {
    assert "a@b@c" == "a" + "@" + "b" + "@" + "c";
    assert "a+staging@b" == "a" + "+" + "staging" + "@" + "b";
    SecondAtDropsRest("a", "b", "c", "staging");
  }

  /** Worked examples: a bare domain, and an empty base, which does not fail. */
  lemma BareDomainExample()
    ensures GenerateEmailAddress("example.com", "dev") == "dev@example.com"
  {
    assert '@' !in "example.com";
    assert "dev@example.com" == "dev" + "@" + "example.com";
  }

  lemma EmptyBaseExample()
    ensures GenerateEmailAddress("", "prod") == "prod@"
  {
  }
}
