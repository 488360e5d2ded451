/** Credentials.load: which credentials provider the store client is built with. */
module Credentials {
  import opened Wrappers
  import opened HadoopConf

  const AccessKeyName: string := "fs.s3a.access.key"
  const SecretKeyName: string := "fs.s3a.secret.key"
  const SessionTokenName: string := "fs.s3a.session.token"

  /** The credentials a static provider hands out (BasicAWSCredentials or
      BasicSessionCredentials). */
  datatype AwsCredentials =
    | Basic(accessKey: string, secretKey: string)
    | Session(accessKey: string, secretKey: string, sessionToken: string)

  /** The provider that load returns. DefaultChain is the SDK's own resolution
      chain, whose behaviour is not part of this model. */
  datatype Provider =
    | Static(accessKey: string, secretKey: string)
    | StaticSession(accessKey: string, secretKey: string, sessionToken: string)
    | DefaultChain

  /** getCredentials of a provider whose credentials are fixed; None for the default chain. */
  function GetCredentials(p: Provider): (c: Option<AwsCredentials>)
    ensures c.Some? <==> !p.DefaultChain?
  {
    match p
    case Static(a, s) => Some(Basic(a, s))
    case StaticSession(a, s, t) => Some(Session(a, s, t))
    case DefaultChain => None
  }

  /** staticCredentialsProvider: a provider that captures `creds` and hands them out. */
  function StaticCredentialsProvider(creds: AwsCredentials): (p: Provider)
    ensures !p.DefaultChain?
    ensures GetCredentials(p) == Some(creds)
  {
    match creds
    case Basic(a, s) => Static(a, s)
    case Session(a, s, t) => StaticSession(a, s, t)
  }

  /** refresh of a static provider has nothing to do. */
  function Refresh(p: Provider): (q: Provider)
    requires !p.DefaultChain?
    ensures !q.DefaultChain?
    ensures GetCredentials(q) == GetCredentials(p)
  {
    p
  }

  /** The provider after `n` refreshes. */
  function RefreshTimes(p: Provider, n: nat): (q: Provider)
    requires !p.DefaultChain?
    ensures !q.DefaultChain?
  {
    if n == 0 then p else Refresh(RefreshTimes(p, n - 1))
  }

  /** A static provider hands out the captured credentials on every call, however
      often it has been refreshed. */
  lemma {:induction false} StaticProviderIsStable(creds: AwsCredentials, n: nat)
    ensures GetCredentials(RefreshTimes(StaticCredentialsProvider(creds), n)) == Some(creds)
  {
    if n > 0 {
      StaticProviderIsStable(creds, n - 1);
    }
  }

  /** Credentials.load: static credentials when both keys are configured (with the
      session token when that is configured too), the default chain otherwise. A
      value counts as configured when it is present at all, even if empty. */
  function Load(conf: Configuration): (p: Provider)
    ensures p.StaticSession? <==>
              AccessKeyName in conf && SecretKeyName in conf && SessionTokenName in conf
    ensures p.Static? <==>
              AccessKeyName in conf && SecretKeyName in conf && SessionTokenName !in conf
    ensures p.DefaultChain? <==> AccessKeyName !in conf || SecretKeyName !in conf
    ensures p.Static? ==>
              GetCredentials(p) == Some(Basic(conf[AccessKeyName], conf[SecretKeyName]))
    ensures p.StaticSession? ==>
              GetCredentials(p) == Some(Session(conf[AccessKeyName], conf[SecretKeyName], conf[SessionTokenName]))
  {
    var accessKey := Get(conf, AccessKeyName);
    var secretKey := Get(conf, SecretKeyName);
    var sessionToken := Get(conf, SessionTokenName);
    if accessKey.Some? && secretKey.Some? then
      if sessionToken.Some? then
        StaticCredentialsProvider(Session(accessKey.value, secretKey.value, sessionToken.value))
      else
        StaticCredentialsProvider(Basic(accessKey.value, secretKey.value))
    else
      DefaultChain
  }

  /** Presence is all that matters: empty strings are credentials like any other. */
  lemma EmptyValuesAreCredentials()
    ensures Load(map[AccessKeyName := "", SecretKeyName := ""]) == Static("", "")
    ensures Load(map[AccessKeyName := "", SecretKeyName := "", SessionTokenName := ""])
              == StaticSession("", "", "")
  {
    var c2 := map[AccessKeyName := "", SecretKeyName := ""];
    var c3 := map[AccessKeyName := "", SecretKeyName := "", SessionTokenName := ""];
    assert AccessKeyName != SecretKeyName && AccessKeyName != SessionTokenName
        && SecretKeyName != SessionTokenName;
    assert SessionTokenName !in c2;
  }

  /** A session token alone, or with only one of the keys, is ignored. */
  lemma TokenWithoutBothKeysIsIgnored(conf: Configuration)
    requires AccessKeyName !in conf || SecretKeyName !in conf
    ensures Load(conf[SessionTokenName := "token"]) == DefaultChain
  {
    assert AccessKeyName != SessionTokenName && SecretKeyName != SessionTokenName;
  }
}
