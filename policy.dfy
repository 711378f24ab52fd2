/**
 * Consul ACL policies as Nomad reads them: exact `service` rules and `service_prefix`
 * rules, the emptiness check applied after decoding, and the decision whether a
 * policy grants `write` on a service.
 */
module Policy {
  import opened Outcomes
  import opened Text

  /** One `service "<name>" { policy = "<policy>" }` block (or a `service_prefix` block). */
  datatype ServiceRule = ServiceRule(name: string, policy: string)

  /** The decoded rules of one Consul policy, in the order they appear. */
  datatype ConsulPolicy = ConsulPolicy(services: seq<ServiceRule>, servicePrefixes: seq<ServiceRule>)

  /** The HCL decoder, a library outside this model: rule text to rules, or a failure. */
  type Decoder = string -> Reply<ConsulPolicy>

  /** The policy value that grants the write capability. */
  const PolicyWrite: string := "write"

  /** The exact service name that stands for every service. */
  const ServiceNameWildcard: string := "*"

  /** A missing policy, or one with no rules of either kind. */
  predicate IsEmpty(cp: Option<ConsulPolicy>)
    ensures IsEmpty(cp) <==>
      cp == None || forall rule :: rule !in cp.value.services && rule !in cp.value.servicePrefixes
  {
    assert cp.Some? && cp.value.services != [] ==> cp.value.services[0] in cp.value.services;
    assert cp.Some? && cp.value.servicePrefixes != [] ==> cp.value.servicePrefixes[0] in cp.value.servicePrefixes;
    cp.None? || (|cp.value.services| == 0 && |cp.value.servicePrefixes| == 0)
  }

  /** Decodes rule text and refuses a policy without service rules. */
  function ParseConsulPolicy(decode: Decoder, s: string): (r: Result<ConsulPolicy>)
    ensures r.Ok? ==> decode(s) == Answer(r.value) && !IsEmpty(Some(r.value))
    ensures decode(s).Refused? ==> r == Err(PolicyDecodeFailed(decode(s).reason))
    ensures decode(s).Answer? && IsEmpty(Some(decode(s).value)) ==> r == Err(NoServiceRules)
    ensures decode(s).Answer? && !IsEmpty(Some(decode(s).value)) ==> r == Ok(decode(s).value)
  {
    match decode(s)
    case Refused(reason) => Err(PolicyDecodeFailed(reason))
    case Answer(cp) => if IsEmpty(Some(cp)) then Err(NoServiceRules) else Ok(cp)
  }

  /** An exact rule grants write on `task`: write policy, and its name is `task` or the wildcard. */
  predicate ExactRuleGrants(rule: ServiceRule, task: string)
  {
    var name := ToLower(rule.name);
    ToLower(rule.policy) == PolicyWrite && (name == task || name == ServiceNameWildcard)
  }

  /** A prefix rule grants write on `task`: write policy, and its name is a prefix of `task`. */
  predicate PrefixRuleGrants(rule: ServiceRule, task: string)
  {
    ToLower(rule.policy) == PolicyWrite && HasPrefix(task, ToLower(rule.name))
  }

  /**
   * The scan over `service` rules, true at the first rule that grants: it succeeds exactly
   * when some rule grants.
   */
  function ScanServices(rules: seq<ServiceRule>, task: string): (r: bool)
    ensures r <==> exists i :: 0 <= i < |rules| && ExactRuleGrants(rules[i], task)
  {
    if rules == [] then false
    else if ExactRuleGrants(rules[0], task) then true
    else
      var rest := ScanServices(rules[1..], task);
      assert forall i :: 1 <= i < |rules| ==> rules[i] == rules[1..][i - 1];
      rest
  }

  /**
   * The scan over `service_prefix` rules, true at the first rule that grants: it succeeds
   * exactly when some rule grants.
   */
  function ScanServicePrefixes(rules: seq<ServiceRule>, task: string): (r: bool)
    ensures r <==> exists i :: 0 <= i < |rules| && PrefixRuleGrants(rules[i], task)
  {
    if rules == [] then false
    else if PrefixRuleGrants(rules[0], task) then true
    else
      var rest := ScanServicePrefixes(rules[1..], task);
      assert forall i :: 1 <= i < |rules| ==> rules[i] == rules[1..][i - 1];
      rest
  }

  /**
   * Whether the policy grants write on `task`, exact rules first, then prefix rules: it does
   * exactly when some exact rule or some prefix rule grants it, and denies otherwise.
   */
  function AllowsServiceWrite(task: string, cp: ConsulPolicy): (r: bool)
    ensures r <==>
      (exists i :: 0 <= i < |cp.services| && ExactRuleGrants(cp.services[i], task)) ||
      (exists i :: 0 <= i < |cp.servicePrefixes| && PrefixRuleGrants(cp.servicePrefixes[i], task))
  {
    ScanServices(cp.services, task) || ScanServicePrefixes(cp.servicePrefixes, task)
  }

  /** A `service "*"` rule with write policy grants every task. */
  lemma WildcardGrantsEveryTask(cp: ConsulPolicy, i: nat, task: string)
    requires i < |cp.services|
    requires ToLower(cp.services[i].name) == ServiceNameWildcard
    requires ToLower(cp.services[i].policy) == PolicyWrite
    ensures AllowsServiceWrite(task, cp)
  {
    assert ExactRuleGrants(cp.services[i], task);
  }

  /** A `service_prefix ""` rule with write policy grants every task. */
  lemma EmptyPrefixGrantsEveryTask(cp: ConsulPolicy, i: nat, task: string)
    requires i < |cp.servicePrefixes|
    requires cp.servicePrefixes[i].name == ""
    requires ToLower(cp.servicePrefixes[i].policy) == PolicyWrite
    ensures AllowsServiceWrite(task, cp)
  {
    assert PrefixRuleGrants(cp.servicePrefixes[i], task);
  }

  /**
   * Only the rule side is lower-cased: an upper-case rule grants a lower-case task,
   * but a task written with capitals is not matched by the same rule.
   */
  lemma TaskIsNotCaseFolded()
    ensures AllowsServiceWrite("web", ConsulPolicy([ServiceRule("WEB", "Write")], []))
    ensures !AllowsServiceWrite("Web", ConsulPolicy([ServiceRule("WEB", "Write")], []))
  {
  }

  /** A write rule on prefix "api-" grants "api-worker" and not "frontend". */
  lemma PrefixRuleExample()
    ensures AllowsServiceWrite("api-worker", ConsulPolicy([], [ServiceRule("api-", "write")]))
    ensures !AllowsServiceWrite("frontend", ConsulPolicy([], [ServiceRule("api-", "write")]))
  {
  }
}
