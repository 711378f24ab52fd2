# Nomad Service Identity tokens over Consul ACLs — a Dafny model

Nomad mints Consul Service Identity (SI) tokens for the tasks it schedules and revokes them
when the tasks stop. Before minting, it checks that an operator's Consul token carries a policy
that grants `write` on the task's service. This project models the local logic Nomad wraps
around Consul's ACL API in `nomad/consul.go`:

- `Policy` (policy.dfy): service and service-prefix rules, the emptiness check made after a
  policy is decoded, and `allowsServiceWrite`, which decides whether one policy grants `write`
  on a task. Only the rule side is lower-cased; the task name is compared as given.
- `Identity` (identity.dfy): the `ServiceIdentityIndex`, its field validation in the order
  cluster, allocation, task, and its token description `_nomad_si [<cluster>] [<alloc>] [<task>]`.
  A reader for the description is proved to recover the three fields when the cluster and
  allocation IDs contain no `]`. Without that condition the description is ambiguous: a `] [`
  inside an ID moves a field boundary.
- `ConsulClient` (client.dfy): the four Consul ACL calls Nomad makes (`TokenReadSelf`,
  `PolicyRead`, `TokenCreate`, `TokenDelete`). Consul's answers are given as functions, and
  the client records every call in order in its `calls` log. Reads are answered from one
  snapshot of Consul's ACL state. The answer to a create or a delete may depend on every
  call made before it.
- `ACLs` (acls.dfy): the `consulACLsAPI` object as a class over that client. Its methods
  `CheckSIPolicy`, `HasSufficientPolicy`, `PolicyAllowsServiceWrite`, `CreateToken`,
  `RevokeTokens` and `RevokeToken` are proved against functions that say what each returns
  and exactly which calls it makes. Lemmas then characterise those functions: first match
  wins, the first error aborts, and later policies or accessors are never touched.
- `Text` (text.dfy) and `Outcomes` (outcomes.dfy): `strings.ToLower`, `strings.TrimSpace`,
  `strings.HasPrefix`, and the result and error types. Each Go error the core creates or
  wraps is one `Error` constructor.

Facts about the code that the model keeps:

- The token description starts with `_nomad_si` (nomad/consul.go:22).
- Only the rule side is lower-cased; the task name is compared as given (nomad/consul.go:224-227, 234-237).
- Revocation is a sequential loop that returns at the first failed delete (nomad/consul.go:281-286).
- Nomad adds no accessor to a revocation error; it returns the client's error as is (nomad/consul.go:284, 293-294).
- No call path consults the rate limiter (nomad/consul.go:156, 255, 279).

## Model

| member | source | states |
|---|---|---|
| `Text.ToLower` | nomad/consul.go:224-225 | lower-casing keeps the length and maps each character on its own |
| `Text.TrimSpace` | nomad/consul.go:147 | the result is a slice of the secret; it is "" exactly when every character is white space, and otherwise starts and ends with non-space |
| `Text.IsBlank` | nomad/consul.go:147 | a secret is blank exactly when every character in it is white space |
| `Text.HasPrefix` | nomad/consul.go:237 | `s` has the prefix exactly when the prefix is no longer than `s` and agrees with it character by character |
| `Policy.IsEmpty` | nomad/consul.go:63-68 | a policy is empty exactly when it is missing or contains no service rule and no service_prefix rule |
| `Policy.ParseConsulPolicy` | nomad/consul.go:63-80 | a decode failure becomes a parse error; a decoded policy with no service and no service_prefix rules is refused; any other decoded policy is returned unchanged, so a returned policy is never empty |
| `Policy.ScanServices` | nomad/consul.go:223-231 | the exact-rule scan succeeds iff some rule has lower-cased policy "write" and a lower-cased name equal to the task or to "*" |
| `Policy.ScanServicePrefixes` | nomad/consul.go:233-241 | the prefix-rule scan succeeds iff some rule has lower-cased policy "write" and a lower-cased name that is a prefix of the task |
| `Policy.AllowsServiceWrite` | nomad/consul.go:222-243 | a policy grants write iff some exact rule or some prefix rule grants it; otherwise the answer is deny |
| `Policy.WildcardGrantsEveryTask` | nomad/consul.go:218-231 | a write rule on service "*" grants every task |
| `Policy.EmptyPrefixGrantsEveryTask` | nomad/consul.go:233-241 | a write rule on service_prefix "" grants every task |
| `Policy.TaskIsNotCaseFolded` | nomad/consul.go:224-227 | rule `WEB`/`Write` grants task "web" but not task "Web": only the rule side is lower-cased |
| `Policy.PrefixRuleExample` | nomad/consul.go:233-240 | a write rule on prefix "api-" grants "api-worker" and not "frontend" |
| `Identity.Validate` | nomad/consul.go:88-99 | passes iff all three fields are set; otherwise reports the first empty field in the order cluster, allocation, task |
| `Identity.Description` | nomad/consul.go:101-103 | the description starts with `_nomad_si [`, ends with `]`, and is exactly as long as the three fields plus the fixed text |
| `Identity.DescriptionRoundTrip` | nomad/consul.go:22 | when the cluster and allocation IDs contain no `]`, the three fields can be read back from `_nomad_si [c] [a] [t]` |
| `Identity.DescriptionInjective` | nomad/consul.go:101-103 | two such indexes with the same description are equal |
| `Identity.DescriptionAmbiguousWithBrackets` | nomad/consul.go:101-103 | two different indexes whose IDs contain `] [` have the same description |
| `Identity.DescriptionExample` | nomad/consul.go:22 | index (c1, a1, t1) is described as `_nomad_si [c1] [a1] [t1]` |
| `ConsulClient.ACLClient.constructor` | nomad/consul.go:125-128 | a new client answers as the given Consul and has made no calls |
| `ConsulClient.ACLClient.TokenReadSelf` | nomad/consul.go:158-161 | answers Consul's resolution of the secret and logs one read-self call |
| `ConsulClient.ACLClient.PolicyRead` | nomad/consul.go:196-198 | answers the policy's rule text and logs one policy-read call |
| `ConsulClient.ACLClient.TokenCreate` | nomad/consul.go:262 | answers Consul's reply given all earlier calls and logs one create call |
| `ConsulClient.ACLClient.TokenDelete` | nomad/consul.go:293 | answers Consul's reply given all earlier calls and logs one delete call |
| `ACLs.PolicyReads` | nomad/consul.go:181-182 | one policy-read call per policy ID, in order |
| `ACLs.Deletes` | nomad/consul.go:281-282 | one delete call per accessor, in list order |
| `ACLs.PolicyVerdict` | nomad/consul.go:195-216 | a read error is returned as a Consul failure, and a parse error (decoder failure or empty policy) is returned unchanged; the verdict is a decision exactly when the read and the parse succeed, and then it is whether the decoded rules grant write |
| `ACLs.FirstDecisive` | nomad/consul.go:181-187 | the index of the first policy that does not deny: every policy before it reads, parses and denies |
| `ACLs.Sufficiency` | nomad/consul.go:179-192 | an allow comes from some attached policy that allows; an error is the verdict of some attached policy |
| `ACLs.PoliciesConsulted` | nomad/consul.go:181-187 | the policies read are a prefix of the attached ones; all but the last deny, and the scan stops early only after a policy that does not deny |
| `ACLs.SufficiencyAllowsIff` | nomad/consul.go:179-192 | the scan allows iff some policy allows and every earlier policy denies |
| `ACLs.SufficiencyErrorIff` | nomad/consul.go:181-183 | the scan fails with e iff some policy fails with e (read or parse) and every earlier policy denies |
| `ACLs.SufficiencyDeniesIff` | nomad/consul.go:179-192 | the scan denies iff every attached policy reads, parses and denies |
| `ACLs.DecidingPolicyIsLastRead` | nomad/consul.go:181-187 | the first non-denying policy decides, and the policies read are exactly those up to and including it |
| `ACLs.CheckVerdict` | nomad/consul.go:146-177 | the result is "missing consul token" exactly when the secret is blank; every other failure is permission denied for the task or "unable to validate" wrapping either the read-self error or the scan's error |
| `ACLs.CheckUnableToValidateIff` | nomad/consul.go:158-171 | the check fails with "unable to validate" around e iff the secret is not blank and either read-self is refused with e, or the token resolves and the policy scan fails with e |
| `ACLs.CheckCalls` | nomad/consul.go:146-177 | the check only appends to the log: nothing for a blank secret, otherwise a read-self call first and then only policy reads |
| `ACLs.TokenRequestFor` | nomad/consul.go:257-260 | the request carries exactly one service identity, the task, and a description from which the index reads back when its IDs contain no `]` |
| `ACLs.BlankSecretNeverReachesConsul` | nomad/consul.go:146-150 | an empty or all-white-space secret yields "missing consul token" and leaves the call log unchanged |
| `ACLs.CheckPassesIff` | nomad/consul.go:146-177 | the check passes iff the secret is not blank, Consul resolves it, and some attached policy allows the task after every earlier one denied |
| `ACLs.CheckDeniesIff` | nomad/consul.go:168-174 | the check fails with permission denied for the task iff the secret resolves and every attached policy denies |
| `ACLs.FirstFailedDelete` | nomad/consul.go:281-286 | the index of the first delete Consul refuses when the accessors are deleted in order: every earlier delete succeeded |
| `ACLs.RevocationStopsAtFirstFailure` | nomad/consul.go:281-286 | if deletes before k succeed and delete k is refused, revocation stops exactly at k |
| `ACLs.RevocationCompletesIff` | nomad/consul.go:281-288 | revocation gets through the whole list iff every delete, made in order, succeeds |
| `ACLs.ConsulACLsAPI.constructor` | nomad/consul.go:137-144 | the object holds the given client and decoder |
| `ACLs.ConsulACLsAPI.CheckSIPolicy` | nomad/consul.go:146-177 | the result is the blank-secret error, the wrapped read-self error, the wrapped scan error, permission denied, or nil. The log grows by nothing for a blank secret, else by the read-self call and exactly the policies the scan consulted |
| `ACLs.ConsulACLsAPI.HasSufficientPolicy` | nomad/consul.go:179-192 | returns the scan's verdict and reads exactly the policies up to the deciding one, in order |
| `ACLs.ConsulACLsAPI.PolicyAllowsServiceWrite` | nomad/consul.go:195-216 | reads one policy: a read error is returned as is, then a parse error, else whether its rules grant write |
| `ACLs.ConsulACLsAPI.CreateToken` | nomad/consul.go:245-272 | an invalid index returns the validation error with no call. A valid one makes one create call with the description and the single service identity of the task. It returns Consul's error, or the task name with the accessor and secret verbatim from Consul |
| `ACLs.ConsulACLsAPI.RevokeTokens` | nomad/consul.go:274-289 | deletes in list order. If all succeed, returns nil after exactly one delete per accessor. Otherwise returns the first refused delete's error, with no delete attempted after it |
| `ACLs.ConsulACLsAPI.RevokeToken` | nomad/consul.go:291-295 | one delete call for the accessor; nil or Consul's error |

## Left out

- HCL decoding (`hcl.Decode`) is a library outside this model. It is a `Decoder` function given to the API object, and its failure is a `Refused` reply.
- The Consul network calls are not modelled as I/O. Their answers are functions of the request, and for writes also of the earlier calls. Changes made to Consul by other clients between two reads are not modelled.
- Text.ToLower: maps only the ASCII letters A-Z. Go's `strings.ToLower` also maps non-ASCII letters; for example U+0130 becomes `i` and U+212A becomes `k`.
- The rate limiter built in `NewConsulACLsAPI` is not modelled. It is token-bucket timing, and no call path consults it.
- Metrics (`metrics.MeasureSince`) and trace logging are not modelled, nor is the logger the constructor names.
- The `context.Context` arguments are not modelled; the code ignores them.
- `ListTokens` is not modelled: it always returns "not yet implemented".
- Policies reached through roles are not modelled; the code does not evaluate them.
- Nil pointers are not modelled: a nil rule inside a decoded policy, a nil token, a nil accessor. The model assumes non-nil values from the decoder, the client and the caller of `RevokeTokens`.
- The extra metadata returned by Consul calls (`QueryMeta`, `WriteMeta`) and the `AllowStale` query option are not modelled.
- The error texts are not modelled; each is an `Error` constructor. Wrapping is modelled only where it changes what the caller sees (`UnableToValidate`).
