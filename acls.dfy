/**
 * Nomad's wrapper around Consul's ACL API for Service Identity tokens: checking that an
 * operator token may write a service, minting a token for a task, and revoking tokens.
 * The functions before the class say what each method computes and which calls it makes.
 */
module ACLs {
  import opened Outcomes
  import opened Text
  import opened Policy
  import opened Identity
  import opened ConsulClient

  /** A minted Service Identity token, handed to the caller. */
  datatype SIToken = SIToken(taskName: string, accessorID: string, secretID: string)

  /** What the caller keeps of a minted token to revoke it later; it never holds the secret. */
  datatype SITokenAccessor = SITokenAccessor(nodeID: string, allocID: string, accessorID: string, taskName: string)

  /** The calls that read the given policies, in order. */
  function PolicyReads(ids: seq<string>): (calls: seq<Call>)
    ensures |calls| == |ids|
    ensures forall i :: 0 <= i < |ids| ==> calls[i] == Call.PolicyRead(ids[i])
  {
    if ids == [] then [] else [Call.PolicyRead(ids[0])] + PolicyReads(ids[1..])
  }

  /** The calls that delete the given accessors, in order, one per accessor. */
  function Deletes(accessors: seq<SITokenAccessor>): (calls: seq<Call>)
    ensures |calls| == |accessors|
    ensures forall i :: 0 <= i < |accessors| ==> calls[i] == Call.TokenDelete(accessors[i].accessorID)
  {
    if accessors == [] then [] else [Call.TokenDelete(accessors[0].accessorID)] + Deletes(accessors[1..])
  }

  /** Reading one more policy extends the log by its read. */
  lemma PolicyReadsStep(log: seq<Call>, ids: seq<string>, i: nat)
    requires i < |ids|
    ensures log + PolicyReads(ids[..i]) + [Call.PolicyRead(ids[i])] == log + PolicyReads(ids[..i + 1])
  {
  }

  /** Deleting one more accessor extends the log by its delete. */
  lemma DeletesStep(log: seq<Call>, accessors: seq<SITokenAccessor>, i: nat)
    requires i < |accessors|
    ensures log + Deletes(accessors[..i]) + [Call.TokenDelete(accessors[i].accessorID)] == log + Deletes(accessors[..i + 1])
  {
  }

  /** What reading one policy and checking its rules yields: allow, deny, or the first error met. */
  function PolicyVerdict(consul: Consul, decode: Decoder, task: string, policyID: string): (r: Result<bool>)
    ensures consul.policyRules(policyID).Refused? ==> r == Err(ConsulFailure(consul.policyRules(policyID).reason))
    ensures r.Ok? <==>
      consul.policyRules(policyID).Answer? && ParseConsulPolicy(decode, consul.policyRules(policyID).value).Ok?
    ensures consul.policyRules(policyID).Answer? && ParseConsulPolicy(decode, consul.policyRules(policyID).value).Err? ==>
      r == Err(ParseConsulPolicy(decode, consul.policyRules(policyID).value).error)
    ensures r.Ok? ==> r.value == AllowsServiceWrite(task, decode(consul.policyRules(policyID).value).value)
  {
    match consul.policyRules(policyID)
    case Refused(reason) => Err(ConsulFailure(reason))
    case Answer(rules) =>
      match ParseConsulPolicy(decode, rules)
      case Err(e) => Err(e)
      case Ok(cp) => Ok(AllowsServiceWrite(task, cp))
  }

  /** The position of the first policy that does not deny (it allows or fails), or `|ids|`. */
  function FirstDecisive(consul: Consul, decode: Decoder, task: string, ids: seq<string>): (d: nat)
    ensures d <= |ids|
    ensures forall j :: 0 <= j < d ==> PolicyVerdict(consul, decode, task, ids[j]) == Ok(false)
    ensures d < |ids| ==> PolicyVerdict(consul, decode, task, ids[d]) != Ok(false)
  {
    if ids == [] || PolicyVerdict(consul, decode, task, ids[0]) != Ok(false) then 0
    else 1 + FirstDecisive(consul, decode, task, ids[1..])
  }

  /** The answer of the policy scan: the first policy that does not deny decides; deny otherwise. */
  function Sufficiency(consul: Consul, decode: Decoder, task: string, ids: seq<string>): (r: Result<bool>)
    ensures r == Ok(true) ==> exists k :: 0 <= k < |ids| && PolicyVerdict(consul, decode, task, ids[k]) == Ok(true)
    ensures r.Err? ==> exists k :: 0 <= k < |ids| && PolicyVerdict(consul, decode, task, ids[k]) == r
  {
    var d := FirstDecisive(consul, decode, task, ids);
    if d == |ids| then Ok(false) else PolicyVerdict(consul, decode, task, ids[d])
  }

  /** The policies the scan reads: those up to and including the deciding one. */
  function PoliciesConsulted(consul: Consul, decode: Decoder, task: string, ids: seq<string>): (read: seq<string>)
    ensures read <= ids
    ensures forall j :: 0 <= j < |read| - 1 ==> PolicyVerdict(consul, decode, task, read[j]) == Ok(false)
    ensures |read| < |ids| ==> read != [] && PolicyVerdict(consul, decode, task, read[|read| - 1]) != Ok(false)
  {
    var d := FirstDecisive(consul, decode, task, ids);
    if d == |ids| then ids else ids[..d + 1]
  }

  /** The scan allows exactly when some policy allows and every policy before it denies. */
  lemma SufficiencyAllowsIff(consul: Consul, decode: Decoder, task: string, ids: seq<string>)
    ensures Sufficiency(consul, decode, task, ids) == Ok(true) <==>
      exists k :: 0 <= k < |ids| && PolicyVerdict(consul, decode, task, ids[k]) == Ok(true) &&
        forall j :: 0 <= j < k ==> PolicyVerdict(consul, decode, task, ids[j]) == Ok(false)
  {
  }

  /** The scan fails with `e` exactly when some policy fails with `e` and every policy before it denies. */
  lemma SufficiencyErrorIff(consul: Consul, decode: Decoder, task: string, ids: seq<string>, e: Error)
    ensures Sufficiency(consul, decode, task, ids) == Err(e) <==>
      exists k :: 0 <= k < |ids| && PolicyVerdict(consul, decode, task, ids[k]) == Err(e) &&
        forall j :: 0 <= j < k ==> PolicyVerdict(consul, decode, task, ids[j]) == Ok(false)
  {
  }

  /** The scan denies exactly when every policy reads, parses and denies. */
  lemma SufficiencyDeniesIff(consul: Consul, decode: Decoder, task: string, ids: seq<string>)
    ensures Sufficiency(consul, decode, task, ids) == Ok(false) <==>
      forall j :: 0 <= j < |ids| ==> PolicyVerdict(consul, decode, task, ids[j]) == Ok(false)
  {
  }

  /** The first policy that does not deny decides, and no policy after it is read. */
  lemma DecidingPolicyIsLastRead(consul: Consul, decode: Decoder, task: string, ids: seq<string>, k: nat)
    requires k < |ids|
    requires forall j :: 0 <= j < k ==> PolicyVerdict(consul, decode, task, ids[j]) == Ok(false)
    requires PolicyVerdict(consul, decode, task, ids[k]) != Ok(false)
    ensures Sufficiency(consul, decode, task, ids) == PolicyVerdict(consul, decode, task, ids[k])
    ensures PoliciesConsulted(consul, decode, task, ids) == ids[..k + 1]
  {
  }

  /** What CheckSIPolicy answers. */
  function CheckVerdict(consul: Consul, decode: Decoder, task: string, secretID: string): (r: Outcome)
    ensures r == Fail(MissingConsulToken) <==> IsBlank(secretID)
    ensures r.Fail? ==>
      r.error == MissingConsulToken || r.error == PermissionDenied(task) || r.error.UnableToValidate?
    ensures r.Fail? && r.error.UnableToValidate? ==>
      !IsBlank(secretID) &&
      ((consul.readSelf(secretID).Refused? && r.error.cause == ConsulFailure(consul.readSelf(secretID).reason)) ||
       (consul.readSelf(secretID).Answer? &&
        Sufficiency(consul, decode, task, consul.readSelf(secretID).value.policyIDs) == Err(r.error.cause)))
  {
    if IsBlank(secretID) then Fail(MissingConsulToken)
    else
      match consul.readSelf(secretID)
      case Refused(reason) => Fail(UnableToValidate(ConsulFailure(reason)))
      case Answer(token) =>
        match Sufficiency(consul, decode, task, token.policyIDs)
        case Err(e) => Fail(UnableToValidate(e))
        case Ok(allowable) => if allowable then Pass else Fail(PermissionDenied(task))
  }

  /** The client's call log after CheckSIPolicy, starting from `log`. */
  function CheckCalls(consul: Consul, decode: Decoder, task: string, secretID: string, log: seq<Call>): (r: seq<Call>)
    ensures log <= r
    ensures IsBlank(secretID) <==> r == log
    ensures !IsBlank(secretID) ==> r[|log|] == Call.TokenReadSelf(secretID)
    ensures forall i :: |log| < i < |r| ==> r[i].PolicyRead?
  {
    if IsBlank(secretID) then log
    else
      var reply := consul.readSelf(secretID);
      if reply.Refused? then log + [Call.TokenReadSelf(secretID)]
      else log + [Call.TokenReadSelf(secretID)] + PolicyReads(PoliciesConsulted(consul, decode, task, reply.value.policyIDs))
  }

  /** A blank or all-white-space secret is refused before any call reaches Consul. */
  lemma BlankSecretNeverReachesConsul(consul: Consul, decode: Decoder, task: string, secretID: string, log: seq<Call>)
    requires forall i :: 0 <= i < |secretID| ==> IsSpace(secretID[i])
    ensures CheckVerdict(consul, decode, task, secretID) == Fail(MissingConsulToken)
    ensures CheckCalls(consul, decode, task, secretID, log) == log
  {
  }

  /**
   * The operator token passes exactly when its secret is not blank, Consul resolves it,
   * and some attached policy allows the task after every earlier one denied.
   */
  lemma CheckPassesIff(consul: Consul, decode: Decoder, task: string, secretID: string)
    ensures CheckVerdict(consul, decode, task, secretID) == Pass <==>
      !IsBlank(secretID) && consul.readSelf(secretID).Answer? &&
      var ids := consul.readSelf(secretID).value.policyIDs;
      exists k :: 0 <= k < |ids| && PolicyVerdict(consul, decode, task, ids[k]) == Ok(true) &&
        forall j :: 0 <= j < k ==> PolicyVerdict(consul, decode, task, ids[j]) == Ok(false)
  {
  }

  /** Permission is denied for the task exactly when every attached policy reads, parses and denies. */
  lemma CheckDeniesIff(consul: Consul, decode: Decoder, task: string, secretID: string)
    ensures CheckVerdict(consul, decode, task, secretID) == Fail(PermissionDenied(task)) <==>
      !IsBlank(secretID) && consul.readSelf(secretID).Answer? &&
      var ids := consul.readSelf(secretID).value.policyIDs;
      forall j :: 0 <= j < |ids| ==> PolicyVerdict(consul, decode, task, ids[j]) == Ok(false)
  {
  }

  /**
   * "Unable to validate" wraps exactly the read-self error, or, once the token resolves,
   * the scan's read or parse error.
   */
  lemma CheckUnableToValidateIff(consul: Consul, decode: Decoder, task: string, secretID: string, e: Error)
    ensures CheckVerdict(consul, decode, task, secretID) == Fail(UnableToValidate(e)) <==>
      !IsBlank(secretID) &&
      ((consul.readSelf(secretID).Refused? && e == ConsulFailure(consul.readSelf(secretID).reason)) ||
       (consul.readSelf(secretID).Answer? &&
        Sufficiency(consul, decode, task, consul.readSelf(secretID).value.policyIDs) == Err(e)))
  {
  }

  /** The request sent to Consul for a task: its description and exactly one service identity, the task. */
  function TokenRequestFor(sii: ServiceIdentityIndex): (r: TokenRequest)
    ensures r.serviceIdentities == [sii.taskName]
    ensures ']' !in sii.clusterID && ']' !in sii.allocID ==> ParseDescription(r.description) == Some(sii)
  {
    assert ']' !in sii.clusterID && ']' !in sii.allocID ==> ParseDescription(Description(sii)) == Some(sii) by {
      if ']' !in sii.clusterID && ']' !in sii.allocID {
        DescriptionRoundTrip(sii);
      }
    }
    TokenRequest(Description(sii), [sii.taskName])
  }

  /** Deleting `accessors[..j]` one after another, starting from `log`, extends it by their deletes. */
  lemma DeletesShift(log: seq<Call>, accessors: seq<SITokenAccessor>)
    requires accessors != []
    ensures forall j :: 1 <= j <= |accessors| ==>
      log + Deletes(accessors[..j]) == (log + [Call.TokenDelete(accessors[0].accessorID)]) + Deletes(accessors[1..][..j - 1])
  {
  }

  /**
   * The position of the first delete Consul refuses when the accessors are deleted in order
   * after the calls in `log`, or `|accessors|` when every delete succeeds.
   */
  function FirstFailedDelete(consul: Consul, log: seq<Call>, accessors: seq<SITokenAccessor>): (d: nat)
    ensures d <= |accessors|
    ensures forall j :: 0 <= j < d ==> consul.delete(log + Deletes(accessors[..j]), accessors[j].accessorID).Answer?
    ensures d < |accessors| ==> consul.delete(log + Deletes(accessors[..d]), accessors[d].accessorID).Refused?
    decreases |accessors|
  {
    if accessors == [] then 0
    else if consul.delete(log, accessors[0].accessorID).Refused? then
      assert log + Deletes(accessors[..0]) == log;
      0
    else
      DeletesShift(log, accessors);
      assert log + Deletes(accessors[..0]) == log;
      1 + FirstFailedDelete(consul, log + [Call.TokenDelete(accessors[0].accessorID)], accessors[1..])
  }

  /** Revocation stops at the first refused delete: every earlier one succeeded, and no later one is tried. */
  lemma RevocationStopsAtFirstFailure(consul: Consul, log: seq<Call>, accessors: seq<SITokenAccessor>, k: nat)
    requires k < |accessors|
    requires forall j :: 0 <= j < k ==> consul.delete(log + Deletes(accessors[..j]), accessors[j].accessorID).Answer?
    requires consul.delete(log + Deletes(accessors[..k]), accessors[k].accessorID).Refused?
    ensures FirstFailedDelete(consul, log, accessors) == k
  {
  }

  /** Revocation completes exactly when every delete, made in order, succeeds. */
  lemma RevocationCompletesIff(consul: Consul, log: seq<Call>, accessors: seq<SITokenAccessor>)
    ensures FirstFailedDelete(consul, log, accessors) == |accessors| <==>
      forall j :: 0 <= j < |accessors| ==> consul.delete(log + Deletes(accessors[..j]), accessors[j].accessorID).Answer?
  {
  }

  /** Nomad's Consul ACL API object: the client it calls and the policy decoder it uses. */
  class ConsulACLsAPI {
    const aclClient: ACLClient
    const decode: Decoder

    constructor (aclClient: ACLClient, decode: Decoder)
      ensures this.aclClient == aclClient && this.decode == decode
    {
      this.aclClient := aclClient;
      this.decode := decode;
    }

    /** Checks that the operator token `secretID` may write the service `task`. */
    method CheckSIPolicy(task: string, secretID: string) returns (err: Outcome)
      modifies aclClient
      ensures err == CheckVerdict(aclClient.consul, decode, task, secretID)
      ensures aclClient.calls == CheckCalls(aclClient.consul, decode, task, secretID, old(aclClient.calls))
    {
      if IsBlank(secretID) {
        return Fail(MissingConsulToken);
      }
      var opToken := aclClient.TokenReadSelf(secretID);
      if opToken.Refused? {
        return Fail(UnableToValidate(ConsulFailure(opToken.reason)));
      }
      var allowable := HasSufficientPolicy(task, opToken.value);
      if allowable.Err? {
        return Fail(UnableToValidate(allowable.error));
      }
      if !allowable.value {
        return Fail(PermissionDenied(task));
      }
      return Pass;
    }

    /** Scans the token's policies in order; the first that allows or fails decides. */
    method HasSufficientPolicy(task: string, token: ACLToken) returns (r: Result<bool>)
      modifies aclClient
      ensures r == Sufficiency(aclClient.consul, decode, task, token.policyIDs)
      ensures aclClient.calls ==
        old(aclClient.calls) + PolicyReads(PoliciesConsulted(aclClient.consul, decode, task, token.policyIDs))
    {
      var ids := token.policyIDs;
      ghost var d := FirstDecisive(aclClient.consul, decode, task, ids);
      var i := 0;
      while i < |ids|
        invariant i <= d
        invariant aclClient.calls == old(aclClient.calls) + PolicyReads(ids[..i])
      {
        var allowable := PolicyAllowsServiceWrite(task, ids[i]);
        PolicyReadsStep(old(aclClient.calls), ids, i);
        if allowable != Ok(false) {
          assert i == d;
          if allowable.Err? {
            return Err(allowable.error);
          }
          return Ok(true);
        }
        i := i + 1;
      }
      assert ids[..i] == ids;
      return Ok(false);
    }

    /** Reads one policy and decides whether its rules grant write on `task`. */
    method PolicyAllowsServiceWrite(task: string, policyID: string) returns (r: Result<bool>)
      modifies aclClient
      ensures r == PolicyVerdict(aclClient.consul, decode, task, policyID)
      ensures aclClient.calls == old(aclClient.calls) + [Call.PolicyRead(policyID)]
    {
      var policy := aclClient.PolicyRead(policyID);
      if policy.Refused? {
        return Err(ConsulFailure(policy.reason));
      }
      var cp := ParseConsulPolicy(decode, policy.value);
      if cp.Err? {
        return Err(cp.error);
      }
      return Ok(AllowsServiceWrite(task, cp.value));
    }

    /** Mints a Service Identity token for the task the index names. */
    method CreateToken(sii: ServiceIdentityIndex) returns (r: Result<SIToken>)
      modifies aclClient
      ensures Validate(sii).Fail? ==> r == Err(Validate(sii).error) && aclClient.calls == old(aclClient.calls)
      ensures Validate(sii) == Pass ==>
        aclClient.calls == old(aclClient.calls) + [Call.TokenCreate(TokenRequestFor(sii))]
      ensures Validate(sii) == Pass ==>
        match aclClient.consul.create(old(aclClient.calls), TokenRequestFor(sii))
        case Refused(reason) => r == Err(ConsulFailure(reason))
        case Answer(token) => r == Ok(SIToken(sii.taskName, token.accessorID, token.secretID))
    {
      var valid := Validate(sii);
      if valid.Fail? {
        return Err(valid.error);
      }
      var partial := TokenRequest(Description(sii), [sii.taskName]);
      var token := aclClient.TokenCreate(partial);
      if token.Refused? {
        return Err(ConsulFailure(token.reason));
      }
      return Ok(SIToken(sii.taskName, token.value.accessorID, token.value.secretID));
    }

    /** Deletes the tokens one after another and stops at the first delete Consul refuses. */
    method RevokeTokens(accessors: seq<SITokenAccessor>) returns (err: Outcome)
      modifies aclClient
      ensures
        var d := FirstFailedDelete(aclClient.consul, old(aclClient.calls), accessors);
        if d == |accessors| then
          err == Pass && aclClient.calls == old(aclClient.calls) + Deletes(accessors)
        else
          err == Fail(ConsulFailure(aclClient.consul.delete(old(aclClient.calls) + Deletes(accessors[..d]), accessors[d].accessorID).reason)) &&
          aclClient.calls == old(aclClient.calls) + Deletes(accessors[..d + 1])
    {
      ghost var d := FirstFailedDelete(aclClient.consul, aclClient.calls, accessors);
      var i := 0;
      while i < |accessors|
        invariant i <= d
        invariant aclClient.calls == old(aclClient.calls) + Deletes(accessors[..i])
      {
        var e := RevokeToken(accessors[i]);
        DeletesStep(old(aclClient.calls), accessors, i);
        if e.Fail? {
          return e;
        }
        i := i + 1;
      }
      assert accessors[..i] == accessors;
      return Pass;
    }

    /** Deletes one token by its accessor. */
    method RevokeToken(accessor: SITokenAccessor) returns (err: Outcome)
      modifies aclClient
      ensures aclClient.calls == old(aclClient.calls) + [Call.TokenDelete(accessor.accessorID)]
      ensures match aclClient.consul.delete(old(aclClient.calls), accessor.accessorID)
        case Refused(reason) => err == Fail(ConsulFailure(reason))
        case Answer(_) => err == Pass
    {
      var r := aclClient.TokenDelete(accessor.accessorID);
      if r.Refused? {
        return Fail(ConsulFailure(r.reason));
      }
      return Pass;
    }
  }
}
