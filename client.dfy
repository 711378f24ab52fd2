/**
 * The subset of Consul's ACL API that Nomad calls. The remote service is not part of
 * this model: its answers are given as functions, and every call is recorded in order.
 * Reads are answered from one snapshot of Consul's ACL state; the answer to a write
 * may depend on every call made before it.
 */
module ConsulClient {
  import opened Outcomes

  /** A Consul ACL token as TokenReadSelf and TokenCreate return it. */
  datatype ACLToken = ACLToken(accessorID: string, secretID: string, policyIDs: seq<string>)

  /** The partial token sent to TokenCreate: a description and the service identities it carries. */
  datatype TokenRequest = TokenRequest(description: string, serviceIdentities: seq<string>)

  /** One call made on the client. */
  datatype Call =
    | TokenReadSelf(secretID: string)
    | PolicyRead(policyID: string)
    | TokenCreate(request: TokenRequest)
    | TokenDelete(accessorID: string)

  /** How Consul answers each kind of call. */
  datatype Consul = Consul(
    readSelf: string -> Reply<ACLToken>,
    policyRules: string -> Reply<string>,
    create: (seq<Call>, TokenRequest) -> Reply<ACLToken>,
    delete: (seq<Call>, string) -> Reply<()>)

  /** The Consul ACL client, with the log of the calls made on it. */
  class ACLClient {
    const consul: Consul
    var calls: seq<Call>

    constructor (consul: Consul)
      ensures this.consul == consul && calls == []
    {
      this.consul := consul;
      calls := [];
    }

    method TokenReadSelf(secretID: string) returns (r: Reply<ACLToken>)
      modifies this
      ensures r == consul.readSelf(secretID)
      ensures calls == old(calls) + [Call.TokenReadSelf(secretID)]
    {
      r := consul.readSelf(secretID);
      calls := calls + [Call.TokenReadSelf(secretID)];
    }

    /** Reads a policy and answers its rule text. */
    method PolicyRead(policyID: string) returns (r: Reply<string>)
      modifies this
      ensures r == consul.policyRules(policyID)
      ensures calls == old(calls) + [Call.PolicyRead(policyID)]
    {
      r := consul.policyRules(policyID);
      calls := calls + [Call.PolicyRead(policyID)];
    }

    method TokenCreate(request: TokenRequest) returns (r: Reply<ACLToken>)
      modifies this
      ensures r == consul.create(old(calls), request)
      ensures calls == old(calls) + [Call.TokenCreate(request)]
    {
      r := consul.create(calls, request);
      calls := calls + [Call.TokenCreate(request)];
    }

    method TokenDelete(accessorID: string) returns (r: Reply<()>)
      modifies this
      ensures r == consul.delete(old(calls), accessorID)
      ensures calls == old(calls) + [Call.TokenDelete(accessorID)]
    {
      r := consul.delete(calls, accessorID);
      calls := calls + [Call.TokenDelete(accessorID)];
    }
  }
}
