/** Results and errors shared by the Service Identity token core. */
module Outcomes {

  datatype Option<T> = None | Some(value: T)

  /** Every error the core creates, wraps or passes through. */
  datatype Error =
    | PolicyDecodeFailed(reason: string)   // the rule text did not decode ("failed to parse ACL policy")
    | NoServiceRules                       // "consul policy contains no service rules"
    | ClusterIDNotSet                      // "cluster id not set"
    | AllocIDNotSet                        // "alloc id not set"
    | TaskNameNotSet                       // "task name not set"
    | MissingConsulToken                   // "missing consul token"
    | UnableToValidate(cause: Error)       // "unable to validate operator consul token", wrapping cause
    | PermissionDenied(task: string)       // "permission denied for <task>"
    | ConsulFailure(reason: string)        // an error returned by the Consul client, passed on as is

  /** A value or an error, as Go's `(T, error)` pairs are used here. */
  datatype Result<T> = Ok(value: T) | Err(error: Error)

  /** Go's bare `error` return: nil (Pass) or an error. */
  datatype Outcome = Pass | Fail(error: Error)

  /** The answer of a foreign call (the Consul client, the HCL decoder): a value or a failure reason. */
  datatype Reply<T> = Answer(value: T) | Refused(reason: string)
}
