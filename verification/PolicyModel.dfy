/** The policy data contract shared by resolution, decision and compilation. */
module PolicyModel {
  import opened Text

  datatype Result<+T, +E> = Ok(value: T) | Err(error: E)

  /** ResolvedCandidate: one assignment or override that applies to a client. */
  datatype Candidate = Candidate(source: string, policyID: nat, targetType: string, targetRef: string,
                                 priority: int, createdAt: int, id: nat, scope: string)

  /** Decision, without its explanatory texts. */
  datatype Decision = Decision(
    clientEmail: string, groupName: string, policyID: nat, action: string, destinations: seq<string>,
    winner: Candidate, candidates: seq<Candidate>,
    quarantined: bool, released: bool, quarantineAllowlist: seq<string>,
    managedDNS: bool, dnsOutboundTag: string, safeSearch: bool)
}
