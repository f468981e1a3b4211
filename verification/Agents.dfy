/** What the algorithms see of an agent. */
module Agents {

  /** A 32-bit capability mask as the set of its bit positions: bitwise or, bitwise and and
      the population count are union, intersection and cardinality. */
  type Mask = m: set<nat> | forall b :: b in m ==> b < 32

  /** An agent's id, capability mask and 32-bit trust level. */
  datatype CapabilityAgent = CapabilityAgent(id: nat, capabilities: Mask, trust: nat)
}
