/** The evidence dimensions shared by the compatibility and certification reports
    (configs/compatibility_evidence.go). Dimension keys and states are constructors instead of texts. */
module Dimensions {
  import opened Sequences

  datatype DimensionKey =
    | DictionaryKey | RegistryKey | DecodeKey | ReplyKey | PolicyKey | ExternalKey
    | PacketKey | StorageKey | EnforcementKey | APIUIKey | ObservabilityKey

  datatype DimensionState = Passed | Blocked | Planned | NotApplicable | MetadataOnly | ExternalRequired | Certified

  datatype Dimension = Dimension(key: DimensionKey, state: DimensionState, required: bool)

  datatype CertificationState = NotRequired | Required | Claimed

  predicate Blocks(d: Dimension) {
    d.required && d.state == Blocked
  }

  predicate Delays(d: Dimension) {
    d.required && d.state == Planned
  }

  function KeyOf(d: Dimension): DimensionKey {
    d.key
  }

  /** The blockers of `evidenceBlockersAndNextSteps`: one for each required dimension that is blocked. */
  function Blockers(dims: seq<Dimension>): seq<DimensionKey> {
    Mapped(KeyOf, Filter(Blocks, dims))
  }

  lemma {:induction false} BlockersExactly(dims: seq<Dimension>)
    ensures Blockers(dims) == [] <==> forall d <- dims :: !Blocks(d)
  {
    FilterMembers(Blocks, dims);
    if Filter(Blocks, dims) != [] {
      assert Filter(Blocks, dims)[0] in Filter(Blocks, dims);
    }
  }
}
