/** `ALL_COLLECTORS`: the fixed order in which collector variants are tried at start-up. */
module Registry {
  import opened Collector

  function AllCollectors(): (r: seq<Kind>)
    ensures |r| == 6
    ensures forall i, j :: 0 <= i < j < |r| ==> r[i] != r[j]
  {
    [Disk, Memory, Cpu, Network, Temperature, Updates]
  }

  /** Where a variant stands in `AllCollectors`. */
  function Position(k: Kind): (p: nat)
    ensures p < |AllCollectors()| && AllCollectors()[p] == k
  {
    match k
    case Disk => 0
    case Memory => 1
    case Cpu => 2
    case Network => 3
    case Temperature => 4
    case Updates => 5
  }

  /** Every variant the package defines is in the list. */
  lemma EveryKindListed(k: Kind)
    ensures k in AllCollectors()
  {
    assert AllCollectors()[Position(k)] == k;
  }
}
