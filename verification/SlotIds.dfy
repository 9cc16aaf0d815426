/** The ids both runtimes hand out: a kind in the top byte and a slot number, counted from one, below it. */
module SlotIds {
  function Id(kind: int, slot: nat): int {
    kind + slot + 1
  }

  /** `id_index`: the slot an id names, or -1. */
  function SlotOf(id: int, kind: int, limit: nat): int {
    if kind < id <= kind + limit then id - kind - 1 else -1
  }

  /** The comparison above is the source's test on the type and index parts of the id. */
  lemma SlotIsMasked(id: int, kind: int, limit: nat)
    requires 0 <= id && 0 <= kind && kind % 0x100_0000 == 0 && limit < 0x100_0000
    ensures SlotOf(id, kind, limit) ==
            if id - id % 0x100_0000 == kind && 0 < id % 0x100_0000 <= limit then id % 0x100_0000 - 1 else -1
  {
  }

  /** An id names its own slot and no other. */
  lemma IdsRoundTrip(kind: int, slot: nat, limit: nat, id: int)
    ensures SlotOf(Id(kind, slot), kind, limit) == if slot < limit then slot else -1
    ensures SlotOf(id, kind, limit) >= 0 ==> id == Id(kind, SlotOf(id, kind, limit))
  {
  }
}
