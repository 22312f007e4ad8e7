/**
 * The capacity endpoints: an in-memory table of hourly capacities per
 * terminal, read with a configured default for terminals never set.
 * The `updated_at` clock reading of the responses is not modelled.
 */
module Capacity {

  /** `DEFAULT_CAPACITY_PER_HOUR` in the backend settings. */
  const DefaultCapacityPerHour: int := 60

  /** The body of both endpoints' responses, less the clock reading. */
  datatype CapacityResponse = CapacityResponse(terminalId: string, capacityPerHour: int)

  /** `_CAPACITY.get(terminal, DEFAULT_CAPACITY_PER_HOUR)` on a given table. */
  function Lookup(table: map<string, int>, terminal: string): int {
    if terminal in table then table[terminal] else DefaultCapacityPerHour
  }

  /** A terminal that was never stored reads the default of 60. */
  lemma LookupUnset(table: map<string, int>, terminal: string)
    requires terminal !in table
    ensures Lookup(table, terminal) == 60
  {
  }

  /** After storing c for a terminal, that terminal reads c. */
  lemma LookupAfterStore(table: map<string, int>, terminal: string, c: int)
    ensures Lookup(table[terminal := c], terminal) == c
  {
  }

  /** Storing for one terminal leaves every other terminal's reading as it was. */
  lemma LookupOthersUnchanged(table: map<string, int>, terminal: string, c: int, other: string)
    requires other != terminal
    ensures Lookup(table[terminal := c], other) == Lookup(table, other)
  {
  }

  /** Two stores to one terminal: the later one wins, for every terminal. */
  lemma LastWriteWins(table: map<string, int>, terminal: string, c1: int, c2: int)
    ensures table[terminal := c1][terminal := c2] == table[terminal := c2]
  {
  }

  /** The module-level `_CAPACITY` dictionary and its two endpoints. */
  class CapacityStore {
    var table: map<string, int>

    /** The table starts empty, so every terminal reads the default. */
    constructor ()
      ensures table == map[]
      ensures forall t :: Get(t).capacityPerHour == DefaultCapacityPerHour
    {
      table := map[];
    }

    /** `get_capacity`: the stored capacity, or the default when none was put. */
    function Get(terminal: string): (r: CapacityResponse)
      reads this
      ensures r.terminalId == terminal
      ensures terminal in table ==> r.capacityPerHour == table[terminal]
      ensures terminal !in table ==> r.capacityPerHour == 60
    {
      CapacityResponse(terminal, Lookup(table, terminal))
    }

    /** `put_capacity`: stores the value for the terminal, overwriting any earlier one, and echoes it. */
    method Put(terminal: string, capacity: int) returns (r: CapacityResponse)
      modifies this
      ensures table == old(table)[terminal := capacity]
      ensures r == CapacityResponse(terminal, capacity)
      ensures Get(terminal) == r
      ensures forall t | t != terminal :: Get(t) == old(Get(t))
    {
      table := table[terminal := capacity];
      r := CapacityResponse(terminal, capacity);
    }
  }
}
