/**
 * `Movements`: how many journeys of a vehicle group end at each destination location, keyed
 * by location name. Its vehicle count is the sum of its values.
 */
module Moves {

  /** The sum of the values of a map. */
  ghost function Total(m: map<string, int>): int
    decreases |m|
  {
    if m == map[] then 0
    else
      var k :| k in m;
      m[k] + Total(m - {k})
  }

  /** The sum can be taken by removing any key first. */
  lemma {:induction false} TotalRemove(m: map<string, int>, k: string)
    requires k in m
    ensures Total(m) == m[k] + Total(m - {k})
    decreases |m|
  {
    var j :| j in m && Total(m) == m[j] + Total(m - {j});
    if j != k {
      TotalRemove(m - {j}, k);
      TotalRemove(m - {k}, j);
      assert (m - {j}) - {k} == (m - {k}) - {j};
    }
  }

  /** Putting a value under a key replaces that key's share of the sum. */
  lemma TotalPut(m: map<string, int>, k: string, v: int)
    ensures k !in m ==> Total(m[k := v]) == Total(m) + v
    ensures k in m ==> Total(m[k := v]) == Total(m) - m[k] + v
  {
    TotalRemove(m[k := v], k);
    assert m[k := v] - {k} == m - {k};
    if k in m {
      TotalRemove(m, k);
    } else {
      assert m - {k} == m;
    }
  }

  /** A map whose values are all positive sums to at least its number of keys. */
  lemma {:induction false} TotalOfPositives(m: map<string, int>)
    requires forall k | k in m :: m[k] > 0
    ensures Total(m) >= |m|
    decreases |m|
  {
    if m != map[] {
      var k :| k in m;
      TotalRemove(m, k);
      TotalOfPositives(m - {k});
    }
  }

  class Movements {
    var entries: map<string, int>

    /** `new Movements()`: no journeys. */
    constructor ()
      ensures entries == map[]
    {
      entries := map[];
    }

    /** `new Movements(movements)`: a copy of another map. */
    constructor Copy(other: Movements)
      ensures entries == other.entries
    {
      entries := other.entries;
    }

    /** `put(name, count)`: a later put for the same name overwrites the earlier one. */
    method Put(name: string, count: int)
      modifies this
      ensures entries == old(entries)[name := count]
    {
      entries := entries[name := count];
    }

    /** `getVehicleCount`: the sum of the journey counts. */
    method GetVehicleCount() returns (count: int)
      ensures count == Total(entries)
    {
      count := 0;
      var rest := entries;
      while rest != map[]
        invariant count + Total(rest) == Total(entries)
        decreases |rest|
      {
        var k :| k in rest;
        TotalRemove(rest, k);
        count := count + rest[k];
        rest := rest - {k};
      }
    }
  }
}
