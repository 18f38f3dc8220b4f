/**
 * `Group` (`Group.java` is not part of this model): a named list of journeys, each a destination
 * location name with a factor, the share of a vehicle group's vehicles bound there.
 */
module Groups {
  datatype Journey = Journey(locationName: string, factor: real)

  datatype Group = Group(name: string, journeys: seq<Journey>)

  /** No two journeys lead to the same location. */
  predicate DistinctNames(js: seq<Journey>) {
    forall i, j | 0 <= i < j < |js| :: js[i].locationName != js[j].locationName
  }
}

/**
 * `Distributor.getMovements`: splits a vehicle count over a group's journeys in proportion
 * to their factors. Every journey with a positive normalised factor first gets the floor of
 * its real share; the vehicles left over are then handed out one at a time, each to a
 * movement drawn at random with probability proportional to its fractional remainder, which
 * is then zeroed. Doubles are exact reals here; `Math.random()` is the oracle `random`, whose
 * `i`-th value is the draw for the `i`-th left-over vehicle.
 */
module Distribution {
  import opened Wrappers
  import opened Groups
  import opened Moves

  /** `Distributor.Movement`: never shared, so a value here. */
  datatype Movement = Movement(locationName: string, journeyCount: int, remainder: real)

  /** The sum of the factors of the journeys. */
  function FactorSum(js: seq<Journey>): real {
    if js == [] then 0.0 else FactorSum(js[..|js| - 1]) + js[|js| - 1].factor
  }

  /** `factor / total`. */
  function Normalised(factor: real, total: real): real
    requires total != 0.0
  {
    factor / total
  }

  /** The real share of `count` that a normalised factor gives. */
  function RealShare(count: int, factor: real): real {
    count as real * factor
  }

  /** Every factor is zero (or there is no journey), so the factors sum to zero. */
  predicate NoFactors(js: seq<Journey>) {
    forall i | 0 <= i < |js| :: js[i].factor == 0.0
  }

  /**
   * The movement of one journey, when its factor divided by the total is positive. A zero
   * total is taken only with a zero factor, and then `0.0 / 0.0` is NaN, which is not
   * positive.
   */
  function Share(j: Journey, count: int, total: real): (r: Option<Movement>)
    requires total != 0.0 || j.factor == 0.0
    ensures r.Some? <==> total != 0.0 && Normalised(j.factor, total) > 0.0
    ensures r.Some? ==> total != 0.0
    ensures r.Some? ==> && r.value.locationName == j.locationName
                        && r.value.journeyCount == RealShare(count, Normalised(j.factor, total)).Floor
                        && 0.0 <= r.value.remainder < 1.0
                        && r.value.journeyCount as real + r.value.remainder == RealShare(count, Normalised(j.factor, total))
  {
    if total == 0.0 then None
    else
    var f := Normalised(j.factor, total);
    if f > 0.0 then
      var x := RealShare(count, f);
      Some(Movement(j.locationName, x.Floor, x - x.Floor as real))
    else None
  }

  /** The movements of the first loop, in journey order. */
  function Shares(js: seq<Journey>, count: int, total: real): seq<Movement>
    requires total != 0.0 || NoFactors(js)
  {
    if js == [] then []
    else
      var s := Share(js[|js| - 1], count, total);
      Shares(js[..|js| - 1], count, total) + (if s.Some? then [s.value] else [])
  }

  /** The vehicles allotted so far. */
  function Assigned(ms: seq<Movement>): int {
    if ms == [] then 0 else Assigned(ms[..|ms| - 1]) + ms[|ms| - 1].journeyCount
  }

  /** The sum of the remainders. */
  function Pending(ms: seq<Movement>): real {
    if ms == [] then 0.0 else Pending(ms[..|ms| - 1]) + ms[|ms| - 1].remainder
  }

  /** The number of movements whose remainder is still positive. */
  function Open(ms: seq<Movement>): nat {
    if ms == [] then 0 else Open(ms[..|ms| - 1]) + (if ms[|ms| - 1].remainder > 0.0 then 1 else 0)
  }

  /** `accum` when the inner loop reaches movement `j`: the remainders before it. */
  function Accum(ms: seq<Movement>, j: nat): real
    requires j <= |ms|
  {
    Pending(ms[..j])
  }

  /** The remainder window of movement `j` holds `r`. */
  predicate Hits(ms: seq<Movement>, r: real, j: nat)
    requires j < |ms|
  {
    r >= Accum(ms, j) && r < Accum(ms, j) + ms[j].remainder
  }

  /** The first movement from `j` on whose window holds `r`, or -1 when there is none. */
  function Chosen(ms: seq<Movement>, r: real, j: nat): (k: int)
    requires j <= |ms|
    ensures k == -1 || (j <= k < |ms| && Hits(ms, r, k))
    decreases |ms| - j
  {
    if j == |ms| then -1 else if Hits(ms, r, j) then j else Chosen(ms, r, j + 1)
  }

  /** The list and the running `remainder` between two draws. */
  datatype Draft = Draft(movements: seq<Movement>, remainder: real)

  /** Movement `j` gets one more vehicle and loses its remainder. */
  function Bump(ms: seq<Movement>, j: nat): seq<Movement>
    requires j < |ms|
  {
    ms[j := ms[j].(journeyCount := ms[j].journeyCount + 1, remainder := 0.0)]
  }

  /** `Math.random() * remainder`: the value a draw looks up among the windows. */
  function DrawValue(u: real, remainder: real): real {
    u * remainder
  }

  /** One iteration of the draw loop, `u` being the value of `Math.random()`. */
  function Draw(d: Draft, u: real): Draft {
    var r := DrawValue(u, d.remainder);
    var j := Chosen(d.movements, r, 0);
    if j < 0 then d
    else Draft(Bump(d.movements, j), d.remainder - d.movements[j].remainder)
  }

  /** A draw whose value falls in the window of movement `j` bumps that movement. */
  lemma DrawHits(d: Draft, u: real, j: nat)
    requires j < |d.movements| && Chosen(d.movements, DrawValue(u, d.remainder), 0) == j
    ensures Draw(d, u) == Draft(Bump(d.movements, j), d.remainder - d.movements[j].remainder)
  {
  }

  /** The first `n` iterations of the draw loop. */
  function Draws(d: Draft, random: nat -> real, n: nat): Draft {
    if n == 0 then d else Draw(Draws(d, random, n - 1), random(n - 1))
  }

  /** `removeIf(journeyCount == 0)`. */
  function Kept(ms: seq<Movement>): seq<Movement> {
    if ms == [] then []
    else Kept(ms[..|ms| - 1]) + (if ms[|ms| - 1].journeyCount == 0 then [] else [ms[|ms| - 1]])
  }

  /** The result map: one `put` per movement, in order. */
  function ToMap(ms: seq<Movement>): map<string, int> {
    if ms == [] then map[]
    else ToMap(ms[..|ms| - 1])[ms[|ms| - 1].locationName := ms[|ms| - 1].journeyCount]
  }

  /** The number of left-over vehicles to hand out. */
  function Unassigned(count: int, js: seq<Journey>): int
    requires FactorSum(js) != 0.0 || NoFactors(js)
  {
    count - Assigned(Shares(js, count, FactorSum(js)))
  }

  /** What `getMovements(count, group)` returns, as a function of the random draws. */
  function Distribution(count: int, js: seq<Journey>, random: nat -> real): map<string, int>
    requires FactorSum(js) != 0.0 || NoFactors(js)
  {
    var ms := Shares(js, count, FactorSum(js));
    var unassigned := Unassigned(count, js);
    var n := if unassigned > 0 then unassigned else 0;
    ToMap(Kept(Draws(Draft(ms, unassigned as real), random, n).movements))
  }

  // ---- Properties of the allocation ----

  /** No two movements are for the same location. */
  predicate DistinctLocations(ms: seq<Movement>) {
    forall i, j | 0 <= i < j < |ms| :: ms[i].locationName != ms[j].locationName
  }

  /** Every remainder lies in `[0, 1)`. */
  predicate Fractions(ms: seq<Movement>) {
    forall k | 0 <= k < |ms| :: 0.0 <= ms[k].remainder < 1.0
  }

  /** The movement is the share of one of the journeys. */
  predicate ShareOf(m: Movement, js: seq<Journey>, count: int, total: real)
    requires total != 0.0
  {
    exists i | 0 <= i < |js| :: Share(js[i], count, total) == Some(m)
  }

  /** The first loop gives each journey with a positive normalised factor its share, in order. */
  lemma {:induction false} SharesFacts(js: seq<Journey>, count: int, total: real)
    requires total != 0.0
    ensures var ms := Shares(js, count, total);
      && Fractions(ms)
      && (forall k | 0 <= k < |ms| :: ShareOf(ms[k], js, count, total))
      && (DistinctNames(js) ==> DistinctLocations(ms))
      && (forall k | 0 <= k < |ms| :: exists i | 0 <= i < |js| :: js[i].locationName == ms[k].locationName)
  {
    if js != [] {
      var init := js[..|js| - 1];
      SharesFacts(init, count, total);
      var a := Shares(init, count, total);
      var ms := Shares(js, count, total);
      var sh := Share(js[|js| - 1], count, total);
      assert ms == a + (if sh.Some? then [sh.value] else []);
      forall k | 0 <= k < |ms|
        ensures ShareOf(ms[k], js, count, total)
        ensures exists i | 0 <= i < |js| :: js[i].locationName == ms[k].locationName
      {
        if k < |a| {
          var i :| 0 <= i < |init| && Share(init[i], count, total) == Some(a[k]);
          assert js[i] == init[i];
          var i' :| 0 <= i' < |init| && init[i'].locationName == a[k].locationName;
          assert js[i'] == init[i'];
        } else {
          assert Share(js[|js| - 1], count, total) == Some(ms[k]);
        }
      }
      if DistinctNames(js) && sh.Some? {
        assert DistinctNames(init);
        forall k | 0 <= k < |a| ensures a[k].locationName != sh.value.locationName {
          var i :| 0 <= i < |init| && init[i].locationName == a[k].locationName;
          assert js[i] == init[i];
        }
      }
    }
  }

  /** `c * a / t + c * b / t == c * (a + b) / t`. */
  lemma ShareAdds(count: int, a: real, b: real, total: real)
    requires total != 0.0
    ensures RealShare(count, Normalised(a, total)) + RealShare(count, Normalised(b, total))
         == RealShare(count, Normalised(a + b, total))
  {
    var c := count as real;
    calc {
      c * (a / total) + c * (b / total);
      c * (a / total + b / total);
      { assert a / total + b / total == (a + b) / total; }
      c * ((a + b) / total);
    }
  }

  /**
   * With no negative factor and a positive total, the floors and the remainders of the first
   * loop add up to the count scaled by the factors' share of the total.
   */
  lemma {:induction false} SharesAddUp(js: seq<Journey>, count: int, total: real)
    requires total > 0.0 && forall i | 0 <= i < |js| :: js[i].factor >= 0.0
    ensures var ms := Shares(js, count, total);
      Assigned(ms) as real + Pending(ms) == RealShare(count, Normalised(FactorSum(js), total))
  {
    if js == [] {
      assert Normalised(0.0, total) == 0.0;
    } else {
      var init := js[..|js| - 1];
      var j := js[|js| - 1];
      SharesAddUp(init, count, total);
      var a := Shares(init, count, total);
      var sh := Share(j, count, total);
      ShareAdds(count, FactorSum(init), j.factor, total);
      if sh.Some? {
        var ms := a + [sh.value];
        assert ms[..|ms| - 1] == a;
      } else {
        assert Normalised(j.factor, total) <= 0.0;
        assert j.factor == 0.0;
        assert Normalised(0.0, total) == 0.0;
        assert a + [] == a;
      }
    }
  }

  /** When the factors sum to the total, the remainders add up to the vehicles left over. */
  lemma SharesLeaveRemainders(js: seq<Journey>, count: int)
    requires FactorSum(js) > 0.0 && forall i | 0 <= i < |js| :: js[i].factor >= 0.0
    ensures Pending(Shares(js, count, FactorSum(js))) == Unassigned(count, js) as real
  {
    var t := FactorSum(js);
    var ms := Shares(js, count, t);
    SharesAddUp(js, count, t);
    WholeShare(count, t);
    assert Assigned(ms) as real + Pending(ms) == count as real;
  }

  /** A factor that is the whole total shares out the whole count. */
  lemma WholeShare(count: int, t: real)
    requires t > 0.0
    ensures RealShare(count, Normalised(t, t)) == count as real
  {
    assert t / t == 1.0;
  }

  /** Fractions in `[0, 1)` sum to no more than their number, and to something positive when one is. */
  lemma {:induction false} PendingBounds(ms: seq<Movement>)
    requires Fractions(ms)
    ensures 0.0 <= Pending(ms) <= Open(ms) as real
    ensures Open(ms) > 0 ==> Pending(ms) > 0.0
  {
    if ms != [] {
      PendingBounds(ms[..|ms| - 1]);
    }
  }

  /** Replacing one movement changes each sum by the difference at that place. */
  lemma {:induction false} UpdateSums(ms: seq<Movement>, j: nat, m: Movement)
    requires j < |ms|
    ensures Assigned(ms[j := m]) == Assigned(ms) - ms[j].journeyCount + m.journeyCount
    ensures Pending(ms[j := m]) == Pending(ms) - ms[j].remainder + m.remainder
    ensures Open(ms[j := m]) + (if ms[j].remainder > 0.0 then 1 else 0) == Open(ms) + (if m.remainder > 0.0 then 1 else 0)
  {
    var n := |ms|;
    if j == n - 1 {
      assert ms[j := m][..n - 1] == ms[..n - 1];
    } else {
      assert ms[j := m][..n - 1] == ms[..n - 1][j := m];
      UpdateSums(ms[..n - 1], j, m);
    }
  }

  /** The remainders before movement `k + 1` are those before `k` and its own. */
  lemma AccumStep(ms: seq<Movement>, k: nat)
    requires k < |ms|
    ensures Accum(ms, k + 1) == Accum(ms, k) + ms[k].remainder
  {
    assert ms[..k + 1][..k] == ms[..k];
  }

  /** A value between the remainders before `j` and the sum of all remainders falls in some window from `j` on. */
  lemma {:induction false} ChosenFinds(ms: seq<Movement>, r: real, j: nat)
    requires j <= |ms| && Accum(ms, j) <= r < Pending(ms)
    ensures Chosen(ms, r, j) >= 0
    decreases |ms| - j
  {
    assert ms[..|ms|] == ms;
    if j < |ms| && !Hits(ms, r, j) {
      AccumStep(ms, j);
      ChosenFinds(ms, r, j + 1);
    }
  }

  /** A draw in `[0, 1)` scaled by a positive remainder lies below it. */
  lemma DrawBelow(u: real, p: real)
    requires 0.0 <= u < 1.0 && p > 0.0
    ensures 0.0 <= DrawValue(u, p) < p
  {
    assert p - u * p == (1.0 - u) * p;
  }

  /** The movements so far differ from the first loop's only by single bumps. */
  predicate Evolved(ms: seq<Movement>, orig: seq<Movement>) {
    && |ms| == |orig|
    && forall k | 0 <= k < |ms| ::
         ms[k] == orig[k] || ms[k] == orig[k].(journeyCount := orig[k].journeyCount + 1, remainder := 0.0)
  }

  /** A draw bumps only a movement whose remainder is positive, so never one bumped before. */
  lemma DrawEvolves(d: Draft, u: real, orig: seq<Movement>)
    requires Evolved(d.movements, orig)
    ensures Evolved(Draw(d, u).movements, orig)
  {
    var j := Chosen(d.movements, DrawValue(u, d.remainder), 0);
    if j >= 0 {
      assert d.movements[j].remainder > 0.0;
    }
  }

  /** Each movement is bumped at most once over all the draws, whatever they are. */
  lemma {:induction false} DrawsEvolve(d: Draft, random: nat -> real, n: nat)
    ensures Evolved(Draws(d, random, n).movements, d.movements)
  {
    if n > 0 {
      DrawsEvolve(d, random, n - 1);
      DrawEvolves(Draws(d, random, n - 1), random(n - 1), d.movements);
    }
  }

  /** The state the draw loop keeps when the factors are sound: `need` draws are still sure to hit. */
  predicate Sound(d: Draft, need: nat) {
    Fractions(d.movements) && d.remainder == Pending(d.movements) && Open(d.movements) >= need
  }

  /** While draws are still owed, every draw hits a movement, which takes exactly one more vehicle. */
  lemma DrawHitsOne(d: Draft, u: real, need: nat)
    requires Sound(d, need) && need > 0 && 0.0 <= u < 1.0
    ensures Sound(Draw(d, u), need - 1)
    ensures Assigned(Draw(d, u).movements) == Assigned(d.movements) + 1
  {
    var ms := d.movements;
    PendingBounds(ms);
    var r := DrawValue(u, d.remainder);
    DrawBelow(u, d.remainder);
    assert ms[..0] == [];
    ChosenFinds(ms, r, 0);
    var j := Chosen(ms, r, 0);
    assert ms[j].remainder > 0.0;
    var m := ms[j].(journeyCount := ms[j].journeyCount + 1, remainder := 0.0);
    UpdateSums(ms, j, m);
    DrawHits(d, u, j);
    var ms' := ms[j := m];
    assert Fractions(ms') by {
      forall k | 0 <= k < |ms'| ensures 0.0 <= ms'[k].remainder < 1.0 {
        if k != j { assert ms'[k] == ms[k]; }
      }
    }
  }

  /** `n` draws that are all owed hand out exactly `n` vehicles. */
  lemma {:induction false} DrawsHandOut(d: Draft, random: nat -> real, n: nat)
    requires Sound(d, n) && forall i :: 0.0 <= random(i) < 1.0
    ensures Sound(Draws(d, random, n), 0)
    ensures Assigned(Draws(d, random, n).movements) == Assigned(d.movements) + n
  {
    if n > 0 {
      assert Sound(d, n - 1);
      DrawsHandOut(d, random, n - 1);
      assert Sound(Draws(d, random, n - 1), 1) by {
        // the draws so far have used up `n - 1` of the open movements
        DrawsKeepOpen(d, random, n - 1, n);
      }
      DrawHitsOne(Draws(d, random, n - 1), random(n - 1), 1);
    }
  }

  /** Each owed draw closes exactly one open movement. */
  lemma {:induction false} DrawsKeepOpen(d: Draft, random: nat -> real, i: nat, need: nat)
    requires Sound(d, need) && i <= need && forall k :: 0.0 <= random(k) < 1.0
    ensures Sound(Draws(d, random, i), need - i)
  {
    if i > 0 {
      DrawsKeepOpen(d, random, i - 1, need);
      DrawHitsOne(Draws(d, random, i - 1), random(i - 1), need - (i - 1));
    }
  }

  /** Dropping the empty movements keeps the total. */
  lemma {:induction false} KeptTotal(ms: seq<Movement>)
    ensures Assigned(Kept(ms)) == Assigned(ms)
  {
    if ms != [] {
      var init := ms[..|ms| - 1];
      var last := ms[|ms| - 1];
      KeptTotal(init);
      var a := Kept(init);
      if last.journeyCount == 0 {
        assert a + [] == a;
      } else {
        var b := a + [last];
        assert b[..|b| - 1] == a;
      }
    }
  }

  /** The movements kept are movements of the list with a count. */
  lemma {:induction false} KeptFrom(ms: seq<Movement>)
    ensures forall m | m in Kept(ms) :: m in ms && m.journeyCount != 0
  {
    if ms != [] {
      var init := ms[..|ms| - 1];
      KeptFrom(init);
      assert forall m | m in init :: m in ms;
    }
  }

  /** Dropping the empty movements keeps the location names distinct. */
  lemma {:induction false} KeptDistinct(ms: seq<Movement>)
    requires DistinctLocations(ms)
    ensures DistinctLocations(Kept(ms))
  {
    if ms != [] {
      var init := ms[..|ms| - 1];
      var last := ms[|ms| - 1];
      assert DistinctLocations(init);
      KeptDistinct(init);
      KeptFrom(init);
      var a := Kept(init);
      if last.journeyCount == 0 {
        assert a + [] == a;
      } else {
        forall k | 0 <= k < |a| ensures a[k].locationName != last.locationName {
          assert a[k] in init;
        }
      }
    }
  }

  /** Dropping the empty movements keeps the total and the distinct names. */
  lemma KeptFacts(ms: seq<Movement>)
    ensures Assigned(Kept(ms)) == Assigned(ms)
    ensures forall m | m in Kept(ms) :: m in ms && m.journeyCount != 0
    ensures DistinctLocations(ms) ==> DistinctLocations(Kept(ms))
  {
    KeptTotal(ms);
    KeptFrom(ms);
    if DistinctLocations(ms) {
      KeptDistinct(ms);
    }
  }

  /**
   * `put` in order: a name is a key of the result exactly when some movement has it, and its
   * value is the count of one such movement (the last one).
   */
  lemma {:induction false} ToMapKeys(ms: seq<Movement>, name: string)
    ensures name in ToMap(ms) <==> exists k | 0 <= k < |ms| :: ms[k].locationName == name
    ensures name in ToMap(ms) ==> exists k | 0 <= k < |ms| ::
      ms[k].locationName == name && ToMap(ms)[name] == ms[k].journeyCount
  {
    if ms != [] {
      var init := ms[..|ms| - 1];
      ToMapKeys(init, name);
      if name != ms[|ms| - 1].locationName {
        if name in ToMap(ms) {
          var k :| 0 <= k < |init| && init[k].locationName == name && ToMap(init)[name] == init[k].journeyCount;
          assert ms[k] == init[k];
        }
        if exists k | 0 <= k < |ms| :: ms[k].locationName == name {
          var k :| 0 <= k < |ms| && ms[k].locationName == name;
          assert init[k] == ms[k];
        }
      }
    }
  }

  /** With distinct names, the values of the result map sum to the counts of the movements. */
  lemma {:induction false} ToMapTotal(ms: seq<Movement>)
    requires DistinctLocations(ms)
    ensures Total(ToMap(ms)) == Assigned(ms)
  {
    if ms != [] {
      var init := ms[..|ms| - 1];
      var last := ms[|ms| - 1];
      assert DistinctLocations(init);
      ToMapTotal(init);
      ToMapKeys(init, last.locationName);
      assert last.locationName !in ToMap(init) by {
        forall k | 0 <= k < |init| ensures init[k].locationName != last.locationName {
          assert init[k] == ms[k];
        }
      }
      TotalPut(ToMap(init), last.locationName, last.journeyCount);
    }
  }

  /**
   * Conservation: with no negative factor, a positive total, distinct location names and
   * draws in `[0, 1)`, the movements account for exactly `vehicleCount` vehicles.
   */
  lemma DistributionConserves(count: int, js: seq<Journey>, random: nat -> real)
    requires FactorSum(js) > 0.0 && (forall i | 0 <= i < |js| :: js[i].factor >= 0.0) && DistinctNames(js)
    requires forall i :: 0.0 <= random(i) < 1.0
    ensures Total(Distribution(count, js, random)) == count
  {
    var ms := Shares(js, count, FactorSum(js));
    var unassigned := Unassigned(count, js);
    SharesFacts(js, count, FactorSum(js));
    SharesLeaveRemainders(js, count);
    PendingBounds(ms);
    assert unassigned >= 0 && Open(ms) >= unassigned;
    var d := Draft(ms, unassigned as real);
    DrawsHandOut(d, random, unassigned);
    var fin := Draws(d, random, unassigned).movements;
    DrawsEvolve(d, random, unassigned);
    EvolvedDistinct(fin, ms);
    KeptFacts(fin);
    ToMapTotal(Kept(fin));
  }

  /**
   * The count `n` given to location `name` is fair: it is not zero, and some journey to `name`
   * with a positive normalised factor has a real share whose floor is `n` or `n - 1`.
   */
  predicate FairShare(name: string, n: int, js: seq<Journey>, count: int)
    requires FactorSum(js) != 0.0
  {
    && n != 0
    && exists i | 0 <= i < |js| ::
         && js[i].locationName == name && Normalised(js[i].factor, FactorSum(js)) > 0.0
         && (n == RealShare(count, Normalised(js[i].factor, FactorSum(js))).Floor
             || n == RealShare(count, Normalised(js[i].factor, FactorSum(js))).Floor + 1)
  }

  /** Every non-empty movement after the draws holds a fair share. */
  lemma EvolvedFair(fin: seq<Movement>, js: seq<Journey>, count: int)
    requires FactorSum(js) != 0.0
    requires Evolved(fin, Shares(js, count, FactorSum(js)))
    ensures forall m | m in fin && m.journeyCount != 0 :: FairShare(m.locationName, m.journeyCount, js, count)
  {
    var ms := Shares(js, count, FactorSum(js));
    SharesFacts(js, count, FactorSum(js));
    forall m | m in fin && m.journeyCount != 0
      ensures FairShare(m.locationName, m.journeyCount, js, count)
    {
      var k :| 0 <= k < |fin| && fin[k] == m;
      assert ShareOf(ms[k], js, count, FactorSum(js));
      var i :| 0 <= i < |js| && Share(js[i], count, FactorSum(js)) == Some(ms[k]);
    }
  }

  /** Draws never rename a movement, so distinct names stay distinct. */
  lemma EvolvedDistinct(fin: seq<Movement>, ms: seq<Movement>)
    requires Evolved(fin, ms) && DistinctLocations(ms)
    ensures DistinctLocations(fin)
  {
    forall i, j | 0 <= i < j < |fin| ensures fin[i].locationName != fin[j].locationName {
      assert fin[i].locationName == ms[i].locationName;
    }
  }

  /** Whatever the factors and the draws, every location in the result holds a fair share. */
  lemma DistributionShares(count: int, js: seq<Journey>, random: nat -> real)
    requires FactorSum(js) != 0.0
    ensures var r := Distribution(count, js, random);
      forall name | name in r :: FairShare(name, r[name], js, count)
  {
    var ms := Shares(js, count, FactorSum(js));
    var unassigned := Unassigned(count, js);
    var n := if unassigned > 0 then unassigned else 0;
    var d := Draft(ms, unassigned as real);
    var fin := Draws(d, random, n).movements;
    DrawsEvolve(d, random, n);
    EvolvedFair(fin, js, count);
    var kept := Kept(fin);
    KeptFacts(fin);
    var r := ToMap(kept);
    forall name | name in r ensures FairShare(name, r[name], js, count) {
      ToMapKeys(kept, name);
      var k :| 0 <= k < |kept| && kept[k].locationName == name && r[name] == kept[k].journeyCount;
      assert kept[k] in kept;
    }
  }

  /**
   * A group without journeys, or whose factors are all zero, gets no movement whatever the
   * count: each `factor / total` is NaN, so no movement is made and no draw finds one.
   */
  lemma NoFactorsNoMovements(count: int, js: seq<Journey>, random: nat -> real)
    requires NoFactors(js)
    ensures FactorSum(js) == 0.0 && Distribution(count, js, random) == map[]
  {
    ZeroFactorSum(js);
    NaNShares(js, count);
    var unassigned := Unassigned(count, js);
    var n := if unassigned > 0 then unassigned else 0;
    DrawsFindNothing(Draft([], unassigned as real), random, n);
  }

  lemma {:induction false} ZeroFactorSum(js: seq<Journey>)
    requires NoFactors(js)
    ensures FactorSum(js) == 0.0
  {
    if js != [] {
      var init := js[..|js| - 1];
      assert NoFactors(init) by {
        forall i | 0 <= i < |init| ensures init[i].factor == 0.0 {
          assert init[i] == js[i];
        }
      }
      ZeroFactorSum(js[..|js| - 1]);
    }
  }

  lemma {:induction false} NaNShares(js: seq<Journey>, count: int)
    requires NoFactors(js)
    ensures Shares(js, count, 0.0) == []
  {
    if js != [] {
      var init := js[..|js| - 1];
      assert NoFactors(init) by {
        forall i | 0 <= i < |init| ensures init[i].factor == 0.0 {
          assert init[i] == js[i];
        }
      }
      NaNShares(js[..|js| - 1], count);
    }
  }

  /** With no movement, every draw leaves the list and the running remainder as they are. */
  lemma {:induction false} DrawsFindNothing(d: Draft, random: nat -> real, n: nat)
    requires d.movements == []
    ensures Draws(d, random, n) == d
  {
    if n > 0 {
      DrawsFindNothing(d, random, n - 1);
    }
  }

  /** A count of zero gives no movement at all. */
  lemma {:induction false} NothingToDistribute(js: seq<Journey>, random: nat -> real)
    requires FactorSum(js) != 0.0
    ensures Distribution(0, js, random) == map[]
  {
    ZeroShares(js, FactorSum(js));
    var ms := Shares(js, 0, FactorSum(js));
    assert Unassigned(0, js) == 0;
    KeptNone(ms);
  }

  lemma {:induction false} ZeroShares(js: seq<Journey>, total: real)
    requires total != 0.0
    ensures var ms := Shares(js, 0, total); Assigned(ms) == 0 && forall k | 0 <= k < |ms| :: ms[k].journeyCount == 0
  {
    if js != [] {
      ZeroShares(js[..|js| - 1], total);
      var a := Shares(js[..|js| - 1], 0, total);
      var sh := Share(js[|js| - 1], 0, total);
      if sh.Some? {
        assert RealShare(0, Normalised(js[|js| - 1].factor, total)) == 0.0;
        var ms := a + [sh.value];
        assert ms[..|ms| - 1] == a;
      } else {
        assert a + [] == a;
      }
    }
  }

  lemma {:induction false} KeptNone(ms: seq<Movement>)
    requires forall k | 0 <= k < |ms| :: ms[k].journeyCount == 0
    ensures Kept(ms) == []
  {
    if ms != [] {
      KeptNone(ms[..|ms| - 1]);
    }
  }

  const Example := [Journey("A", 0.5), Journey("B", 0.4), Journey("C", 0.1)]

  /** The shares of the example: 6, 4 and 1 vehicles with remainders 0, 0.8 and 0.2. */
  lemma ExampleShares()
    ensures FactorSum(Example) == 1.0
    ensures Shares(Example, 12, 1.0) == [Movement("A", 6, 0.0), Movement("B", 4, 0.8), Movement("C", 1, 0.2)]
  {
    var js := Example;
    assert js[..2] == [Journey("A", 0.5), Journey("B", 0.4)] && js[..2][..1] == [Journey("A", 0.5)];
    assert js[..2][..1][..0] == [];
    assert FactorSum(js[..2][..1]) == 0.5;
    assert FactorSum(js[..2]) == 0.9;
    var a := Movement("A", 6, 0.0);
    var b := Movement("B", 4, 0.8);
    var c := Movement("C", 1, 0.2);
    assert Share(js[0], 12, 1.0) == Some(a);
    assert Share(js[1], 12, 1.0) == Some(b);
    assert Share(js[2], 12, 1.0) == Some(c);
    assert Shares(js[..2][..1], 12, 1.0) == [a];
    assert Shares(js[..2], 12, 1.0) == [a, b];
  }

  /** The single draw of the example bumps B when it falls below 0.8 and C otherwise. */
  lemma ExampleDraw(u: real)
    requires 0.0 <= u < 1.0
    ensures var a, b, c := Movement("A", 6, 0.0), Movement("B", 4, 0.8), Movement("C", 1, 0.2);
      var fin := Draw(Draft([a, b, c], 1.0), u).movements;
      fin == [a, Movement("B", 5, 0.0), c] || fin == [a, b, Movement("C", 2, 0.0)]
  {
    var a, b, c := Movement("A", 6, 0.0), Movement("B", 4, 0.8), Movement("C", 1, 0.2);
    var ms := [a, b, c];
    var r := DrawValue(u, 1.0);
    assert 0.0 <= r < 1.0;
    assert Accum(ms, 0) == 0.0 && Accum(ms, 1) == 0.0 && Accum(ms, 2) == 0.8 by {
      assert ms[..0] == [] && ms[..1] == [a] && ms[..2] == [a, b] && ms[..2][..1] == [a];
    }
    if r < 0.8 {
      assert Chosen(ms, r, 0) == 1;
    } else {
      assert !Hits(ms, r, 0) && !Hits(ms, r, 1) && Hits(ms, r, 2);
      assert Chosen(ms, r, 1) == 2;
    }
  }

  /** The example of `Distributor.main`: 12 vehicles split 0.5 / 0.4 / 0.1 over A, B and C. */
  lemma MainExample(random: nat -> real)
    requires 0.0 <= random(0) < 1.0
    ensures FactorSum(Example) == 1.0
    ensures var r := Distribution(12, Example, random);
      r == map["A" := 6, "B" := 5, "C" := 1] || r == map["A" := 6, "B" := 4, "C" := 2]
  {
    ExampleShares();
    var a, b, c := Movement("A", 6, 0.0), Movement("B", 4, 0.8), Movement("C", 1, 0.2);
    var ms := [a, b, c];
    assert ms[..2] == [a, b] && ms[..2][..1] == [a] && ms[..2][..1][..0] == [];
    assert Assigned(ms[..2][..1]) == 6 && Assigned(ms[..2]) == 10;
    assert ms[..|ms| - 1] == ms[..2];
    assert Assigned(ms) == 11;
    assert Unassigned(12, Example) == 1;
    var d := Draft(ms, 1.0);
    assert Draws(d, random, 1) == Draw(d, random(0));
    ExampleDraw(random(0));
    var fin := Draw(d, random(0)).movements;
    if fin == [a, Movement("B", 5, 0.0), c] {
      ThreeResults(a, Movement("B", 5, 0.0), c);
    } else {
      ThreeResults(a, b, Movement("C", 2, 0.0));
    }
  }

  lemma ThreeResults(x: Movement, y: Movement, z: Movement)
    requires x.journeyCount != 0 && y.journeyCount != 0 && z.journeyCount != 0
    ensures ToMap(Kept([x, y, z])) == map[x.locationName := x.journeyCount][y.locationName := y.journeyCount][z.locationName := z.journeyCount]
  {
    var ms := [x, y, z];
    assert ms[..2] == [x, y] && ms[..2][..1] == [x] && ms[..2][..1][..0] == [];
    assert Kept(ms[..2][..1]) == [x];
    assert Kept(ms[..2]) == [x, y];
    assert Kept(ms) == ms;
    assert ToMap(ms[..2][..1]) == map[x.locationName := x.journeyCount];
    assert ToMap(ms[..2]) == map[x.locationName := x.journeyCount][y.locationName := y.journeyCount];
  }

  /**
   * `getMovements`: the five loops of the source. A group without journeys or with only zero
   * factors divides zero by zero, and no journey gets a movement.
   */
  method GetMovements(vehicleCount: int, group: Group, random: nat -> real) returns (movements: Movements)
    requires FactorSum(group.journeys) != 0.0 || NoFactors(group.journeys)
    ensures fresh(movements)
    ensures movements.entries == Distribution(vehicleCount, group.journeys, random)
  {
    var total := SumFactors(group.journeys);
    var movementList, allotted := Allot(group.journeys, vehicleCount, total);
    var unassigned := vehicleCount - allotted;
    movementList := DrawAll(movementList, unassigned, random);
    movementList := Kept(movementList);
    movements := Collect(movementList);
  }

  /** The first loop: the sum of all factors. */
  method SumFactors(js: seq<Journey>) returns (total: real)
    ensures total == FactorSum(js)
  {
    total := 0.0;
    var k := 0;
    while k < |js|
      invariant 0 <= k <= |js| && total == FactorSum(js[..k])
    {
      assert js[..k + 1][..k] == js[..k];
      total := total + js[k].factor;
      k := k + 1;
    }
    assert js[..k] == js;
  }

  /** The second loop: one movement per journey with a positive normalised factor, given the floor of its share. */
  method Allot(js: seq<Journey>, vehicleCount: int, total: real) returns (movementList: seq<Movement>, allotted: int)
    requires total != 0.0 || NoFactors(js)
    ensures movementList == Shares(js, vehicleCount, total) && allotted == Assigned(movementList)
  {
    movementList := [];
    allotted := 0;
    var k := 0;
    while k < |js|
      invariant 0 <= k <= |js|
      invariant movementList == Shares(js[..k], vehicleCount, total) && allotted == Assigned(movementList)
    {
      assert js[..k + 1][..k] == js[..k];
      ghost var share := Share(js[k], vehicleCount, total);
      assert Shares(js[..k + 1], vehicleCount, total) == movementList + (if share.Some? then [share.value] else []);
      // with a zero total, `factor` is 0.0 / 0.0, NaN, and the test fails
      if total != 0.0 && Normalised(js[k].factor, total) > 0.0 {
        var factor := Normalised(js[k].factor, total);
        var realJourneyCount := RealShare(vehicleCount, factor);
        var movement := Movement(js[k].locationName, realJourneyCount.Floor, realJourneyCount - realJourneyCount.Floor as real);
        allotted := allotted + movement.journeyCount;
        assert (movementList + [movement])[..|movementList|] == movementList;
        movementList := movementList + [movement];
      } else {
        assert movementList + [] == movementList;
      }
      k := k + 1;
    }
    assert js[..k] == js;
  }

  /** The draw loop: `unassigned` draws, starting from a running remainder of `unassigned`. */
  method DrawAll(ms: seq<Movement>, unassigned: int, random: nat -> real) returns (movementList: seq<Movement>)
    ensures movementList == Draws(Draft(ms, unassigned as real), random, if unassigned > 0 then unassigned else 0).movements
  {
    movementList := ms;
    var remainder := unassigned as real;
    var i := 0;
    while i < unassigned
      invariant 0 <= i && (i <= unassigned || i == 0)
      invariant Draft(movementList, remainder) == Draws(Draft(ms, unassigned as real), random, i)
    {
      movementList, remainder := DrawOne(movementList, remainder, random(i));
      i := i + 1;
    }
  }

  /** The last loop: the movements put into a new map in order. */
  method Collect(movementList: seq<Movement>) returns (movements: Movements)
    ensures fresh(movements) && movements.entries == ToMap(movementList)
  {
    movements := new Movements();
    var k := 0;
    while k < |movementList|
      invariant 0 <= k <= |movementList| && movements.entries == ToMap(movementList[..k])
    {
      assert movementList[..k + 1][..k] == movementList[..k];
      movements.Put(movementList[k].locationName, movementList[k].journeyCount);
      k := k + 1;
    }
    assert movementList[..k] == movementList;
  }

  /** One iteration of the draw loop: the inner search for the movement whose window holds the draw. */
  method DrawOne(movementList: seq<Movement>, remainder: real, u: real) returns (list: seq<Movement>, rest: real)
    ensures Draft(list, rest) == Draw(Draft(movementList, remainder), u)
  {
    list, rest := movementList, remainder;
    var r := DrawValue(u, remainder);
    var accum := 0.0;
    var j := 0;
    while j < |list|
      invariant 0 <= j <= |list| && list == movementList && rest == remainder
      invariant accum == Accum(list, j) && Chosen(list, r, 0) == Chosen(list, r, j)
    {
      var movement := list[j];
      if r >= accum && r < accum + movement.remainder {
        assert Hits(movementList, r, j) && Chosen(movementList, r, 0) == j;
        rest := rest - movement.remainder;
        list := list[j := movement.(journeyCount := movement.journeyCount + 1, remainder := 0.0)];
        assert list == Bump(movementList, j);
        DrawHits(Draft(movementList, remainder), u, j);
        return;
      }
      assert list[..j + 1] == list[..j] + [list[j]];
      accum := accum + movement.remainder;
      j := j + 1;
    }
  }
}
