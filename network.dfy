/**
 * A mass-action reaction network as a discrete transition system.
 *
 * A state maps species names to integer counts (a species that is absent counts 0).
 * A reaction consumes its reactants and produces its products, each with a
 * stoichiometric coefficient. The simulator that chooses which reactions fire, and
 * when, is not modelled: a run is any sequence of steps, where a step is either one
 * exact firing of a reaction whose reactants are all available, or a leap that fires
 * a multiset of reactions at once and is kept only if no count ends up negative.
 * Every property proved here therefore holds for every trajectory such a simulator
 * could produce.
 */
module Network {
  import opened Wrappers

  type State = map<string, int>

  /** A reaction: name, stoichiometry of each side, and the name of its rate parameter. */
  datatype Reaction = Reaction(
    name: string,
    reactants: map<string, nat>,
    products: map<string, nat>,
    rate: string)

  /** The count of a species; species that are not in the state have count 0. */
  function Count(s: State, species: string): int
  {
    if species in s then s[species] else 0
  }

  /** The coefficient of a species on one side of a reaction (0 when it does not occur). */
  function Coefficient(side: map<string, nat>, species: string): nat
  {
    if species in side then side[species] else 0
  }

  /** Net change of a species when the reaction fires once. */
  function Change(r: Reaction, species: string): int
  {
    Coefficient(r.products, species) - Coefficient(r.reactants, species)
  }

  predicate NonNegative(s: State)
  {
    forall species :: species in s ==> s[species] >= 0
  }

  /** Every reactant is present at least as many times as its coefficient. */
  predicate Enabled(s: State, r: Reaction)
  {
    forall species :: species in r.reactants ==> r.reactants[species] <= Count(s, species)
  }

  /** Fire one reaction once: subtract the reactants, add the products. */
  function Fire(s: State, r: Reaction): (t: State)
    ensures forall species :: Count(t, species) == Count(s, species) + Change(r, species)
    ensures s.Keys <= t.Keys
  {
    map species | species in s.Keys + r.reactants.Keys + r.products.Keys
      :: Count(s, species) + Change(r, species)
  }

  /** Sum of the changes a species undergoes when every reaction of `firings` fires once. */
  function TotalChange(firings: seq<Reaction>, species: string): int
  {
    if firings == [] then 0 else Change(firings[0], species) + TotalChange(firings[1..], species)
  }

  /**
   * Fire a multiset of reactions (listed in any order) at once. No availability is
   * checked on the way: only the final state is judged, as a leap is.
   */
  function FireAll(s: State, firings: seq<Reaction>): (t: State)
    ensures forall species :: Count(t, species) == Count(s, species) + TotalChange(firings, species)
    ensures s.Keys <= t.Keys
    decreases |firings|
  {
    if firings == [] then s else FireAll(Fire(s, firings[0]), firings[1..])
  }

  datatype Step = Exact(reaction: Reaction) | Leap(firings: seq<Reaction>)

  /** Whether a step may be taken from `s` with the reactions of `net`. */
  predicate Allowed(net: seq<Reaction>, s: State, step: Step)
  {
    match step
    case Exact(r) => r in net && Enabled(s, r)
    case Leap(firings) => (forall f :: f in firings ==> f in net) && NonNegative(FireAll(s, firings))
  }

  function Next(s: State, step: Step): State
  {
    match step
    case Exact(r) => Fire(s, r)
    case Leap(firings) => FireAll(s, firings)
  }

  /** Take the steps in order; `None` when one of them is not allowed where it is taken. */
  function Run(net: seq<Reaction>, s: State, steps: seq<Step>): Option<State>
    decreases |steps|
  {
    if steps == [] then Some(s)
    else if Allowed(net, s, steps[0]) then Run(net, Next(s, steps[0]), steps[1..])
    else None
  }

  /**
   * `snaps` are the states recorded at consecutive output times, and `between[i]` the
   * steps taken between snapshot i and snapshot i + 1.
   */
  ghost predicate Recorded(net: seq<Reaction>, snaps: seq<State>, between: seq<seq<Step>>)
  {
    && |snaps| == |between| + 1
    && forall i :: 0 <= i < |between| ==> Run(net, snaps[i], between[i]) == Some(snaps[i + 1])
  }

  // ---------------------------------------------------------------------------
  // Quantities: sums of species counts, and the direction in which they may move.

  /** The sum of the counts of the listed species. */
  function Quantity(s: State, species: seq<string>): int
  {
    if species == [] then 0 else Count(s, species[0]) + Quantity(s, species[1..])
  }

  /** The change of a quantity when the reaction fires once. */
  function QuantityChange(r: Reaction, species: seq<string>): int
  {
    if species == [] then 0 else Change(r, species[0]) + QuantityChange(r, species[1..])
  }

  /** Quantities of one or two species, unfolded. */
  lemma SmallQuantities(s: State, a: string, b: string)
    ensures Quantity(s, [a]) == Count(s, a)
    ensures Quantity(s, [a, b]) == Count(s, a) + Count(s, b)
  {
    assert [a][1..] == [] && [a, b][1..] == [b];
    assert Quantity(s, [a, b]) == Count(s, a) + Quantity(s, [b]);
  }

  /** Changes of a quantity of one or two species, unfolded. */
  lemma SmallQuantityChanges(r: Reaction, a: string, b: string)
    ensures QuantityChange(r, [a]) == Change(r, a)
    ensures QuantityChange(r, [a, b]) == Change(r, a) + Change(r, b)
  {
    assert [a][1..] == [] && [a, b][1..] == [b];
    assert QuantityChange(r, [a, b]) == Change(r, a) + QuantityChange(r, [b]);
  }

  function LeapQuantityChange(firings: seq<Reaction>, species: seq<string>): int
  {
    if firings == [] then 0
    else QuantityChange(firings[0], species) + LeapQuantityChange(firings[1..], species)
  }

  datatype Direction = NonDecreasing | NonIncreasing

  predicate Follows(dir: Direction, before: int, after: int)
  {
    match dir
    case NonDecreasing => before <= after
    case NonIncreasing => after <= before
  }

  /** No reaction of the network moves the quantity against `dir`. */
  ghost predicate Monotone(net: seq<Reaction>, species: seq<string>, dir: Direction)
  {
    forall r :: r in net ==> Follows(dir, 0, QuantityChange(r, species))
  }

  /** No reaction of the network changes the quantity. */
  ghost predicate Conserved(net: seq<Reaction>, species: seq<string>)
  {
    Monotone(net, species, NonDecreasing) && Monotone(net, species, NonIncreasing)
  }

  // ---------------------------------------------------------------------------
  // Non-negativity.

  /** An exact firing of an enabled reaction keeps every count non-negative. */
  lemma FirePreservesNonNegative(s: State, r: Reaction)
    requires NonNegative(s) && Enabled(s, r)
    ensures NonNegative(Fire(s, r))
  {
  }

  /** Every step allowed from a non-negative state leads to a non-negative state. */
  lemma StepPreservesNonNegative(net: seq<Reaction>, s: State, step: Step)
    requires NonNegative(s) && Allowed(net, s, step)
    ensures NonNegative(Next(s, step))
  {
  }

  /** An exact firing is also a leap of one firing that the leap test accepts. */
  lemma ExactStepIsLeap(net: seq<Reaction>, s: State, r: Reaction)
    requires NonNegative(s) && Allowed(net, s, Exact(r))
    ensures Allowed(net, s, Leap([r])) && Next(s, Leap([r])) == Next(s, Exact(r))
  {
    assert FireAll(s, [r]) == FireAll(Fire(s, r), []);
    FirePreservesNonNegative(s, r);
  }

  lemma {:induction false} RunPreservesNonNegative(net: seq<Reaction>, s: State, steps: seq<Step>, t: State)
    requires NonNegative(s) && Run(net, s, steps) == Some(t)
    ensures NonNegative(t)
    decreases |steps|
  {
    if steps != [] {
      StepPreservesNonNegative(net, s, steps[0]);
      RunPreservesNonNegative(net, Next(s, steps[0]), steps[1..], t);
    }
  }

  /** Every recorded snapshot is non-negative when the first one is. */
  lemma {:induction false} RecordedNonNegative(net: seq<Reaction>, snaps: seq<State>, between: seq<seq<Step>>, j: nat)
    requires Recorded(net, snaps, between) && NonNegative(snaps[0])
    requires j < |snaps|
    ensures NonNegative(snaps[j])
  {
    if j > 0 {
      RecordedNonNegative(net, snaps, between, j - 1);
      RunPreservesNonNegative(net, snaps[j - 1], between[j - 1], snaps[j]);
    }
  }

  // ---------------------------------------------------------------------------
  // Monotone and conserved quantities.

  lemma {:induction false} QuantityAfterFire(s: State, r: Reaction, species: seq<string>)
    ensures Quantity(Fire(s, r), species) == Quantity(s, species) + QuantityChange(r, species)
  {
    if species != [] {
      QuantityAfterFire(s, r, species[1..]);
    }
  }

  lemma {:induction false} QuantityAfterLeap(s: State, firings: seq<Reaction>, species: seq<string>)
    ensures Quantity(FireAll(s, firings), species) == Quantity(s, species) + LeapQuantityChange(firings, species)
    decreases |firings|
  {
    if firings != [] {
      QuantityAfterFire(s, firings[0], species);
      QuantityAfterLeap(Fire(s, firings[0]), firings[1..], species);
    }
  }

  lemma {:induction false} LeapFollows(net: seq<Reaction>, firings: seq<Reaction>, species: seq<string>, dir: Direction)
    requires Monotone(net, species, dir)
    requires forall f :: f in firings ==> f in net
    ensures Follows(dir, 0, LeapQuantityChange(firings, species))
  {
    if firings != [] {
      assert firings[0] in net;
      LeapFollows(net, firings[1..], species, dir);
    }
  }

  lemma StepFollows(net: seq<Reaction>, s: State, step: Step, species: seq<string>, dir: Direction)
    requires Monotone(net, species, dir) && Allowed(net, s, step)
    ensures Follows(dir, Quantity(s, species), Quantity(Next(s, step), species))
  {
    match step
    case Exact(r) =>
      QuantityAfterFire(s, r, species);
    case Leap(firings) =>
      QuantityAfterLeap(s, firings, species);
      LeapFollows(net, firings, species, dir);
  }

  /** Along any run, a quantity that no reaction moves against `dir` follows `dir`. */
  lemma {:induction false} RunFollows(net: seq<Reaction>, s: State, steps: seq<Step>, t: State, species: seq<string>, dir: Direction)
    requires Monotone(net, species, dir) && Run(net, s, steps) == Some(t)
    ensures Follows(dir, Quantity(s, species), Quantity(t, species))
    decreases |steps|
  {
    if steps != [] {
      StepFollows(net, s, steps[0], species, dir);
      RunFollows(net, Next(s, steps[0]), steps[1..], t, species, dir);
    }
  }

  /** Between any two recorded snapshots, such a quantity follows `dir`. */
  lemma {:induction false} RecordedFollows(net: seq<Reaction>, snaps: seq<State>, between: seq<seq<Step>>,
                                           species: seq<string>, dir: Direction, i: nat, j: nat)
    requires Monotone(net, species, dir) && Recorded(net, snaps, between)
    requires i <= j < |snaps|
    ensures Follows(dir, Quantity(snaps[i], species), Quantity(snaps[j], species))
  {
    if i < j {
      RecordedFollows(net, snaps, between, species, dir, i, j - 1);
      RunFollows(net, snaps[j - 1], between[j - 1], snaps[j], species, dir);
    }
  }

  /** A conserved quantity is the same in every recorded snapshot. */
  lemma RecordedConserved(net: seq<Reaction>, snaps: seq<State>, between: seq<seq<Step>>,
                          species: seq<string>, i: nat, j: nat)
    requires Conserved(net, species) && Recorded(net, snaps, between)
    requires i < |snaps| && j < |snaps|
    ensures Quantity(snaps[i], species) == Quantity(snaps[j], species)
  {
    if i <= j {
      RecordedFollows(net, snaps, between, species, NonDecreasing, i, j);
      RecordedFollows(net, snaps, between, species, NonIncreasing, i, j);
    } else {
      RecordedFollows(net, snaps, between, species, NonDecreasing, j, i);
      RecordedFollows(net, snaps, between, species, NonIncreasing, j, i);
    }
  }
}
