/** The collision pass of a frame, on values: each enemy body meets one fate,
    a kill taking precedence over a hit on the player, and the survivors
    keep their order. */
module Collisions {
  import opened Wrappers
  import opened Geometry
  import opened Players

  /** What the collision pass does with one enemy. */
  datatype Fate = Killed | Hurt | Survives

  /** The fate of the enemy with body `body`: killed when the slash of the
      frame (if any) overlaps it, otherwise hurting the player when the
      bodies overlap, otherwise surviving. */
  function FateOf(attack: Option<Slash>, player: Rect, body: Rect): (f: Fate)
    ensures f == Killed <==> attack.Some? && attack.value.area.Overlaps(body)
    ensures f == Hurt <==> !(attack.Some? && attack.value.area.Overlaps(body)) && body.Overlaps(player)
    ensures attack.None? ==> f != Killed
  {
    if attack.Some? && attack.value.area.Overlaps(body) then Killed
    else if body.Overlaps(player) then Hurt
    else Survives
  }

  /** The fate of every body, in order. */
  function Fates(attack: Option<Slash>, player: Rect, bodies: seq<Rect>): seq<Fate> {
    seq(|bodies|, i requires 0 <= i < |bodies| => FateOf(attack, player, bodies[i]))
  }

  /** How many of `fates` are `f`. */
  function Count(fates: seq<Fate>, f: Fate): (n: nat)
    ensures n <= |fates|
  {
    if |fates| == 0 then 0
    else Count(fates[..|fates| - 1], f) + (if fates[|fates| - 1] == f then 1 else 0)
  }

  /** No enemy meets fate `f` exactly when its count is zero. */
  lemma {:induction false} CountZero(fates: seq<Fate>, f: Fate)
    ensures Count(fates, f) == 0 <==> f !in fates
  {
    if |fates| > 0 {
      var init := fates[..|fates| - 1];
      CountZero(init, f);
      assert fates == init + [fates[|fates| - 1]];
    }
  }

  /** The elements of `xs` whose fate is `Survives`, in order. */
  function Keep<T>(xs: seq<T>, fates: seq<Fate>): seq<T>
    requires |xs| == |fates|
  {
    if |xs| == 0 then []
    else Keep(xs[..|xs| - 1], fates[..|xs| - 1]) + (if fates[|xs| - 1] == Survives then [xs[|xs| - 1]] else [])
  }

  /** Extending the pass by one enemy: it is kept exactly when it survives. */
  lemma KeepExtend<T>(xs: seq<T>, fates: seq<Fate>, i: nat)
    requires i < |xs| == |fates|
    ensures Keep(xs[..i + 1], fates[..i + 1]) == Keep(xs[..i], fates[..i]) + (if fates[i] == Survives then [xs[i]] else [])
  {
    assert xs[..i + 1][..i] == xs[..i] && fates[..i + 1][..i] == fates[..i];
  }

  /** Extending the pass by one enemy: it adds one to the count of its fate. */
  lemma CountExtend(fates: seq<Fate>, i: nat, f: Fate)
    requires i < |fates|
    ensures Count(fates[..i + 1], f) == Count(fates[..i], f) + (if fates[i] == f then 1 else 0)
  {
    assert fates[..i + 1][..i] == fates[..i];
  }

  /** The positions whose fate is `Survives`, in increasing order. */
  function SurvivorIndices(fates: seq<Fate>): seq<nat> {
    if |fates| == 0 then []
    else SurvivorIndices(fates[..|fates| - 1]) + (if fates[|fates| - 1] == Survives then [|fates| - 1] else [])
  }

  /** `SurvivorIndices` lists exactly the surviving positions, each once, in
      increasing order. */
  lemma {:induction false} SurvivorIndicesSpec(fates: seq<Fate>)
    ensures forall k :: 0 <= k < |SurvivorIndices(fates)| ==> SurvivorIndices(fates)[k] < |fates|
    ensures forall a, b :: 0 <= a < b < |SurvivorIndices(fates)| ==> SurvivorIndices(fates)[a] < SurvivorIndices(fates)[b]
    ensures forall i :: 0 <= i < |fates| ==> (fates[i] == Survives <==> i in SurvivorIndices(fates))
    ensures |SurvivorIndices(fates)| == Count(fates, Survives)
  {
    if |fates| > 0 {
      var init := fates[..|fates| - 1];
      SurvivorIndicesSpec(init);
      assert forall i :: 0 <= i < |init| ==> fates[i] == init[i];
    }
  }

  /** The survivors are exactly the elements at the surviving positions, in
      their original order. */
  lemma {:induction false} KeepSpec<T>(xs: seq<T>, fates: seq<Fate>)
    requires |xs| == |fates|
    ensures |Keep(xs, fates)| == |SurvivorIndices(fates)|
    ensures forall k :: 0 <= k < |Keep(xs, fates)| ==>
              SurvivorIndices(fates)[k] < |xs| && Keep(xs, fates)[k] == xs[SurvivorIndices(fates)[k]]
  {
    if |xs| > 0 {
      var n := |xs| - 1;
      var init, initFates := xs[..n], fates[..n];
      KeepSpec(init, initFates);
      SurvivorIndicesSpec(initFates);
      var kept, indices := Keep(init, initFates), SurvivorIndices(initFates);
      assert Keep(xs, fates) == kept + (if fates[n] == Survives then [xs[n]] else []);
      assert SurvivorIndices(fates) == indices + (if fates[n] == Survives then [n] else []);
      forall k | 0 <= k < |Keep(xs, fates)|
        ensures SurvivorIndices(fates)[k] < |xs| && Keep(xs, fates)[k] == xs[SurvivorIndices(fates)[k]]
      {
        if k < |kept| {
          assert init[indices[k]] == xs[indices[k]];
        }
      }
    }
  }

  /** Every enemy meets exactly one fate. */
  lemma {:induction false} CountsAddUp(fates: seq<Fate>)
    ensures Count(fates, Killed) + Count(fates, Hurt) + Count(fates, Survives) == |fates|
  {
    if |fates| > 0 {
      CountsAddUp(fates[..|fates| - 1]);
    }
  }

  /** Without a slash, nothing is killed. */
  lemma {:induction false} NoAttackNoKills(player: Rect, bodies: seq<Rect>)
    ensures Count(Fates(None, player, bodies), Killed) == 0
  {
    var fates := Fates(None, player, bodies);
    assert forall i :: 0 <= i < |fates| ==> fates[i] != Killed;
    CountZero(fates, Killed);
  }
}
