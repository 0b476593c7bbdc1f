/** The player's lives. */
module LifeBars {

  /** What a heart of the life bar shows. */
  datatype Heart = Full | Empty

  /** `lives` after one saturating decrement. */
  function Decremented(lives: nat): (r: nat)
    ensures r <= lives
    ensures lives > 0 ==> r == lives - 1
    ensures r == 0 <==> lives <= 1
  {
    if lives == 0 then 0 else lives - 1
  }

  /** `lives` after `hits` saturating decrements: it drops by one per hit
      and stops at zero. */
  function LivesAfter(lives: nat, hits: nat): (r: nat)
    ensures r == if hits <= lives then lives - hits else 0
    decreases hits
  {
    if hits == 0 then lives else Decremented(LivesAfter(lives, hits - 1))
  }

  class LifeBar {
    const maxLives: nat
    var lives: nat

    /** Never more lives than the maximum. */
    ghost predicate Valid()
      reads this
    {
      lives <= maxLives
    }

    /** A full life bar. */
    constructor (maxLives: nat)
      ensures Valid()
      ensures this.maxLives == maxLives && lives == maxLives
    {
      this.maxLives := maxLives;
      lives := maxLives;
    }

    /** Loses one life, never going below zero. */
    method Decrement()
      requires Valid()
      modifies this
      ensures Valid()
      ensures lives == Decremented(old(lives))
    {
      lives := if lives == 0 then 0 else lives - 1;
    }

    /** Whether no life is left: exactly when a further hit no longer
        changes the bar. */
    predicate IsEmpty(): (r: bool)
      reads this
      ensures r <==> Decremented(lives) == lives
      ensures r <==> LivesAfter(lives, 1) == lives
    {
      lives == 0
    }

    /** The hearts the life bar draws, left to right: one per possible life,
        full for the lives left and empty for the lives lost. */
    method Hearts() returns (hearts: seq<Heart>)
      ensures |hearts| == maxLives
      ensures forall i :: 0 <= i < |hearts| ==> (hearts[i] == Full <==> i < lives)
    {
      hearts := [];
      for index := 0 to maxLives
        invariant |hearts| == index
        invariant forall i :: 0 <= i < index ==> (hearts[i] == Full <==> i < lives)
      {
        var heart := if index < lives then Full else Empty;
        hearts := hearts + [heart];
      }
    }
  }

  /** A fresh life bar is empty after exactly `maxLives` decrements. */
  lemma EmptyAfterMaxLivesHits(maxLives: nat, hits: nat)
    ensures LivesAfter(maxLives, hits) == 0 <==> hits >= maxLives
  {
  }
}
