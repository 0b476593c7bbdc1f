/** The animations loaded once at start-up; every player attack and every
    enemy starts from a copy of one of them. */
module Resources {
  import opened Sprites

  class Animations {
    const attackUp: Animation
    const attackBottom: Animation
    const attackLeft: Animation
    const attackRight: Animation
    const enemyUp: Animation
    const enemyBottom: Animation
    const enemyLeft: Animation
    const enemyRight: Animation

    constructor (attackUp: Animation, attackBottom: Animation, attackLeft: Animation, attackRight: Animation,
                 enemyUp: Animation, enemyBottom: Animation, enemyLeft: Animation, enemyRight: Animation)
      ensures this.attackUp == attackUp && this.attackBottom == attackBottom
      ensures this.attackLeft == attackLeft && this.attackRight == attackRight
      ensures this.enemyUp == enemyUp && this.enemyBottom == enemyBottom
      ensures this.enemyLeft == enemyLeft && this.enemyRight == enemyRight
    {
      this.attackUp, this.attackBottom, this.attackLeft, this.attackRight := attackUp, attackBottom, attackLeft, attackRight;
      this.enemyUp, this.enemyBottom, this.enemyLeft, this.enemyRight := enemyUp, enemyBottom, enemyLeft, enemyRight;
    }
  }
}
