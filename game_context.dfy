/**
 * The client's game state (`src/contexts/GameContext.tsx`): the day's target
 * picked by a linear congruential step on the day number, and the provider
 * whose `registerClick` and 30-second tick update the React state. The
 * client's jackpot is kept in integer cents; its distances as exact squares.
 */
module GameContext {
  import opened Wrappers
  import opened Geometry

  const Multiplier: int := 9301
  const Increment: int := 49297
  const Modulus: int := 233280
  /** The client's starting and reset jackpot, $100.00, in cents. */
  const BaseJackpotCents: int := 10_000

  /** The LCG applied twice to the day number. */
  function PseudoRandom(dayNumber: nat): (r: nat)
    ensures r < Modulus
  {
    var seed := dayNumber * Multiplier + Increment;
    (seed * Multiplier + Increment) % Modulus
  }

  /**
   * `generateTargetPixel`: `x = floor(pseudoRandom / 233280 * 1000)` and
   * `y = floor((pseudoRandom / 1000) % 1000)`, computed on exact rationals.
   * Because the pseudo-random value is below 233280, the `% 1000` never
   * applies and `y` never exceeds 233.
   */
  function TargetPixel(dayNumber: nat): (p: Pixel)
    ensures 0 <= p.x <= 999
    ensures p.y == PseudoRandom(dayNumber) / 1000 && 0 <= p.y <= 233
  {
    var r := PseudoRandom(dayNumber);
    Pixel((r * 1000) / Modulus, (r / 1000) % 1000)
  }

  /** One recorded attempt; the distance is kept as its square. */
  datatype Click = Click(x: int, y: int, squaredDistance: nat, timestamp: string)

  /** `GameProvider`: the state it holds in React hooks. */
  class GameProvider {
    const dayNumber: nat
    const targetPixel: Pixel
    var jackpotCents: int
    var lastClick: Option<Click>
    var hasClicked: bool

    /**
     * Mounting the provider: the target is fixed from the day number, the
     * jackpot starts at $100.00, and an attempt already stored for today
     * (read from local storage by the mount effect) is restored.
     */
    constructor (dayNumber: nat, storedAttempt: Option<Click>)
      ensures this.dayNumber == dayNumber && targetPixel == TargetPixel(dayNumber)
      ensures jackpotCents == BaseJackpotCents
      ensures lastClick == storedAttempt && hasClicked == storedAttempt.Some?
    {
      this.dayNumber := dayNumber;
      targetPixel := TargetPixel(dayNumber);
      jackpotCents := BaseJackpotCents;
      lastClick := storedAttempt;
      hasClicked := storedAttempt.Some?;
    }

    /**
     * `registerClick`: records the attempt with its distance to the target and
     * marks the day as played; a direct hit resets the jackpot to $100.00,
     * anything else leaves it alone.
     */
    method RegisterClick(x: int, y: int, timestamp: string)
      modifies this
      ensures lastClick.Some? && hasClicked
      ensures lastClick.value.x == x && lastClick.value.y == y && lastClick.value.timestamp == timestamp
      ensures lastClick.value.squaredDistance == SquaredDistance(targetPixel, x, y)
      ensures jackpotCents == if x == targetPixel.x && y == targetPixel.y then BaseJackpotCents else old(jackpotCents)
    {
      var distance := SquaredDistance(targetPixel, x, y);
      lastClick := Some(Click(x, y, distance, timestamp));
      hasClicked := true;
      if distance == 0 {
        jackpotCents := BaseJackpotCents;
      }
    }

    /** The 30-second tick: `round((prev + 0.01) * 100) / 100` is one cent more. */
    method Tick()
      modifies this
      ensures jackpotCents == old(jackpotCents) + 1
      ensures lastClick == old(lastClick) && hasClicked == old(hasClicked)
    {
      jackpotCents := jackpotCents + 1;
    }
  }
}
