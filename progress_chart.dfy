/** The XP arithmetic of the progress chart (src/progresschart.jsx). */
module ProgressChart {

  /** JavaScript's `%`: the remainder takes the sign of the dividend, and
      agrees with Dafny's `%` on non-negative dividends. */
  function JsRem(a: int, b: int): (r: int)
    requires b > 0
    ensures a >= 0 ==> 0 <= r < b
    ensures a < 0 ==> -b < r <= 0
    ensures a >= 0 ==> r == a % b
  {
    if a >= 0 then a % b else -((-a) % b)
  }

  /** `Math.floor(xp / 100) + 1`. Dafny's `/` by a positive divisor already
      rounds down, as `Math.floor` does. */
  function Level(xp: int): int {
    xp / 100 + 1
  }

  /** `Math.min((xp % 100) / 100 * 100, 100)`, the bar width in percent. */
  function BarPercentage(xp: int): real {
    var p := JsRem(xp, 100) as real / 100.0 * 100.0;
    if p < 100.0 then p else 100.0
  }

  /** The `n` of the "n/100 XP" label. */
  function XpLabel(xp: int): int {
    JsRem(xp, 100)
  }

  /** `100 - (xp % 100)`, shown as "XP to next level". */
  function XpToNext(xp: int): int {
    100 - JsRem(xp, 100)
  }

  /** Every non-negative amount of XP is at level 1 or higher. */
  lemma LevelAtLeastOne(xp: int)
    requires xp >= 0
    ensures Level(xp) >= 1
  {
  }

  /** The bar shows the label's number as a percentage; the cap at 100 never
      takes effect, and for non-negative XP the bar lies in [0, 100). */
  lemma BarMatchesLabel(xp: int)
    ensures BarPercentage(xp) == XpLabel(xp) as real
    ensures xp >= 0 ==> 0.0 <= BarPercentage(xp) < 100.0
  {
  }

  /** For non-negative XP the amount still needed lies in [1, 100]. */
  lemma XpToNextRange(xp: int)
    requires xp >= 0
    ensures 1 <= XpToNext(xp) <= 100
    ensures XpLabel(xp) + XpToNext(xp) == 100
  {
  }

  /** XP splits into the completed levels and the label's remainder. */
  lemma LevelDecomposition(xp: int)
    requires xp >= 0
    ensures xp == (Level(xp) - 1) * 100 + XpLabel(xp)
  {
  }

  /** Gaining exactly "XP to next level" reaches the next level, and gaining
      any smaller amount does not. */
  lemma XpToNextReachesNextLevel(xp: int, k: int)
    requires xp >= 0 && 0 <= k
    ensures Level(xp + XpToNext(xp)) == Level(xp) + 1
    ensures k < XpToNext(xp) ==> Level(xp + k) == Level(xp)
  {
    LevelDecomposition(xp);
    var q := xp / 100;
    assert xp + XpToNext(xp) == (q + 1) * 100;
    if k < XpToNext(xp) {
      assert q * 100 <= xp + k < (q + 1) * 100;
    }
  }
}
