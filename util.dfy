/**
 * The random helpers of src/scripts/util.ts. `Math.random()` is not called
 * here: its draw, a real number in [0, 1), is passed in as `draw`.
 */
module Util {
  import opened Outcomes

  /** The message `pickRandom` throws on an empty array. */
  const EmptyArrayMessage := "Attempted to pick a random element from an empty array."

  /** `rng(min, max)`: `Math.floor(draw * (max - min + 1)) + min`. */
  function Rng(min: int, max: int, draw: real): (r: int)
    requires 0.0 <= draw < 1.0
    ensures min <= max ==> min <= r <= max
    ensures min == max ==> r == min
    ensures min > max ==> max + 1 <= r <= min
  {
    var span := max - min + 1;
    DrawTimesSpan(draw, span);
    (draw * span as real).Floor + min
  }

  /** Scaling a draw from [0, 1) by `span` stays between 0 and `span`. */
  lemma DrawTimesSpan(draw: real, span: int)
    requires 0.0 <= draw < 1.0
    ensures span >= 0 ==> 0.0 <= draw * span as real && (span > 0 ==> draw * span as real < span as real)
    ensures span < 0 ==> span as real < draw * span as real <= 0.0
  {
    if span > 0 {
      assert draw * span as real < 1.0 * span as real;
    } else if span < 0 {
      assert draw * (-span) as real < 1.0 * (-span) as real;
    }
  }

  /**
   * Each outcome of `rng(min, max)` is produced by exactly the draws in an
   * interval of width `1 / (max - min + 1)`: the outcomes are equally likely
   * when the draw is uniform.
   */
  lemma RngPreimage(min: int, max: int, draw: real, k: int)
    requires min <= max && 0.0 <= draw < 1.0
    ensures var span := (max - min + 1) as real;
      Rng(min, max, draw) == k <==> (k - min) as real / span <= draw < (k - min + 1) as real / span
  {
    var span := (max - min + 1) as real;
    var scaled := draw * span;
    var f := scaled.Floor;
    assert Rng(min, max, draw) == f + min;
    assert f as real <= scaled < f as real + 1.0;
    assert (k - min) as real / span <= draw <==> (k - min) as real <= scaled by {
      DivideBoth((k - min) as real, draw, span);
    }
    assert draw < (k - min + 1) as real / span <==> scaled < (k - min + 1) as real by {
      DivideBoth(draw * span, (k - min + 1) as real, span);
      assert draw * span / span == draw;
    }
  }

  /** Dividing both sides of a comparison by a positive number keeps it. */
  lemma DivideBoth(a: real, b: real, d: real)
    requires d > 0.0
    ensures a / d <= b <==> a <= b * d
    ensures a / d < b / d <==> a < b
    ensures b < a / d <==> b * d < a
  {
  }

  /** Every value in `[min, max]` is reachable from some draw. */
  lemma RngReachesEveryValue(min: int, max: int, k: int)
    requires min <= k <= max
    ensures var draw := (k - min) as real / (max - min + 1) as real;
      0.0 <= draw < 1.0 && Rng(min, max, draw) == k
  {
    var span := (max - min + 1) as real;
    var draw := (k - min) as real / span;
    assert draw * span == (k - min) as real;
    assert draw < 1.0 by {
      DivideBoth((k - min) as real, 1.0, span);
    }
  }

  /**
   * `pickRandom(array)`: throws on an empty array, and otherwise returns the
   * element at the index `rng(0, array.length - 1)` draws.
   */
  function PickRandom<T>(items: seq<T>, draw: real): (r: Result<T>)
    requires 0.0 <= draw < 1.0
    ensures r.Err? <==> |items| == 0
    ensures r.Err? ==> r.message == EmptyArrayMessage
    ensures r.Ok? ==> exists i :: 0 <= i < |items| && r.value == items[i]
  {
    if |items| == 0 then
      Err(EmptyArrayMessage)
    else
      var i := Rng(0, |items| - 1, draw);
      Ok(items[i])
  }

  /** Every element of a non-empty array can be picked. */
  lemma PickRandomReachesEveryElement<T>(items: seq<T>, i: nat)
    requires i < |items|
    ensures var draw := i as real / |items| as real;
      0.0 <= draw < 1.0 && PickRandom(items, draw) == Ok(items[i])
  {
    RngReachesEveryValue(0, |items| - 1, i);
  }
}
