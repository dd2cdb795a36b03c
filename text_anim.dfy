/**
 * The typing reveal of src/scripts/text-anim.ts: `animateText` remembers the
 * element's text, then on every interval tick shows a growing prefix of it
 * followed by one random printable character, until the whole text is back
 * and the interval is cleared.
 *
 * The interval callback is `TypingReveal.Tick`; the pure `Step` and `Run`
 * describe one tick and a sequence of ticks, and the lemmas below say where
 * a run of ticks ends.
 */
module TextAnim {
  import Util

  /**
   * One UTF-16 code unit. JavaScript strings are sequences of these:
   * `length` and `substring` count code units, so a character outside the
   * Basic Multilingual Plane takes two of them.
   */
  newtype CodeUnit = u: int | 0 <= u < 0x1_0000

  /** A JavaScript string, such as `element.innerText`. */
  type JsString = seq<CodeUnit>

  /** What the callback reads and writes: the frame counter, the element's text, whether the interval was cleared. */
  datatype State = State(frame: nat, text: JsString, stopped: bool)

  /** Right after `animateText`: frame 0, the element still showing its own text. */
  function Start(endText: JsString): State
  {
    State(0, endText, false)
  }

  /** `String.fromCharCode(rng(0x21, 0x7E))` for a given draw. */
  function ScrambleChar(draw: real): (c: CodeUnit)
    requires 0.0 <= draw < 1.0
    ensures 0x21 <= c as int <= 0x7E
  {
    Util.Rng(0x21, 0x7E, draw) as CodeUnit
  }

  /** JavaScript's `s.substring(0, n)` for `n >= 0`: the end is clamped to the length. */
  function Prefix(s: JsString, n: nat): (r: JsString)
    ensures |r| == (if n <= |s| then n else |s|) && r == s[..|r|]
  {
    if n <= |s| then s[..n] else s
  }

  /** The code-unit index reached at `frame`: `Math.floor(frame / transitionLength)`. */
  function Index(frame: nat, transitionLength: nat): (idx: nat)
    requires transitionLength > 0
    ensures idx * transitionLength <= frame < (idx + 1) * transitionLength
  {
    assert frame == (frame / transitionLength) * transitionLength + frame % transitionLength;
    frame / transitionLength
  }

  /** One run of the interval callback, with `c` the scramble code unit it draws. */
  function Step(endText: JsString, transitionLength: nat, s: State, c: CodeUnit): State
    requires transitionLength > 0
  {
    var idx := Index(s.frame, transitionLength);
    if idx == |endText| then State(s.frame, endText, true)
    else State(s.frame + 1, Prefix(endText, idx) + [c], false)
  }

  /**
   * The state after the interval has fired once per element of `units`,
   * each tick drawing the next one; once cleared, the interval fires no more.
   */
  function Run(endText: JsString, transitionLength: nat, units: seq<CodeUnit>): State
    requires transitionLength > 0
  {
    if |units| == 0 then Start(endText)
    else
      var s := Run(endText, transitionLength, units[..|units| - 1]);
      if s.stopped then s else Step(endText, transitionLength, s, units[|units| - 1])
  }

  // ---------------------------------------------------------------------
  // Integer division facts
  // ---------------------------------------------------------------------

  /** A positive multiple of `d` is at least `d`. */
  lemma MultipleAtLeast(k: int, d: nat)
    requires k >= 1
    ensures k * d >= d
  {
    assert k * d == (k - 1) * d + d;
  }

  /** Euclidean division is determined by quotient and remainder. */
  lemma DivUnique(a: nat, d: nat, q: nat, r: nat)
    requires d > 0 && r < d && a == q * d + r
    ensures a / d == q
  {
    var q', r' := a / d, a % d;
    assert q' * d + r' == q * d + r;
    if q' < q {
      MultipleAtLeast(q - q', d);
    } else if q' > q {
      MultipleAtLeast(q' - q, d);
    }
  }

  /** Below `n * d`, the quotient by `d` stays below `n`; at `n * d` it is `n`. */
  lemma IndexBelowLength(f: nat, d: nat, n: nat)
    requires d > 0 && f <= n * d
    ensures f / d <= n
    ensures f < n * d ==> f / d < n
    ensures f == n * d ==> f / d == n
  {
    var q, r := f / d, f % d;
    if q >= n {
      MultipleAtLeast(q - n + 1, d);
      assert q * d == n * d + (q - n) * d;
    }
    if f == n * d {
      DivUnique(f, d, n, 0);
    }
  }

  /** From one frame to the next the index stays or rises by one. */
  lemma IndexRisesByAtMostOne(f: nat, d: nat)
    requires d > 0
    ensures Index(f + 1, d) == Index(f, d) || Index(f + 1, d) == Index(f, d) + 1
  {
    var q, r := f / d, f % d;
    assert f == q * d + r;
    if r + 1 < d {
      DivUnique(f + 1, d, q, r + 1);
    } else {
      assert f + 1 == (q + 1) * d + 0;
      DivUnique(f + 1, d, q + 1, 0);
    }
  }

  // ---------------------------------------------------------------------
  // Runs of ticks
  // ---------------------------------------------------------------------

  /**
   * For the first `|endText| * transitionLength` ticks the interval keeps
   * running: one frame per tick, and the element shows the first `idx`
   * code units of its text followed by the code unit drawn on that tick.
   */
  lemma {:induction false} RunningTicks(endText: JsString, transitionLength: nat, units: seq<CodeUnit>)
    requires transitionLength > 0
    requires |units| <= |endText| * transitionLength
    ensures var s := Run(endText, transitionLength, units);
      !s.stopped && s.frame == |units|
      && (|units| > 0 ==>
            var idx := Index(|units| - 1, transitionLength);
            idx < |endText| && s.text == endText[..idx] + [units[|units| - 1]]
            && |s.text| == idx + 1)
  {
    if |units| > 0 {
      var n := |units| - 1;
      RunningTicks(endText, transitionLength, units[..n]);
      IndexBelowLength(n, transitionLength, |endText|);
    }
  }

  /**
   * Tick number `|endText| * transitionLength + 1` restores the full text and
   * clears the interval, without advancing the frame; nothing changes after.
   */
  lemma {:induction false} StopsAfterLastCharacter(endText: JsString, transitionLength: nat, units: seq<CodeUnit>)
    requires transitionLength > 0
    requires |units| > |endText| * transitionLength
    ensures var s := Run(endText, transitionLength, units);
      s.stopped && s.text == endText && s.frame == |endText| * transitionLength
  {
    var n := |units| - 1;
    if n == |endText| * transitionLength {
      RunningTicks(endText, transitionLength, units[..n]);
      IndexBelowLength(n, transitionLength, |endText|);
    } else {
      StopsAfterLastCharacter(endText, transitionLength, units[..n]);
    }
  }

  /**
   * The interval is cleared on tick `|endText| * transitionLength + 1` and
   * not before; for an empty text that is the first tick.
   */
  lemma StopsExactlyThen(endText: JsString, transitionLength: nat, units: seq<CodeUnit>)
    requires transitionLength > 0
    ensures Run(endText, transitionLength, units).stopped <==> |units| > |endText| * transitionLength
  {
    if |units| <= |endText| * transitionLength {
      RunningTicks(endText, transitionLength, units);
    } else {
      StopsAfterLastCharacter(endText, transitionLength, units);
    }
  }

  /**
   * The reveal as an object: `frame` and the element's `text` are the
   * variables the interval callback updates, `stopped` records that the
   * interval was cleared.
   */
  class TypingReveal {
    const endText: JsString
    const transitionLength: nat
    var frame: nat
    var text: JsString
    var stopped: bool

    ghost predicate Valid()
      reads this
    {
      && transitionLength > 0
      && frame <= |endText| * transitionLength
      && (stopped ==> text == endText && frame == |endText| * transitionLength)
    }

    function Current(): State
      reads this
    {
      State(frame, text, stopped)
    }

    /** `animateText(element, transitionLength, frameLength)` before its first tick. */
    constructor (elementText: JsString, transitionLength: nat)
      requires transitionLength > 0
      ensures Valid()
      ensures endText == elementText && this.transitionLength == transitionLength
      ensures Current() == Start(elementText)
    {
      endText := elementText;
      this.transitionLength := transitionLength;
      frame := 0;
      text := elementText;
      stopped := false;
    }

    /** One run of the interval callback; a cleared interval is never run again. */
    method Tick(draw: real)
      requires Valid() && !stopped
      requires 0.0 <= draw < 1.0
      modifies this
      ensures Valid()
      ensures Current() == Step(endText, transitionLength, old(Current()), ScrambleChar(draw))
      ensures stopped <==> Index(old(frame), transitionLength) == |endText|
      ensures stopped ==> text == endText && frame == old(frame)
      ensures !stopped ==>
        var idx := Index(old(frame), transitionLength);
        frame == old(frame) + 1 && |text| == idx + 1 && text[..idx] == endText[..idx]
        && 0x21 <= text[idx] as int <= 0x7E
    {
      IndexBelowLength(frame, transitionLength, |endText|);
      var idx := frame / transitionLength;
      if idx == |endText| {
        text := endText;
        stopped := true;
        return;
      }
      text := endText[..idx] + [ScrambleChar(draw)];
      frame := frame + 1;
    }
  }
}
