/** `Math.random()` as a finite stream of draws in `[0, 1)`, consumed from the front. */
module RandomDraws {

  datatype Option<T> = None | Some(value: T)

  ghost predicate Draws(draws: seq<real>) {
    forall i :: 0 <= i < |draws| ==> 0.0 <= draws[i] < 1.0
  }

  /** `Math.floor(Math.random() * count)`: an index below `count`. */
  function DrawIndex(r: real, count: nat): (i: nat)
    requires 0.0 <= r < 1.0 && count > 0
    ensures i < count
  {
    ScaledBelow(r, count);
    (r * count as real).Floor
  }

  lemma ScaledBelow(r: real, n: nat)
    requires 0.0 <= r < 1.0 && n > 0
    ensures 0.0 <= r * n as real < n as real
  {
  }

  /** The rejection loop `while (to === from) to = pick()`: indices drawn from `pos` on
      until one differs from `fromIndex`. Returns that index and the position after it,
      or `None` when the stream runs out first. */
  function DrawOther(draws: seq<real>, pos: nat, fromIndex: nat, count: nat): (r: Option<(nat, nat)>)
    requires Draws(draws) && count > 0
    ensures r.Some? ==> r.value.0 != fromIndex && r.value.0 < count && pos < r.value.1 <= |draws|
    decreases |draws| - pos
  {
    if pos >= |draws| then None
    else
      var toIndex := DrawIndex(draws[pos], count);
      if toIndex == fromIndex then DrawOther(draws, pos + 1, fromIndex, count)
      else Some((toIndex, pos + 1))
  }

  /** With one candidate every draw repeats the excluded index, so every finite stream
      runs out. */
  lemma {:induction false} OtherNeverFound(draws: seq<real>, pos: nat)
    requires Draws(draws)
    ensures DrawOther(draws, pos, 0, 1).None?
    decreases |draws| - pos
  {
    if pos < |draws| {
      OtherNeverFound(draws, pos + 1);
    }
  }
}
