/**
 * The recording flag `recording_data` and the button's falling-edge
 * handler, which negates it. There is no debounce: every edge flips it.
 */
module RecordingToggle {

  /** `gpio_interrupt_handler`: `recording_data = !recording_data`. */
  function Toggle(b: bool): (r: bool)
    ensures r != b
  {
    !b
  }

  /** `n` button edges with no other writer in between. */
  function Toggles(b: bool, n: nat): bool
  {
    if n == 0 then b else Toggle(Toggles(b, n - 1))
  }

  /** Two edges restore the flag. */
  lemma ToggleTwice(b: bool)
    ensures Toggle(Toggle(b)) == b
  {
  }

  /** After `n` edges the flag has flipped exactly when `n` is odd. */
  lemma {:induction false} TogglesParity(b: bool, n: nat)
    ensures Toggles(b, n) == (if n % 2 == 1 then !b else b)
  {
    if n > 0 {
      TogglesParity(b, n - 1);
    }
  }

  /** From the initial `false`, the flag is set after an odd number of edges. */
  lemma ActiveAfterEdges(n: nat)
    ensures Toggles(false, n) <==> n % 2 == 1
  {
    TogglesParity(false, n);
  }
}
