/** The 24-bit generation counter shared by the slab and the arena. */
module Revision {
  const GENERATIONS := 0x100_0000

  type Generation = g: nat | g < GENERATIONS

  predicate IsOccupied(g: Generation) {
    g % 2 == 1
  }

  /** One more, wrapping at 2^24. */
  function NextGen(g: Generation): Generation {
    if g == GENERATIONS - 1 then 0 else g + 1
  }

  /** The 24-bit generation after so many turns. */
  function GenOf(turns: nat): Generation {
    if turns == 0 then 0 else NextGen(GenOf(turns - 1))
  }

  lemma {:induction false} GenOfMod(turns: nat)
    ensures GenOf(turns) == turns % GENERATIONS
  {
    if turns > 0 {
      GenOfMod(turns - 1);
      assert turns % GENERATIONS == NextGen((turns - 1) % GENERATIONS) by {
        hide GenOf;
      }
    }
  }
}
