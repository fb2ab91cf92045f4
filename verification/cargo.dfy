/**
 Cargo weight. By default the checker assumes 30 lb of cargo per passenger.
 With the override box ticked the user enters a total cargo weight instead.

 The entered value lives in the session between reruns of the script. On a
 rerun with the override on, the remembered value is shown (the current
 default when nothing was remembered yet) and whatever the field then holds is
 the cargo used and is remembered. On a rerun with the override off, the
 default is used and also remembered, so a custom value does not survive
 switching the override off and on again.
 */
module Cargo {
  import opened Passengers

  /** Assumed cargo per passenger, in pounds. */
  const CargoPerPax: nat := 30

  /** Default cargo for `totalPax` passengers: a whole 30 lb for each of them. */
  function DefaultCargo(totalPax: nat): (r: nat)
    ensures r % CargoPerPax == 0 && r / CargoPerPax == totalPax
  {
    CargoPerPax * totalPax
  }

  /** What the session holds under the cargo key between reruns. */
  datatype CargoMemory = Unset | Remembered(value: Weight)

  /** What the cargo field holds when it is read: the value it was shown with, or one the user typed. */
  datatype Edit = Unchanged | Typed(value: Weight)

  /** The cargo used by one rerun and the session's memory after it. */
  datatype CargoOutcome = CargoOutcome(cargo: Weight, memory: CargoMemory)

  /**
   One rerun of the cargo section with the override box `overrideOn`,
   `totalPax` passengers, the memory left by the previous rerun and the state
   of the cargo field.
   */
  function CargoStep(overrideOn: bool, totalPax: nat, memory: CargoMemory, edit: Edit): (r: CargoOutcome)
    // after every rerun the session remembers exactly the cargo that was used
    ensures r.memory == Remembered(r.cargo)
    // override off: the default is used, and the memory is reset to it
    ensures !overrideOn ==> r.cargo == (30 * totalPax) as real
    // override on: a typed value wins ...
    ensures overrideOn && edit.Typed? ==> r.cargo == edit.value
    // ... otherwise the remembered value is read back ...
    ensures overrideOn && edit.Unchanged? && memory.Remembered? ==> r.cargo == memory.value
    // ... and only a session with nothing remembered starts from the default
    ensures overrideOn && edit.Unchanged? && memory.Unset? ==> r.cargo == (30 * totalPax) as real
  {
    var default := DefaultCargo(totalPax) as real;
    if overrideOn then
      var shown := if memory.Unset? then default else memory.value;
      var used := if edit.Typed? then edit.value else shown;
      CargoOutcome(used, Remembered(used))
    else
      CargoOutcome(default, Remembered(default))
  }

  /**
   While the override stays on, an entered cargo value persists across any
   change of the passenger count until the user edits it.
   */
  lemma OverridePersistsAcrossPaxChanges(pax1: nat, pax2: nat, memory: CargoMemory, edit: Edit)
    ensures var first := CargoStep(true, pax1, memory, edit);
            CargoStep(true, pax2, first.memory, Unchanged).cargo == first.cargo
  {
  }

  /**
   Switching the override off and on again does not restore a custom value:
   the field comes back holding the default for the current passenger count.
   */
  lemma ReenablingShowsDefault(pax1: nat, pax2: nat, custom: Weight, memory: CargoMemory)
    ensures var on := CargoStep(true, pax1, memory, Typed(custom));
            var off := CargoStep(false, pax2, on.memory, Unchanged);
            CargoStep(true, pax2, off.memory, Unchanged).cargo == (30 * pax2) as real
  {
  }

  /** A rerun with unchanged inputs reproduces the previous rerun's cargo and memory. */
  lemma RerunIsStable(overrideOn: bool, totalPax: nat, memory: CargoMemory, edit: Edit)
    ensures var first := CargoStep(overrideOn, totalPax, memory, edit);
            CargoStep(overrideOn, totalPax, first.memory, Unchanged) == first
  {
  }
}
