/**
 The payload check: passenger weight plus cargo weight against the planning
 maximum of the aircraft for the season, the margin left, and the verdict
 line shown to the user.
 */
module Payload {
  import opened Tables
  import opened Months
  import opened Passengers
  import opened Cargo

  /** The computed quantities of one check, in pounds. */
  datatype PayloadResult = PayloadResult(
    paxWeight: Weight,
    cargoWeight: Weight,
    totalPayload: Weight,
    maxAllowed: nat,
    margin: real)

  /** The status line: a prompt when nothing is entered, otherwise within or over by a number of pounds. */
  datatype Verdict = EnterInputs | WithinBy(margin: real) | OverBy(excess: real)

  function Evaluate(a: Aircraft, s: Season, pax: PaxEntry, cargo: Weight): (r: PayloadResult)
    ensures r.maxAllowed == MaxPayload(a, s)
    ensures r.paxWeight == PaxWeight(s, pax) && r.cargoWeight == cargo
    ensures r.totalPayload == r.paxWeight + r.cargoWeight
    ensures r.margin == r.maxAllowed as real - r.totalPayload
    // weights are never negative, so the margin never exceeds the limit
    ensures r.margin <= r.maxAllowed as real
  {
    var paxWeight := PaxWeight(s, pax);
    var maxAllowed := MaxPayload(a, s);
    var total := paxWeight + cargo;
    PayloadResult(paxWeight, cargo, total, maxAllowed, maxAllowed as real - total)
  }

  /**
   The within-limits test on the margin. For a result whose margin is the
   limit less the total payload, it holds exactly when the payload does not
   exceed the limit.
   */
  predicate WithinLimits(r: PayloadResult)
    ensures r.margin == r.maxAllowed as real - r.totalPayload
            ==> (WithinLimits(r) <==> r.totalPayload <= r.maxAllowed as real)
  {
    r.margin >= 0.0
  }

  /**
   A check is within limits exactly when passengers plus cargo do not exceed
   the maximum; a payload equal to the maximum (margin 0) is within.
   */
  lemma WithinIffPayloadAtMostMax(a: Aircraft, s: Season, pax: PaxEntry, cargo: Weight)
    ensures WithinLimits(Evaluate(a, s, pax, cargo))
        <==> PaxWeight(s, pax) + cargo <= MaxPayload(a, s) as real
    ensures PaxWeight(s, pax) + cargo == MaxPayload(a, s) as real ==> WithinLimits(Evaluate(a, s, pax, cargo))
  {
  }

  /**
   The status line for a check of `totalPax` passengers. Nothing is judged when
   there are no passengers and no cargo; otherwise exactly one of within and
   over is reported, with a non-negative margin or a strictly positive excess.
   */
  function VerdictOf(totalPax: nat, r: PayloadResult): (v: Verdict)
    ensures v.EnterInputs? <==> totalPax == 0 && r.cargoWeight == 0.0
    ensures v.WithinBy? <==> (totalPax != 0 || r.cargoWeight != 0.0) && WithinLimits(r)
    ensures v.OverBy? <==> (totalPax != 0 || r.cargoWeight != 0.0) && !WithinLimits(r)
    ensures v.WithinBy? ==> v.margin == r.margin && v.margin >= 0.0
    ensures v.OverBy? ==> v.excess == -r.margin && v.excess > 0.0
  {
    if totalPax == 0 && r.cargoWeight == 0.0 then EnterInputs
    else if r.margin >= 0.0 then WithinBy(r.margin)
    else OverBy(-r.margin)
  }

  /**
   Adding weight never turns an over-limit check into a within-limits one:
   for the same aircraft and season, a heavier payload is over whenever a
   lighter one is.
   */
  lemma HeavierStaysOver(a: Aircraft, s: Season, pax1: PaxEntry, cargo1: Weight, pax2: PaxEntry, cargo2: Weight)
    requires PaxWeight(s, pax1) + cargo1 <= PaxWeight(s, pax2) + cargo2
    requires VerdictOf(TotalPax(pax1), Evaluate(a, s, pax1, cargo1)).OverBy?
    ensures VerdictOf(TotalPax(pax2), Evaluate(a, s, pax2, cargo2)).OverBy?
  {
  }

  /**
   The prompt hides nothing: with no passengers and no cargo the payload is
   empty and the whole limit would be left, so a loaded aircraft is never
   reported as "enter inputs" and an over-limit check is never suppressed.
   */
  lemma SuppressedOnlyWhenEmpty(a: Aircraft, s: Season, pax: PaxEntry, cargo: Weight)
    ensures var r := Evaluate(a, s, pax, cargo);
            VerdictOf(TotalPax(pax), r).EnterInputs? ==> r.totalPayload == 0.0 && r.margin == MaxPayload(a, s) as real
    ensures !WithinLimits(Evaluate(a, s, pax, cargo)) ==> VerdictOf(TotalPax(pax), Evaluate(a, s, pax, cargo)).OverBy?
  {
  }

  // ---------------------------------------------------------------------
  // One rerun of the whole screen
  // ---------------------------------------------------------------------

  /** The season control: left at the suggestion from the month, or set by hand. */
  datatype SeasonPick = Suggested | Picked(season: Season)

  function ResolveSeason(month: Month, pick: SeasonPick): (s: Season)
    ensures pick.Picked? ==> s == pick.season
    ensures pick.Suggested? ==> (s == Summer <==> 4 <= MonthNumber(month) <= 10)
  {
    match pick
    case Suggested => AutoSeason(month)
    case Picked(s) => s
  }

  /** The inputs of one rerun. */
  datatype Inputs = Inputs(
    aircraft: Aircraft,
    month: Month,
    seasonPick: SeasonPick,
    pax: PaxEntry,
    cargoOverride: bool,
    cargoEdit: Edit)

  /** What one rerun shows, and the cargo memory it leaves for the next one. */
  datatype Report = Report(
    season: Season,
    totalPax: nat,
    result: PayloadResult,
    verdict: Verdict,
    memory: CargoMemory)

  /** One rerun of the screen, from its inputs and the cargo memory of the previous rerun. */
  function Check(inp: Inputs, memory: CargoMemory): (rep: Report)
    ensures rep.season == ResolveSeason(inp.month, inp.seasonPick)
    ensures rep.totalPax == TotalPax(inp.pax)
    ensures rep.result == Evaluate(inp.aircraft, rep.season, inp.pax, rep.result.cargoWeight)
    ensures !inp.cargoOverride ==> rep.result.cargoWeight == (30 * rep.totalPax) as real
    ensures inp.cargoOverride && inp.cargoEdit.Typed? ==> rep.result.cargoWeight == inp.cargoEdit.value
    ensures inp.cargoOverride && inp.cargoEdit.Unchanged? && memory.Remembered?
            ==> rep.result.cargoWeight == memory.value
    ensures inp.cargoOverride && inp.cargoEdit.Unchanged? && memory.Unset?
            ==> rep.result.cargoWeight == (30 * rep.totalPax) as real
    ensures rep.memory == Remembered(rep.result.cargoWeight)
    ensures rep.verdict == VerdictOf(rep.totalPax, rep.result)
  {
    var season := ResolveSeason(inp.month, inp.seasonPick);
    var totalPax := TotalPax(inp.pax);
    var cargo := CargoStep(inp.cargoOverride, totalPax, memory, inp.cargoEdit);
    var result := Evaluate(inp.aircraft, season, inp.pax, cargo.cargo);
    Report(season, totalPax, result, VerdictOf(totalPax, result), cargo.memory)
  }

  /**
   Standard mode in full: the passenger weight is the standard-mode weight of
   the counts for the resolved season, and with default cargo the margin is
   the limit less that weight and 30 lb per passenger.
   */
  lemma StandardModeCheck(inp: Inputs, memory: CargoMemory)
    requires inp.pax.Standard? && !inp.cargoOverride
    ensures var rep, c := Check(inp, memory), inp.pax.counts;
            && rep.season == ResolveSeason(inp.month, inp.seasonPick)
            && rep.totalPax == c.male + c.female + c.child + c.infant
            && rep.result.paxWeight == StdPaxWeight(rep.season, c) as real
            && rep.result.margin
               == MaxPayload(inp.aircraft, rep.season) as real - rep.result.paxWeight - (30 * rep.totalPax) as real
  {
  }

  /**
   Override mode in full: the passenger count is the number of weights
   entered and the passenger weight is their sum.
   */
  lemma ExplicitModeCheck(inp: Inputs, memory: CargoMemory)
    requires inp.pax.Explicit?
    ensures var rep := Check(inp, memory);
            && rep.totalPax == |inp.pax.weights|
            && rep.result.paxWeight == Sum(inp.pax.weights)
            && (rep.totalPax == 0 ==> rep.result.paxWeight == 0.0)
  {
  }

  /**
   Winter is the heavier season for standard-mode loads: a standard-mode load
   with default cargo that is within limits in winter is within limits in
   summer too, for every aircraft.
   */
  lemma WinterWithinImpliesSummerWithin(a: Aircraft, c: Counts)
    ensures var cargo := DefaultCargo(TotalCount(c)) as real;
            WithinLimits(Evaluate(a, Winter, Standard(c), cargo))
            ==> WithinLimits(Evaluate(a, Summer, Standard(c), cargo))
  {
  }

  // ---------------------------------------------------------------------
  // The season control as written
  // ---------------------------------------------------------------------

  /** The season the session holds under the radio's key before the user touches it. */
  const InitialSessionSeason: Season := Summer

  /** A session entry: absent, or holding a value. */
  datatype Option<T> = None | Some(value: T)

  /**
   The start of every rerun: the session entry under the radio's key is set to
   Summer when it is missing, and an existing entry is left alone.
   */
  function PresetSeasonEntry(entry: Option<Season>): (e: Option<Season>)
    ensures e.Some?
    ensures entry.Some? ==> e == entry
    ensures entry.None? ==> e == Some(InitialSessionSeason)
  {
    if entry.None? then Some(InitialSessionSeason) else entry
  }

  /**
   A keyed radio as the framework draws it: it shows its session entry when
   there is one, and its default index (here the month's suggestion) only when
   there is none.
   */
  function RadioAsWritten(entry: Option<Season>, suggestion: Season): Season {
    match entry
    case Some(s) => s
    case None => suggestion
  }

  /**
   Because the preset runs before the radio is drawn, the radio as written
   never sees the month: it shows the same season whatever the month, and in a
   fresh session it agrees with the suggestion exactly for the summer months.
   */
  lemma SuggestionNeverReachesRadio(entry: Option<Season>, m1: Month, m2: Month)
    ensures RadioAsWritten(PresetSeasonEntry(entry), AutoSeason(m1))
            == RadioAsWritten(PresetSeasonEntry(entry), AutoSeason(m2))
    ensures entry.None?
            ==> (RadioAsWritten(PresetSeasonEntry(entry), AutoSeason(m1)) == AutoSeason(m1)
                 <==> 4 <= MonthNumber(m1) <= 10)
  {
  }

  /**
   The discrepancy: in a fresh session in January the radio as written shows
   Summer although the suggestion is Winter, and CJ3 with 6 male and 4 female
   passengers is then reported over by 492 lb instead of 604 lb.
   */
  lemma SuggestionLostAsWritten(memory: CargoMemory)
    ensures RadioAsWritten(PresetSeasonEntry(None), AutoSeason(January)) == Summer
    ensures AutoSeason(January) == Winter
    ensures var pax := Standard(Counts(6, 4, 0, 0));
            && Check(Inputs(CJ3, January, Picked(RadioAsWritten(PresetSeasonEntry(None), AutoSeason(January))), pax, false, Unchanged), memory).verdict
               == OverBy(492.0)
            && Check(Inputs(CJ3, January, Suggested, pax, false, Unchanged), memory).verdict
               == OverBy(604.0)
  {
    assert RadioAsWritten(PresetSeasonEntry(None), AutoSeason(January)) == Summer;
    assert StdPaxWeight(Summer, Counts(6, 4, 0, 0)) == 1794;
    assert StdPaxWeight(Winter, Counts(6, 4, 0, 0)) == 1854;
  }

  // ---------------------------------------------------------------------
  // Worked examples
  // ---------------------------------------------------------------------

  /** CJ2 in summer, 2 male and 2 female passengers, default cargo: within by 262 lb. */
  lemma ExampleCj2Summer(memory: CargoMemory)
    ensures Check(Inputs(CJ2, July, Suggested, Standard(Counts(2, 2, 0, 0)), false, Unchanged), memory).verdict
            == WithinBy(262.0)
  {
  }

  /** CJ3 with Winter picked, 6 male and 4 female passengers, default cargo: over by 604 lb. */
  lemma ExampleCj3Winter(memory: CargoMemory)
    ensures Check(Inputs(CJ3, January, Picked(Winter), Standard(Counts(6, 4, 0, 0)), false, Unchanged), memory).verdict
            == OverBy(604.0)
  {
  }

  /** Embraer in summer, weights 180, 175 and 160 entered, 50 lb cargo typed: within by 1551 lb. */
  lemma ExampleEmbraerExplicit(memory: CargoMemory)
    ensures Check(Inputs(Embraer, May, Picked(Summer), Explicit([180.0, 175.0, 160.0]), true, Typed(50.0)), memory).verdict
            == WithinBy(1551.0)
  {
    assert Sum([180.0, 175.0, 160.0]) == 515.0 by {
      assert [180.0, 175.0, 160.0][..2] == [180.0, 175.0];
      assert [180.0, 175.0][..1] == [180.0];
      assert [180.0][..0] == [];
    }
  }

  /**
   No passengers and the cargo override off: the default cargo is then 0 as
   well, so the prompt is shown instead of a verdict, in either entry mode.
   */
  lemma NothingEnteredPrompts(inp: Inputs, memory: CargoMemory)
    requires TotalPax(inp.pax) == 0 && !inp.cargoOverride
    ensures Check(inp, memory).verdict == EnterInputs
  {
    var rep := Check(inp, memory);
    assert rep.totalPax == 0 && rep.result.cargoWeight == 0.0;
  }
}
