/**
 The static configuration of the Max ZFW (pax + cargo) checker: the closed
 enumerations of aircraft types, seasons and passenger categories, the
 planning maximum for passengers plus cargo per aircraft and season, and the
 standard passenger weight per season and category. All weights are pounds.

 The program keys both tables by display strings. The typed lookups below are
 total by construction; `LookupNeverMisses` connects them to the string-keyed
 tables as written, which shows that a lookup with a name taken from the
 closed lists always hits.
 */
module Tables {

  datatype Aircraft = CJ2 | CJ3 | Embraer
  datatype Season = Summer | Winter
  datatype Category = Male | Female | Child | Infant

  /** The names the selection widgets offer, in their display order. */
  const AircraftNames: seq<string> := ["CJ2", "CJ3", "Embraer"]
  const SeasonNames: seq<string> := ["Summer", "Winter"]

  function AircraftName(a: Aircraft): string {
    match a
    case CJ2 => "CJ2"
    case CJ3 => "CJ3"
    case Embraer => "Embraer"
  }

  function SeasonName(s: Season): string {
    match s
    case Summer => "Summer"
    case Winter => "Winter"
  }

  function CategoryName(c: Category): string {
    match c
    case Male => "Male"
    case Female => "Female"
    case Child => "Child"
    case Infant => "Infant"
  }

  /** The maximum passenger-plus-cargo payload, as the nested string-keyed table. */
  const MaxPaxCargoTable: map<string, map<string, int>> := map[
    "CJ2" := map["Summer" := 1086, "Winter" := 1034],
    "CJ3" := map["Summer" := 1602, "Winter" := 1550],
    "Embraer" := map["Summer" := 2116, "Winter" := 2104]
  ]

  /** The standard passenger weights, as the nested string-keyed table. */
  const StdWeightsTable: map<string, map<string, int>> := map[
    "Summer" := map["Male" := 193, "Female" := 159, "Child" := 75, "Infant" := 30],
    "Winter" := map["Male" := 199, "Female" := 165, "Child" := 75, "Infant" := 30]
  ]

  /** Planning maximum for passengers plus cargo of aircraft `a` in season `s`. */
  function MaxPayload(a: Aircraft, s: Season): (r: nat)
    ensures 1034 <= r <= 2116
  {
    match (a, s)
    case (CJ2, Summer) => 1086
    case (CJ2, Winter) => 1034
    case (CJ3, Summer) => 1602
    case (CJ3, Winter) => 1550
    case (Embraer, Summer) => 2116
    case (Embraer, Winter) => 2104
  }

  /** Standard weight of one passenger of category `c` in season `s`. */
  function StdWeight(s: Season, c: Category): (r: nat)
    ensures 30 <= r <= 199
  {
    match (s, c)
    case (Summer, Male) => 193
    case (Summer, Female) => 159
    case (Winter, Male) => 199
    case (Winter, Female) => 165
    case (_, Child) => 75
    case (_, Infant) => 30
  }

  /** The name of an aircraft type or season is in its selection list and picks it out. */
  lemma NamesExact(a: Aircraft, s: Season)
    ensures AircraftName(a) in AircraftNames
    ensures forall b: Aircraft :: AircraftName(b) == AircraftName(a) ==> b == a
    ensures SeasonName(s) in SeasonNames
    ensures forall t: Season :: SeasonName(t) == SeasonName(s) ==> t == s
  {
  }

  /**
   Every (aircraft, season) and (season, category) key built from the closed
   lists is present in the string-keyed tables, and the entry found there is
   the typed lookup's value.
   */
  lemma LookupNeverMisses(a: Aircraft, s: Season, c: Category)
    ensures AircraftName(a) in MaxPaxCargoTable
    ensures SeasonName(s) in MaxPaxCargoTable[AircraftName(a)]
    ensures MaxPaxCargoTable[AircraftName(a)][SeasonName(s)] == MaxPayload(a, s)
    ensures SeasonName(s) in StdWeightsTable
    ensures CategoryName(c) in StdWeightsTable[SeasonName(s)]
    ensures StdWeightsTable[SeasonName(s)][CategoryName(c)] == StdWeight(s, c)
  {
  }

  /** The tables hold nothing beyond the closed enumerations. */
  lemma TablesHaveNoOtherKeys()
    ensures forall k :: k in MaxPaxCargoTable ==> exists a :: AircraftName(a) == k
    ensures forall k :: k in StdWeightsTable ==> exists s :: SeasonName(s) == k
    ensures forall k, k' :: k in MaxPaxCargoTable && k' in MaxPaxCargoTable[k] ==> exists s :: SeasonName(s) == k'
    ensures forall k, k' :: k in StdWeightsTable && k' in StdWeightsTable[k] ==> exists c :: CategoryName(c) == k'
  {
    assert AircraftName(CJ2) == "CJ2" && AircraftName(CJ3) == "CJ3" && AircraftName(Embraer) == "Embraer";
    assert SeasonName(Summer) == "Summer" && SeasonName(Winter) == "Winter";
    assert CategoryName(Male) == "Male" && CategoryName(Female) == "Female";
    assert CategoryName(Child) == "Child" && CategoryName(Infant) == "Infant";
  }
}
