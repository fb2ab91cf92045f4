/**
 Passenger weight, in the two entry modes the checker offers.

 In standard mode the user enters a count per category and every passenger
 weighs the season's standard weight for their category. In override mode the
 user enters a total passenger count, one weight field is generated per
 passenger, and the passenger weight is the sum of the entered weights.
 */
module Passengers {
  import opened Tables

  /** A weight in pounds; the entry fields reject negative values. */
  type Weight = r: real | 0.0 <= r

  /** Standard-mode passenger counts per category. */
  datatype Counts = Counts(male: nat, female: nat, child: nat, infant: nat)

  /** How the passengers were entered. */
  datatype PaxEntry =
    | Standard(counts: Counts)
    | Explicit(weights: seq<Weight>)

  function CountOf(c: Counts, cat: Category): nat {
    match cat
    case Male => c.male
    case Female => c.female
    case Child => c.child
    case Infant => c.infant
  }

  // ---------------------------------------------------------------------
  // Standard mode
  // ---------------------------------------------------------------------

  /** Total passengers in standard mode: the sum of the four category counts. */
  function TotalCount(c: Counts): (n: nat)
    ensures n == 0 <==> c == Counts(0, 0, 0, 0)
    ensures forall cat: Category :: CountOf(c, cat) <= n
  {
    c.male + c.female + c.child + c.infant
  }

  /**
   Standard-mode passenger weight for season `s`: each count times its
   category's standard weight, which in pounds per passenger is 193/159/75/30
   in summer and 199/165/75/30 in winter.
   */
  function StdPaxWeight(s: Season, c: Counts): (w: nat)
    ensures s == Summer ==> w == 193 * c.male + 159 * c.female + 75 * c.child + 30 * c.infant
    ensures s == Winter ==> w == 199 * c.male + 165 * c.female + 75 * c.child + 30 * c.infant
  {
    c.male * StdWeight(s, Male)
    + c.female * StdWeight(s, Female)
    + c.child * StdWeight(s, Child)
    + c.infant * StdWeight(s, Infant)
  }

  /**
   The passengers of a standard-mode entry as a list, one element per
   passenger giving their category: all males, then females, children and
   infants.
   */
  function Manifest(c: Counts): seq<Category> {
    seq(c.male, _ => Male) + seq(c.female, _ => Female)
    + seq(c.child, _ => Child) + seq(c.infant, _ => Infant)
  }

  /** Reference weight of a passenger list: each passenger weighs their category's standard weight. */
  function ManifestWeight(s: Season, ps: seq<Category>): nat {
    if |ps| == 0 then 0 else StdWeight(s, ps[0]) + ManifestWeight(s, ps[1..])
  }

  lemma {:induction false} ManifestWeightAppend(s: Season, a: seq<Category>, b: seq<Category>)
    ensures ManifestWeight(s, a + b) == ManifestWeight(s, a) + ManifestWeight(s, b)
    decreases |a|
  {
    if |a| == 0 {
      assert a + b == b;
    } else {
      assert (a + b)[1..] == a[1..] + b;
      ManifestWeightAppend(s, a[1..], b);
    }
  }

  lemma {:induction false} ManifestWeightUniform(s: Season, n: nat, cat: Category)
    ensures ManifestWeight(s, seq(n, _ => cat)) == n * StdWeight(s, cat)
  {
    if n > 0 {
      var ps := seq(n, _ => cat);
      assert ps[1..] == seq(n - 1, _ => cat);
      ManifestWeightUniform(s, n - 1, cat);
    }
  }

  /**
   Standard mode agrees with the per-passenger reading: the manifest has
   exactly the entered number of passengers, of each category the entered
   count, and its per-passenger weight is the standard-mode passenger weight.
   */
  lemma {:induction false} StdPaxWeightIsPerPassenger(s: Season, c: Counts)
    ensures |Manifest(c)| == TotalCount(c)
    ensures ManifestWeight(s, Manifest(c)) == StdPaxWeight(s, c)
  {
    var m, f, ch, i :=
      seq(c.male, _ => Male), seq(c.female, _ => Female),
      seq(c.child, _ => Child), seq(c.infant, _ => Infant);
    assert Manifest(c) == ((m + f) + ch) + i;
    ManifestWeightAppend(s, (m + f) + ch, i);
    ManifestWeightAppend(s, m + f, ch);
    ManifestWeightAppend(s, m, f);
    ManifestWeightUniform(s, c.male, Male);
    ManifestWeightUniform(s, c.female, Female);
    ManifestWeightUniform(s, c.child, Child);
    ManifestWeightUniform(s, c.infant, Infant);
  }

  /**
   Every passenger weighs between the lightest (infant, 30) and the heaviest
   (winter male, 199) standard weight, so the passenger weight is zero exactly
   when there are no passengers.
   */
  lemma StdPaxWeightBounds(s: Season, c: Counts)
    ensures 30 * TotalCount(c) <= StdPaxWeight(s, c) <= 199 * TotalCount(c)
    ensures StdPaxWeight(s, c) == 0 <==> TotalCount(c) == 0
  {
    match s
    case Summer =>
      assert StdPaxWeight(s, c) == c.male * 193 + c.female * 159 + c.child * 75 + c.infant * 30;
    case Winter =>
      assert StdPaxWeight(s, c) == c.male * 199 + c.female * 165 + c.child * 75 + c.infant * 30;
  }

  /** Adding one passenger of category `cat` adds exactly one standard weight of that category. */
  lemma AddOnePassenger(s: Season, c: Counts, cat: Category)
    ensures var c' := match cat
                      case Male => c.(male := c.male + 1)
                      case Female => c.(female := c.female + 1)
                      case Child => c.(child := c.child + 1)
                      case Infant => c.(infant := c.infant + 1);
            TotalCount(c') == TotalCount(c) + 1
            && StdPaxWeight(s, c') == StdPaxWeight(s, c) + StdWeight(s, cat)
  {
  }

  // ---------------------------------------------------------------------
  // Override (explicit weights) mode
  // ---------------------------------------------------------------------

  /** Left-to-right sum of a list of weights. */
  function Sum(ws: seq<Weight>): (r: real)
    ensures r >= 0.0
    ensures |ws| > 0 ==> ws[|ws| - 1] <= r
  {
    if |ws| == 0 then 0.0 else Sum(ws[..|ws| - 1]) + ws[|ws| - 1]
  }

  lemma {:induction false} SumAppend(a: seq<Weight>, b: seq<Weight>)
    ensures Sum(a + b) == Sum(a) + Sum(b)
    decreases |b|
  {
    if |b| == 0 {
      assert a + b == a;
    } else {
      var b' := b[..|b| - 1];
      assert (a + b)[..|a + b| - 1] == a + b';
      SumAppend(a, b');
    }
  }

  /** No single passenger weighs more than the sum. */
  lemma {:induction false} SumBoundsEachWeight(ws: seq<Weight>, i: nat)
    requires i < |ws|
    ensures ws[i] <= Sum(ws)
  {
    assert ws == ws[..i] + ([ws[i]] + ws[i + 1..]);
    SumAppend(ws[..i], [ws[i]] + ws[i + 1..]);
    SumAppend([ws[i]], ws[i + 1..]);
    assert Sum([ws[i]]) == ws[i] by {
      assert [ws[i]][..0] == [];
    }
  }

  /** Override-mode passenger weight: the sum of the entered weights, 0 when there are none. */
  function ExplicitPaxWeight(ws: seq<Weight>): (w: real)
    ensures w >= 0.0
    ensures |ws| == 0 ==> w == 0.0
  {
    if |ws| > 0 then Sum(ws) else 0.0
  }

  /** The guard on an empty list changes nothing: the override-mode weight is always the sum. */
  lemma ExplicitPaxWeightIsSum(ws: seq<Weight>)
    ensures ExplicitPaxWeight(ws) == Sum(ws)
  {
  }

  /**
   Generates one weight field per declared passenger, in order, and reads the
   override-mode passenger weight. `entry(i)` is the value of the field for
   passenger `i + 1`.
   */
  method CollectWeights(totalPax: nat, entry: nat -> Weight) returns (ws: seq<Weight>, paxWeight: real)
    ensures |ws| == totalPax
    ensures forall i :: 0 <= i < totalPax ==> ws[i] == entry(i)
    ensures paxWeight == Sum(ws) && paxWeight >= 0.0
    ensures totalPax == 0 ==> paxWeight == 0.0
  {
    ws := [];
    var i := 0;
    while i < totalPax
      invariant 0 <= i <= totalPax
      invariant |ws| == i
      invariant forall j :: 0 <= j < i ==> ws[j] == entry(j)
    {
      ws := ws + [entry(i)];
      i := i + 1;
    }
    paxWeight := ExplicitPaxWeight(ws);
  }

  // ---------------------------------------------------------------------
  // Either mode
  // ---------------------------------------------------------------------

  /**
   Total passenger count of an entry: the category counts together in
   standard mode, one passenger per entered weight in override mode.
   */
  function TotalPax(p: PaxEntry): (n: nat)
    ensures p.Standard? ==> forall cat: Category :: CountOf(p.counts, cat) <= n
    ensures p.Standard? ==> (n == 0 <==> p.counts == Counts(0, 0, 0, 0))
    ensures p.Explicit? ==> n == |p.weights|
  {
    match p
    case Standard(c) => TotalCount(c)
    case Explicit(ws) => |ws|
  }

  /** Passenger weight of an entry in season `s` (the season matters in standard mode only). */
  function PaxWeight(s: Season, p: PaxEntry): (w: real)
    ensures w >= 0.0
    ensures TotalPax(p) == 0 ==> w == 0.0
    ensures p.Standard? ==> w == StdPaxWeight(s, p.counts) as real
    ensures p.Explicit? ==> w == Sum(p.weights)
  {
    match p
    case Standard(c) => StdPaxWeight(s, c) as real
    case Explicit(ws) => ExplicitPaxWeight(ws)
  }
}
