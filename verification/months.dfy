/**
 Season auto-detection from the selected flight month. The program offers the
 twelve month names in calendar order and picks Summer exactly when the
 selected name is one of April through October; every other month is Winter.
 */
module Months {
  import opened Tables

  datatype Month =
    | January | February | March | April | May | June
    | July | August | September | October | November | December

  /** The month selection list, in calendar order. */
  const MonthList: seq<Month> :=
    [January, February, March, April, May, June,
     July, August, September, October, November, December]

  /** The names that select Summer, as the program lists them. */
  const SummerMonthNames: seq<string> :=
    ["April", "May", "June", "July", "August", "September", "October"]

  function MonthName(m: Month): string {
    match m
    case January => "January"
    case February => "February"
    case March => "March"
    case April => "April"
    case May => "May"
    case June => "June"
    case July => "July"
    case August => "August"
    case September => "September"
    case October => "October"
    case November => "November"
    case December => "December"
  }

  /** Calendar number of a month, January being 1. */
  function MonthNumber(m: Month): (n: nat)
    ensures 1 <= n <= 12
  {
    match m
    case January => 1
    case February => 2
    case March => 3
    case April => 4
    case May => 5
    case June => 6
    case July => 7
    case August => 8
    case September => 9
    case October => 10
    case November => 11
    case December => 12
  }

  /**
   The season suggested for a selected month name, decided by membership in
   the summer list: a name gives Summer exactly when it is the name of one of
   the seven months at positions 3 to 9 of the month list.
   */
  function SeasonOfName(name: string): (s: Season)
    ensures s == Summer <==> exists i :: 3 <= i < 10 && MonthName(MonthList[i]) == name
  {
    assert forall j :: 0 <= j < |SummerMonthNames| ==> MonthName(MonthList[j + 3]) == SummerMonthNames[j];
    if name in SummerMonthNames then Summer else Winter
  }

  /** The season suggested for month `m`: April (4) through October (10) inclusive is Summer. */
  function AutoSeason(m: Month): (s: Season)
    ensures s == Summer <==> 4 <= MonthNumber(m) <= 10
    ensures s == Winter <==> MonthNumber(m) <= 3 || 11 <= MonthNumber(m)
  {
    if 4 <= MonthNumber(m) <= 10 then Summer else Winter
  }

  /**
   The calendar rule is the program's rule: looking a month's name up in the
   list of summer month names gives the same season for every month.
   */
  lemma AutoSeasonMatchesNameList(m: Month)
    ensures SeasonOfName(MonthName(m)) == AutoSeason(m)
  {
  }

  /** The selection list holds each month once, at the position of its calendar number. */
  lemma MonthsInCalendarOrder()
    ensures |MonthList| == 12
    ensures forall i :: 0 <= i < |MonthList| ==> MonthNumber(MonthList[i]) == i + 1
    ensures forall m: Month :: MonthList[MonthNumber(m) - 1] == m
    ensures forall m, m': Month :: MonthName(m) == MonthName(m') ==> m == m'
  {
  }

  /**
   Over the selection list, the seven consecutive entries April..October
   (positions 3 to 9) give Summer, and the remaining five give Winter.
   */
  lemma SummerIsAprilThroughOctober()
    ensures forall i :: 0 <= i < |MonthList| ==> (AutoSeason(MonthList[i]) == Summer <==> 3 <= i < 10)
  {
    MonthsInCalendarOrder();
  }
}
