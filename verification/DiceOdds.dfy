/**
 Where the table of a round's odds comes from: the rolls of the rules' own dice, all equally
 likely, counted by what they cost.
 */
module DiceOdds {
  import opened Arithmetic
  import opened RiskRules
  import opened BattleOutcome

  /** Die number `k` is thrown: the first three are the attacker's. */
  predicate Thrown(dice: nat, answered: nat, k: nat) {
    if k < 3 then k < dice else k - 3 < answered
  }

  /** How many of the attacker's dice are the higher ones in their comparisons. */
  function Won(dice: nat, answered: nat, rolled: seq<int>): nat
    requires |rolled| == 5 && dice <= 3 && answered <= 2
  {
    AttackerWins(SortDescending(rolled[..3]), SortDescending(rolled[3..]), Min(dice, answered))
  }

  /** That is what the roll costs the defender by the rules. */
  lemma WonIsLost(s: State, attacker: AttackerDice, defender: DefenderDice)
    requires RollReady(s)
    ensures Won(s.attack.value.dice, s.defense.value, attacker + defender) == DefenderLosses(s, attacker, defender)
  {
    assert (attacker + defender)[..3] == attacker && (attacker + defender)[3..] == defender;
  }

  /** In how many ways the dice still to come cost the defender `lost` armies. A die that is not thrown shows 0. */
  function Ways(dice: nat, answered: nat, lost: nat, rolled: seq<int>): nat
    requires |rolled| <= 5 && dice <= 3 && answered <= 2
    decreases 5 - |rolled|
  {
    if |rolled| == 5 then (if Won(dice, answered, rolled) == lost then 1 else 0)
    else if !Thrown(dice, answered, |rolled|) then Ways(dice, answered, lost, rolled + [0])
    else
      Ways(dice, answered, lost, rolled + [1]) + Ways(dice, answered, lost, rolled + [2]) +
      Ways(dice, answered, lost, rolled + [3]) + Ways(dice, answered, lost, rolled + [4]) +
      Ways(dice, answered, lost, rolled + [5]) + Ways(dice, answered, lost, rolled + [6])
  }

  // ---------------------------------------------------------------------- the defence

  function Max(a: int, b: int): int {
    if a >= b then a else b
  }

  function Highest(a: int, b: int, c: int): int {
    Max(a, Max(b, c))
  }

  function Middle(a: int, b: int, c: int): int {
    if a >= Max(b, c) then Max(b, c) else Max(a, Min(b, c))
  }

  lemma SortedTwo(xs: seq<int>)
    requires |xs| == 2
    ensures SortDescending(xs) == [Max(xs[0], xs[1]), Min(xs[0], xs[1])]
  {
    assert xs[1..][1..] == [] && SortDescending(xs[1..][1..]) == [];
    assert SortDescending(xs[1..]) == [xs[1]];
    assert [xs[1]][1..] == [] && Insert(xs[0], []) == [xs[0]];
  }

  lemma InsertedThird(x: int, high: int, low: int)
    requires high >= low
    ensures Insert(x, [high, low])[0] == Max(x, high)
    ensures Insert(x, [high, low])[1] == if x >= high then high else Max(x, low)
  {
    assert [high, low][1..] == [low];
  }

  lemma SortedThree(xs: seq<int>)
    requires |xs| == 3
    ensures SortDescending(xs)[0] == Highest(xs[0], xs[1], xs[2])
    ensures SortDescending(xs)[1] == Middle(xs[0], xs[1], xs[2])
  {
    SortedTwo(xs[1..]);
    InsertedThird(xs[0], Max(xs[1], xs[2]), Min(xs[1], xs[2]));
  }

  /** What one roll costs the defender. */
  lemma RollCosts(dice: nat, answered: nat, rolled: seq<int>)
    requires |rolled| == 5 && 1 <= dice <= 3 && 1 <= answered <= 2
    ensures var x, y := Highest(rolled[0], rolled[1], rolled[2]), Middle(rolled[0], rolled[1], rolled[2]);
      Won(dice, answered, rolled)
      == (if x > Max(rolled[3], rolled[4]) then 1 else 0)
         + (if Min(dice, answered) == 2 && y > Min(rolled[3], rolled[4]) then 1 else 0)
  {
    var a, d := SortDescending(rolled[..3]), SortDescending(rolled[3..]);
    SortedThree(rolled[..3]);
    SortedTwo(rolled[3..]);
    assert AttackerWins(a, d, 1) == if a[0] > d[0] then 1 else 0;
  }

  /** The second die's faces with which the defender, having rolled `d`, loses `lost` armies to `x` and `y`. */
  function Faces(pairs: nat, lost: nat, x: int, y: int, d: int): int {
    var all := if d >= x then 0 else if pairs == 1 || d < y then x - 1 else y - 1;
    var none := if pairs == 1 then 6 - all else if d < y then 0 else if d < x then 7 - x else 7 - y;
    if lost == pairs then all else if lost == 0 then none else if lost < pairs then 6 - all - none else 0
  }

  /** Of the defender's rolls, those that cost `lost` armies against `x` and `y`. */
  function Answers(pairs: nat, answered: nat, lost: nat, x: int, y: int): int {
    if answered == 1 then (if lost == 1 then x - 1 else if lost == 0 then 7 - x else 0)
    else
      var all := if pairs == 1 then (x - 1) * (x - 1) else (y - 1) * (2 * x - y - 1);
      var none := if pairs == 1 then 36 - all else (7 - x) * (7 + x - 2 * y);
      if lost == pairs then all else if lost == 0 then none else if lost < pairs then 36 - all - none else 0
  }

  predicate Face(x: int) {
    1 <= x <= 6
  }

  lemma LastDie(dice: nat, answered: nat, lost: nat, rolled: seq<int>, d: int)
    requires |rolled| == 4 && 1 <= dice <= 3 && 1 <= answered <= 2
    ensures var x, y := Highest(rolled[0], rolled[1], rolled[2]), Middle(rolled[0], rolled[1], rolled[2]);
      Ways(dice, answered, lost, rolled + [d]) == if Costs(Min(dice, answered), x, y, rolled[3], d) == lost then 1 else 0
  {
    RollCosts(dice, answered, rolled + [d]);
  }

  function Costs(pairs: nat, x: int, y: int, d: int, e: int): nat {
    (if x > Max(d, e) then 1 else 0) + (if pairs == 2 && y > Min(d, e) then 1 else 0)
  }

  function Hits(pairs: nat, lost: nat, x: int, y: int, d: int, e: int): nat {
    if Costs(pairs, x, y, d, e) == lost then 1 else 0
  }

  lemma SixFaces(pairs: nat, lost: nat, x: int, y: int, d: int)
    requires 1 <= pairs <= 2 && Face(x) && Face(d) && (pairs == 2 ==> 1 <= y <= x)
    ensures Hits(pairs, lost, x, y, d, 1) + Hits(pairs, lost, x, y, d, 2) + Hits(pairs, lost, x, y, d, 3)
            + Hits(pairs, lost, x, y, d, 4) + Hits(pairs, lost, x, y, d, 5) + Hits(pairs, lost, x, y, d, 6)
         == Faces(pairs, lost, x, y, d)
  {
  }

  lemma SecondDie(dice: nat, answered: nat, lost: nat, rolled: seq<int>, x: int, y: int)
    requires |rolled| == 4 && 1 <= dice <= 3 && answered == 2 && Face(rolled[3])
    requires x == Highest(rolled[0], rolled[1], rolled[2]) && y == Middle(rolled[0], rolled[1], rolled[2])
    requires Face(x) && (dice >= 2 ==> Face(y))
    ensures Ways(dice, answered, lost, rolled) == Faces(Min(dice, answered), lost, x, y, rolled[3])
  {
    LastDie(dice, answered, lost, rolled, 1);
    LastDie(dice, answered, lost, rolled, 2);
    LastDie(dice, answered, lost, rolled, 3);
    LastDie(dice, answered, lost, rolled, 4);
    LastDie(dice, answered, lost, rolled, 5);
    LastDie(dice, answered, lost, rolled, 6);
    SixFaces(Min(dice, answered), lost, x, y, rolled[3]);
  }

  lemma OnlyDie(dice: nat, lost: nat, rolled: seq<int>, x: int, d: int)
    requires |rolled| == 3 && 1 <= dice <= 3 && Face(d) && x == Highest(rolled[0], rolled[1], rolled[2])
    ensures Ways(dice, 1, lost, rolled + [d]) == if (if x > d then 1 else 0) == lost then 1 else 0
  {
    LastDie(dice, 1, lost, rolled + [d], 0);
    assert Ways(dice, 1, lost, rolled + [d]) == Ways(dice, 1, lost, rolled + [d] + [0]);
  }

  lemma SixRowsOfTwo(lost: nat, x: int, y: int)
    requires Face(x) && 1 <= y <= x
    ensures Faces(2, lost, x, y, 1) + Faces(2, lost, x, y, 2) + Faces(2, lost, x, y, 3)
            + Faces(2, lost, x, y, 4) + Faces(2, lost, x, y, 5) + Faces(2, lost, x, y, 6)
         == Answers(2, 2, lost, x, y)
  {
    assert x == 1 || x == 2 || x == 3 || x == 4 || x == 5 || x == 6;
  }

  lemma SixRows(pairs: nat, lost: nat, x: int, y: int)
    requires 1 <= pairs <= 2 && Face(x) && (pairs == 2 ==> 1 <= y <= x)
    ensures Faces(pairs, lost, x, y, 1) + Faces(pairs, lost, x, y, 2) + Faces(pairs, lost, x, y, 3)
            + Faces(pairs, lost, x, y, 4) + Faces(pairs, lost, x, y, 5) + Faces(pairs, lost, x, y, 6)
         == Answers(pairs, 2, lost, x, y)
  {
    if pairs == 2 {
      SixRowsOfTwo(lost, x, y);
    }
  }

  /** The defender's dice, once the attacker's lie. */
  lemma Defences(dice: nat, answered: nat, lost: nat, rolled: seq<int>, x: int, y: int)
    requires |rolled| == 3 && 1 <= dice <= 3 && 1 <= answered <= 2
    requires x == Highest(rolled[0], rolled[1], rolled[2]) && y == Middle(rolled[0], rolled[1], rolled[2])
    requires Face(x) && (dice >= 2 ==> Face(y))
    ensures Ways(dice, answered, lost, rolled) == Answers(Min(dice, answered), answered, lost, x, y)
  {
    if answered == 1 {
      forall d | Face(d)
        ensures Ways(dice, 1, lost, rolled + [d]) == if (if x > d then 1 else 0) == lost then 1 else 0
      {
        OnlyDie(dice, lost, rolled, x, d);
      }
    } else {
      forall d | Face(d)
        ensures Ways(dice, answered, lost, rolled + [d]) == Faces(Min(dice, answered), lost, x, y, d)
      {
        SecondDie(dice, answered, lost, rolled + [d], x, y);
      }
      SixRows(Min(dice, answered), lost, x, y);
    }
  }

  // ----------------------------------------------------------------------- the attack

  /** Ways left once the attacker's first two dice lie. */
  function Thirds(dice: nat, answered: nat, lost: nat, p: int, q: int): int {
    if dice < 3 then With(dice, answered, lost, p, q, 0)
    else
      With(dice, answered, lost, p, q, 1) + With(dice, answered, lost, p, q, 2) + With(dice, answered, lost, p, q, 3) +
      With(dice, answered, lost, p, q, 4) + With(dice, answered, lost, p, q, 5) + With(dice, answered, lost, p, q, 6)
  }

  function With(dice: nat, answered: nat, lost: nat, p: int, q: int, r: int): int {
    Answers(Min(dice, answered), answered, lost, Highest(p, q, r), Middle(p, q, r))
  }

  /** Ways left once the attacker's first die lies. */
  function Seconds(dice: nat, answered: nat, lost: nat, p: int): int {
    if dice < 2 then Thirds(dice, answered, lost, p, 0)
    else
      Thirds(dice, answered, lost, p, 1) + Thirds(dice, answered, lost, p, 2) + Thirds(dice, answered, lost, p, 3) +
      Thirds(dice, answered, lost, p, 4) + Thirds(dice, answered, lost, p, 5) + Thirds(dice, answered, lost, p, 6)
  }

  lemma ThirdDie(dice: nat, answered: nat, lost: nat, rolled: seq<int>)
    requires |rolled| == 2 && 1 <= dice <= 3 && 1 <= answered <= 2
    requires Face(rolled[0]) && (if dice >= 2 then Face(rolled[1]) else rolled[1] == 0)
    ensures Ways(dice, answered, lost, rolled) == Thirds(dice, answered, lost, rolled[0], rolled[1])
  {
    forall r | if dice == 3 then Face(r) else r == 0
      ensures Ways(dice, answered, lost, rolled + [r]) == With(dice, answered, lost, rolled[0], rolled[1], r)
    {
      Defences(dice, answered, lost, rolled + [r], Highest(rolled[0], rolled[1], r), Middle(rolled[0], rolled[1], r));
    }
  }

  lemma SecondOfThree(dice: nat, answered: nat, lost: nat, p: int)
    requires 1 <= dice <= 3 && 1 <= answered <= 2 && Face(p)
    ensures Ways(dice, answered, lost, [p]) == Seconds(dice, answered, lost, p)
  {
    forall q | if dice >= 2 then Face(q) else q == 0
      ensures Ways(dice, answered, lost, [p] + [q]) == Thirds(dice, answered, lost, p, q)
    {
      ThirdDie(dice, answered, lost, [p] + [q]);
    }
  }

  /** By the attacker's first die. */
  lemma ByFirstDie(dice: nat, answered: nat, lost: nat)
    requires 1 <= dice <= 3 && 1 <= answered <= 2
    ensures Ways(dice, answered, lost, [])
         == Ways(dice, answered, lost, [1]) + Ways(dice, answered, lost, [2]) + Ways(dice, answered, lost, [3])
            + Ways(dice, answered, lost, [4]) + Ways(dice, answered, lost, [5]) + Ways(dice, answered, lost, [6])
  {
    assert forall p: int :: [] + [p] == [p];
  }

  lemma AllRolls(dice: nat, answered: nat, lost: nat)
    requires 1 <= dice <= 3 && 1 <= answered <= 2
    ensures Ways(dice, answered, lost, [])
         == Seconds(dice, answered, lost, 1) + Seconds(dice, answered, lost, 2) + Seconds(dice, answered, lost, 3)
            + Seconds(dice, answered, lost, 4) + Seconds(dice, answered, lost, 5) + Seconds(dice, answered, lost, 6)
  {
    ByFirstDie(dice, answered, lost);
    forall p | Face(p)
      ensures Ways(dice, answered, lost, [p]) == Seconds(dice, answered, lost, p)
    {
      SecondOfThree(dice, answered, lost, p);
    }
  }

  /** One count for each outcome. */
  function Outcome(answered: nat, lost: nat, both: int, split: int, neither: int, won: int, held: int): int {
    if answered == 2 then (if lost == 2 then both else if lost == 1 then split else neither)
    else if lost == 1 then won else held
  }

  lemma FirstIsOne(answered: nat, lost: nat)
    requires 1 <= answered <= 2 && lost <= answered
    ensures Seconds(3, answered, lost, 1) == Outcome(answered, lost, 295, 420, 581, 125, 91)
  {
  }

  lemma FirstIsTwo(answered: nat, lost: nat)
    requires 1 <= answered <= 2 && lost <= answered
    ensures Seconds(3, answered, lost, 2) == Outcome(answered, lost, 345, 431, 520, 126, 90)
  {
  }

  lemma FirstIsThree(answered: nat, lost: nat)
    requires 1 <= answered <= 2 && lost <= answered
    ensures Seconds(3, answered, lost, 3) == Outcome(answered, lost, 415, 447, 434, 130, 86)
  {
  }

  lemma FirstIsFour(answered: nat, lost: nat)
    requires 1 <= answered <= 2 && lost <= answered
    ensures Seconds(3, answered, lost, 4) == Outcome(answered, lost, 495, 458, 343, 139, 77)
  {
  }

  lemma FirstIsFive(answered: nat, lost: nat)
    requires 1 <= answered <= 2 && lost <= answered
    ensures Seconds(3, answered, lost, 5) == Outcome(answered, lost, 595, 450, 251, 155, 61)
  {
  }

  lemma FirstIsSix(answered: nat, lost: nat)
    requires 1 <= answered <= 2 && lost <= answered
    ensures Seconds(3, answered, lost, 6) == Outcome(answered, lost, 745, 405, 146, 180, 36)
  {
  }

  lemma FromFirst(answered: nat, lost: nat, p: int, ways: int)
    requires 1 <= answered <= 2 && Face(p) && Seconds(3, answered, lost, p) == ways
    ensures Ways(3, answered, lost, [p]) == ways
  {
    SecondOfThree(3, answered, lost, p);
  }

  lemma FromOne(answered: nat, lost: nat)
    requires 1 <= answered <= 2 && lost <= answered
    ensures Ways(3, answered, lost, [1]) == Outcome(answered, lost, 295, 420, 581, 125, 91)
  {
    FirstIsOne(answered, lost);
    FromFirst(answered, lost, 1, Outcome(answered, lost, 295, 420, 581, 125, 91));
  }

  lemma FromTwo(answered: nat, lost: nat)
    requires 1 <= answered <= 2 && lost <= answered
    ensures Ways(3, answered, lost, [2]) == Outcome(answered, lost, 345, 431, 520, 126, 90)
  {
    FirstIsTwo(answered, lost);
    FromFirst(answered, lost, 2, Outcome(answered, lost, 345, 431, 520, 126, 90));
  }

  lemma FromThree(answered: nat, lost: nat)
    requires 1 <= answered <= 2 && lost <= answered
    ensures Ways(3, answered, lost, [3]) == Outcome(answered, lost, 415, 447, 434, 130, 86)
  {
    FirstIsThree(answered, lost);
    FromFirst(answered, lost, 3, Outcome(answered, lost, 415, 447, 434, 130, 86));
  }

  lemma FromFour(answered: nat, lost: nat)
    requires 1 <= answered <= 2 && lost <= answered
    ensures Ways(3, answered, lost, [4]) == Outcome(answered, lost, 495, 458, 343, 139, 77)
  {
    FirstIsFour(answered, lost);
    FromFirst(answered, lost, 4, Outcome(answered, lost, 495, 458, 343, 139, 77));
  }

  lemma FromFive(answered: nat, lost: nat)
    requires 1 <= answered <= 2 && lost <= answered
    ensures Ways(3, answered, lost, [5]) == Outcome(answered, lost, 595, 450, 251, 155, 61)
  {
    FirstIsFive(answered, lost);
    FromFirst(answered, lost, 5, Outcome(answered, lost, 595, 450, 251, 155, 61));
  }

  lemma FromSix(answered: nat, lost: nat)
    requires 1 <= answered <= 2 && lost <= answered
    ensures Ways(3, answered, lost, [6]) == Outcome(answered, lost, 745, 405, 146, 180, 36)
  {
    FirstIsSix(answered, lost);
    FromFirst(answered, lost, 6, Outcome(answered, lost, 745, 405, 146, 180, 36));
  }

  lemma ThreeDice(answered: nat, lost: nat)
    requires 1 <= answered <= 2 && lost <= answered
    ensures Ways(3, answered, lost, []) == Outcome(answered, lost, 2890, 2611, 2275, 855, 441)
  {
    ByFirstDie(3, answered, lost);
    FromOne(answered, lost);
    FromTwo(answered, lost);
    FromThree(answered, lost);
    FromFour(answered, lost);
    FromFive(answered, lost);
    FromSix(answered, lost);
  }

  lemma TwoOnTwo(lost: nat)
    requires lost <= 2
    ensures Ways(2, 2, lost, []) == if lost == 2 then 295 else if lost == 1 then 420 else 581
  {
    AllRolls(2, 2, lost);
  }

  lemma OneOnTwo()
    ensures Ways(1, 2, 1, []) == 55 && Ways(1, 2, 0, []) == 161
  {
    AllRolls(1, 2, 1);
    AllRolls(1, 2, 0);
  }

  lemma TwoOnOne()
    ensures Ways(2, 1, 1, []) == 125 && Ways(2, 1, 0, []) == 91
  {
    AllRolls(2, 1, 1);
    AllRolls(2, 1, 0);
  }

  lemma OneOnOne()
    ensures Ways(1, 1, 1, []) == 15 && Ways(1, 1, 0, []) == 21
  {
    AllRolls(1, 1, 1);
    AllRolls(1, 1, 0);
  }

  /** Six faces for every die that is thrown. */
  function AllWays(dice: nat): (all: real)
    ensures all > 0.0
  {
    if dice == 0 then 1.0 else 6.0 * AllWays(dice - 1)
  }

  lemma AllWaysOf()
    ensures AllWays(2) == 36.0 && AllWays(3) == 216.0 && AllWays(4) == 1296.0 && AllWays(5) == 7776.0
  {
    assert AllWays(0) == 1.0 && AllWays(1) == 6.0;
  }

  /** These odds are shares of all the ways: of two armies lost by the defender, of one, of none. */
  predicate AreShares(p: Odds, pairs: nat, two: nat, one: nat, none: nat, all: real)
    requires all > 0.0
  {
    if pairs == 2 then
      p == Odds(two as real / all, one as real / all, none as real / all, 0.0, 0.0)
    else
      p == Odds(0.0, 0.0, 0.0, one as real / all, none as real / all)
  }

  lemma TableIsCounted(a: nat, d: nat, dice: nat, answered: nat, two: nat, one: nat, none: nat)
    requires a >= 1 && d >= 1 && dice == Min(3, a) && answered == Min(2, d)
    requires dice == 3 && answered == 2 ==> two == 2890 && one == 2611 && none == 2275
    requires dice == 2 && answered == 2 ==> two == 295 && one == 420 && none == 581
    requires dice == 1 && answered == 2 ==> one == 55 && none == 161
    requires dice == 3 && answered == 1 ==> one == 855 && none == 441
    requires dice == 2 && answered == 1 ==> one == 125 && none == 91
    requires dice == 1 && answered == 1 ==> one == 15 && none == 21
    ensures AreShares(GetProbs(a, d), Min(dice, answered), two, one, none, AllWays(dice + answered))
  {
    AllWaysOf();
  }

  lemma Counted(dice: nat, answered: nat, two: nat, one: nat, none: nat)
    requires 1 <= dice <= 3 && 1 <= answered <= 2
    requires two == Ways(dice, answered, 2, []) && one == Ways(dice, answered, 1, []) && none == Ways(dice, answered, 0, [])
    ensures dice == 3 && answered == 2 ==> two == 2890 && one == 2611 && none == 2275
    ensures dice == 2 && answered == 2 ==> two == 295 && one == 420 && none == 581
    ensures dice == 1 && answered == 2 ==> one == 55 && none == 161
    ensures dice == 3 && answered == 1 ==> one == 855 && none == 441
    ensures dice == 2 && answered == 1 ==> one == 125 && none == 91
    ensures dice == 1 && answered == 1 ==> one == 15 && none == 21
  {
    if dice == 3 {
      ThreeDice(answered, 0);
      ThreeDice(answered, 1);
      ThreeDice(answered, answered);
    } else if answered == 2 {
      TwoOnTwo(0);
      TwoOnTwo(1);
      TwoOnTwo(2);
      OneOnTwo();
    } else {
      TwoOnOne();
      OneOnOne();
    }
  }

  /** Each chance in the table is the share of the rolls that cost just that, where both sides throw the most dice they may. */
  lemma OddsAreShares(a: nat, d: nat, dice: nat, answered: nat)
    requires a >= 1 && d >= 1 && dice == Min(3, a) && answered == Min(2, d)
    ensures AreShares(GetProbs(a, d), Min(dice, answered), Ways(dice, answered, 2, []), Ways(dice, answered, 1, []),
                      Ways(dice, answered, 0, []), AllWays(dice + answered))
  {
    var two, one, none := Ways(dice, answered, 2, []), Ways(dice, answered, 1, []), Ways(dice, answered, 0, []);
    Counted(dice, answered, two, one, none);
    TableIsCounted(a, d, dice, answered, two, one, none);
  }
}
