/**
 * The referee's rules for one call of a number, on values.
 *
 * A `Card` is what the referee sees of one player: the ticket's two
 * remaining-number sets, the ticket's size and the player's three reporting
 * flags. `Awards` are the game's three sticky category flags. `Round` is
 * one call of `callNumber` after the number is drawn: every player in list
 * order marks the number and, on a hit, is checked for Early Five, Top Line
 * and Full House in that order. The game object is proved to follow `Round`;
 * the lemmas here say what `Round` guarantees.
 */
module Awarding {

  /** Hits a ticket needs for Early Five, and the calls that must have been made first. */
  const EarlyFive := 5

  datatype Card = Card(
    topLine: set<int>,
    fullHouse: set<int>,
    capacity: int,
    topLineWinner: bool,
    earlyFiveWinner: bool,
    fullHouseWinner: bool)

  datatype Awards = Awards(earlyFive: bool, topLine: bool, fullHouse: bool)

  datatype Category = EarlyFiveAward | TopLineAward | FullHouseAward

  /** A ticket's hits: its original size less the numbers still unmarked. */
  function Hits(c: Card): (hits: int)
  {
    c.capacity - |c.fullHouse|
  }

  /** The player's own flag for a category. */
  function Flag(c: Card, cat: Category): (held: bool)
  {
    match cat
    case EarlyFiveAward => c.earlyFiveWinner
    case TopLineAward => c.topLineWinner
    case FullHouseAward => c.fullHouseWinner
  }

  /** The game's flag for a category. */
  function Awarded(a: Awards, cat: Category): (awarded: bool)
  {
    match cat
    case EarlyFiveAward => a.earlyFive
    case TopLineAward => a.topLine
    case FullHouseAward => a.fullHouse
  }

  /** Every award in `a` is still in `b`. */
  predicate Within(a: Awards, b: Awards)
  {
    forall cat :: Awarded(a, cat) ==> Awarded(b, cat)
  }

  /** Awards that stay within one another keep each category's flag set. */
  lemma WithinKeepsFlags(a: Awards, b: Awards)
    requires Within(a, b)
    ensures a.earlyFive ==> b.earlyFive
    ensures a.topLine ==> b.topLine
    ensures a.fullHouse ==> b.fullHouse
  {
    assert Awarded(a, EarlyFiveAward) ==> Awarded(b, EarlyFiveAward);
    assert Awarded(a, TopLineAward) ==> Awarded(b, TopLineAward);
    assert Awarded(a, FullHouseAward) ==> Awarded(b, FullHouseAward);
  }

  /** The card after n is marked: the number leaves both sets. */
  function Mark(c: Card, n: int): (marked: Card)
  {
    c.(topLine := c.topLine - {n}, fullHouse := c.fullHouse - {n})
  }

  /** Early Five check of a hitter: unawarded, five calls made, exactly five hits. */
  function EarlyFiveCheck(c: Card, total: int, a: Awards): (r: (Card, Awards))
    // Only the Early Five flag and award can change, and neither is withdrawn.
    ensures r.0 == c.(earlyFiveWinner := r.0.earlyFiveWinner) && r.1 == a.(earlyFive := r.1.earlyFive)
    ensures Within(a, r.1)
    // Early Five is awarded now exactly when it was unawarded, five numbers
    // are called and the ticket has exactly five hits; it goes to this card.
    ensures r.1.earlyFive != a.earlyFive <==> !a.earlyFive && total >= EarlyFive && Hits(c) == EarlyFive
    ensures r.0.earlyFiveWinner == (c.earlyFiveWinner || r.1.earlyFive != a.earlyFive)
  {
    if !a.earlyFive && total >= EarlyFive && Hits(c) == EarlyFive then
      (c.(earlyFiveWinner := true), a.(earlyFive := true))
    else
      (c, a)
  }

  /** Top Line check of a hitter: while unawarded, the flag records whether the top line is empty. */
  function TopLineCheck(c: Card, a: Awards): (r: (Card, Awards))
    // An awarded Top Line is not checked again.
    ensures a.topLine ==> r == (c, a)
    // Only the Top Line flag and award can change.
    ensures r.0 == c.(topLineWinner := r.0.topLineWinner) && r.1 == a.(topLine := r.1.topLine)
    // While unawarded, it is awarded exactly when the top line is empty, and the card's flag says the same.
    ensures !a.topLine ==> (r.1.topLine <==> c.topLine == {}) && r.0.topLineWinner == r.1.topLine
  {
    if a.topLine then
      (c, a)
    else
      (c.(topLineWinner := c.topLine == {}), a.(topLine := c.topLine == {}))
  }

  /** Full House check of a hitter: while unawarded, the flag records whether the ticket is empty. */
  function FullHouseCheck(c: Card, a: Awards): (r: (Card, Awards))
    // An awarded Full House is not checked again.
    ensures a.fullHouse ==> r == (c, a)
    // Only the Full House flag and award can change.
    ensures r.0 == c.(fullHouseWinner := r.0.fullHouseWinner) && r.1 == a.(fullHouse := r.1.fullHouse)
    // While unawarded, it is awarded exactly when the ticket is empty, and the card's flag says the same.
    ensures !a.fullHouse ==> (r.1.fullHouse <==> c.fullHouse == {}) && r.0.fullHouseWinner == r.1.fullHouse
  {
    if a.fullHouse then
      (c, a)
    else
      (c.(fullHouseWinner := c.fullHouse == {}), a.(fullHouse := c.fullHouse == {}))
  }

  /** One player's turn: mark n, and on a hit check the three categories in order. */
  function CheckPlayer(c: Card, n: int, total: int, a: Awards): (r: (Card, Awards))
    // The number is gone from both sets; the ticket's size is unchanged.
    ensures r.0.topLine == c.topLine - {n} && r.0.fullHouse == c.fullHouse - {n}
    ensures r.0.capacity == c.capacity
    // A player who did not hit n is not evaluated.
    ensures n !in c.fullHouse ==> r.1 == a && forall cat :: Flag(r.0, cat) == Flag(c, cat)
    // Awards are sticky.
    ensures Within(a, r.1)
  {
    var c1 := Mark(c, n);
    if n !in c.fullHouse then
      (c1, a)
    else
      var early := EarlyFiveCheck(c1, total, a);
      var top := TopLineCheck(early.0, early.1);
      FullHouseCheck(top.0, top.1)
  }

  /**
   * Early Five goes to a hitter with exactly five hits once five numbers are
   * called; Top Line and Full House go to a hitter whose set has just emptied.
   */
  lemma TurnAwards(c: Card, n: int, total: int, a: Awards)
    ensures var r := CheckPlayer(c, n, total, a);
      !a.earlyFive ==> (r.1.earlyFive <==> n in c.fullHouse && total >= EarlyFive && Hits(r.0) == EarlyFive)
    ensures var r := CheckPlayer(c, n, total, a);
      !a.topLine ==> (r.1.topLine <==> n in c.fullHouse && r.0.topLine == {})
    ensures var r := CheckPlayer(c, n, total, a);
      !a.fullHouse ==> (r.1.fullHouse <==> n in c.fullHouse && r.0.fullHouse == {})
  {
  }

  /**
   * A flag moves in a turn only for a hitter and only while its category is
   * unawarded; an unawarded category is awarded in the turn exactly when
   * this player's flag becomes set.
   */
  lemma TurnGates(c: Card, n: int, total: int, a: Awards)
    ensures var r := CheckPlayer(c, n, total, a);
      forall cat :: Flag(r.0, cat) != Flag(c, cat) ==> !Awarded(a, cat) && n in c.fullHouse
    ensures var r := CheckPlayer(c, n, total, a);
      forall cat :: !Awarded(a, cat) && !Flag(c, cat) ==> (Awarded(r.1, cat) <==> Flag(r.0, cat))
  {
  }

  /** The turns of players 0..k-1, in list order. */
  function CheckAll(cs: seq<Card>, k: nat, n: int, total: int, a: Awards): (r: (seq<Card>, Awards))
    requires k <= |cs|
    ensures |r.0| == |cs| && r.0[k..] == cs[k..]
    ensures Within(a, r.1)
  {
    if k == 0 then
      (cs, a)
    else
      var before := CheckAll(cs, k - 1, n, total, a);
      var turn := CheckPlayer(before.0[k - 1], n, total, before.1);
      (before.0[k - 1 := turn.0], turn.1)
  }

  /** Turn k extends the turns of players 0..k-1 by player k's card and the awards it leaves. */
  lemma CheckAllNext(cs: seq<Card>, k: nat, n: int, total: int, a: Awards, card: Card, awards: Awards)
    requires k < |cs|
    requires (card, awards) == CheckPlayer(CheckAll(cs, k, n, total, a).0[k], n, total, CheckAll(cs, k, n, total, a).1)
    ensures CheckAll(cs, k + 1, n, total, a) == (CheckAll(cs, k, n, total, a).0[k := card], awards)
  {
  }

  /** One call of `callNumber` for the number n, the total including n. */
  function Round(cs: seq<Card>, n: int, total: int, a: Awards): (r: (seq<Card>, Awards))
    ensures |r.0| == |cs|
    ensures Within(a, r.1)
  {
    CheckAll(cs, |cs|, n, total, a)
  }

  /** Whether the game is over: all three categories awarded, Early Five only if a ticket can reach it. */
  function GameOver(a: Awards, numbersOnBoard: int): (over: bool)
    // Every category is awarded, except Early Five when no ticket holds five numbers.
    ensures over <==> forall cat :: Awarded(a, cat) || (cat == EarlyFiveAward && numbersOnBoard < EarlyFive)
  {
    assert Awarded(a, EarlyFiveAward) == a.earlyFive && Awarded(a, TopLineAward) == a.topLine &&
      Awarded(a, FullHouseAward) == a.fullHouse;
    (a.earlyFive || numbersOnBoard < EarlyFive) && a.topLine && a.fullHouse
  }

  /** The categories the game has awarded are held by exactly one player each, and by none otherwise. */
  predicate SoleWinner(cs: seq<Card>, a: Awards, cat: Category)
  {
    (Awarded(a, cat) <==> exists i :: 0 <= i < |cs| && Flag(cs[i], cat)) &&
    (forall i, j :: 0 <= i < |cs| && 0 <= j < |cs| && Flag(cs[i], cat) && Flag(cs[j], cat) ==> i == j)
  }

  /** A card's flags are earned: the sets are emptied, or five hits were reached. */
  predicate Truthful(c: Card)
  {
    c.topLine <= c.fullHouse && 0 <= Hits(c) &&
    (c.topLineWinner ==> c.topLine == {}) &&
    (c.fullHouseWinner ==> c.fullHouse == {}) &&
    (c.earlyFiveWinner ==> Hits(c) >= EarlyFive)
  }

  /** The referee's invariant after `total` calls. */
  predicate Consistent(cs: seq<Card>, a: Awards, total: int)
  {
    (forall cat :: SoleWinner(cs, a, cat)) &&
    (forall i :: 0 <= i < |cs| ==> Truthful(cs[i]) && Hits(cs[i]) <= total)
  }

  /** No win goes unawarded: an emptied set or five hits means the category has been awarded. */
  predicate Earned(c: Card, a: Awards)
  {
    (c.topLine == {} ==> a.topLine) &&
    (c.fullHouse == {} ==> a.fullHouse) &&
    (Hits(c) >= EarlyFive ==> a.earlyFive)
  }

  predicate Complete(cs: seq<Card>, a: Awards)
  {
    forall i :: 0 <= i < |cs| ==> Earned(cs[i], a)
  }

  /** Player i's card after the first k turns is its card after its own turn. */
  lemma {:induction false} CheckAllAt(cs: seq<Card>, k: nat, i: nat, n: int, total: int, a: Awards)
    requires i < k <= |cs|
    ensures CheckAll(cs, k, n, total, a).0[i] == CheckPlayer(cs[i], n, total, CheckAll(cs, i, n, total, a).1).0
  {
    var before := CheckAll(cs, k - 1, n, total, a);
    if i == k - 1 {
      Untouched(cs, k - 1, i, n, total, a);
    } else {
      CheckAllAt(cs, k - 1, i, n, total, a);
    }
  }

  /** The awards after i turns are among the awards after k >= i turns. */
  lemma {:induction false} AwardsGrow(cs: seq<Card>, i: nat, k: nat, n: int, total: int, a: Awards)
    requires i <= k <= |cs|
    ensures Within(CheckAll(cs, i, n, total, a).1, CheckAll(cs, k, n, total, a).1)
  {
    if i < k {
      AwardsGrow(cs, i, k - 1, n, total, a);
    }
  }

  /** Every card loses the called number; a card that did not hold it keeps its flags. */
  lemma RoundMarksEveryCard(cs: seq<Card>, n: int, total: int, a: Awards)
    ensures var r := Round(cs, n, total, a);
      |r.0| == |cs| &&
      forall i :: 0 <= i < |cs| ==>
        r.0[i].topLine == cs[i].topLine - {n} && r.0[i].fullHouse == cs[i].fullHouse - {n} &&
        r.0[i].capacity == cs[i].capacity &&
        (n !in cs[i].fullHouse ==> forall cat :: Flag(r.0[i], cat) == Flag(cs[i], cat))
  {
    forall i | 0 <= i < |cs|
      ensures var c := Round(cs, n, total, a).0[i];
        c.topLine == cs[i].topLine - {n} && c.fullHouse == cs[i].fullHouse - {n} &&
        c.capacity == cs[i].capacity &&
        (n !in cs[i].fullHouse ==> forall cat :: Flag(c, cat) == Flag(cs[i], cat))
    {
      CheckAllAt(cs, |cs|, i, n, total, a);
    }
  }

  /** Turns before player i leave player i's card as it was. */
  lemma Untouched(cs: seq<Card>, k: nat, i: nat, n: int, total: int, a: Awards)
    requires k <= i < |cs|
    ensures CheckAll(cs, k, n, total, a).0[i] == cs[i]
  {
    var r := CheckAll(cs, k, n, total, a);
    assert r.0[i] == r.0[k..][i - k] == cs[k..][i - k];
  }

  /**
   * A player's flag changes in a round only while the category was unawarded
   * when the round began (and, by RoundMarksEveryCard, only for a player who
   * hit the number). A flag that becomes set belongs to a player whose
   * category the game has awarded by the round's end.
   */
  lemma RoundGates(cs: seq<Card>, n: int, total: int, a: Awards)
    ensures var r := Round(cs, n, total, a);
      forall i, cat :: 0 <= i < |cs| && Flag(r.0[i], cat) != Flag(cs[i], cat) ==>
        !Awarded(a, cat) && (Flag(r.0[i], cat) ==> Awarded(r.1, cat))
  {
    var r := Round(cs, n, total, a);
    forall i, cat | 0 <= i < |cs| && Flag(r.0[i], cat) != Flag(cs[i], cat)
      ensures !Awarded(a, cat) && (Flag(r.0[i], cat) ==> Awarded(r.1, cat))
    {
      CheckAllAt(cs, |cs|, i, n, total, a);
      var before := CheckAll(cs, i, n, total, a).1;
      var after := CheckPlayer(cs[i], n, total, before);
      TurnGates(cs[i], n, total, before);
      Untouched(cs, i, i, n, total, a);
      assert CheckAll(cs, i + 1, n, total, a).1 == after.1;
      AwardsGrow(cs, i + 1, |cs|, n, total, a);
      assert Within(after.1, r.1);
    }
  }

  /**
   * Early Five is awarded in a round only to a player who hit the number,
   * with at least five numbers called and exactly five hits on the ticket.
   */
  lemma RoundEarlyFiveGate(cs: seq<Card>, n: int, total: int, a: Awards)
    ensures var r := Round(cs, n, total, a);
      forall i :: 0 <= i < |cs| && r.0[i].earlyFiveWinner && !cs[i].earlyFiveWinner ==>
        n in cs[i].fullHouse && !a.earlyFive && total >= EarlyFive && Hits(r.0[i]) == EarlyFive
  {
    var r := Round(cs, n, total, a);
    forall i | 0 <= i < |cs| && r.0[i].earlyFiveWinner && !cs[i].earlyFiveWinner
      ensures n in cs[i].fullHouse && !a.earlyFive && total >= EarlyFive && Hits(r.0[i]) == EarlyFive
    {
      CheckAllAt(cs, |cs|, i, n, total, a);
      var before := CheckAll(cs, i, n, total, a).1;
      TurnGates(cs[i], n, total, before);
      assert Flag(r.0[i], EarlyFiveAward) != Flag(cs[i], EarlyFiveAward);
      assert !before.earlyFive;
      assert !Awarded(a, EarlyFiveAward);
    }
  }

  /** One turn keeps a card's flags earned, for a card with fewer hits than calls. */
  lemma StepTruthful(c: Card, n: int, total: int, a: Awards)
    requires Truthful(c) && Hits(c) < total
    ensures var r := CheckPlayer(c, n, total, a); Truthful(r.0) && Hits(r.0) <= total
  {
    assert c.fullHouse <= (c.fullHouse - {n}) + {n};
  }

  /** One turn keeps each category's holder unique and matching the game's flag. */
  lemma StepSoleWinner(cs: seq<Card>, k: nat, n: int, total: int, a: Awards, cat: Category)
    requires k < |cs| && SoleWinner(cs, a, cat)
    ensures var r := CheckPlayer(cs[k], n, total, a);
      SoleWinner(cs[k := r.0], r.1, cat)
  {
    var r := CheckPlayer(cs[k], n, total, a);
    var cs' := cs[k := r.0];
    TurnGates(cs[k], n, total, a);
    if Awarded(a, cat) {
      assert Flag(r.0, cat) == Flag(cs[k], cat);
      assert forall i :: 0 <= i < |cs| ==> Flag(cs'[i], cat) == Flag(cs[i], cat);
      var w :| 0 <= w < |cs| && Flag(cs[w], cat);
      assert Flag(cs'[w], cat);
    } else {
      assert forall i :: 0 <= i < |cs| ==> !Flag(cs[i], cat);
      if Flag(r.0, cat) {
        assert Flag(cs'[k], cat);
      }
    }
  }

  /** One turn keeps the referee's invariant, for a card with fewer hits than calls. */
  lemma StepKeepsConsistent(cs: seq<Card>, k: nat, n: int, total: int, a: Awards)
    requires k < |cs| && Consistent(cs, a, total) && Hits(cs[k]) < total
    ensures var r := CheckPlayer(cs[k], n, total, a);
      Consistent(cs[k := r.0], r.1, total)
  {
    var r := CheckPlayer(cs[k], n, total, a);
    var cs', a' := cs[k := r.0], r.1;
    StepTruthful(cs[k], n, total, a);
    forall cat
      ensures SoleWinner(cs', a', cat)
    {
      StepSoleWinner(cs, k, n, total, a, cat);
    }
  }

  /** One turn keeps every earned win awarded. */
  lemma StepKeepsComplete(cs: seq<Card>, k: nat, n: int, total: int, a: Awards)
    requires k < |cs| && Consistent(cs, a, total) && Complete(cs, a) && Hits(cs[k]) < total
    ensures var r := CheckPlayer(cs[k], n, total, a);
      Complete(cs[k := r.0], r.1)
  {
    var r := CheckPlayer(cs[k], n, total, a);
    var c := cs[k];
    assert Truthful(c);
    if n in c.fullHouse {
      assert c.fullHouse == (c.fullHouse - {n}) + {n};
      assert Hits(r.0) == Hits(c) + 1;
    } else {
      assert r.0.fullHouse == c.fullHouse;
      assert r.0.topLine == c.topLine;
    }
    assert Earned(r.0, r.1);
  }

  /** After the first k turns of a round the invariant holds; turns k.. have yet to come. */
  lemma {:induction false} CheckAllKeepsConsistent(cs: seq<Card>, k: nat, n: int, total: int, a: Awards)
    requires k <= |cs| && Consistent(cs, a, total - 1)
    ensures var r := CheckAll(cs, k, n, total, a);
      Consistent(r.0, r.1, total) && (Complete(cs, a) ==> Complete(r.0, r.1))
  {
    if k > 0 {
      CheckAllKeepsConsistent(cs, k - 1, n, total, a);
      var before := CheckAll(cs, k - 1, n, total, a);
      Untouched(cs, k - 1, k - 1, n, total, a);
      StepKeepsConsistent(before.0, k - 1, n, total, before.1);
      if Complete(cs, a) {
        StepKeepsComplete(before.0, k - 1, n, total, before.1);
      }
    }
  }

  /**
   * A round keeps the invariant: each category held by at most one player,
   * the game's flag set exactly when someone holds it, and every flag earned.
   */
  lemma RoundKeepsConsistent(cs: seq<Card>, n: int, total: int, a: Awards)
    requires Consistent(cs, a, total - 1)
    ensures var r := Round(cs, n, total, a); Consistent(r.0, r.1, total)
  {
    CheckAllKeepsConsistent(cs, |cs|, n, total, a);
  }

  /** A round awards every win it completes, given the invariant. */
  lemma RoundKeepsComplete(cs: seq<Card>, n: int, total: int, a: Awards)
    requires Consistent(cs, a, total - 1) && Complete(cs, a)
    ensures var r := Round(cs, n, total, a); Complete(r.0, r.1)
  {
    CheckAllKeepsConsistent(cs, |cs|, n, total, a);
  }

  /**
   * Once every card has been fully marked, a complete game is over: each
   * full ticket also emptied its top line, and reached five hits if it has
   * five numbers.
   */
  lemma AllMarkedMeansGameOver(cs: seq<Card>, a: Awards, total: int, numbersOnBoard: int)
    requires Consistent(cs, a, total) && Complete(cs, a)
    requires |cs| >= 1
    requires forall i :: 0 <= i < |cs| ==> cs[i].fullHouse == {} && cs[i].capacity == numbersOnBoard
    ensures GameOver(a, numbersOnBoard)
  {
    assert Truthful(cs[0]) && Earned(cs[0], a);
  }
}
