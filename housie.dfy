/**
 * The Housie caller and referee: the players in list order, the numbers
 * called so far, and the three sticky category flags.
 */
module HousieGame {
  import opened Numbers
  import opened Tickets
  import opened Awarding
  import opened Players

  class Housie {
    const players: seq<Player>
    const range: nat
    const numbersOnBoard: int
    var calledNumbers: set<int>
    var totalNumbersCalled: int
    var topLineWinner: bool
    var earlyFiveWinner: bool
    var fullHouseWinner: bool

    ghost function PlayerSet(): (ps: set<Player>)
    {
      set p | p in players
    }

    ghost function TicketSet(): (ts: set<Ticket>)
    {
      set p | p in players :: p.ticket
    }

    /** The players as the referee sees them, in list order. */
    ghost function Cards(): (cs: seq<Card>)
      reads PlayerSet(), TicketSet()
      ensures |cs| == |players| && forall i :: 0 <= i < |players| ==> cs[i] == players[i].View()
    {
      seq(|players|, i requires 0 <= i < |players| reads PlayerSet(), TicketSet() => players[i].View())
    }

    function CurrentAwards(): (awards: Awards)
      reads this
    {
      Awards(earlyFiveWinner, topLineWinner, fullHouseWinner)
    }

    /**
     * The fixed roster: distinct players with distinct tickets, ids 1..n in
     * list order, every ticket of this game's range and size.
     */
    ghost predicate Roster()
    {
      (forall i, j :: 0 <= i < |players| && 0 <= j < |players| && i != j ==>
         players[i] != players[j] && players[i].ticket != players[j].ticket) &&
      (forall i :: 0 <= i < |players| ==>
         players[i].playerId == i + 1 && players[i].ticket.range == range &&
         players[i].ticket.rows * players[i].ticket.numbersPerRow == numbersOnBoard)
    }

    ghost predicate TicketsValid()
      reads TicketSet()
    {
      forall i :: 0 <= i < |players| ==> players[i].ticket.Valid()
    }

    /**
     * The game invariant: the roster, valid tickets, calls drawn without
     * replacement from [1, range] and counted, every call marked on every
     * card, and the referee's invariant over the cards; once tickets hold a
     * number, every win on them has been awarded.
     */
    ghost predicate Valid()
      reads this, PlayerSet(), TicketSet()
    {
      Roster() && TicketsValid() &&
      totalNumbersCalled == |calledNumbers| &&
      Refereed(Cards(), CurrentAwards(), calledNumbers, range, numbersOnBoard)
    }

    /**
     * Creates numOfPlayers players with ids 1..numOfPlayers, each with a new
     * ticket. The console driver checks `rows * numbersPerRow <= range`;
     * `numbersPerRow <= columns` holds only for a typed answer at its prompt,
     * not for the blank-line default (see `GameSetup`).
     */
    constructor (range: nat, numOfPlayers: nat, rows: nat, columns: nat, numbersPerRow: nat)
      requires numbersPerRow <= columns <= MaxInt
      requires rows * numbersPerRow <= range
      ensures Valid()
      ensures this.range == range && numbersOnBoard == rows * numbersPerRow
      ensures |players| == numOfPlayers
      ensures forall i :: 0 <= i < |players| ==>
        fresh(players[i]) && fresh(players[i].ticket) &&
        players[i].ticket.rows == rows && players[i].ticket.columns == columns &&
        players[i].ticket.numbersPerRow == numbersPerRow && players[i].ticket.NumberOfHits() == 0 &&
        players[i].playerId == i + 1
      ensures calledNumbers == {} && totalNumbersCalled == 0
      ensures !earlyFiveWinner && !topLineWinner && !fullHouseWinner
    {
      var ps: seq<Player> := [];
      var i := 0;
      while i < numOfPlayers
        invariant 0 <= i <= numOfPlayers && |ps| == i
        invariant forall k :: 0 <= k < i ==> fresh(ps[k]) && fresh(ps[k].ticket)
        invariant forall k :: 0 <= k < i ==> NewPlayer(ps[k], k + 1, rows, columns, numbersPerRow, range)
        invariant forall k, l :: 0 <= k < i && 0 <= l < i && k != l ==>
          ps[k] != ps[l] && ps[k].ticket != ps[l].ticket
      {
        var ticket := new Ticket(rows, columns, numbersPerRow, range);
        var player := new Player(ticket, i + 1);
        ps := ps + [player];
        i := i + 1;
      }
      this.players := ps;
      this.range := range;
      this.numbersOnBoard := rows * numbersPerRow;
      this.calledNumbers := {};
      this.totalNumbersCalled := 0;
      this.topLineWinner := false;
      this.earlyFiveWinner := false;
      this.fullHouseWinner := false;
      new;
      StartIsValid();
    }

    /** The state the constructor builds satisfies the game invariant. */
    lemma StartIsValid()
      requires Roster()
      requires forall i :: 0 <= i < |players| ==>
        !players[i].topLineWinner && !players[i].earlyFiveWinner && !players[i].fullHouseWinner &&
        players[i].ticket.Valid() &&
        players[i].ticket.fullHouse == players[i].ticket.placed &&
        players[i].ticket.topLine == players[i].ticket.topRow &&
        |players[i].ticket.topRow| == (if players[i].ticket.rows == 0 then 0 else players[i].ticket.numbersPerRow)
      requires calledNumbers == {} && totalNumbersCalled == 0
      requires !earlyFiveWinner && !topLineWinner && !fullHouseWinner
      ensures Valid()
    {
      var cs := Cards();
      forall cat
        ensures SoleWinner(cs, CurrentAwards(), cat)
      {
        assert forall i :: 0 <= i < |cs| ==> !Flag(cs[i], cat);
      }
      forall i | 0 <= i < |cs|
        ensures Truthful(cs[i]) && Hits(cs[i]) <= 0
      {
        var t := players[i].ticket;
        assert Hits(cs[i]) == t.NumberOfHits() == 0;
      }
      if numbersOnBoard >= 1 {
        forall i | 0 <= i < |cs|
          ensures Earned(cs[i], CurrentAwards())
        {
          var t := players[i].ticket;
          NonEmptyTicket(t.rows, t.numbersPerRow);
          assert |t.fullHouse| >= 1 && |t.topLine| >= 1;
        }
      }
    }

    /** `getNextNumber`: draws a number in [1, range] not called before, records and counts it. */
    method GetNextNumber() returns (nextNumber: int)
      requires |calledNumbers| < range
      requires forall v :: v in calledNumbers ==> 1 <= v <= range
      modifies this`calledNumbers, this`totalNumbersCalled
      ensures 1 <= nextNumber <= range && nextNumber !in old(calledNumbers)
      ensures calledNumbers == old(calledNumbers) + {nextNumber}
      ensures totalNumbersCalled == old(totalNumbersCalled) + 1
    {
      FreshInRange(calledNumbers, 1, range);
      nextNumber :| 1 <= nextNumber <= range && nextNumber !in calledNumbers;
      calledNumbers := calledNumbers + {nextNumber};
      totalNumbersCalled := totalNumbersCalled + 1;
    }

    /**
     * `callNumber`: draws the next number, lets every player in order mark it
     * and be checked for wins, and reports whether the game is over. The new
     * cards and awards are those of `Round`.
     */
    method CallNumber() returns (nextNumber: int, gameOver: bool)
      requires Valid() && |calledNumbers| < range
      modifies this`calledNumbers, this`totalNumbersCalled
      modifies this`topLineWinner, this`earlyFiveWinner, this`fullHouseWinner
      modifies PlayerSet(), TicketSet()`topLine, TicketSet()`fullHouse
      ensures Valid()
      ensures 1 <= nextNumber <= range && nextNumber !in old(calledNumbers)
      ensures calledNumbers == old(calledNumbers) + {nextNumber}
      ensures totalNumbersCalled == old(totalNumbersCalled) + 1
      ensures (Cards(), CurrentAwards()) ==
        Round(old(Cards()), nextNumber, totalNumbersCalled, old(CurrentAwards()))
      ensures Within(old(CurrentAwards()), CurrentAwards())
      ensures old(earlyFiveWinner) ==> earlyFiveWinner
      ensures old(topLineWinner) ==> topLineWinner
      ensures old(fullHouseWinner) ==> fullHouseWinner
      ensures gameOver == IsGameOver()
    {
      ghost var cs := Cards();
      ghost var a := CurrentAwards();
      ghost var called := calledNumbers;
      nextNumber := GetNextNumber();
      CheckPlayers(nextNumber, cs, a);
      WithinKeepsFlags(a, CurrentAwards());
      gameOver := IsGameOver();
      CallKeepsValid(cs, a, called, nextNumber);
    }

    /** The loop of `callNumber`: every player in list order takes a turn. */
    method CheckPlayers(nextNumber: int, ghost cs: seq<Card>, ghost a: Awards)
      requires Roster() && TicketsValid()
      requires Cards() == cs && CurrentAwards() == a
      modifies this`topLineWinner, this`earlyFiveWinner, this`fullHouseWinner
      modifies PlayerSet(), TicketSet()`topLine, TicketSet()`fullHouse
      ensures TicketsValid()
      ensures (Cards(), CurrentAwards()) == Round(cs, nextNumber, totalNumbersCalled, a)
    {
      var k := 0;
      while k < |players|
        invariant 0 <= k <= |players| && TurnsTaken(k, nextNumber, cs, a)
      {
        NextTurn(k, nextNumber, cs, a);
        k := k + 1;
      }
      assert Cards() == Round(cs, nextNumber, totalNumbersCalled, a).0;
    }

    /** After the turns of players 0..k-1: the cards and awards are those of `CheckAll`. */
    ghost predicate TurnsTaken(k: int, n: int, cs: seq<Card>, a: Awards)
      reads this, PlayerSet(), TicketSet()
    {
      0 <= k <= |players| == |cs| && TicketsValid() &&
      CurrentAwards() == CheckAll(cs, k, n, totalNumbersCalled, a).1 &&
      forall i :: 0 <= i < |players| ==> players[i].View() == CheckAll(cs, k, n, totalNumbersCalled, a).0[i]
    }

    /** Player k's turn, the body of `callNumber`'s loop, as a step of `CheckAll`. */
    method NextTurn(k: int, nextNumber: int, ghost cs: seq<Card>, ghost a: Awards)
      requires Roster() && k < |players| && TurnsTaken(k, nextNumber, cs, a)
      modifies this`topLineWinner, this`earlyFiveWinner, this`fullHouseWinner
      modifies players[k], players[k].ticket`topLine, players[k].ticket`fullHouse
      ensures TurnsTaken(k + 1, nextNumber, cs, a)
    {
      Turn(players[k], nextNumber);
      CheckAllNext(cs, k, nextNumber, totalNumbersCalled, a, players[k].View(), CurrentAwards());
      forall i | 0 <= i < |players| && i != k
        ensures players[i].ticket.Valid() && players[i].View() == old(players[i].View())
      {
        assert players[i] != players[k] && players[i].ticket != players[k].ticket;
      }
    }

    /** The invariant after a call whose cards and awards are those of `Round`. */
    lemma CallKeepsValid(cs: seq<Card>, a: Awards, called: set<int>, n: int)
      requires Roster() && TicketsValid()
      requires Refereed(cs, a, called, range, numbersOnBoard)
      requires 1 <= n <= range && n !in called
      requires calledNumbers == called + {n} && totalNumbersCalled == |called| + 1
      requires (Cards(), CurrentAwards()) == Round(cs, n, totalNumbersCalled, a)
      ensures Valid()
    {
      RoundKeepsConsistent(cs, n, totalNumbersCalled, a);
      if numbersOnBoard >= 1 {
        RoundKeepsComplete(cs, n, totalNumbersCalled, a);
      }
      RoundMarksEveryCard(cs, n, totalNumbersCalled, a);
    }

    /** One iteration of `callNumber`'s loop: the player marks the number and, on a hit, is checked. */
    method Turn(player: Player, nextNumber: int)
      requires player.ticket.Valid()
      modifies player, player.ticket`topLine, player.ticket`fullHouse
      modifies this`topLineWinner, this`earlyFiveWinner, this`fullHouseWinner
      ensures player.ticket.Valid()
      ensures (player.View(), CurrentAwards()) ==
        CheckPlayer(old(player.View()), nextNumber, totalNumbersCalled, old(CurrentAwards()))
    {
      var hit := player.CheckNumber(nextNumber);
      if hit {
        CheckEarlyFive(player);
        CheckTopLine(player);
        CheckFullHouse(player);
      }
    }

    /** The Early Five test of a hitter, with its award. */
    method CheckEarlyFive(player: Player)
      requires player.ticket.Valid()
      modifies player`earlyFiveWinner, this`topLineWinner, this`earlyFiveWinner, this`fullHouseWinner
      ensures (player.View(), CurrentAwards()) ==
        EarlyFiveCheck(old(player.View()), totalNumbersCalled, old(CurrentAwards()))
    {
      if !earlyFiveWinner && totalNumbersCalled >= EarlyFive && player.TotalTicketHits() == EarlyFive {
        player.SetEarlyFiveWinner(true);
        AnnounceWinner(false, true, false);
      }
    }

    /** The Top Line test of a hitter, made only while Top Line is unawarded. */
    method CheckTopLine(player: Player)
      requires player.ticket.Valid()
      modifies player`topLineWinner, this`topLineWinner, this`earlyFiveWinner, this`fullHouseWinner
      ensures (player.View(), CurrentAwards()) == TopLineCheck(old(player.View()), old(CurrentAwards()))
    {
      if !topLineWinner {
        var won := player.IsTopLineWinner();
        if won {
          AnnounceWinner(true, false, false);
        }
      }
    }

    /** The Full House test of a hitter, made only while Full House is unawarded. */
    method CheckFullHouse(player: Player)
      requires player.ticket.Valid()
      modifies player`fullHouseWinner, this`topLineWinner, this`earlyFiveWinner, this`fullHouseWinner
      ensures (player.View(), CurrentAwards()) == FullHouseCheck(old(player.View()), old(CurrentAwards()))
    {
      if !fullHouseWinner {
        var won := player.IsFullHouseWinner();
        if won {
          AnnounceWinner(false, false, true);
        }
      }
    }

    /** `announceWinner`'s flag updates: each category flag is or-ed with its argument. */
    method AnnounceWinner(topLineWinner: bool, earlyFiveWinner: bool, fullHouseWinner: bool)
      modifies this`topLineWinner, this`earlyFiveWinner, this`fullHouseWinner
      ensures this.topLineWinner == (old(this.topLineWinner) || topLineWinner)
      ensures this.earlyFiveWinner == (old(this.earlyFiveWinner) || earlyFiveWinner)
      ensures this.fullHouseWinner == (old(this.fullHouseWinner) || fullHouseWinner)
    {
      this.topLineWinner := this.topLineWinner || topLineWinner;
      this.earlyFiveWinner := this.earlyFiveWinner || earlyFiveWinner;
      this.fullHouseWinner := this.fullHouseWinner || fullHouseWinner;
    }

    /** `isGameOver`: Early Five is awarded or out of reach, and Top Line and Full House are awarded. */
    function IsGameOver(): (over: bool)
      reads this
      ensures over <==> (earlyFiveWinner || numbersOnBoard < EarlyFive) && topLineWinner && fullHouseWinner
    {
      GameOver(CurrentAwards(), numbersOnBoard)
    }

    /**
     * When the game is over, some player holds Top Line, some player holds
     * Full House, and some player holds Early Five if tickets have at least
     * five numbers.
     */
    lemma GameOverMeansWinners()
      requires Valid() && IsGameOver()
      ensures exists i :: 0 <= i < |players| && players[i].topLineWinner
      ensures exists i :: 0 <= i < |players| && players[i].fullHouseWinner
      ensures numbersOnBoard >= EarlyFive ==> exists i :: 0 <= i < |players| && players[i].earlyFiveWinner
    {
      var cs := Cards();
      assert SoleWinner(cs, CurrentAwards(), TopLineAward);
      assert SoleWinner(cs, CurrentAwards(), FullHouseAward);
      assert SoleWinner(cs, CurrentAwards(), EarlyFiveAward);
      var t :| 0 <= t < |cs| && Flag(cs[t], TopLineAward);
      assert players[t].topLineWinner;
      var f :| 0 <= f < |cs| && Flag(cs[f], FullHouseAward);
      assert players[f].fullHouseWinner;
      if numbersOnBoard >= EarlyFive {
        var e :| 0 <= e < |cs| && Flag(cs[e], EarlyFiveAward);
        assert players[e].earlyFiveWinner;
      }
    }

    /** At any point of the game no two players hold the same category. */
    lemma WinnersAreUnique()
      requires Valid()
      ensures forall i, j :: 0 <= i < |players| && 0 <= j < |players| && i != j ==>
        !(players[i].topLineWinner && players[j].topLineWinner) &&
        !(players[i].earlyFiveWinner && players[j].earlyFiveWinner) &&
        !(players[i].fullHouseWinner && players[j].fullHouseWinner)
    {
      var cs := Cards();
      assert SoleWinner(cs, CurrentAwards(), TopLineAward);
      assert SoleWinner(cs, CurrentAwards(), FullHouseAward);
      assert SoleWinner(cs, CurrentAwards(), EarlyFiveAward);
    }

    /**
     * A game with a player and numbers on its tickets ends before the numbers
     * run out: once every number of [1, range] is called the game is over, so
     * while it is not, `getNextNumber` still has a number to draw.
     */
    lemma GameEndsBeforeNumbersRunOut()
      requires Valid() && |players| >= 1 && numbersOnBoard >= 1
      ensures |calledNumbers| < range || IsGameOver()
    {
      if |calledNumbers| >= range {
        FullRange(calledNumbers, 1, range);
        var cs := Cards();
        forall i | 0 <= i < |cs|
          ensures cs[i].fullHouse == {} && cs[i].capacity == numbersOnBoard
        {
          var t := players[i].ticket;
          assert t.Valid() && t.range == range;
          forall v | v in cs[i].fullHouse
            ensures v in calledNumbers
          {
            assert v in t.placed;
          }
        }
        AllMarkedMeansGameOver(cs, CurrentAwards(), totalNumbersCalled, numbersOnBoard);
      }
    }
  }

  /**
   * The referee's state between calls: the called numbers lie in [1, range]
   * and are gone from every card, the awards are consistent with the cards,
   * and, once the tickets hold numbers, no win has gone unawarded.
   */
  ghost predicate Refereed(cs: seq<Card>, a: Awards, called: set<int>, range: int, numbersOnBoard: int)
  {
    (forall v :: v in called ==> 1 <= v <= range) &&
    Marked(cs, called) &&
    Consistent(cs, a, |called|) &&
    (numbersOnBoard >= 1 ==> Complete(cs, a))
  }

  /** Every called number is gone from every card. */
  ghost predicate Marked(cs: seq<Card>, called: set<int>)
  {
    forall i, v :: 0 <= i < |cs| && v in cs[i].fullHouse ==> v !in called
  }

  /** A player as the constructor leaves it: its id, no flags, and a full, unmarked ticket. */
  ghost predicate NewPlayer(p: Player, id: int, rows: nat, columns: nat, numbersPerRow: nat, range: nat)
    reads p, p.ticket
  {
    p.playerId == id &&
    !p.topLineWinner && !p.earlyFiveWinner && !p.fullHouseWinner &&
    p.ticket.rows == rows && p.ticket.columns == columns &&
    p.ticket.numbersPerRow == numbersPerRow && p.ticket.range == range &&
    p.ticket.Valid() && p.ticket.fullHouse == p.ticket.placed && p.ticket.topLine == p.ticket.topRow &&
    |p.ticket.topRow| == (if rows == 0 then 0 else numbersPerRow)
  }
}
