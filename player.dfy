/**
 * A Housie player: one ticket, a fixed id, and the three reporting flags the
 * end-of-game summary is built from.
 */
module Players {
  import opened Tickets
  import opened Awarding

  class Player {
    const ticket: Ticket
    const playerId: int
    var topLineWinner: bool
    var earlyFiveWinner: bool
    var fullHouseWinner: bool

    constructor (ticket: Ticket, playerId: int)
      ensures this.ticket == ticket && this.playerId == playerId
      ensures !topLineWinner && !earlyFiveWinner && !fullHouseWinner
    {
      this.ticket := ticket;
      this.playerId := playerId;
      this.topLineWinner := false;
      this.earlyFiveWinner := false;
      this.fullHouseWinner := false;
    }

    /** What the referee sees of this player: the ticket's sets and size, and the flags. */
    ghost function View(): (card: Card)
      reads this, ticket
    {
      Card(ticket.topLine, ticket.fullHouse, ticket.rows * ticket.numbersPerRow,
           topLineWinner, earlyFiveWinner, fullHouseWinner)
    }

    /** Records and returns whether the ticket is a Full House winner now. */
    method IsFullHouseWinner() returns (won: bool)
      requires ticket.Valid()
      modifies this`fullHouseWinner
      ensures won <==> ticket.fullHouse == {}
      ensures fullHouseWinner == won
    {
      won := ticket.FullHouseWon();
      fullHouseWinner := won;
    }

    /** Records and returns whether the ticket is a Top Line winner now. */
    method IsTopLineWinner() returns (won: bool)
      requires ticket.Valid()
      modifies this`topLineWinner
      ensures won <==> ticket.topLine == {}
      ensures topLineWinner == won
    {
      won := ticket.TopLineWon();
      topLineWinner := won;
    }

    /** The ticket's hits so far: the numbers it was filled with that are now marked. */
    function TotalTicketHits(): (hits: int)
      reads this, ticket
      requires ticket.Valid()
      ensures hits == |ticket.placed - ticket.fullHouse|
      ensures hits == Hits(View())
    {
      ticket.NumberOfHits()
    }

    /** Marks the number on the ticket; the result is whether it was still there. */
    method CheckNumber(number: int) returns (hit: bool)
      requires ticket.Valid()
      modifies ticket`topLine, ticket`fullHouse
      ensures ticket.Valid()
      ensures hit <==> number in old(ticket.fullHouse)
      ensures ticket.topLine == old(ticket.topLine) - {number}
      ensures ticket.fullHouse == old(ticket.fullHouse) - {number}
      ensures TotalTicketHits() == old(TotalTicketHits()) + (if hit then 1 else 0)
    {
      hit := ticket.SelectNumber(number);
    }

    method SetEarlyFiveWinner(earlyFiveWinner: bool)
      modifies this`earlyFiveWinner
      ensures this.earlyFiveWinner == earlyFiveWinner
    {
      this.earlyFiveWinner := earlyFiveWinner;
    }

    /**
     * The text after "Player #id: " in the end-of-game summary: the won
     * categories in the order Early Five, Top Line, Full House, the first two
     * joined by " and ", a third put in front with ", ".
     */
    method PlayerSummary() returns (summary: string)
      ensures !earlyFiveWinner && !topLineWinner && !fullHouseWinner ==> summary == "Nothing"
      ensures earlyFiveWinner && !topLineWinner && !fullHouseWinner ==> summary == "Early Five"
      ensures !earlyFiveWinner && topLineWinner && !fullHouseWinner ==> summary == "Top Line"
      ensures !earlyFiveWinner && !topLineWinner && fullHouseWinner ==> summary == "Full House"
      ensures earlyFiveWinner && topLineWinner && !fullHouseWinner ==> summary == "Early Five" + " and " + "Top Line"
      ensures earlyFiveWinner && !topLineWinner && fullHouseWinner ==> summary == "Early Five" + " and " + "Full House"
      ensures !earlyFiveWinner && topLineWinner && fullHouseWinner ==> summary == "Top Line" + " and " + "Full House"
      ensures earlyFiveWinner && topLineWinner && fullHouseWinner ==>
        summary == "Full House" + ", " + "Early Five" + " and " + "Top Line"
    {
      var results: seq<string> := [];
      if earlyFiveWinner {
        results := results + ["Early Five"];
      }
      if topLineWinner {
        results := results + ["Top Line"];
      }
      if fullHouseWinner {
        results := results + ["Full House"];
      }
      summary := JoinResults(results);
    }
  }

  /**
   * How the summary joins the won categories, consuming the list from the
   * front: the first, then " and " and the second, then the third in front
   * followed by ", ". An empty list reads "Nothing".
   */
  method JoinResults(results: seq<string>) returns (summary: string)
    ensures |results| == 0 ==> summary == "Nothing"
    ensures |results| == 1 ==> summary == results[0]
    ensures |results| == 2 ==> summary == results[0] + " and " + results[1]
    ensures |results| >= 3 ==> summary == results[2] + ", " + results[0] + " and " + results[1]
  {
    var rest := results;
    if |rest| == 0 {
      summary := "Nothing";
    } else {
      var str := rest[0];
      rest := rest[1..];
      if |rest| != 0 {
        str := str + " and " + rest[0];
        rest := rest[1..];
      }
      if |rest| != 0 {
        str := rest[0] + ", " + str;
        rest := rest[1..];
      }
      summary := str;
    }
  }
}
