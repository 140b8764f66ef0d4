/**
 * The console prompt for a ticket's numbers per row, over the lines the
 * user enters.
 *
 * The prompt repeats until the value read is at least 1, at most the number
 * of columns, and does not overflow a 32-bit product with the column count.
 * A blank line, however, returns the default of 5 at once, whatever the
 * column count. With fewer than five columns the ticket filler then cannot
 * complete a row: see `Tickets.Ticket.FullRowHasNoFreeColumn`.
 */
module GameSetup {

  const NumbersPerRowDefault := 5
  const NumbersPerRowMinimum := 1

  /** One line typed at the prompt. */
  datatype Answer = Blank | Quit | Entered(value: int) | NotANumber

  /** The prompt's outcome: a value, or none when the user quits or the input ends. */
  datatype Outcome = NoValue | Value(n: int)

  /** Java's `int` arithmetic: x wrapped into [-2^31, 2^31). */
  function Wrap32(x: int): (w: int)
    ensures -0x8000_0000 <= w < 0x8000_0000
    ensures -0x8000_0000 <= x < 0x8000_0000 ==> w == x
    ensures (w - x) % 0x1_0000_0000 == 0
  {
    var m := x % 0x1_0000_0000;
    if m >= 0x8000_0000 then m - 0x1_0000_0000 else m
  }

  /** The exit test of the prompt loop for the value last read. */
  predicate Accepted(numbersPerRow: int, columns: int)
  {
    !(numbersPerRow < NumbersPerRowMinimum || Wrap32(numbersPerRow * columns) < 0 || numbersPerRow > columns)
  }

  /** The value the prompt settles on, as written: a blank line gives the default unchecked. */
  function PromptResult(answers: seq<Answer>, columns: int): (r: Outcome)
    ensures r.Value? && r.n != NumbersPerRowDefault ==> NumbersPerRowMinimum <= r.n <= columns
  {
    if |answers| == 0 then NoValue
    else
      match answers[0]
      case Blank => Value(NumbersPerRowDefault)
      case Quit => NoValue
      case Entered(v) => if Accepted(v, columns) then Value(v) else PromptResult(answers[1..], columns)
      case NotANumber => PromptResult(answers[1..], columns)
  }

  /**
   * `generateNumbersPerRow`: reads lines until one is blank, a quit, or an
   * accepted integer; a malformed line keeps the previous value.
   */
  method PromptNumbersPerRow(answers: seq<Answer>, columns: int) returns (numbersPerRow: Outcome)
    ensures numbersPerRow == PromptResult(answers, columns)
  {
    var current := 0;
    var k := 0;
    while !Accepted(current, columns)
      invariant 0 <= k <= |answers|
      invariant PromptResult(answers, columns) ==
        if Accepted(current, columns) then Value(current) else PromptResult(answers[k..], columns)
      decreases |answers| - k
    {
      if k == |answers| {
        return NoValue;
      }
      assert answers[k..][0] == answers[k] && answers[k..][1..] == answers[k + 1..];
      match answers[k] {
        case Blank =>
          return Value(NumbersPerRowDefault);
        case Quit =>
          return NoValue;
        case Entered(v) =>
          current := v;
        case NotANumber =>
      }
      k := k + 1;
    }
    numbersPerRow := Value(current);
  }

  /**
   * With three columns a single blank line yields five numbers per row, more
   * than the columns; the checked prompt asks again instead.
   */
  lemma BlankAnswerIgnoresColumns()
    ensures PromptResult([Blank], 3) == Value(NumbersPerRowDefault) && NumbersPerRowDefault > 3
    ensures CheckedPromptResult([Blank], 3) == NoValue
    ensures CheckedPromptResult([Blank, Entered(3)], 3) == Value(3)
  {
  }

  /**
   * The prompt as intended: the default is subject to the same test as a
   * typed value, so every value it returns fits the column count.
   */
  function CheckedPromptResult(answers: seq<Answer>, columns: int): (r: Outcome)
    ensures r.Value? ==> NumbersPerRowMinimum <= r.n <= columns
    ensures r.Value? ==> Accepted(r.n, columns)
  {
    if |answers| == 0 then NoValue
    else
      match answers[0]
      case Blank =>
        if Accepted(NumbersPerRowDefault, columns) then Value(NumbersPerRowDefault)
        else CheckedPromptResult(answers[1..], columns)
      case Quit => NoValue
      case Entered(v) => if Accepted(v, columns) then Value(v) else CheckedPromptResult(answers[1..], columns)
      case NotANumber => CheckedPromptResult(answers[1..], columns)
  }

  /** The checked prompt agrees with the prompt as written whenever the default fits. */
  lemma {:induction false} CheckedAgreesWhenDefaultFits(answers: seq<Answer>, columns: int)
    requires Accepted(NumbersPerRowDefault, columns)
    ensures CheckedPromptResult(answers, columns) == PromptResult(answers, columns)
  {
    if |answers| > 0 && !answers[0].Blank? && !answers[0].Quit? {
      CheckedAgreesWhenDefaultFits(answers[1..], columns);
    }
  }
}
