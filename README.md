# Housie game core in Dafny

This project models the game core of a Housie (bingo) simulator and proves properties of it. It covers three cooperating objects.

- A **ticket** (`Tickets.Ticket`) is filled with `rows * numbersPerRow` distinct numbers from `[1, range]`, each written into a free column of its row. It keeps the uncalled numbers of row 0 (`topLine`) and of the whole ticket (`fullHouse`). Marking a called number removes it from both sets. The win queries test those sets for emptiness.
- A **player** (`Players.Player`) owns one ticket and a fixed id. It keeps three reporting flags and builds the end-of-game summary text from them.
- The **game** (`HousieGame.Housie`) is the caller and referee.
  - It draws numbers without replacement.
  - On each call it lets every player, in list order, mark the number. A player who hit the number is checked for Early Five, Top Line and Full House, in that order.
  - It awards each category at most once, using three sticky flags, and reports when the game is over.

How the modules fit together:

- `Numbers` holds the counting facts behind the redraw loops. While a value of an interval is unused one can still be drawn; once all `n` values are used, every value is.
- `Awarding` states the referee's rules on values:
  - `CheckPlayer` is one player's turn;
  - `Round` is one whole call;
  - the invariants `Consistent` (each category has one holder exactly when it is awarded, and every flag was earned) and `Complete` (no earned win goes unawarded).
- `Housie.CallNumber` is proved to change the cards and awards exactly as `Round` does. The lemmas about `Round` then carry over to the game object.

Random draws (`Random.nextInt`) are modelled as a choice (`:|`) of any value the redraw loop can end with. The constructors take two conditions on the game's dimensions as `requires` clauses:
- `rows * numbersPerRow <= range`, which the console driver checks at `HousieDriver.java:43-48`;
- `numbersPerRow <= columns`. The driver's prompt (`GameSetup`) checks this only for a typed value. A blank line returns the default of 5 unchecked, so with one to four columns the driver can build a ticket that cannot be filled (see "## Findings"). The corrected prompt, `GameSetup.CheckedPromptResult`, always meets this requirement.

## Model

| member | source | states |
|---|---|---|
| Numbers.FreshInRange | src/main/java/sie/Housie.java:114-118 | While fewer than n values of [lo, lo+n) are used, some value of the interval is unused, so a redraw loop drawing from it can end |
| Numbers.FullRange | src/main/java/sie/Housie.java:114-121 | Once n values of [lo, lo+n) are used, every value of the interval is used |
| Tickets.GetIndex | src/main/java/sie/Ticket.java:134-136 | For a positive random int and at least one column, the index is a column: 0 <= index < columns |
| Tickets.EveryColumnReachable | src/main/java/sie/Ticket.java:115-119 | Every column c is the index of some draw `nextInt(MAX_VALUE) + 1` in [1, 2^31-1], so the column redraw can land on any free column |
| Tickets.Ticket.constructor | src/main/java/sie/Ticket.java:36-49 | A new ticket keeps its dimensions and is filled: valid and laid out, `fullHouse` is all its numbers, `topLine` is the numbersPerRow numbers of row 0, no hits, and (with at least one number) no Top Line or Full House win |
| Tickets.Ticket.FillTicket | src/main/java/sie/Ticket.java:91-125 | After filling: rows*numbersPerRow distinct numbers in [1, range], `topLine` is exactly the numbers placed in row 0 (numbersPerRow of them), each number sits in its own cell and each row has exactly numbersPerRow nonzero cells |
| Tickets.Ticket.FillRows | src/main/java/sie/Ticket.java:93-123 | The outer loop leaves every row complete, with numbers, grid and top line in agreement |
| Tickets.Ticket.FillRow | src/main/java/sie/Ticket.java:99-122 | The inner loop completes row i, taking the filler from the start of row i to the start of row i+1 |
| Tickets.Ticket.PlaceNext | src/main/java/sie/Ticket.java:100-121 | One inner pass adds one fresh number to the ticket and to a free cell of row i, and keeps numbers, grid and top line in agreement |
| Tickets.Ticket.DrawNumber | src/main/java/sie/Ticket.java:101-105 | The number redraw ends with a value in [1, range] not yet on the ticket |
| Tickets.Ticket.DrawColumn | src/main/java/sie/Ticket.java:115-119 | The column redraw ends on a column of row i whose cell is still 0 |
| Tickets.Ticket.WriteCell | src/main/java/sie/Ticket.java:120 | Writing into an empty cell records the number there and adds one occupied column to row i without overwriting a cell |
| Tickets.Ticket.AddNumber | src/main/java/sie/Ticket.java:106-111 | The number joins `fullHouse`, and joins `topLine` exactly when the row is row 0 |
| Tickets.Ticket.NumberOfHits | src/main/java/sie/Ticket.java:57-59 | Hits are the ticket's numbers that are no longer unmarked, between 0 and rows*numbersPerRow |
| Tickets.Ticket.TopLineWon | src/main/java/sie/Ticket.java:66-68 | Top Line holds iff `topLine` is empty, iff no number of row 0 is still unmarked |
| Tickets.Ticket.FullHouseWon | src/main/java/sie/Ticket.java:75-77 | Full House holds iff `fullHouse` is empty, iff the hits equal the ticket's size |
| Tickets.Ticket.SelectNumber | src/main/java/sie/Ticket.java:84-86 | Returns true iff n was unmarked. It removes n from both sets and nothing else, keeps the invariant `topLine = topRow * fullHouse`, and adds one hit exactly on a hit, so a repeated n returns false |
| Tickets.SelectEveryNumber | src/test/java/sie/TicketTest.java:36-52 | Selecting 1..range once each counts exactly the new hits and leaves the ticket a Top Line and a Full House winner |
| Players.Player.constructor | src/main/java/sie/Player.java:23-27 | A player keeps its ticket and id and starts with no flags |
| Players.Player.IsFullHouseWinner | src/main/java/sie/Player.java:34-37 | The flag and the result become whether `fullHouse` is empty; no other field changes |
| Players.Player.IsTopLineWinner | src/main/java/sie/Player.java:44-47 | The flag and the result become whether `topLine` is empty; no other field changes |
| Players.Player.TotalTicketHits | src/main/java/sie/Player.java:54-56 | Equals the ticket's hits, and the hits of the player's card |
| Players.Player.CheckNumber | src/main/java/sie/Player.java:64-66 | Same result and effect as the ticket's `selectNumber` |
| Players.Player.SetEarlyFiveWinner | src/main/java/sie/Player.java:82-84 | Sets only the Early Five flag |
| Players.Player.PlayerSummary | src/main/java/sie/Player.java:89-113 | No flag gives "Nothing"; one flag gives its name; two flags give "A and B" in the order Early Five, Top Line, Full House; all three give "Full House, Early Five and Top Line" |
| Players.JoinResults | src/main/java/sie/Player.java:100-111 | The join consumes the list from the front: the first name, then " and " and the second, then the third in front followed by ", " |
| Awarding.CheckPlayer | src/main/java/sie/Housie.java:63-77 | A turn removes n from the card's sets. A player who did not hit n keeps its flags and leaves the awards unchanged. Awards are never withdrawn |
| Awarding.EarlyFiveCheck | src/main/java/sie/Housie.java:65-68 | Only the Early Five flag and award can change, and awards are never withdrawn. The award is made exactly when it was unawarded, at least five numbers were called and the ticket has exactly five hits; the player's flag is set exactly then or kept |
| Awarding.TopLineCheck | src/main/java/sie/Housie.java:70-72 | Once Top Line is awarded nothing changes. Otherwise only the Top Line flag and award can change, the award is made exactly when the top line is fully marked, and the player's flag then equals the award |
| Awarding.FullHouseCheck | src/main/java/sie/Housie.java:74-76 | Once Full House is awarded nothing changes. Otherwise only the Full House flag and award can change, the award is made exactly when the ticket is fully marked, and the player's flag then equals the award |
| Awarding.Round | src/main/java/sie/Housie.java:61-78 | A call keeps one card per player and never withdraws an award |
| Awarding.GameOver | src/main/java/sie/Housie.java:103-105 | Over iff every category is awarded, except that Early Five is excused when tickets hold fewer than five numbers |
| Awarding.TurnAwards | src/main/java/sie/Housie.java:65-76 | An unawarded Early Five is awarded in a turn iff the player hit n, five calls were made and the ticket has exactly five hits. An unawarded Top Line or Full House is awarded iff the player hit n and the set is now empty |
| Awarding.TurnGates | src/main/java/sie/Housie.java:65-76 | A player's flag changes only for a hitter and only while the category is unawarded. An unawarded category is awarded exactly when that player's flag becomes set |
| Awarding.CheckAll | src/main/java/sie/Housie.java:61-78 | The first k turns keep the number of cards, leave cards k.. untouched and never withdraw an award |
| Awarding.CheckAllAt | src/main/java/sie/Housie.java:61-78 | Player i's card after the loop is the card its own turn produced, given the awards as they stood when its turn came |
| Awarding.AwardsGrow | src/main/java/sie/Housie.java:133-136 | The awards after i turns are all among the awards after any later turn |
| Awarding.Untouched | src/main/java/sie/Housie.java:61-78 | Turns before player i leave player i's card as it was |
| Awarding.RoundMarksEveryCard | src/main/java/sie/Housie.java:61-66 | After a call every card has lost n from both sets and kept its size. A card that did not hold n keeps all its flags: only hitters are evaluated |
| Awarding.RoundGates | src/main/java/sie/Housie.java:65-76 | In a call, a player's flag changes only if its category was unawarded at the start of the call. A flag that becomes set belongs to a category the game has awarded by the end of the call |
| Awarding.RoundEarlyFiveGate | src/main/java/sie/Housie.java:63-68 | Early Five goes to a player in a call only if that player hit n, it was unawarded, at least five numbers were called and the ticket has exactly five hits |
| Awarding.StepTruthful | src/main/java/sie/Housie.java:63-77 | A turn keeps every flag of the card earned (Top Line only with an empty top line, Full House only with an empty ticket, Early Five only with five hits) and the hits within the calls |
| Awarding.StepSoleWinner | src/main/java/sie/Housie.java:65-76 | A turn keeps each category awarded exactly when one player holds it, and held by at most one player |
| Awarding.StepKeepsConsistent | src/main/java/sie/Housie.java:63-77 | A turn keeps the referee's invariant `Consistent` |
| Awarding.StepKeepsComplete | src/main/java/sie/Housie.java:63-77 | A turn keeps every earned win awarded (`Complete`) |
| Awarding.CheckAllKeepsConsistent | src/main/java/sie/Housie.java:61-78 | Every prefix of a call's turns keeps `Consistent`, and `Complete` when it held before |
| Awarding.RoundKeepsConsistent | src/main/java/sie/Housie.java:58-81 | A call keeps each category with at most one holder, awarded exactly when held, and every flag earned |
| Awarding.RoundKeepsComplete | src/main/java/sie/Housie.java:58-81 | A call leaves no earned win unawarded |
| Awarding.AllMarkedMeansGameOver | src/main/java/sie/Housie.java:103-105 | Once every ticket is fully marked, the game-over formula holds under the invariants |
| HousieGame.Housie.constructor | src/main/java/sie/Housie.java:35-49 | Builds numOfPlayers players with ids 1..numOfPlayers in list order, each with its own fresh unmarked ticket. Sets numbersOnBoard = rows*numbersPerRow, with no calls and no awards. The game invariant holds |
| HousieGame.Housie.StartIsValid | src/main/java/sie/Housie.java:35-49 | The state the constructor builds satisfies the game invariant |
| HousieGame.Housie.GetNextNumber | src/main/java/sie/Housie.java:114-122 | Draws a value in [1, range] not called before, adds it to the called numbers and counts it |
| HousieGame.Housie.CallNumber | src/main/java/sie/Housie.java:58-81 | A call draws a fresh number, grows the called set by exactly it and counts it. The cards and awards become those of `Round`, and no award is withdrawn: each of the game's three winner flags, once set, stays set. The invariant is kept and the result is the game-over formula |
| HousieGame.Housie.CheckPlayers | src/main/java/sie/Housie.java:61-78 | The loop over the players leaves the cards and awards that `Round` describes |
| HousieGame.Housie.NextTurn | src/main/java/sie/Housie.java:61-78 | One loop iteration extends the turns taken from k to k+1 players, matching `CheckAll` |
| HousieGame.Housie.CallKeepsValid | src/main/java/sie/Housie.java:58-81 | A call that follows `Round` from a valid state leaves a valid state |
| HousieGame.Housie.Turn | src/main/java/sie/Housie.java:62-77 | One player's turn changes that player's card and the awards as `CheckPlayer` does |
| HousieGame.Housie.CheckEarlyFive | src/main/java/sie/Housie.java:65-68 | The Early Five test of a hitter changes the player's flag and the awards as `EarlyFiveCheck` does |
| HousieGame.Housie.CheckTopLine | src/main/java/sie/Housie.java:70-72 | The Top Line test, made only while unawarded, changes the player's flag and the awards as `TopLineCheck` does |
| HousieGame.Housie.CheckFullHouse | src/main/java/sie/Housie.java:74-76 | The Full House test, made only while unawarded, changes the player's flag and the awards as `FullHouseCheck` does |
| HousieGame.Housie.AnnounceWinner | src/main/java/sie/Housie.java:133-136 | Each category flag is or-ed with its argument, so flags are sticky |
| HousieGame.Housie.IsGameOver | src/main/java/sie/Housie.java:103-105 | Over iff Early Five is awarded or tickets hold fewer than five numbers, and Top Line and Full House are awarded |
| HousieGame.Housie.GameOverMeansWinners | src/main/java/sie/Housie.java:103-105 | When the game is over some player holds Top Line, some player holds Full House, and some player holds Early Five if tickets hold at least five numbers |
| HousieGame.Housie.WinnersAreUnique | src/main/java/sie/Housie.java:65-76 | At every point of a game no two players hold the same category |
| HousieGame.Housie.GameEndsBeforeNumbersRunOut | src/main/java/sie/Housie.java:103-122 | With at least one player and one number per ticket, a game that is not over still has an uncalled number, so `getNextNumber` can draw |
| Tickets.Ticket.FullRowHasNoFreeColumn | src/main/java/sie/Ticket.java:115-120 | Once a row holds `columns` numbers every column of it is occupied, so the redraw `while (row[index] > 0)` can no longer end |
| GameSetup.Wrap32 | src/main/java/sie/HousieDriver.java:226 | Java `int` arithmetic: the result lies in [-2^31, 2^31), equals the input when that is in range, and differs from it by a multiple of 2^32 |
| GameSetup.PromptResult | src/main/java/sie/HousieDriver.java:224-257 | As written: any value other than the default 5 that the prompt returns lies between 1 and the column count |
| GameSetup.PromptNumbersPerRow | src/main/java/sie/HousieDriver.java:224-257 | The prompt loop returns exactly the outcome `PromptResult` gives for the same lines |
| GameSetup.BlankAnswerIgnoresColumns | src/main/java/sie/HousieDriver.java:231-233 | With three columns a blank line gives 5 numbers per row, more than the columns. The corrected prompt returns nothing for that input, and asks again and accepts 3 when 3 is typed next |
| GameSetup.CheckedPromptResult | src/main/java/sie/HousieDriver.java:224-257 | Corrected prompt: every value it returns passes the loop's exit test, so it lies between 1 and the column count |
| GameSetup.CheckedAgreesWhenDefaultFits | src/main/java/sie/HousieDriver.java:224-257 | When the default passes the exit test, the corrected prompt and the prompt as written agree on every input |

## Left out

- All console output is left out: the echo of each called number, the winner announcements (including the "First Five" label), `printSummary`, `printTicket`, and the `"Player #id: "` prefix of the player summary. `PlayerSummary` returns the text after that prefix.
- `java.util.Random` and the shape of its distribution are left out. Every draw is an arbitrary choice among the values the redraw loop can end with. Fairness is not a property here.
- `HousieDriver` is not part of this model, apart from its numbers-per-row prompt (`GameSetup`). Its other prompts, its parsing of text into integers and its `rows * numbersPerRow <= range` check are left out; that check becomes a constructor `requires`.
- GameSetup.PromptNumbersPerRow: takes the typed lines as a sequence of already-classified answers (blank, quit, integer, not a number). Quitting, which calls `System.exit`, and the end of input, where `readLine` returns `null` and the Java code fails, both give `NoValue`.
- Java `int` overflow of `rows * numbersPerRow` is not modelled; the dimensions are `nat`.
- The `Random` and `HashSet` objects are not modelled as objects. The sets are Dafny `set<int>` fields and the grid is an `array2<int>`.
- `getPlayerId` is not a separate member: the id is the constant field `playerId`, fixed by the constructor.
- HousieGame.Housie.CallNumber: returns the drawn number besides the game-over result, because the Java code only prints it. It requires an uncalled number to remain. The Java code loops forever without one. `GameEndsBeforeNumbersRunOut` shows the driver, which calls only while the game is not over, always meets this.
- HousieGame.Housie.AnnounceWinner: does not take the player argument, which the Java code uses only for printing.
- Awarding.RoundGates: does not repeat that a changed flag belongs to a player who hit the number; `RoundMarksEveryCard` states that a non-hitter's flags do not change.
- The integer arrays of a ticket's rows are modelled as one `array2<int>`, the same grid `new int[rows][columns]` allocates.

## Findings

| source | as written | input that shows it | evidently intended | confidence | as-written member | corrected member |
|---|---|---|---|---|---|---|
| src/main/java/sie/HousieDriver.java:231-233 | A blank line at the numbers-per-row prompt returns the default 5 without the `numbersPerRow <= columns` test the loop applies to typed values | Columns 3 (any of 1 to 4), then a blank line for numbers per row. Once row 0 of a ticket holds 3 numbers, `while (row[index] > 0)` at `Ticket.java:116-119` never ends | The default passes the same test as a typed value, and the prompt asks again when it does not fit | high, not executed | GameSetup.PromptResult, GameSetup.BlankAnswerIgnoresColumns, Tickets.Ticket.FullRowHasNoFreeColumn | GameSetup.CheckedPromptResult |
