# Slot-machine wagering server, modelled in Dafny

This project models the game server of `royalgames-nextjs` (`server/index.js`).
That server keeps player accounts and per-game reel states in SQLite and
answers four socket events:

- `login` creates a guest account with 10000.00 credit when the client has no
  key, and otherwise looks the key up.
- `balance` reads an account's balance.
- `gamestate` returns the stored stake and reels for a (user, game) pair. It
  creates the row with the game's defaults and a fresh draw when needed
  (`getOrCreateGamestate`).
- `bet` settles a wager: it draws a reel grid (`generateRandomReelsPosition`),
  evaluates the paylines on it (`processReelsPosition`), writes the new balance
  (`updateBalance`) and the pair's state (`updateGamestate`), and replies with
  the grid and the paying lines.

Modules, one per file:

- `results.dfy`: `Option` and `Result`.
- `money.dfy` (`Money`): `Math.round(x * 100) / 100` on exact reals (`Round2`).
- `games.dfy` (`Games`): the game data (`Config`), grids and payline masks.
- `reels.dfy` (`Reels`): drawing a grid from a sequence of random values. It
  also holds the draw exactly as the server writes it, with `parseInt`.
- `paylines.dfy` (`Paylines`): payline evaluation (`Evaluate`) and its full
  characterisation (`EvaluateSpec`).
- `store.dfy` (`Store`): both tables as sequences of rows in rowid order, and
  the queries the server runs on them.
- `handlers.dfy` (`Handlers`): the four handlers as pure transitions from a
  database to a reply plus a database. `Bet` is the handler as written,
  except that its grid is drawn with the corrected per-cell draw
  `Reels.DrawSymbol`. `CheckedBet` adds the sign check the server lacks.

Modelling choices:

- Money is exact reals. `Round2(x)` is `floor(100x + 0.5) / 100`, which is how
  `Math.round` rounds: halves go towards +infinity.
- The random source is an input. `draws` is the sequence of values
  `Math.random()` returns, each in `[0, 1)`. The fresh account key that the
  server builds from `md5(uuidv1())` is an input too.
- The server picks a game's data by switching on the game id. Here the
  `Config` is passed explicitly.
- `parseFloat` results are `Option<real>`: `None` stands for `NaN`.
- The account at position `i` has id `i + 1`. Accounts are only ever
  inserted, and the ids come from AUTOINCREMENT.
- A paying run with no multiplier entry makes the server read past the
  symbol's multiplier table and throw (a symbol with no table at all throws
  one step earlier, at `undefined[count - 3]`). Here that is an `EvalError`. `Bet` turns it into a
  `bet-error` and writes nothing.
- Three details of the code that the model keeps:
  - `Math.round` sends ties up, towards +infinity, not away from zero
    (`server/index.js:137`, `:150`, `:249`);
  - `isWin` is `lines.length > 0`, "at least one line paid"
    (`server/index.js:158`);
  - `updateGamestate` is an `UPDATE` and never inserts a row
    (`server/index.js:333`).

## Model

| member | source | states |
|---|---|---|
| Money.Round2 | server/index.js:137 | the rounded amount is a whole number of cents, and the input lies within half a cent of it, ties going up |
| Money.Round2Unique | server/index.js:150 | any whole-cents value within half a cent of the input (ties up) is exactly the rounded amount |
| Money.Round2OfCents | server/index.js:150 | an amount already in whole cents is left unchanged by rounding |
| Money.Round2Idempotent | server/index.js:150 | rounding a rounded balance changes nothing |
| Money.Round2NonNegative | server/index.js:249 | rounding a non-negative amount never gives a negative one |
| Money.Round2Monotone | server/index.js:150 | rounding preserves the order of amounts |
| Games.ShapedGridFitsPaylines | server/index.js:225-228 | every cell a payline marks lies inside a drawn grid, so reading `position[j][k]` is defined |
| Reels.DrawIndicesInRange | server/index.js:189-193 | each drawn cell uses its own random value (no two cells share one), and every index is inside the draw sequence |
| Reels.DrawIndexBelowNextReel | server/index.js:189-193 | every cell of a reel consumes an earlier random value than any cell of a later reel |
| Reels.DrawSymbol | server/index.js:191 | the corrected draw gives a symbol in `1..symbolsCount`, namely the equal-width bucket of `[0, 1)` that the random value falls in |
| Reels.DrawGrid | server/index.js:172-196 | the grid has `reelsCount` reels of `reelPositions + 1` symbols each, all in `1..symbolsCount`; cell `(i, j)` comes from random value `i * (reelPositions + 1) + j` |
| Reels.ParseIntOfNumber | server/index.js:191 | `parseInt` of a number from one millionth up, or of zero, is its integer part |
| Reels.ParseIntBelowOneMillionth | server/index.js:191 | `parseInt` of 9e-7 is 9, because the number is printed as "9e-7" |
| Reels.DrawSymbolAsWritten | server/index.js:191 | the draw as written is at least 1 |
| Reels.DrawAtNineMillionths | server/index.js:191 | a random value whose product with the symbol count is 9e-7 draws symbol 10 |
| Reels.DrawSymbolAsWrittenLeavesRange | server/index.js:191 | for every game with at most 9 symbols, some random value makes the draw as written give 10, which is outside `1..symbolsCount` |
| Reels.DrawSymbolAsWrittenAgrees | server/index.js:191 | when the product is zero or at least one millionth, the draw as written equals the corrected draw |
| Paylines.ReelCellsMembership | server/index.js:226-228 | a cell of one reel is visited exactly when its mask entry is 1 |
| Paylines.ReelCellsOrdered | server/index.js:226-228 | within a reel, cells are visited top to bottom |
| Paylines.ReelCellsCount | server/index.js:226-228 | within a reel, one cell is visited per 1 in the mask column |
| Paylines.MarkedCells | server/index.js:225-231 | no contract; `MarkedCellsMembership`, `MarkedCellsOrdered` and `MarkedCellsCount` state which cells it lists and in what order |
| Paylines.MarkedCellsMembership | server/index.js:225-231 | a grid cell is read for a payline exactly when the mask marks it with 1 |
| Paylines.MarkedCellsOrdered | server/index.js:225-231 | the cells are read reel by reel, then row by row, with no repeats |
| Paylines.MarkedCellsCount | server/index.js:225-231 | one cell is read per 1 in the mask |
| Paylines.SymbolsInLine | server/index.js:224-231 | a line has one symbol per 1 in its mask |
| Paylines.SymbolsAtMarkedCells | server/index.js:224-231 | the line's n-th symbol is the grid symbol at the n-th marked cell in scan order |
| Paylines.RunFrom | server/index.js:235-241 | from a prefix of equal symbols, the counting loop stops at the first symbol that differs from the first one, or at the end |
| Paylines.RunCount | server/index.js:233-241 | `identicalSymbolsCount` is the length of the maximal run of the first symbol, and 1 for an empty line |
| Paylines.RunCountCharacterization | server/index.js:233-241 | a count is a maximal run of the first symbol exactly when it equals `RunCount` |
| Paylines.EvaluateLine | server/index.js:233-251 | one payline: no entry iff the run is below 3; failure iff it pays but has no multiplier; otherwise an entry numbered `i + 1` carrying the mask, the run and the rounded payout |
| Paylines.Collect | server/index.js:223-252 | collected entries are numbered within the paylines, in strictly increasing order |
| Paylines.CollectEntries | server/index.js:223-252 | every collected entry is exactly the outcome of its own payline |
| Paylines.CollectFailure | server/index.js:223-252 | the loop fails iff some payline fails, and the error is that of the first failing payline |
| Paylines.CollectComplete | server/index.js:243-251 | on success, every payline that produced an entry has it in the result |
| Paylines.OutcomesNumbered | server/index.js:244-245 | the entry of payline `i` is numbered `i + 1` |
| Paylines.PayingLineReported | server/index.js:243-251 | on success, a payline whose run is at least 3 appears in the result |
| Paylines.ReportedLinePays | server/index.js:243-251 | on success, every entry is the entry of a paying payline, with its run, symbol, mask and payout |
| Paylines.FailsIffMultiplierMissing | server/index.js:249 | evaluation fails iff some paying run has no multiplier entry |
| Paylines.PayingIffReported | server/index.js:243-251 | on success, the paying paylines are exactly those with an entry in the result |
| Paylines.PayingIffReportedAt | server/index.js:243-251 | the same, for one payline |
| Paylines.EntriesAreLineResults | server/index.js:243-251 | on success, every entry is the entry the server builds for its payline |
| Paylines.Evaluate | server/index.js:208-255 | entry numbers are within the paylines and strictly increase |
| Paylines.EvaluateSpec | server/index.js:208-255 | failure iff some paying run lacks a multiplier; otherwise entries in payline order, one per paying payline and none for any other, each with its maximal run and rounded payout |
| Paylines.LineAmount | server/index.js:249 | the payout is a whole number of cents within half a cent of stake times the symbol's multiplier for the run length |
| Paylines.LineAmountNonNegative | server/index.js:249 | a non-negative stake and multiplier give a non-negative payout |
| Paylines.EntryAmountNonNegative | server/index.js:249 | a reported entry pays a non-negative amount under non-negative stake and multipliers |
| Paylines.AmountsNonNegative | server/index.js:243-251 | every payout of a successful evaluation is non-negative under non-negative stake and multipliers |
| Paylines.CollectAllNone | server/index.js:223-252 | when no payline reports an entry, the loop collects nothing and does not fail |
| Paylines.NoPayingLineEvaluatesEmpty | server/index.js:243-254 | on a grid where no payline has a run of 3, evaluation succeeds with no entries, whatever the multiplier table |
| Store.FindAccountFrom | server/index.js:269-279 | the first account from a position on that holds the key, or none if no account there holds it |
| Store.FindAccount | server/index.js:269-279 | `getUser` finds the first account holding the key, and finds none iff no account holds it |
| Store.CreateNewUser | server/index.js:257-267 | `createNewUser` appends one row with the given name, balance and key, and keeps every existing row |
| Store.CreateThenFind | server/index.js:257-279 | after creating an account under an unused key, `getUser` finds the new account |
| Store.UpdateBalance | server/index.js:319-329 | only the balance of the account with that id changes; an unknown id changes nothing |
| Store.UpdateBalanceThenFind | server/index.js:319-329 | updating a balance leaves every key lookup unchanged, and the updated account reads back the new balance |
| Store.CountMatches | server/index.js:283-286 | the query returns at most as many rows as the table holds; `CountMatchesZero`, `CountMatchesTwo` and `CountMatchesAppend` state how it counts |
| Store.CountMatchesZero | server/index.js:283-286 | the query returns no rows iff no row belongs to the pair |
| Store.CountMatchesTwo | server/index.js:283-286 | two distinct rows of a pair make the query return at least two rows |
| Store.CountMatchesAppend | server/index.js:301 | an inserted row adds one to the count of its own pair and nothing to any other pair |
| Store.FirstMatchFrom | server/index.js:283-287 | the first row of the pair from a position on, or none |
| Store.GetOrCreateGamestate | server/index.js:281-317 | with exactly one row for the pair: that row, table unchanged; with none or several: a new row with a fresh draw and the default bet and coin value is appended and returned |
| Store.GetOrCreateIdempotent | server/index.js:281-317 | starting from at most one row for the pair, a second call inserts nothing and returns the first call's row, whatever it would draw |
| Store.GetOrCreateKeepsOneRowPerPair | server/index.js:281-317 | if every pair has at most one row, that stays true after the call |
| Store.UpdateGamestate | server/index.js:331-341 | every row of the pair takes the new reels, bet and coin value; every other row is unchanged; no row is added |
| Store.UpdateGamestateKeepsCounts | server/index.js:331-341 | `updateGamestate` never changes how many rows any pair has |
| Store.UpdateThenGet | server/index.js:331-341 | after a pair's only row is updated, `getOrCreateGamestate` returns the update's values and inserts nothing |
| Handlers.Login | server/index.js:73-104 | without a key: a guest account with 10000 credit is appended under the fresh key; with a key: nothing is written, and login succeeds iff some account holds the key, showing the name and balance of the first account holding it (the row `db.get` returns) |
| Handlers.GuestCanLogBackIn | server/index.js:74-98 | a guest created under an unused key can log back in with it and sees the starting credit |
| Handlers.LoginKeepsBalancesNonNegative | server/index.js:73-104 | login never makes a balance negative |
| Handlers.Balance | server/index.js:106-114 | the reply succeeds iff some account holds the key, and then carries the balance of the first account holding it |
| Handlers.Gamestate | server/index.js:116-130 | accounts are never written; an error iff no account holds the key, with nothing written; otherwise the balance and the fetched row's stake and reels |
| Handlers.FirstGamestateShowsDefaults | server/index.js:116-125 | the first request for a pair shows the default bet and coin value on a well-shaped grid, and leaves exactly one row for the pair |
| Handlers.GamestateIdempotent | server/index.js:116-125 | from at most one row, a repeated request writes nothing more and gives the same reply |
| Handlers.TotalWin | server/index.js:145-148 | no contract; `TotalWinNonNegative` states that non-negative payouts sum to a non-negative win |
| Handlers.TotalWinNonNegative | server/index.js:145-148 | a sum of non-negative payouts is non-negative |
| Handlers.DrawnGridFits | server/index.js:198-200 | the grid a bet draws fits every payline |
| Handlers.Spin | server/index.js:198-206 | no contract; `SpinDrawsGrid` states what a spin shows and `SpinPayoutsNonNegative` that it pays nothing negative |
| Handlers.SpinDrawsGrid | server/index.js:198-206 | a successful spin shows the grid drawn from the random values and the evaluation of that grid |
| Handlers.SpinPayoutsNonNegative | server/index.js:198-206 | with non-negative multipliers, a spin at a non-negative stake pays nothing negative |
| Handlers.Settle | server/index.js:143-160 | no contract; `SettleWrites` and `SettledReply` state what it replies and writes |
| Handlers.SettleWrites | server/index.js:150-160 | a failed spin writes nothing; a successful one replies with the grid and lines and balance `round(old - stake + wins)`, writes that balance to the bettor only, and sets the pair's rows to the bet's stake and grid |
| Handlers.SettledReply | server/index.js:150-160 | a `BetOk` reply came from a successful spin, and it carries that spin's grid and lines |
| Handlers.SettleKeepsBalancesNonNegative | server/index.js:143-152 | settling a covered non-negative stake with non-negative payouts keeps every balance non-negative |
| Handlers.Bet | server/index.js:132-168 | every refusal writes nothing; NaN numbers, an unknown key and an uncovered stake are each refused; the balance check refuses iff the balance is below the stake |
| Handlers.BetErrorMessage | server/index.js:162-166 | no contract; `BetRefusalMessage` states which refusals read "Insufficient balance." |
| Handlers.BetRefusalMessage | server/index.js:161-166 | a refused bet reports "Insufficient balance." exactly when the balance is below the stake, and "Failed to process bet." for every other refusal |
| Handlers.BetSpins | server/index.js:143-160 | a valid, covered bet is settled with the outcome of its own spin |
| Handlers.BetSucceedsIff | server/index.js:132-168 | a bet succeeds iff both numbers parse, the key has an account, the balance covers the stake, and every paying run has a multiplier |
| Handlers.BetSettles | server/index.js:143-160 | a successful bet shows the drawn grid and its evaluation; the new balance is `round(old - stake + wins)`, written to the bettor only; the pair's rows take the bet, coin value and grid; `isWin` iff some line paid |
| Handlers.BetAmount | server/index.js:137 | the stake is a whole number of cents within half a cent of `bet * 10 * coinValue` |
| Handlers.BetAmountNonNegative | server/index.js:137 | non-negative bet and coin value give a non-negative stake |
| Handlers.BetKeepsBalancesNonNegative | server/index.js:132-168 | with non-negative multipliers and non-negative bet and coin value, no bet makes a balance negative |
| Handlers.BetThenBalance | server/index.js:106-114 | after a successful bet, a `balance` request with the same key replies with the balance the bet reported |
| Handlers.BetThenGamestate | server/index.js:150-153 | after a successful bet on a pair with its row, the next `gamestate` writes nothing and shows the new balance and the bet's stake and grid |
| Handlers.NegativeStakeCreatesMoney | server/index.js:135-152 | the handler as written accepts a bet of -1: an empty account ends with 10 |
| Handlers.NegativeStakeOnLosingSpin | server/index.js:135-152 | in every game, on every draw where no line pays, a bet of -1 at coin value 1 is accepted and raises any non-negative balance by 10, rounded to cents |
| Handlers.CheckedBet | server/index.js:135-166 | a negative bet or coin value is refused and nothing is written; every other request is handled exactly as `Bet` handles it |
| Handlers.CheckedBetKeepsBalancesNonNegative | server/index.js:139-152 | with the sign check and non-negative multipliers, no bet request of any kind makes a balance negative |

## Left out

- Floating point: amounts are exact reals. Double rounding errors in `bet * 10 * coinValue`, in the payouts and in the running `winAmount` sum are not modelled. `Infinity` from `parseFloat` is not modelled either.
- Handlers.BetKeepsBalancesNonNegative: requires non-negative bet and coin value, because the server does not check their sign (see Findings).
- Storage and transport: SQLite errors, the socket layer, JSON (de)serialisation of the reels, and the `login-error`, `balance-error` and `gamestate-error` events caused by failed writes are not modelled. A query either succeeds or does not exist.
- Concurrency: handlers are modelled one at a time. Two interleaved `bet` events for one account, with their awaits in between, are not modelled.
- Unknown game ids: here a `Config` is always given. In the server, the `switch` leaves the game data undefined. `bet` then throws when it iterates the undefined paylines (`server/index.js:223`) and replies "Failed to process bet.", provided the balance check at `server/index.js:143` passes; otherwise it replies "Insufficient balance." without spinning. `gamestate` does not throw: the loop at `server/index.js:189` draws no reels, and `getOrCreateGamestate` inserts and returns a row with an empty grid and no bet or coin value (`server/index.js:289-311`).
- Game data files (`games-data/*`) are not part of this model. Any configuration is allowed whose paylines fit the grid shape and that has at least one symbol. Multiplier tables are `map<int, seq<real>>`. An entry whose `.multiplier` field is absent (a `NaN` payout) is not modelled.
- `last_login` is never written by the server and is not kept.
- A `login` message whose key is missing but not `null` is modelled as a key that no account holds.
- Paylines.Evaluate: its own contract gives only entry numbering and order. The full characterisation is the lemma Paylines.EvaluateSpec.
- Reels.DrawSymbolAsWritten: its contract gives only that the symbol is at least 1. How it relates to the corrected draw is in Reels.DrawSymbolAsWrittenAgrees and Reels.DrawSymbolAsWrittenLeavesRange.
- Reels.DrawGrid: draws each cell with the corrected `Reels.DrawSymbol` (`floor`), not with `parseInt` as `server/index.js:191` does, so the rest of the model works with symbols in range. The draw as written is modelled per value in Reels.DrawSymbolAsWritten (see Findings).
- Handlers.Bet: spins on a grid from Reels.DrawGrid, so it is the handler as written apart from the per-cell draw.
- Store.GetOrCreateGamestate: its fresh row's grid comes from Reels.DrawGrid, with the same substitution.
- Handlers.NegativeStakeOnLosingSpin: covers draws where no line pays. With a negative stake a paying line has a negative payout (`Round2(-10 * multiplier)`), so on a winning draw the balance can go either way.

## Findings

| source | as written | input that shows it | evidently intended | confidence | as-written member | corrected member |
|---|---|---|---|---|---|---|
| server/index.js:191 | `parseInt(Math.random() * symbolsCount) + 1`: `parseInt` converts the number to a string first, and below 1e-6 that string is in exponent notation (`9e-7`), so only the leading digit survives | `symbolsCount` at most 9 and `Math.random()` returning `9e-7 / symbolsCount`: symbol 10, outside `1..symbolsCount` | `Math.floor(Math.random() * symbolsCount) + 1`, always in `1..symbolsCount` | not executed; a double that small from `Math.random()` is rare but possible | Reels.DrawSymbolAsWrittenLeavesRange | Reels.DrawSymbol |
| server/index.js:135-143 | the bet and coin value are checked only for `NaN`, so a negative stake passes the balance check and is subtracted | a balance of 0, bet -1, coin value 1, in a game with no paylines: the stake is -10 and the balance becomes 10 | bet and coin value must be non-negative | not executed | Handlers.NegativeStakeCreatesMoney, Handlers.NegativeStakeOnLosingSpin | Handlers.CheckedBetKeepsBalancesNonNegative |
