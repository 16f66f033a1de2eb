/**
 * The socket event handlers of server/index.js as pure transitions on the
 * database: `login`, `balance`, `gamestate` and `bet`. Each returns the reply
 * the server emits and the database afterwards. Storage failures are not
 * modelled, so a handler fails only where the server's own code throws.
 */
module Handlers {
  import opened Results
  import opened Money
  import opened Games
  import opened Reels
  import opened Paylines
  import opened Store

  /** The name and starting credit of an account created for a client without a key. */
  const GuestUsername: string := "Guest"
  const GuestBalance: real := 10000.0

  /** A handler's reply together with the database after it. */
  datatype Reply<R> = Reply(db: Db, response: R)

  /** Every account balance is non-negative. */
  ghost predicate BalancesNonNegative(db: Db) {
    forall i :: 0 <= i < |db.accounts| ==> 0.0 <= db.accounts[i].balance
  }

  // ---------------------------------------------------------------------
  // login and balance
  // ---------------------------------------------------------------------

  datatype LoginResponse = LoggedIn(key: string, username: string, balance: real) | LoginError(message: string)

  /**
   * `login`: a null key creates a guest account with the starting credit
   * under a fresh key (generated by the server from a UUID, an input here);
   * any other key logs into the first account holding it (the first row
   * `db.get` returns), or fails when there is none.
   */
  function Login(db: Db, key: Option<string>, freshKey: string): (r: Reply<LoginResponse>)
    ensures key.None? ==>
      && r.db.gamestates == db.gamestates
      && r.db.accounts == db.accounts + [Account(GuestUsername, GuestBalance, freshKey)]
      && r.response == LoggedIn(freshKey, GuestUsername, GuestBalance)
    ensures key.Some? ==> r.db == db
    ensures key.Some? ==> (r.response.LoggedIn? <==> exists i :: 0 <= i < |db.accounts| && db.accounts[i].key == key.value)
    ensures key.Some? && r.response.LoggedIn? ==>
      exists i :: 0 <= i < |db.accounts| && db.accounts[i].key == key.value
        && (forall j :: 0 <= j < i ==> db.accounts[j].key != key.value)
        && r.response == LoggedIn(key.value, db.accounts[i].username, db.accounts[i].balance)
  {
    match key
    case None =>
      var accounts := CreateNewUser(db.accounts, GuestUsername, GuestBalance, freshKey);
      Reply(db.(accounts := accounts), LoggedIn(freshKey, GuestUsername, GuestBalance))
    case Some(k) =>
      match FindAccount(db.accounts, k)
      case None => Reply(db, LoginError("Failed to retrieve user data."))
      case Some(i) => Reply(db, LoggedIn(k, db.accounts[i].username, db.accounts[i].balance))
  }

  /**
   * A guest created under an unused key can log back in with it and sees the
   * starting credit.
   */
  lemma GuestCanLogBackIn(db: Db, freshKey: string)
    requires forall i :: 0 <= i < |db.accounts| ==> db.accounts[i].key != freshKey
    ensures var guest := Login(db, None, freshKey);
      Login(guest.db, Some(freshKey), freshKey).response == LoggedIn(freshKey, GuestUsername, GuestBalance)
  {
    CreateThenFind(db.accounts, GuestUsername, GuestBalance, freshKey);
  }

  /** Logging in keeps every balance non-negative. */
  lemma LoginKeepsBalancesNonNegative(db: Db, key: Option<string>, freshKey: string)
    requires BalancesNonNegative(db)
    ensures BalancesNonNegative(Login(db, key, freshKey).db)
  {
  }

  /** `balance`: the balance of the first account holding the key, or an error when there is none. */
  function Balance(db: Db, key: string): (r: Result<real, string>)
    ensures r.Success? <==> exists i :: 0 <= i < |db.accounts| && db.accounts[i].key == key
    ensures r.Success? ==>
      exists i :: 0 <= i < |db.accounts| && db.accounts[i].key == key
        && (forall j :: 0 <= j < i ==> db.accounts[j].key != key)
        && db.accounts[i].balance == r.value
  {
    match FindAccount(db.accounts, key)
    case None => Failure("Failed to retrieve balance.")
    case Some(i) => Success(db.accounts[i].balance)
  }

  // ---------------------------------------------------------------------
  // gamestate
  // ---------------------------------------------------------------------

  datatype GamestateResponse =
    | GamestateOk(balance: real, bet: real, coinValue: real, reels: Grid)
    | GamestateError(message: string)

  /**
   * `gamestate`: the account's balance and its row for the game, created by
   * `getOrCreateGamestate` when needed. `draws` feed the fresh grid of a
   * created row.
   */
  function Gamestate(db: Db, cfg: Config, key: string, gameId: string, draws: seq<real>): (r: Reply<GamestateResponse>)
    requires ValidConfig(cfg) && ValidDraws(cfg, draws)
    ensures r.db.accounts == db.accounts
    ensures r.response.GamestateError? <==> FindAccount(db.accounts, key).None?
    ensures r.response.GamestateError? ==> r.db == db
    ensures r.response.GamestateOk? ==>
      var i := FindAccount(db.accounts, key).value;
      var fetched := GetOrCreateGamestate(db.gamestates, AccountId(i), gameId, cfg, draws);
      && r.db.gamestates == fetched.rows
      && r.response == GamestateOk(db.accounts[i].balance, fetched.row.bet, fetched.row.coinValue, fetched.row.reels)
  {
    match FindAccount(db.accounts, key)
    case None => Reply(db, GamestateError("Failed to retrieve game state."))
    case Some(i) =>
      var fetched := GetOrCreateGamestate(db.gamestates, AccountId(i), gameId, cfg, draws);
      Reply(db.(gamestates := fetched.rows),
            GamestateOk(db.accounts[i].balance, fetched.row.bet, fetched.row.coinValue, fetched.row.reels))
  }

  /** The first `gamestate` request for a pair shows the game's default stake on a fresh draw. */
  lemma FirstGamestateShowsDefaults(db: Db, cfg: Config, key: string, gameId: string, draws: seq<real>)
    requires ValidConfig(cfg) && ValidDraws(cfg, draws)
    requires FindAccount(db.accounts, key).Some?
    requires CountMatches(db.gamestates, AccountId(FindAccount(db.accounts, key).value), gameId) == 0
    ensures var r := Gamestate(db, cfg, key, gameId, draws);
      && r.response.GamestateOk?
      && r.response.bet == cfg.defaultBet
      && r.response.coinValue == cfg.defaultCoinValue
      && Shaped(r.response.reels, cfg)
      && CountMatches(r.db.gamestates, AccountId(FindAccount(db.accounts, key).value), gameId) == 1
  {
    var i := FindAccount(db.accounts, key).value;
    var fetched := GetOrCreateGamestate(db.gamestates, AccountId(i), gameId, cfg, draws);
    CountMatchesAppend(db.gamestates, fetched.row, AccountId(i), gameId);
  }

  /**
   * Two `gamestate` requests in a row from a pair with at most one row: the
   * second adds nothing and answers exactly as the first.
   */
  lemma GamestateIdempotent(db: Db, cfg: Config, key: string, gameId: string, draws1: seq<real>, draws2: seq<real>)
    requires ValidConfig(cfg) && ValidDraws(cfg, draws1) && ValidDraws(cfg, draws2)
    requires FindAccount(db.accounts, key).Some?
    requires CountMatches(db.gamestates, AccountId(FindAccount(db.accounts, key).value), gameId) <= 1
    ensures var first := Gamestate(db, cfg, key, gameId, draws1);
      var second := Gamestate(first.db, cfg, key, gameId, draws2);
      second == first.(response := second.response) && second.response == first.response
  {
    var i := FindAccount(db.accounts, key).value;
    GetOrCreateIdempotent(db.gamestates, AccountId(i), gameId, cfg, draws1, draws2);
  }

  // ---------------------------------------------------------------------
  // bet
  // ---------------------------------------------------------------------

  /** Why a bet was refused. All but the balance check reach the client as the same message. */
  datatype BetFailure =
    | InvalidNumber                   // `bet` or `coinValue` parsed to NaN
    | UnknownAccount                  // no account holds the key
    | InsufficientBalance             // the balance is below the stake
    | PayoutUndefined(error: EvalError) // a paying run without a multiplier entry
    | NegativeStake                   // refused only by `CheckedBet`

  /** The message of the `bet-error` event. */
  function BetErrorMessage(f: BetFailure): string {
    if f == InsufficientBalance then "Insufficient balance." else "Failed to process bet."
  }

  datatype BetResponse =
    | BetOk(balance: real, reels: Grid, isWin: bool, win: seq<LineResult>)
    | BetError(failure: BetFailure)

  /** `betAmount`: ten coins per bet unit, rounded to cents. */
  function BetAmount(bet: real, coinValue: real): (r: real)
    ensures IsCents(r) && r - 0.005 <= bet * 10.0 * coinValue < r + 0.005
  {
    Round2(bet * 10.0 * coinValue)
  }

  /** `winAmount`: the sum of the line payouts. */
  function TotalWin(lines: seq<LineResult>): real
    decreases |lines|
  {
    if |lines| == 0 then 0.0 else lines[0].amount + TotalWin(lines[1..])
  }

  /** A sum of non-negative payouts is non-negative. */
  lemma {:induction false} TotalWinNonNegative(lines: seq<LineResult>)
    requires forall k :: 0 <= k < |lines| ==> 0.0 <= lines[k].amount
    ensures 0.0 <= TotalWin(lines)
    decreases |lines|
  {
    if |lines| > 0 {
      assert forall k :: 0 <= k < |lines[1..]| ==> lines[1..][k] == lines[k + 1];
      TotalWinNonNegative(lines[1..]);
    }
  }

  /** The grid a bet draws fits every payline. */
  lemma DrawnGridFits(cfg: Config, draws: seq<real>)
    requires ValidConfig(cfg) && ValidDraws(cfg, draws)
    ensures PaylinesFit(cfg, DrawGrid(cfg, draws))
  {
    ShapedGridFitsPaylines(cfg, DrawGrid(cfg, draws));
  }

  /**
   * `generateBetResult`: a grid drawn from `draws` and the evaluation of the
   * paylines on it at the given stake.
   */
  function Spin(cfg: Config, betAmount: real, draws: seq<real>): (r: Result<(Grid, seq<LineResult>), EvalError>)
    requires ValidConfig(cfg) && ValidDraws(cfg, draws)
  {
    var grid := DrawGrid(cfg, draws);
    DrawnGridFits(cfg, draws);
    match Evaluate(cfg, betAmount, grid)
    case Failure(e) => Failure(e)
    case Success(lines) => Success((grid, lines))
  }

  /** A successful spin shows the grid drawn from `draws` and its evaluation. */
  lemma SpinDrawsGrid(cfg: Config, betAmount: real, draws: seq<real>)
    requires ValidConfig(cfg) && ValidDraws(cfg, draws)
    requires Spin(cfg, betAmount, draws).Success?
    ensures Spin(cfg, betAmount, draws).value.0 == DrawGrid(cfg, draws)
    ensures (DrawnGridFits(cfg, draws);
             Evaluate(cfg, betAmount, DrawGrid(cfg, draws)) == Success(Spin(cfg, betAmount, draws).value.1))
  {
  }

  /** Every payout of a spin, if it succeeds, is non-negative. */
  predicate PayoutsNonNegative(spin: Result<(Grid, seq<LineResult>), EvalError>) {
    spin.Success? ==> forall k :: 0 <= k < |spin.value.1| ==> 0.0 <= spin.value.1[k].amount
  }

  /** With non-negative multipliers, a spin at a non-negative stake pays nothing negative. */
  lemma SpinPayoutsNonNegative(cfg: Config, betAmount: real, draws: seq<real>)
    requires ValidConfig(cfg) && ValidDraws(cfg, draws) && NonNegativeMultipliers(cfg)
    requires 0.0 <= betAmount
    ensures PayoutsNonNegative(Spin(cfg, betAmount, draws))
  {
    if Spin(cfg, betAmount, draws).Success? {
      DrawnGridFits(cfg, draws);
      SpinDrawsGrid(cfg, betAmount, draws);
      AmountsNonNegative(cfg, betAmount, DrawGrid(cfg, draws), Spin(cfg, betAmount, draws).value.1);
    }
  }

  /**
   * The writes of a settled bet: the account at position `i` gets the new
   * balance, and the pair's gamestate row the bet's stake and grid.
   */
  function Commit(db: Db, i: nat, gameId: string, bet: real, coinValue: real, grid: Grid, newBalance: real): Db {
    Db(UpdateBalance(db.accounts, AccountId(i), newBalance),
       UpdateGamestate(db.gamestates, AccountId(i), gameId, bet, coinValue, grid))
  }

  /**
   * A bet whose stake the balance of the account at position `i` covers,
   * given the outcome of its spin: a payline without a multiplier refuses the
   * bet and writes nothing; otherwise the new balance and the pair's
   * gamestate are written.
   */
  function Settle(db: Db, i: nat, gameId: string, bet: real, coinValue: real, betAmount: real,
                  spin: Result<(Grid, seq<LineResult>), EvalError>): (r: Reply<BetResponse>)
    requires i < |db.accounts|
  {
    if spin.Failure? then Reply(db, BetError(PayoutUndefined(spin.error)))
    else
      var grid := spin.value.0;
      var lines := spin.value.1;
      var newBalance := Round2(db.accounts[i].balance - betAmount + TotalWin(lines));
      Reply(Commit(db, i, gameId, bet, coinValue, grid, newBalance),
            BetOk(newBalance, grid, |lines| > 0, lines))
  }

  /**
   * A failed spin is refused with nothing written. A successful one replies
   * with its grid and lines, and with the old balance minus the stake plus
   * the payouts, rounded to cents; that balance is written to the bettor's
   * account, no other account changes, and the pair's gamestate rows take
   * the stake and the grid.
   */
  lemma SettleWrites(db: Db, i: nat, gameId: string, bet: real, coinValue: real, betAmount: real,
                     spin: Result<(Grid, seq<LineResult>), EvalError>)
    requires i < |db.accounts|
    ensures var r := Settle(db, i, gameId, bet, coinValue, betAmount, spin);
      spin.Failure? ==> r == Reply(db, BetError(PayoutUndefined(spin.error)))
    ensures var r := Settle(db, i, gameId, bet, coinValue, betAmount, spin);
      spin.Success? ==>
        && r.response.BetOk?
        && r.response.reels == spin.value.0
        && r.response.win == spin.value.1
        && r.response.balance == Round2(db.accounts[i].balance - betAmount + TotalWin(spin.value.1))
        && (r.response.isWin <==> |spin.value.1| > 0)
        && |r.db.accounts| == |db.accounts|
        && r.db.accounts[i] == db.accounts[i].(balance := r.response.balance)
        && (forall j :: 0 <= j < |db.accounts| && j != i ==> r.db.accounts[j] == db.accounts[j])
        && r.db.gamestates == UpdateGamestate(db.gamestates, AccountId(i), gameId, bet, coinValue, spin.value.0)
  {
  }

  /** A settlement that replies `BetOk` came from a successful spin, which the reply reports. */
  lemma SettledReply(db: Db, i: nat, gameId: string, bet: real, coinValue: real, betAmount: real,
                     spin: Result<(Grid, seq<LineResult>), EvalError>, r: Reply<BetResponse>)
    requires i < |db.accounts|
    requires r == Settle(db, i, gameId, bet, coinValue, betAmount, spin) && r.response.BetOk?
    ensures spin == Success((r.response.reels, r.response.win))
    ensures r.response.balance == Round2(db.accounts[i].balance - betAmount + TotalWin(r.response.win))
    ensures r.response.isWin <==> |r.response.win| > 0
    ensures |r.db.accounts| == |db.accounts|
    ensures r.db.accounts[i] == db.accounts[i].(balance := r.response.balance)
    ensures forall j :: 0 <= j < |db.accounts| && j != i ==> r.db.accounts[j] == db.accounts[j]
    ensures r.db.gamestates == UpdateGamestate(db.gamestates, AccountId(i), gameId, bet, coinValue, r.response.reels)
  {
    SettleWrites(db, i, gameId, bet, coinValue, betAmount, spin);
  }

  /** Settling a covered, non-negative stake with non-negative payouts keeps every balance non-negative. */
  lemma SettleKeepsBalancesNonNegative(db: Db, i: nat, gameId: string, bet: real, coinValue: real, betAmount: real,
                                       spin: Result<(Grid, seq<LineResult>), EvalError>)
    requires i < |db.accounts| && BalancesNonNegative(db)
    requires 0.0 <= betAmount <= db.accounts[i].balance
    requires PayoutsNonNegative(spin)
    ensures BalancesNonNegative(Settle(db, i, gameId, bet, coinValue, betAmount, spin).db)
  {
    SettleWrites(db, i, gameId, bet, coinValue, betAmount, spin);
    if spin.Success? {
      var lines := spin.value.1;
      TotalWinNonNegative(lines);
      Round2NonNegative(db.accounts[i].balance - betAmount + TotalWin(lines));
      var after := Settle(db, i, gameId, bet, coinValue, betAmount, spin).db;
      forall j | 0 <= j < |after.accounts|
        ensures 0.0 <= after.accounts[j].balance
      {
        if j != i {
          assert after.accounts[j] == db.accounts[j];
        }
      }
    }
  }

  /**
   * The `bet` handler. It checks only that `bet`, `coinValue` and the stake
   * are numbers, and that the balance covers the stake; then it draws a grid,
   * evaluates the paylines, and writes the new balance and the pair's
   * gamestate (overwriting the pair's row if there is one; there is no
   * insert). Every refusal leaves the database as it was.
   */
  function Bet(db: Db, cfg: Config, key: string, gameId: string, bet: Option<real>, coinValue: Option<real>, draws: seq<real>): (r: Reply<BetResponse>)
    requires ValidConfig(cfg) && ValidDraws(cfg, draws)
    ensures r.response.BetError? ==> r.db == db
    ensures bet.None? || coinValue.None? ==> r.response == BetError(InvalidNumber)
    ensures bet.Some? && coinValue.Some? && FindAccount(db.accounts, key).None? ==> r.response == BetError(UnknownAccount)
    ensures bet.Some? && coinValue.Some? && FindAccount(db.accounts, key).Some? ==>
      (db.accounts[FindAccount(db.accounts, key).value].balance < BetAmount(bet.value, coinValue.value)
       <==> r.response == BetError(InsufficientBalance))
  {
    if bet.None? || coinValue.None? then Reply(db, BetError(InvalidNumber))
    else
      var betAmount := BetAmount(bet.value, coinValue.value);
      match FindAccount(db.accounts, key)
      case None => Reply(db, BetError(UnknownAccount))
      case Some(i) =>
        if db.accounts[i].balance >= betAmount then
          Settle(db, i, gameId, bet.value, coinValue.value, betAmount, Spin(cfg, betAmount, draws))
        else Reply(db, BetError(InsufficientBalance))
  }

  /**
   * A bet whose numbers parse, whose key has an account and whose stake the
   * balance covers is settled with the outcome of its spin.
   */
  lemma BetSpins(db: Db, cfg: Config, key: string, gameId: string, bet: Option<real>, coinValue: Option<real>, draws: seq<real>)
    requires ValidConfig(cfg) && ValidDraws(cfg, draws)
    requires bet.Some? && coinValue.Some? && FindAccount(db.accounts, key).Some?
    requires BetAmount(bet.value, coinValue.value) <= db.accounts[FindAccount(db.accounts, key).value].balance
    ensures var i := FindAccount(db.accounts, key).value;
      var betAmount := BetAmount(bet.value, coinValue.value);
      Bet(db, cfg, key, gameId, bet, coinValue, draws)
        == Settle(db, i, gameId, bet.value, coinValue.value, betAmount, Spin(cfg, betAmount, draws))
  {
  }

  /**
   * A bet is settled exactly when both numbers parse, the key has an account,
   * the balance covers the stake and every paying run has a multiplier.
   */
  lemma BetSucceedsIff(db: Db, cfg: Config, key: string, gameId: string, bet: Option<real>, coinValue: Option<real>, draws: seq<real>)
    requires ValidConfig(cfg) && ValidDraws(cfg, draws)
    ensures Bet(db, cfg, key, gameId, bet, coinValue, draws).response.BetOk? <==>
      && bet.Some? && coinValue.Some?
      && FindAccount(db.accounts, key).Some?
      && BetAmount(bet.value, coinValue.value) <= db.accounts[FindAccount(db.accounts, key).value].balance
      && (DrawnGridFits(cfg, draws);
          Evaluate(cfg, BetAmount(bet.value, coinValue.value), DrawGrid(cfg, draws)).Success?)
  {
    DrawnGridFits(cfg, draws);
    if bet.Some? && coinValue.Some? && FindAccount(db.accounts, key).Some?
       && BetAmount(bet.value, coinValue.value) <= db.accounts[FindAccount(db.accounts, key).value].balance
    {
      BetSpins(db, cfg, key, gameId, bet, coinValue, draws);
    }
  }

  /**
   * A settled bet: the reply carries the drawn grid and the paying lines at
   * the stake `betAmount`; the new balance is the old one minus the stake plus
   * the payouts, rounded to cents; it is written to the bettor's account and
   * nothing else about any account changes; the pair's gamestate rows take
   * the bet, coin value and grid; `isWin` says whether any line paid.
   */
  lemma BetSettles(db: Db, cfg: Config, key: string, gameId: string, bet: Option<real>, coinValue: Option<real>, draws: seq<real>)
    requires ValidConfig(cfg) && ValidDraws(cfg, draws)
    requires Bet(db, cfg, key, gameId, bet, coinValue, draws).response.BetOk?
    ensures bet.Some? && coinValue.Some? && FindAccount(db.accounts, key).Some?
    ensures var r := Bet(db, cfg, key, gameId, bet, coinValue, draws);
      var i := FindAccount(db.accounts, key).value;
      var betAmount := BetAmount(bet.value, coinValue.value);
      var grid := DrawGrid(cfg, draws);
      && betAmount <= db.accounts[i].balance
      && r.response.reels == grid
      && (DrawnGridFits(cfg, draws); Evaluate(cfg, betAmount, grid) == Success(r.response.win))
      && r.response.balance == Round2(db.accounts[i].balance - betAmount + TotalWin(r.response.win))
      && (r.response.isWin <==> |r.response.win| > 0)
      && |r.db.accounts| == |db.accounts|
      && r.db.accounts[i] == db.accounts[i].(balance := r.response.balance)
      && (forall j :: 0 <= j < |db.accounts| && j != i ==> r.db.accounts[j] == db.accounts[j])
      && r.db.gamestates == UpdateGamestate(db.gamestates, AccountId(i), gameId, bet.value, coinValue.value, grid)
  {
    var i := FindAccount(db.accounts, key).value;
    var betAmount := BetAmount(bet.value, coinValue.value);
    BetSpins(db, cfg, key, gameId, bet, coinValue, draws);
    SettledReply(db, i, gameId, bet.value, coinValue.value, betAmount, Spin(cfg, betAmount, draws),
                 Bet(db, cfg, key, gameId, bet, coinValue, draws));
    SpinDrawsGrid(cfg, betAmount, draws);
  }

  /** A non-negative bet and coin value give a non-negative stake. */
  lemma BetAmountNonNegative(bet: real, coinValue: real)
    requires 0.0 <= bet && 0.0 <= coinValue
    ensures 0.0 <= BetAmount(bet, coinValue)
  {
    assert 0.0 <= bet * 10.0 * coinValue;
    Round2NonNegative(bet * 10.0 * coinValue);
  }

  /**
   * The `bet-error` message of a refused bet: "Insufficient balance." exactly
   * when the balance check refused it, "Failed to process bet." for every
   * other refusal.
   */
  lemma BetRefusalMessage(db: Db, cfg: Config, key: string, gameId: string, bet: Option<real>, coinValue: Option<real>, draws: seq<real>)
    requires ValidConfig(cfg) && ValidDraws(cfg, draws)
    requires Bet(db, cfg, key, gameId, bet, coinValue, draws).response.BetError?
    ensures var m := BetErrorMessage(Bet(db, cfg, key, gameId, bet, coinValue, draws).response.failure);
      && (m == "Insufficient balance." <==>
           && bet.Some? && coinValue.Some? && FindAccount(db.accounts, key).Some?
           && db.accounts[FindAccount(db.accounts, key).value].balance < BetAmount(bet.value, coinValue.value))
      && (m == "Insufficient balance." || m == "Failed to process bet.")
  {
    var m := BetErrorMessage(Bet(db, cfg, key, gameId, bet, coinValue, draws).response.failure);
    assert "Failed to process bet." != "Insufficient balance." by {
      assert |"Failed to process bet."| != |"Insufficient balance."|;
    }
    if bet.Some? && coinValue.Some? && FindAccount(db.accounts, key).Some?
       && BetAmount(bet.value, coinValue.value) <= db.accounts[FindAccount(db.accounts, key).value].balance
    {
      BetSpins(db, cfg, key, gameId, bet, coinValue, draws);
    }
  }

  /**
   * With non-negative multipliers, a bet whose numbers are non-negative keeps
   * every balance non-negative. The server does not check the sign of the
   * numbers, hence the precondition.
   */
  lemma BetKeepsBalancesNonNegative(db: Db, cfg: Config, key: string, gameId: string, bet: Option<real>, coinValue: Option<real>, draws: seq<real>)
    requires ValidConfig(cfg) && ValidDraws(cfg, draws) && NonNegativeMultipliers(cfg)
    requires bet.Some? ==> 0.0 <= bet.value
    requires coinValue.Some? ==> 0.0 <= coinValue.value
    requires BalancesNonNegative(db)
    ensures BalancesNonNegative(Bet(db, cfg, key, gameId, bet, coinValue, draws).db)
  {
    if bet.Some? && coinValue.Some? && FindAccount(db.accounts, key).Some? {
      var i := FindAccount(db.accounts, key).value;
      var betAmount := BetAmount(bet.value, coinValue.value);
      if betAmount <= db.accounts[i].balance {
        BetAmountNonNegative(bet.value, coinValue.value);
        SpinPayoutsNonNegative(cfg, betAmount, draws);
        SettleKeepsBalancesNonNegative(db, i, gameId, bet.value, coinValue.value, betAmount, Spin(cfg, betAmount, draws));
        BetSpins(db, cfg, key, gameId, bet, coinValue, draws);
      }
    }
  }

  /**
   * After a settled bet on a pair that has its gamestate row, the next
   * `gamestate` request shows the new balance and the bet's stake and grid.
   */
  lemma BetThenGamestate(db: Db, cfg: Config, key: string, gameId: string, bet: Option<real>, coinValue: Option<real>, draws: seq<real>, draws2: seq<real>)
    requires ValidConfig(cfg) && ValidDraws(cfg, draws) && ValidDraws(cfg, draws2)
    requires Bet(db, cfg, key, gameId, bet, coinValue, draws).response.BetOk?
    requires FindAccount(db.accounts, key).Some?
    requires CountMatches(db.gamestates, AccountId(FindAccount(db.accounts, key).value), gameId) == 1
    ensures var r := Bet(db, cfg, key, gameId, bet, coinValue, draws);
      var g := Gamestate(r.db, cfg, key, gameId, draws2);
      && g.db == r.db
      && g.response == GamestateOk(r.response.balance, bet.value, coinValue.value, r.response.reels)
  {
    BetSettles(db, cfg, key, gameId, bet, coinValue, draws);
    var r := Bet(db, cfg, key, gameId, bet, coinValue, draws);
    var i := FindAccount(db.accounts, key).value;
    UpdateBalanceThenFind(db.accounts, AccountId(i), r.response.balance, key);
    UpdateThenGet(db.gamestates, AccountId(i), gameId, bet.value, coinValue.value, r.response.reels, cfg, draws2);
  }

  /** After an accepted bet, a `balance` request with the same key reads back the balance the bet replied with. */
  lemma BetThenBalance(db: Db, cfg: Config, key: string, gameId: string, bet: Option<real>, coinValue: Option<real>, draws: seq<real>)
    requires ValidConfig(cfg) && ValidDraws(cfg, draws)
    requires Bet(db, cfg, key, gameId, bet, coinValue, draws).response.BetOk?
    ensures var r := Bet(db, cfg, key, gameId, bet, coinValue, draws);
      Balance(r.db, key) == Success(r.response.balance)
  {
    BetSettles(db, cfg, key, gameId, bet, coinValue, draws);
    var r := Bet(db, cfg, key, gameId, bet, coinValue, draws);
    var i := FindAccount(db.accounts, key).value;
    UpdateBalanceThenFind(db.accounts, AccountId(i), r.response.balance, key);
    assert r.db.accounts == UpdateBalance(db.accounts, AccountId(i), r.response.balance);
  }

  // ---------------------------------------------------------------------
  // Negative stakes
  // ---------------------------------------------------------------------

  /**
   * The server's handler accepts a negative stake: an account with nothing
   * on it, betting -1 at coin value 1 in a game without paylines, loses the
   * spin and ends with 10.
   */
  lemma NegativeStakeCreatesMoney()
    ensures var cfg := Config(0, 0, 1, [], map[], 1.0, 0.01);
      var db := Db([Account(GuestUsername, 0.0, "k")], []);
      && ValidConfig(cfg) && ValidDraws(cfg, [])
      && Bet(db, cfg, "k", "g", Some(-1.0), Some(1.0), []) ==
         Reply(Db([Account(GuestUsername, 10.0, "k")], []), BetOk(10.0, [], false, []))
  {
    var cfg := Config(0, 0, 1, [], map[], 1.0, 0.01);
    var db := Db([Account(GuestUsername, 0.0, "k")], []);
    assert BetAmount(-1.0, 1.0) == -10.0 by {
      Round2OfCents(-10.0);
    }
    assert DrawGrid(cfg, []) == [];
    assert LineOutcomes(cfg, -10.0, []) == [];
    assert Evaluate(cfg, -10.0, []) == Success([]);
    assert Round2(0.0 - -10.0 + 0.0) == 10.0 by {
      Round2OfCents(10.0);
    }
    assert FindAccount(db.accounts, "k") == Some(0);
  }

  /**
   * For every game and every draw on which no payline pays, the handler as
   * written accepts a bet of -1 at coin value 1 from any account: the stake
   * is -10, the spin pays nothing, and the balance grows by 10 (rounded to
   * cents).
   */
  lemma NegativeStakeOnLosingSpin(db: Db, cfg: Config, key: string, gameId: string, draws: seq<real>)
    requires ValidConfig(cfg) && ValidDraws(cfg, draws)
    requires FindAccount(db.accounts, key).Some? && 0.0 <= db.accounts[FindAccount(db.accounts, key).value].balance
    requires (DrawnGridFits(cfg, draws);
              forall i :: 0 <= i < |cfg.paylines| ==> !LinePays(cfg, DrawGrid(cfg, draws), i))
    ensures var b := db.accounts[FindAccount(db.accounts, key).value].balance;
      var r := Bet(db, cfg, key, gameId, Some(-1.0), Some(1.0), draws);
      && r.response == BetOk(Round2(b + 10.0), DrawGrid(cfg, draws), false, [])
      && b + 9.995 < r.response.balance
  {
    var i := FindAccount(db.accounts, key).value;
    var b := db.accounts[i].balance;
    var grid := DrawGrid(cfg, draws);
    assert BetAmount(-1.0, 1.0) == -10.0 by {
      Round2OfCents(-10.0);
    }
    DrawnGridFits(cfg, draws);
    NoPayingLineEvaluatesEmpty(cfg, -10.0, grid);
    BetSucceedsIff(db, cfg, key, gameId, Some(-1.0), Some(1.0), draws);
    BetSettles(db, cfg, key, gameId, Some(-1.0), Some(1.0), draws);
    assert b - -10.0 + TotalWin([]) == b + 10.0;
  }

  /**
   * The bet handler with the sign check the server lacks: a negative bet or
   * coin value is refused like any other invalid wager, with nothing written;
   * every other request is handled by `Bet`.
   */
  function CheckedBet(db: Db, cfg: Config, key: string, gameId: string, bet: Option<real>, coinValue: Option<real>, draws: seq<real>): (r: Reply<BetResponse>)
    requires ValidConfig(cfg) && ValidDraws(cfg, draws)
    ensures (bet.Some? && bet.value < 0.0) || (coinValue.Some? && coinValue.value < 0.0) ==>
      r == Reply(db, BetError(NegativeStake))
    ensures (bet.None? || 0.0 <= bet.value) && (coinValue.None? || 0.0 <= coinValue.value) ==>
      r == Bet(db, cfg, key, gameId, bet, coinValue, draws)
  {
    if (bet.Some? && bet.value < 0.0) || (coinValue.Some? && coinValue.value < 0.0) then Reply(db, BetError(NegativeStake))
    else Bet(db, cfg, key, gameId, bet, coinValue, draws)
  }

  /**
   * With the sign check, no bet request of any kind can make a balance
   * negative (given non-negative multipliers).
   */
  lemma CheckedBetKeepsBalancesNonNegative(db: Db, cfg: Config, key: string, gameId: string, bet: Option<real>, coinValue: Option<real>, draws: seq<real>)
    requires ValidConfig(cfg) && ValidDraws(cfg, draws) && NonNegativeMultipliers(cfg)
    requires BalancesNonNegative(db)
    ensures BalancesNonNegative(CheckedBet(db, cfg, key, gameId, bet, coinValue, draws).db)
  {
    if !((bet.Some? && bet.value < 0.0) || (coinValue.Some? && coinValue.value < 0.0)) {
      BetKeepsBalancesNonNegative(db, cfg, key, gameId, bet, coinValue, draws);
    }
  }
}
