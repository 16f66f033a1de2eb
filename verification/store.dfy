/**
 * The two tables the server keeps in SQLite, as sequences of rows in
 * insertion (rowid) order, and the queries it runs on them: `getUser`,
 * `createNewUser`, `updateBalance`, `getOrCreateGamestate` and
 * `updateGamestate` (server/index.js).
 *
 * Accounts are only ever inserted, and their ids come from AUTOINCREMENT
 * starting at 1, so the account at position `i` has id `i + 1`.
 */
module Store {
  import opened Results
  import opened Games
  import opened Reels

  /** A row of `accounts`. `last_login` is never written by the server and is not kept. */
  datatype Account = Account(username: string, balance: real, key: string)

  /**
   * A row of `gamestates`. The server stores the reels as JSON text; here the
   * grid itself is stored.
   */
  datatype GameStateRow = GameStateRow(userId: nat, gameId: string, reels: Grid, bet: real, coinValue: real)

  /** The database: both tables. */
  datatype Db = Db(accounts: seq<Account>, gamestates: seq<GameStateRow>)

  /** The id of the account at position `index`. */
  function AccountId(index: nat): nat {
    index + 1
  }

  // ---------------------------------------------------------------------
  // accounts
  // ---------------------------------------------------------------------

  /** The first account from position `i` on whose key is `key`. */
  function FindAccountFrom(accounts: seq<Account>, key: string, i: nat): (r: Option<nat>)
    requires i <= |accounts|
    ensures r.Some? ==>
      (i <= r.value < |accounts| && accounts[r.value].key == key && forall j :: i <= j < r.value ==> accounts[j].key != key)
    ensures r.None? ==> forall j :: i <= j < |accounts| ==> accounts[j].key != key
    decreases |accounts| - i
  {
    if i == |accounts| then None
    else if accounts[i].key == key then Some(i)
    else FindAccountFrom(accounts, key, i + 1)
  }

  /**
   * `getUser`: `SELECT * FROM accounts WHERE key = ?` read with `db.get`,
   * which yields the first matching row, or nothing.
   */
  function FindAccount(accounts: seq<Account>, key: string): (r: Option<nat>)
    ensures r.Some? ==>
      (r.value < |accounts| && accounts[r.value].key == key && forall j :: 0 <= j < r.value ==> accounts[j].key != key)
    ensures r.None? <==> forall j :: 0 <= j < |accounts| ==> accounts[j].key != key
  {
    FindAccountFrom(accounts, key, 0)
  }

  /** `createNewUser`: a new account row at the end of the table. */
  function CreateNewUser(accounts: seq<Account>, username: string, balance: real, key: string): (r: seq<Account>)
    ensures |r| == |accounts| + 1
    ensures r[..|accounts|] == accounts
    ensures r[|accounts|] == Account(username, balance, key)
  {
    accounts + [Account(username, balance, key)]
  }

  /** After creating an account under an unused key, looking the key up finds the new account. */
  lemma CreateThenFind(accounts: seq<Account>, username: string, balance: real, key: string)
    requires FindAccount(accounts, key).None?
    ensures FindAccount(CreateNewUser(accounts, username, balance, key), key) == Some(|accounts|)
  {
    var r := CreateNewUser(accounts, username, balance, key);
    assert forall j :: 0 <= j < |accounts| ==> r[j] == accounts[j];
  }

  /**
   * `updateBalance`: `UPDATE accounts SET balance = ? WHERE id = ?`. Only the
   * balance of the account with that id changes; an id with no account
   * changes nothing.
   */
  function UpdateBalance(accounts: seq<Account>, userId: int, value: real): (r: seq<Account>)
    ensures |r| == |accounts|
    ensures forall i :: 0 <= i < |accounts| && AccountId(i) != userId ==> r[i] == accounts[i]
    ensures forall i :: 0 <= i < |accounts| && AccountId(i) == userId ==>
      r[i].balance == value && r[i].username == accounts[i].username && r[i].key == accounts[i].key
  {
    if 1 <= userId <= |accounts| then accounts[userId - 1 := accounts[userId - 1].(balance := value)] else accounts
  }

  /**
   * Updating a balance leaves every key lookup where it was, and the account
   * that was updated then reads back the new balance.
   */
  lemma UpdateBalanceThenFind(accounts: seq<Account>, userId: int, value: real, key: string)
    ensures FindAccount(UpdateBalance(accounts, userId, value), key) == FindAccount(accounts, key)
    ensures var found := FindAccount(accounts, key);
      found.Some? && AccountId(found.value) == userId ==>
        UpdateBalance(accounts, userId, value)[found.value].balance == value
  {
  }

  // ---------------------------------------------------------------------
  // gamestates
  // ---------------------------------------------------------------------

  /** The row belongs to the (user, game) pair. */
  predicate Matches(row: GameStateRow, userId: nat, gameId: string) {
    row.userId == userId && row.gameId == gameId
  }

  /** How many rows `SELECT * FROM gamestates WHERE user_id = ? AND game_id = ?` returns. */
  function CountMatches(rows: seq<GameStateRow>, userId: nat, gameId: string): (r: nat)
    ensures r <= |rows|
    decreases |rows|
  {
    if |rows| == 0 then 0
    else CountMatches(rows[..|rows| - 1], userId, gameId) + (if Matches(rows[|rows| - 1], userId, gameId) then 1 else 0)
  }

  /** No row matches exactly when the count is zero. */
  lemma {:induction false} CountMatchesZero(rows: seq<GameStateRow>, userId: nat, gameId: string)
    ensures CountMatches(rows, userId, gameId) == 0 <==> forall i :: 0 <= i < |rows| ==> !Matches(rows[i], userId, gameId)
    decreases |rows|
  {
    if |rows| > 0 {
      var front := rows[..|rows| - 1];
      CountMatchesZero(front, userId, gameId);
      assert forall i :: 0 <= i < |front| ==> front[i] == rows[i];
    }
  }

  /** Two different matching rows make the count at least two. */
  lemma {:induction false} CountMatchesTwo(rows: seq<GameStateRow>, userId: nat, gameId: string, i: nat, j: nat)
    requires i < j < |rows|
    requires Matches(rows[i], userId, gameId) && Matches(rows[j], userId, gameId)
    ensures CountMatches(rows, userId, gameId) >= 2
    decreases |rows|
  {
    var front := rows[..|rows| - 1];
    if j == |rows| - 1 {
      CountMatchesZero(front, userId, gameId);
      assert front[i] == rows[i];
    } else {
      assert front[i] == rows[i] && front[j] == rows[j];
      CountMatchesTwo(front, userId, gameId, i, j);
    }
  }

  /** Appending a row adds one to the count of its own pair and nothing to the others. */
  lemma CountMatchesAppend(rows: seq<GameStateRow>, row: GameStateRow, userId: nat, gameId: string)
    ensures CountMatches(rows + [row], userId, gameId)
      == CountMatches(rows, userId, gameId) + (if Matches(row, userId, gameId) then 1 else 0)
  {
    assert (rows + [row])[..|rows|] == rows;
  }

  /** The first row from position `i` on that belongs to the pair. */
  function FirstMatchFrom(rows: seq<GameStateRow>, userId: nat, gameId: string, i: nat): (r: Option<nat>)
    requires i <= |rows|
    ensures r.Some? ==> i <= r.value < |rows| && Matches(rows[r.value], userId, gameId)
    ensures r.Some? ==> forall j :: i <= j < r.value ==> !Matches(rows[j], userId, gameId)
    ensures r.None? ==> forall j :: i <= j < |rows| ==> !Matches(rows[j], userId, gameId)
    decreases |rows| - i
  {
    if i == |rows| then None
    else if Matches(rows[i], userId, gameId) then Some(i)
    else FirstMatchFrom(rows, userId, gameId, i + 1)
  }

  /** The fresh row `getOrCreateGamestate` inserts: a new draw and the game's default stake. */
  function DefaultRow(cfg: Config, userId: nat, gameId: string, draws: seq<real>): GameStateRow
    requires 1 <= cfg.symbolsCount && ValidDraws(cfg, draws)
  {
    GameStateRow(userId, gameId, DrawGrid(cfg, draws), cfg.defaultBet, cfg.defaultCoinValue)
  }

  /** The table after `getOrCreateGamestate`, and the row it resolves with. */
  datatype Fetched = Fetched(rows: seq<GameStateRow>, row: GameStateRow)

  /**
   * `getOrCreateGamestate`: when exactly one row belongs to the pair, that
   * row, with the table unchanged; otherwise (none, or several) a new row with
   * a fresh draw and the game's default bet and coin value is appended and
   * returned. The fresh draw is made only on that path.
   */
  function GetOrCreateGamestate(rows: seq<GameStateRow>, userId: nat, gameId: string, cfg: Config, draws: seq<real>): (r: Fetched)
    requires 1 <= cfg.symbolsCount && ValidDraws(cfg, draws)
    ensures CountMatches(rows, userId, gameId) == 1 ==>
      && r.rows == rows
      && r.row in rows
      && Matches(r.row, userId, gameId)
      && forall i :: 0 <= i < |rows| && Matches(rows[i], userId, gameId) ==> rows[i] == r.row
    ensures CountMatches(rows, userId, gameId) != 1 ==>
      && r.rows == rows + [r.row]
      && r.row == GameStateRow(userId, gameId, DrawGrid(cfg, draws), cfg.defaultBet, cfg.defaultCoinValue)
  {
    if CountMatches(rows, userId, gameId) == 1 then
      CountMatchesZero(rows, userId, gameId);
      var i := FirstMatchFrom(rows, userId, gameId, 0).value;
      assert forall j :: 0 <= j < |rows| && Matches(rows[j], userId, gameId) ==> rows[j] == rows[i] by {
        forall j | 0 <= j < |rows| && Matches(rows[j], userId, gameId)
          ensures rows[j] == rows[i]
        {
          if i < j {
            CountMatchesTwo(rows, userId, gameId, i, j);
          }
        }
      }
      Fetched(rows, rows[i])
    else
      var row := DefaultRow(cfg, userId, gameId, draws);
      Fetched(rows + [row], row)
  }

  /**
   * Idempotence: from at most one row for the pair, one call leaves exactly
   * one, and a second call (whatever it would draw) changes nothing and
   * returns the same row as the first.
   */
  lemma GetOrCreateIdempotent(rows: seq<GameStateRow>, userId: nat, gameId: string, cfg: Config, draws1: seq<real>, draws2: seq<real>)
    requires 1 <= cfg.symbolsCount && ValidDraws(cfg, draws1) && ValidDraws(cfg, draws2)
    requires CountMatches(rows, userId, gameId) <= 1
    ensures var first := GetOrCreateGamestate(rows, userId, gameId, cfg, draws1);
      var second := GetOrCreateGamestate(first.rows, userId, gameId, cfg, draws2);
      && CountMatches(first.rows, userId, gameId) == 1
      && second.rows == first.rows
      && second.row == first.row
  {
    var first := GetOrCreateGamestate(rows, userId, gameId, cfg, draws1);
    if CountMatches(rows, userId, gameId) == 0 {
      CountMatchesAppend(rows, first.row, userId, gameId);
      var second := GetOrCreateGamestate(first.rows, userId, gameId, cfg, draws2);
      assert first.rows[|rows|] == first.row;
    }
  }

  /** At most one row per (user, game) pair. */
  ghost predicate OneRowPerPair(rows: seq<GameStateRow>) {
    forall userId: nat, gameId: string :: CountMatches(rows, userId, gameId) <= 1
  }

  /** `getOrCreateGamestate` keeps at most one row per pair. */
  lemma GetOrCreateKeepsOneRowPerPair(rows: seq<GameStateRow>, userId: nat, gameId: string, cfg: Config, draws: seq<real>)
    requires 1 <= cfg.symbolsCount && ValidDraws(cfg, draws)
    requires OneRowPerPair(rows)
    ensures OneRowPerPair(GetOrCreateGamestate(rows, userId, gameId, cfg, draws).rows)
  {
    var r := GetOrCreateGamestate(rows, userId, gameId, cfg, draws);
    if CountMatches(rows, userId, gameId) != 1 {
      forall u: nat, g: string
        ensures CountMatches(r.rows, u, g) <= 1
      {
        CountMatchesAppend(rows, r.row, u, g);
      }
    }
  }

  /** The row with the stake and reels of a settled bet. */
  function Settled(row: GameStateRow, bet: real, coinValue: real, reels: Grid): GameStateRow {
    row.(reels := reels, bet := bet, coinValue := coinValue)
  }

  /**
   * `updateGamestate`: `UPDATE gamestates SET reels, bet, coin_value WHERE
   * user_id = ? AND game_id = ?`. Every row of the pair takes the new reels,
   * bet and coin value and keeps its owner; every other row is unchanged; no
   * row is added, so a pair without a row stays without one.
   */
  function UpdateGamestate(rows: seq<GameStateRow>, userId: nat, gameId: string, bet: real, coinValue: real, reels: Grid): (r: seq<GameStateRow>)
    ensures |r| == |rows|
    ensures forall i :: 0 <= i < |rows| && !Matches(rows[i], userId, gameId) ==> r[i] == rows[i]
    ensures forall i :: 0 <= i < |rows| && Matches(rows[i], userId, gameId) ==>
      r[i] == GameStateRow(userId, gameId, reels, bet, coinValue)
  {
    seq(|rows|, (i: int) requires 0 <= i < |rows| =>
      if Matches(rows[i], userId, gameId) then Settled(rows[i], bet, coinValue, reels) else rows[i])
  }

  /** Overwriting rows never changes how many rows a pair has. */
  lemma {:induction false} UpdateGamestateKeepsCounts(rows: seq<GameStateRow>, userId: nat, gameId: string, bet: real, coinValue: real, reels: Grid, u: nat, g: string)
    ensures CountMatches(UpdateGamestate(rows, userId, gameId, bet, coinValue, reels), u, g) == CountMatches(rows, u, g)
    decreases |rows|
  {
    if |rows| > 0 {
      var n := |rows| - 1;
      var r := UpdateGamestate(rows, userId, gameId, bet, coinValue, reels);
      UpdateGamestateKeepsCounts(rows[..n], userId, gameId, bet, coinValue, reels, u, g);
      assert r[..n] == UpdateGamestate(rows[..n], userId, gameId, bet, coinValue, reels);
      assert Matches(r[n], u, g) == Matches(rows[n], u, g);
    }
  }

  /**
   * After a bet's update, the next `getOrCreateGamestate` for a pair with one
   * row inserts nothing and returns the bet's reels, bet and coin value.
   */
  lemma UpdateThenGet(rows: seq<GameStateRow>, userId: nat, gameId: string, bet: real, coinValue: real, reels: Grid, cfg: Config, draws: seq<real>)
    requires 1 <= cfg.symbolsCount && ValidDraws(cfg, draws)
    requires CountMatches(rows, userId, gameId) == 1
    ensures var updated := UpdateGamestate(rows, userId, gameId, bet, coinValue, reels);
      GetOrCreateGamestate(updated, userId, gameId, cfg, draws) == Fetched(updated, GameStateRow(userId, gameId, reels, bet, coinValue))
  {
    var updated := UpdateGamestate(rows, userId, gameId, bet, coinValue, reels);
    UpdateGamestateKeepsCounts(rows, userId, gameId, bet, coinValue, reels, userId, gameId);
    var r := GetOrCreateGamestate(updated, userId, gameId, cfg, draws);
    var i :| 0 <= i < |updated| && updated[i] == r.row;
  }
}
