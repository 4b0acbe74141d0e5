/**
 * The ledger that `buy`, `sell` and `add_cash` (app.py) update: the `users`
 * table (cash and total per user), the `stocks` table (one row per user and
 * symbol) and the append-only `transactions` table. Each operation either
 * rejects before its first write, leaving all three unchanged, or performs
 * the source's writes with the source's arithmetic.
 */
module Ledger {
  import opened Wrappers
  import opened Chars
  import opened Luhn
  import opened Forms

  type UserId = nat

  /** The `datetime.now()` of a request; the model never looks inside it. */
  type Timestamp = nat

  /** A row of `users`. Money is exact: `real` stands for the source's floats. */
  datatype Account = Account(username: string, hash: string, cash: real, total: real)

  /** What `lookup` returns when it succeeds. */
  datatype Quote = Quote(name: string, price: real, symbol: string)

  /** The key of a row of `stocks`. */
  datatype HoldingKey = HoldingKey(user: UserId, symbol: string)

  /** The rest of a row of `stocks`. */
  datatype Holding = Holding(name: string, shares: int, price: real, total: real)

  /** A row of `transactions`: negative `shares` for a sale. */
  datatype Transaction = Transaction(user: UserId, symbol: string, shares: int, price: real, transacted: Timestamp)

  /** The apology each rejection renders. */
  datatype Reason =
    | MissingDetails          // "Missing Details"
    | InvalidSymbol           // "Invalid Symbol"
    | SharesNotInteger        // "Number of Shares must be an integer"
    | SharesBelowOne          // "Number of Shares must be at least 1"
    | InsufficientCash        // "Insufficient Cash"
    | MissingStock            // "Missing Stock"
    | InvalidStock            // "Invalid Stock"
    | InvalidNumberOfShares   // "Invalid Number Of Shares"
    | TooManyShares           // "Too Many Shares"
    | MissingFields           // "Please Fill Up All Fields"
    | InvalidAmount           // "Please Enter A Valid Amount"
    | InvalidCardNumber       // "Invalid Card Number"
    | InvalidSecurityCode     // "Invalid Security Code"

  /**
   * How a request ends: the redirect after the writes, an apology page, or
   * an unhandled exception raised before the first write.
   */
  datatype Outcome = Done | Rejected(reason: Reason) | Crashed

  /** `n` shares at `price` each: the one product every money figure of the ledger is made of. */
  function SharesValue(n: int, price: real): real
  {
    n as real * price
  }

  /** Shares held under `k`; no row means none. */
  function Held(stocks: map<HoldingKey, Holding>, k: HoldingKey): int
  {
    if k in stocks then stocks[k].shares else 0
  }

  function Delta(t: Transaction, k: HoldingKey): int
  {
    if t.user == k.user && t.symbol == k.symbol then t.shares else 0
  }

  /** The net number of shares the transaction history records under `k`. */
  function NetShares(ts: seq<Transaction>, k: HoldingKey): int
  {
    if ts == [] then 0 else NetShares(ts[..|ts| - 1], k) + Delta(ts[|ts| - 1], k)
  }

  lemma NetSharesAppend(ts: seq<Transaction>, t: Transaction, k: HoldingKey)
    ensures NetShares(ts + [t], k) == NetShares(ts, k) + Delta(t, k)
  {
    assert (ts + [t])[..|ts|] == ts;
  }

  /** Every key holds what the history nets to under it. */
  ghost predicate Agrees(stocks: map<HoldingKey, Holding>, ts: seq<Transaction>)
  {
    forall k :: Held(stocks, k) == NetShares(ts, k)
  }

  /**
   * Recording a trade and moving the traded key's share count by the
   * trade's share delta, and nothing else, keeps holdings and history in
   * agreement.
   */
  lemma AgreementKept(stocks: map<HoldingKey, Holding>, ts: seq<Transaction>, stocks': map<HoldingKey, Holding>, t: Transaction)
    requires Agrees(stocks, ts)
    requires Held(stocks', HoldingKey(t.user, t.symbol)) == Held(stocks, HoldingKey(t.user, t.symbol)) + t.shares
    requires forall k :: k != HoldingKey(t.user, t.symbol) ==> Held(stocks', k) == Held(stocks, k)
    ensures Agrees(stocks', ts + [t])
  {
    forall k ensures Held(stocks', k) == NetShares(ts + [t], k) {
      NetSharesAppend(ts, t, k);
    }
  }

  /**
   * The row a purchase of `n` shares at quote `q` leaves under `key`: a new
   * row at the unit price, or the old row with the shares added and the
   * total set to the new share count times the purchase's total cost.
   */
  function BoughtHolding(stocks: map<HoldingKey, Holding>, key: HoldingKey, q: Quote, n: nat): (h: Holding)
    ensures h.shares == Held(stocks, key) + n
    ensures key !in stocks ==> h.name == q.name && h.price == q.price && h.total == SharesValue(n, q.price)
    ensures key in stocks ==>
      h.name == stocks[key].name && h.price == stocks[key].price &&
      h.total == SharesValue(h.shares, SharesValue(n, q.price))
  {
    var cost := SharesValue(n, q.price);
    if key in stocks
    then stocks[key].(shares := stocks[key].shares + n, total := SharesValue(stocks[key].shares + n, cost))
    else Holding(q.name, n, q.price, cost)
  }

  class Store {
    var users: map<UserId, Account>
    var stocks: map<HoldingKey, Holding>
    var transactions: seq<Transaction>

    /**
     * Every holding has a positive share count and belongs to a known user,
     * and the holdings agree with the transaction history: the shares held
     * under each key are the net of the transactions recorded under it.
     */
    ghost predicate Valid()
      reads this
    {
      && (forall k :: k in stocks ==> stocks[k].shares > 0 && k.user in users)
      && Agrees(stocks, transactions)
    }

    /** A store with the given users, no holdings and no history. */
    constructor (accounts: map<UserId, Account>)
      ensures Valid()
      ensures users == accounts && stocks == map[] && transactions == []
    {
      users := accounts;
      stocks := map[];
      transactions := [];
    }

    /**
     * `buy`. The quote is the answer of `lookup(symbol)`, None when it
     * failed. The stored transaction price is the total cost, and an existing
     * holding's total becomes the new share count times that total cost.
     */
    method Buy(uid: UserId, symbol: string, shares: string, quote: Option<Quote>, time: Timestamp) returns (o: Outcome)
      requires Valid() && uid in users
      modifies this
      ensures Valid()
      ensures o != Done ==> users == old(users) && stocks == old(stocks) && transactions == old(transactions)
      ensures shares == "" || symbol == "" ==> o == Rejected(MissingDetails)
      ensures shares != "" && symbol != "" ==>
        if quote.None? then o == Rejected(InvalidSymbol)
        else if !AllDigits(shares) then o == Rejected(SharesNotInteger)
        else if DecimalValue(shares) < 1 then o == Rejected(SharesBelowOne)
        else if old(users)[uid].cash - SharesValue(DecimalValue(shares), quote.value.price) < 0.0 then o == Rejected(InsufficientCash)
        else o == Done
      ensures o == Done ==> shares != "" && symbol != "" && quote.Some? && AllDigits(shares) && DecimalValue(shares) >= 1
      ensures o == Done ==>
        var cost := SharesValue(DecimalValue(shares), quote.value.price);
        users == old(users)[uid := old(users)[uid].(cash := old(users)[uid].cash - cost)]
      ensures o == Done ==>
        var n, q := DecimalValue(shares), quote.value;
        transactions == old(transactions) + [Transaction(uid, q.symbol, n, SharesValue(n, q.price), time)]
      ensures o == Done ==>
        var n, q := DecimalValue(shares), quote.value;
        var key := HoldingKey(uid, q.symbol);
        stocks == old(stocks)[key := BoughtHolding(old(stocks), key, q, n)]
      ensures o == Done ==> users[uid].cash >= 0.0 && users[uid].total == old(users)[uid].total
    {
      if shares == "" || symbol == "" {
        return Rejected(MissingDetails);
      }
      if quote.None? {
        return Rejected(InvalidSymbol);
      }
      var stock := quote.value;
      var count := CheckShares(shares);
      if count.NotAnInteger? {
        return Rejected(SharesNotInteger);
      }
      if !count.Shares? {
        return Rejected(SharesBelowOne);
      }
      var n := count.n;
      var cash := users[uid].cash;
      if cash - SharesValue(n, stock.price) < 0.0 {
        return Rejected(InsufficientCash);
      }

      var price := SharesValue(n, stock.price);
      var t := Transaction(uid, stock.symbol, n, price, time);
      ghost var before, history := stocks, transactions;
      transactions := transactions + [t];

      var remaining := cash - SharesValue(n, stock.price);
      assert users == old(users);
      users := users[uid := users[uid].(cash := remaining)];
      assert users == old(users)[uid := old(users)[uid].(cash := remaining)];
      assert remaining == old(users)[uid].cash - SharesValue(DecimalValue(shares), quote.value.price);

      var key := HoldingKey(uid, stock.symbol);
      assert stocks == old(stocks);
      if key !in stocks {
        stocks := stocks[key := Holding(stock.name, n, stock.price, price)];
      } else {
        var newShares := n + stocks[key].shares;
        var newTotal := SharesValue(newShares, price);
        stocks := stocks[key := stocks[key].(shares := newShares, total := newTotal)];
      }
      assert stocks == old(stocks)[key := BoughtHolding(old(stocks), key, stock, n)];
      AgreementKept(before, history, stocks, t);
      return Done;
    }

    /**
     * `sell`. The result of `lookup` is used without a check, so a failed
     * quote raises; so does an empty share count, at `int("")`. Both happen
     * before the first write.
     */
    method Sell(uid: UserId, symbol: string, shares: string, quote: Option<Quote>, time: Timestamp) returns (o: Outcome)
      requires Valid() && uid in users
      modifies this
      ensures Valid()
      ensures o != Done ==> users == old(users) && stocks == old(stocks) && transactions == old(transactions)
      ensures symbol == "" ==> o == Rejected(MissingStock)
      ensures symbol != "" ==>
        if quote.None? then o == Crashed
        else if HoldingKey(uid, quote.value.symbol) !in old(stocks) then o == Rejected(InvalidStock)
        else if !AllDigits(shares) then o == Rejected(SharesNotInteger)
        else if shares == "" then o == Crashed
        else if DecimalValue(shares) < 1 then o == Rejected(InvalidNumberOfShares)
        else if DecimalValue(shares) > old(stocks)[HoldingKey(uid, quote.value.symbol)].shares then o == Rejected(TooManyShares)
        else o == Done
      ensures o == Done ==>
        symbol != "" && quote.Some? && AllDigits(shares) && HoldingKey(uid, quote.value.symbol) in old(stocks) &&
        var n: int, q := DecimalValue(shares), quote.value;
        var proceeds, key := SharesValue(n, q.price), HoldingKey(uid, q.symbol);
        var held := old(stocks)[key];
        && 1 <= n <= held.shares
        && users == old(users)[uid := old(users)[uid].(cash := old(users)[uid].cash + proceeds)]
        && transactions == old(transactions) + [Transaction(uid, q.symbol, -n, proceeds, time)]
        && stocks == if held.shares - n > 0
                     then old(stocks)[key := held.(shares := held.shares - n, total := SharesValue(held.shares - n, q.price))]
                     else old(stocks) - {key}
      ensures o == Done ==> users[uid].total == old(users)[uid].total
    {
      if symbol == "" {
        return Rejected(MissingStock);
      }
      if quote.None? {
        return Crashed;
      }
      var stock := quote.value;
      var key := HoldingKey(uid, stock.symbol);
      if key !in stocks {
        return Rejected(InvalidStock);
      }
      var count := CheckShares(shares);
      if count.NotAnInteger? {
        return Rejected(SharesNotInteger);
      }
      if count.Unparsable? {
        return Crashed;
      }
      if count.BelowOne? {
        return Rejected(InvalidNumberOfShares);
      }
      var n := count.n;
      if n > stocks[key].shares {
        return Rejected(TooManyShares);
      }

      var price := SharesValue(n, stock.price);
      var t := Transaction(uid, stock.symbol, -1 * n, price, time);
      ghost var before, history := stocks, transactions;
      transactions := transactions + [t];

      var updatedCash := users[uid].cash + SharesValue(n, stock.price);
      users := users[uid := users[uid].(cash := updatedCash)];

      var newShares := stocks[key].shares - n;
      var newTotal := SharesValue(newShares, stock.price);
      if newShares > 0 {
        stocks := stocks[key := stocks[key].(shares := newShares, total := newTotal)];
      } else {
        stocks := stocks - {key};
      }
      AgreementKept(before, history, stocks, t);
      return Done;
    }

    /**
     * `add_cash`: the amount, card number and security code are checked in
     * that order; then cash and total both rise by the amount. `float` raises
     * on an amount of "." (the only non-empty amount without a digit that the
     * scan lets through).
     */
    method Deposit(uid: UserId, amount: string, cardNo: string, code: string) returns (o: Outcome)
      requires Valid() && uid in users
      modifies this
      ensures Valid()
      ensures o != Done ==> users == old(users) && stocks == old(stocks) && transactions == old(transactions)
      ensures amount == "" || cardNo == "" || code == "" ==> o == Rejected(MissingFields)
      ensures amount != "" && cardNo != "" && code != "" ==>
        if !IsAmount(amount) then o == Rejected(InvalidAmount)
        else if !(AllDigits(cardNo) && LuhnValid(cardNo)) then o == Rejected(InvalidCardNumber)
        else if !(AllDigits(code) && 3 <= |code| <= 4) then o == Rejected(InvalidSecurityCode)
        else if amount == "." then o == Crashed
        else o == Done
      ensures o == Done ==>
        IsAmount(amount) && AmountValue(amount).Some? &&
        var v := AmountValue(amount).value;
        && v >= 0.0
        && users == old(users)[uid := old(users)[uid].(cash := old(users)[uid].cash + v,
                                                       total := old(users)[uid].total + v)]
        && stocks == old(stocks) && transactions == old(transactions)
    {
      if amount == "" || cardNo == "" || code == "" {
        return Rejected(MissingFields);
      }
      var amountOk := CheckAmount(amount);
      if !amountOk {
        return Rejected(InvalidAmount);
      }
      var cardOk := CheckCard(cardNo);
      if !cardOk {
        return Rejected(InvalidCardNumber);
      }
      var codeOk := CheckCode(code);
      if !codeOk {
        return Rejected(InvalidSecurityCode);
      }
      var value := AmountValue(amount);
      if value.None? {
        return Crashed;
      }
      var newCash := users[uid].cash + value.value;
      var newTotal := users[uid].total + value.value;
      users := users[uid := users[uid].(cash := newCash, total := newTotal)];
      return Done;
    }
  }
}
