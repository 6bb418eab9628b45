/**
 * The ledger's rules as functions on the account map (account id to balance):
 * what each BankEngine operation returns or fails with, and the new map on
 * success. The BankEngine class performs them in place and is proved against
 * these functions.
 */
module Ledger {
  import opened Wrappers
  import Text

  type Accounts = map<int, int>

  /** The ledger's failures; each is thrown with the localized message of its key. */
  datatype LedgerError = AccountMissing | NegativeAmount | InsufficientFunds | NotEmpty

  /** The Localization key of each failure's message. */
  function ErrorKey(e: LedgerError): string {
    match e
    case AccountMissing => "ErrAccount"
    case NegativeAmount => "ErrFormat"
    case InsufficientFunds => "ErrFunds"
    case NotEmpty => "ErrNotEmpty"
  }

  /** New ids are drawn at random from 10000 up to, but not including, 99999. */
  const MinId: int := 10000
  const MaxId: int := 99998

  predicate InIdRange(id: int) {
    MinId <= id <= MaxId
  }

  /** Some id of the creation range is not in use, so the retry loop of CreateAccount can end. */
  predicate HasFreeId(m: Accounts) {
    exists id :: MinId <= id <= MaxId && id !in m
  }

  predicate NonNegative(m: Accounts) {
    forall id :: id in m ==> m[id] >= 0
  }

  /** The sum of all balances (GetTotalFunds). */
  ghost function TotalFunds(m: Accounts): int
    decreases |m|
  {
    if m == map[] then 0
    else
      NonEmptyHasAccount(m);
      var id :| id in m;
      assert |(m - {id}).Keys| < |m.Keys| by { assert (m - {id}).Keys == m.Keys - {id}; }
      m[id] + TotalFunds(m - {id})
  }

  lemma NonEmptyHasAccount(m: Accounts)
    requires m != map[]
    ensures exists id :: id in m
  {
    if forall id :: id !in m {
      assert false;
    }
  }

  /** Deposit: the account must exist, then the amount must not be negative. */
  function Deposit(m: Accounts, id: int, amount: int): Result<Accounts, LedgerError> {
    if id !in m then Failure(AccountMissing)
    else if amount < 0 then Failure(NegativeAmount)
    else Success(m[id := m[id] + amount])
  }

  /** Withdraw: the account must exist and hold at least the amount; a negative amount is accepted. */
  function Withdraw(m: Accounts, id: int, amount: int): Result<Accounts, LedgerError> {
    if id !in m then Failure(AccountMissing)
    else if m[id] < amount then Failure(InsufficientFunds)
    else Success(m[id := m[id] - amount])
  }

  /** GetBalance. */
  function Balance(m: Accounts, id: int): Result<int, LedgerError> {
    if id !in m then Failure(AccountMissing) else Success(m[id])
  }

  /** RemoveAccount: the account must exist and be empty. */
  function Remove(m: Accounts, id: int): Result<Accounts, LedgerError> {
    if id !in m then Failure(AccountMissing)
    else if m[id] != 0 then Failure(NotEmpty)
    else Success(m - {id})
  }

  // ---------------------------------------------------------------------------
  // The sum of balances
  // ---------------------------------------------------------------------------

  /** The sum does not depend on which account is taken out first. */
  lemma {:induction false} TotalFundsPick(m: Accounts, id: int)
    requires id in m
    ensures TotalFunds(m) == m[id] + TotalFunds(m - {id})
    decreases |m|
  {
    var j :| j in m && TotalFunds(m) == m[j] + TotalFunds(m - {j});
    if j != id {
      assert (m - {j}).Keys == m.Keys - {j};
      assert (m - {id}).Keys == m.Keys - {id};
      TotalFundsPick(m - {j}, id);
      TotalFundsPick(m - {id}, j);
      assert m - {j} - {id} == m - {id} - {j};
    }
  }

  lemma TotalFundsInsert(m: Accounts, id: int, v: int)
    requires id !in m
    ensures TotalFunds(m[id := v]) == TotalFunds(m) + v
  {
    TotalFundsPick(m[id := v], id);
    assert m[id := v] - {id} == m;
  }

  lemma TotalFundsUpdate(m: Accounts, id: int, v: int)
    requires id in m
    ensures TotalFunds(m[id := v]) == TotalFunds(m) - m[id] + v
  {
    TotalFundsPick(m, id);
    TotalFundsPick(m[id := v], id);
    assert m[id := v] - {id} == m - {id};
  }

  // ---------------------------------------------------------------------------
  // What each operation does
  // ---------------------------------------------------------------------------

  /** CreateAccount inserts an unused id with balance 0: one more account, same total. */
  lemma CreateAddsEmptyAccount(m: Accounts, id: int)
    requires id !in m
    ensures m[id := 0].Keys == m.Keys + {id}
    ensures |m[id := 0]| == |m| + 1
    ensures forall k :: k in m ==> m[id := 0][k] == m[k]
    ensures TotalFunds(m[id := 0]) == TotalFunds(m)
    ensures NonNegative(m) ==> NonNegative(m[id := 0])
  {
    TotalFundsInsert(m, id, 0);
  }

  /** Deposit fails for a missing account whatever the amount, then for a
      negative amount, and succeeds otherwise. */
  lemma DepositOutcome(m: Accounts, id: int, amount: int)
    ensures Deposit(m, id, amount).Success? <==> id in m && amount >= 0
    ensures id !in m ==> Deposit(m, id, amount) == Failure(AccountMissing)
    ensures id in m && amount < 0 ==> Deposit(m, id, amount) == Failure(NegativeAmount)
  {
  }

  /** A successful deposit adds the amount to that account only and raises
      the total by exactly the amount. */
  lemma DepositEffect(m: Accounts, id: int, amount: int)
    requires Deposit(m, id, amount).Success?
    ensures var r := Deposit(m, id, amount).value;
      && r.Keys == m.Keys
      && r[id] == m[id] + amount
      && (forall k :: k in m && k != id ==> r[k] == m[k])
      && TotalFunds(r) == TotalFunds(m) + amount
  {
    TotalFundsUpdate(m, id, m[id] + amount);
  }

  /** Withdraw fails for a missing account, then for a balance below the
      amount, and succeeds otherwise (a negative amount included). */
  lemma WithdrawOutcome(m: Accounts, id: int, amount: int)
    ensures Withdraw(m, id, amount).Success? <==> id in m && amount <= m[id]
    ensures id !in m ==> Withdraw(m, id, amount) == Failure(AccountMissing)
    ensures id in m && m[id] < amount ==> Withdraw(m, id, amount) == Failure(InsufficientFunds)
  {
  }

  /** A successful withdrawal subtracts the amount from that account only,
      leaves it a non-negative balance and lowers the total by exactly the amount. */
  lemma WithdrawEffect(m: Accounts, id: int, amount: int)
    requires Withdraw(m, id, amount).Success?
    ensures var r := Withdraw(m, id, amount).value;
      && r.Keys == m.Keys
      && r[id] == m[id] - amount >= 0
      && (forall k :: k in m && k != id ==> r[k] == m[k])
      && TotalFunds(r) == TotalFunds(m) - amount
  {
    TotalFundsUpdate(m, id, m[id] - amount);
  }

  /** RemoveAccount succeeds exactly for an existing empty account; it then
      removes that key only, the count drops by one and the total is unchanged.
      A failure for an existing account is always NotEmpty. */
  lemma RemoveOutcome(m: Accounts, id: int)
    ensures Remove(m, id).Success? <==> id in m && m[id] == 0
    ensures Remove(m, id).Failure? ==> (id in m <==> Remove(m, id).error == NotEmpty)
    ensures Remove(m, id).Success? ==>
      var r := Remove(m, id).value;
      && r.Keys == m.Keys - {id}
      && (forall k :: k in r ==> r[k] == m[k])
      && |r| == |m| - 1
      && TotalFunds(r) == TotalFunds(m)
  {
    if id in m && m[id] == 0 {
      TotalFundsPick(m, id);
      assert (m - {id}).Keys == m.Keys - {id};
    }
  }

  /** A deposit followed by a balance query reports the old balance plus the amount. */
  lemma DepositThenBalance(m: Accounts, id: int, amount: int)
    requires id in m && amount >= 0
    ensures Deposit(m, id, amount).Success?
    ensures Balance(Deposit(m, id, amount).value, id) == Success(Balance(m, id).value + amount)
  {
  }

  /** A withdrawal followed by a balance query reports the old balance minus the amount. */
  lemma WithdrawThenBalance(m: Accounts, id: int, amount: int)
    requires id in m && amount <= m[id]
    ensures Withdraw(m, id, amount).Success?
    ensures Balance(Withdraw(m, id, amount).value, id) == Success(Balance(m, id).value - amount)
  {
  }

  /** Every successful operation keeps all balances non-negative. */
  lemma OperationsKeepNonNegative(m: Accounts, id: int, amount: int)
    requires NonNegative(m)
    ensures Deposit(m, id, amount).Success? ==> NonNegative(Deposit(m, id, amount).value)
    ensures Withdraw(m, id, amount).Success? ==> NonNegative(Withdraw(m, id, amount).value)
    ensures Remove(m, id).Success? ==> NonNegative(Remove(m, id).value)
    ensures id !in m ==> NonNegative(m[id := 0])
  {
  }

  /** The total of a ledger with non-negative balances is not negative. */
  lemma {:induction false} TotalFundsNonNegative(m: Accounts)
    requires NonNegative(m)
    ensures TotalFunds(m) >= 0
    decreases |m|
  {
    if m != map[] {
      NonEmptyHasAccount(m);
      var id :| id in m;
      TotalFundsPick(m, id);
      assert (m - {id}).Keys == m.Keys - {id};
      TotalFundsNonNegative(m - {id});
    }
  }

  // ---------------------------------------------------------------------------
  // The source's 64-bit balances
  // ---------------------------------------------------------------------------

  const TwoTo64: int := 0x1_0000_0000_0000_0000

  /** The long value of unchecked C# arithmetic: x reduced modulo 2^64 into
      the range of a long. */
  function Wrap64(x: int): (r: int)
    ensures Text.Int64Min <= r <= Text.Int64Max
    ensures (x - r) % TwoTo64 == 0
    ensures Text.Int64Min <= x <= Text.Int64Max ==> r == x
  {
    var u := x % TwoTo64;
    if u > Text.Int64Max then u - TwoTo64 else u
  }

  /** Deposit as written on long balances: the sum wraps around. */
  function DepositInt64(m: Accounts, id: int, amount: int): Result<Accounts, LedgerError> {
    if id !in m then Failure(AccountMissing)
    else if amount < 0 then Failure(NegativeAmount)
    else Success(m[id := Wrap64(m[id] + amount)])
  }

  /** Withdraw as written on long balances: the difference wraps around. */
  function WithdrawInt64(m: Accounts, id: int, amount: int): Result<Accounts, LedgerError> {
    if id !in m then Failure(AccountMissing)
    else if m[id] < amount then Failure(InsufficientFunds)
    else Success(m[id := Wrap64(m[id] - amount)])
  }

  /** Depositing long.MaxValue into an account holding 1 is accepted and
      leaves the balance at long.MinValue. */
  lemma DepositInt64CanGoNegative()
    ensures var m := map[10000 := 1];
      && NonNegative(m)
      && DepositInt64(m, 10000, Text.Int64Max).Success?
      && DepositInt64(m, 10000, Text.Int64Max).value[10000] == Text.Int64Min
  {
  }

  /** Withdrawing long.MinValue from an empty account passes the funds check
      (0 is not below it) and leaves the balance at long.MinValue. */
  lemma WithdrawInt64CanGoNegative()
    ensures var m := map[10000 := 0];
      && NonNegative(m)
      && WithdrawInt64(m, 10000, Text.Int64Min).Success?
      && WithdrawInt64(m, 10000, Text.Int64Min).value[10000] == Text.Int64Min
  {
  }

  /** Whenever the new balance fits a long, the source's arithmetic and the
      model's agree. */
  lemma Int64AgreesWithoutOverflow(m: Accounts, id: int, amount: int)
    requires id in m
    ensures Text.Int64Min <= m[id] + amount <= Text.Int64Max ==> DepositInt64(m, id, amount) == Deposit(m, id, amount)
    ensures Text.Int64Min <= m[id] - amount <= Text.Int64Max ==> WithdrawInt64(m, id, amount) == Withdraw(m, id, amount)
  {
  }
}
