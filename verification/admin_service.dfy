/** The administrator's account correction, one transaction over the account and its ledger. */
module AdminService {
  import opened Prelude
  import opened Users
  import opened Bank
  import Money

  datatype Error =
    | AmountInvalid | ReasonRequired | Conversion(error: Money.Error) | AccountNotFound | InsufficientBalance

  function Abs(x: real): real { if x < 0.0 then -x else x }

  /** The amount in fen and whether money comes in; `Err` for every argument that is refused before the lock. */
  function Request(amount: real, reason: string): Result<(nat, bool), Error> {
    if amount == 0.0 then Err(AmountInvalid)
    else if reason == "" then Err(ReasonRequired)
    else match Money.YuanToFen(Abs(amount))
      case Err(e) => Err(Conversion(e))
      case Ok(fen) => Ok((fen, amount > 0.0))
  }

  /** The size of the amount in fen, rounded to the nearest, upwards at a tie. */
  ghost function SizeInFen(amount: real): int {
    (100.0 * (if amount > 0.0 then amount else -amount) + 0.5).Floor
  }

  lemma SizeIs(amount: real)
    ensures Money.Hundredths(Abs(amount)) == SizeInFen(amount)
  {
  }

  ghost predicate Refusals(users: seq<User>, accounts: seq<Account>, user: nat, amount: real, reason: string,
                           r: Result<Account, Error>)
    requires |users| == |accounts|
  {
    var asked := amount != 0.0 && reason != "" && -1000000000.0 <= amount <= 1000000000.0;
    var found := user < |users| && users[user].hasAccount;
    && (r == Err(AmountInvalid) <==> amount == 0.0)
    && (r == Err(ReasonRequired) <==> amount != 0.0 && reason == "")
    && (r == Err(Conversion(Money.OverLimit)) <==>
          amount != 0.0 && reason != "" && (amount > 1000000000.0 || amount < -1000000000.0))
    && r != Err(Conversion(Money.Negative))
    && (r == Err(AccountNotFound) <==> asked && !found)
    && (r == Err(InsufficientBalance) <==>
          asked && found && amount < 0.0 && accounts[user].available < SizeInFen(amount))
  }

  /** A positive amount raises available and total balance, a negative one lowers them, and one ledger row says so. */
  ghost predicate Corrects(was: seq<Account>, rows: seq<Row>, user: nat, amount: real, now: seq<Account>,
                           rows': seq<Row>)
    requires user < |was|
  {
    var x, size := was[user], SizeInFen(amount);
    var change := if amount > 0.0 then size else -size;
    && now == was[user := Account(x.available + change, x.frozen, x.total + change)]
    && rows' == rows + [Row(user, Adjustment, size, x.available, x.available + change,
                            if amount > 0.0 then Direction.Debit else Direction.Credit, Available)]
  }

  class AdminService {
    var users: seq<User>
    var accounts: seq<Account>
    var ledger: seq<Row>

    constructor (users: seq<User>, accounts: seq<Account>)
      requires |users| == |accounts|
      ensures Valid() && this.users == users && this.accounts == accounts && ledger == []
    {
      this.users, this.accounts, ledger := users, accounts, [];
    }

    ghost function KBooks(): Books
      reads this
    {
      Books(accounts, ledger, [], 0)
    }

    ghost predicate Valid()
      reads this
    {
      |users| == |accounts|
    }

    /** A correction either goes through as one money operation, or changes nothing. */
    method AdjustAccount(user: nat, amount: real, reason: string) returns (r: Result<Account, Error>)
      requires Valid()
      modifies this`accounts, this`ledger
      ensures Valid()
      ensures Request(amount, reason).Err? ==> r == Err(Request(amount, reason).error)
      ensures r.Err? ==> KBooks() == old(KBooks())
      ensures Request(amount, reason).Ok? && (user >= |users| || !users[user].hasAccount) ==> r == Err(AccountNotFound)
      ensures Request(amount, reason).Ok? && user < |users| && users[user].hasAccount ==>
                var fen, credit := Request(amount, reason).value.0, Request(amount, reason).value.1;
                && KBooks() == Do(old(KBooks()), OpAdjust(user, fen, credit))
                && r == if !credit && old(accounts)[user].available < fen then Err(InsufficientBalance)
                   else Ok(accounts[user])
      ensures Refusals(users, old(accounts), user, amount, reason, r)
      ensures r.Ok? ==> user < |users| && Corrects(old(accounts), old(ledger), user, amount, accounts, ledger)
    {
      hide Money.Hundredths, Money.ToFixed2, Money.ParseInt, Money.SplitFirst;
      SizeIs(amount);
      if amount == 0.0 {
        return Err(AmountInvalid);
      }
      if reason == "" {
        return Err(ReasonRequired);
      }
      var credit := amount > 0.0;
      var converted := Money.YuanToFen(Abs(amount));
      if converted.Err? {
        assert converted == Err(Money.OverLimit) && Abs(amount) > 1000000000.0;
        return Err(Conversion(converted.error));
      }
      var fen: int := converted.value;
      if user >= |users| || !users[user].hasAccount {
        return Err(AccountNotFound);
      }
      var x := accounts[user];
      if credit {
        accounts := accounts[user := x.(available := x.available + fen, total := x.total + fen)];
      } else {
        if x.available < fen {
          return Err(InsufficientBalance);
        }
        accounts := accounts[user := x.(available := x.available - fen, total := x.total - fen)];
      }
      var after := accounts[user].available;
      var before := if credit then after - fen else after + fen;
      var direction := if credit then Direction.Debit else Direction.Credit;
      ledger := ledger + [Row(user, Adjustment, fen, before, after, direction, Available)];
      r := Ok(accounts[user]);
    }
  }
}
