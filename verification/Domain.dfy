/** The mileage account aggregate: Go's 64-bit signed arithmetic and the two domain operations.
    Each operation is given twice, as a function on account values and as a method of the
    mutable aggregate root, and the method is proved against the function. */
module Domain {

  const TWO_TO_THE_64 := 0x1_0000_0000_0000_0000
  const MAX_INT64 := 0x7FFF_FFFF_FFFF_FFFF
  const MIN_INT64 := -0x8000_0000_0000_0000

  type int64 = x: int | MIN_INT64 <= x <= MAX_INT64

  /** Go's two's complement result of an int64 operation whose exact value is `x`. */
  function Wrap(x: int): (r: int64)
    ensures MIN_INT64 <= x <= MAX_INT64 ==> r == x
    ensures (r - x) % TWO_TO_THE_64 == 0
  {
    (x - MIN_INT64) % TWO_TO_THE_64 + MIN_INT64
  }

  datatype Option<+T> = None | Some(value: T)

  datatype Kind = Grant | Redeem

  /** Every sentinel error of the system, and the outcomes that are no value at all. */
  datatype Err =
    | BadAmount             // rejected by the use case before any database call
    | MissingKey
    | InvalidAmount         // domain errors
    | InsufficientBalance
    | OptimisticLock        // repository errors
    | AlreadyProcessed
    | IdempotencyConflict   // use case errors
    | AccountNotFound
    | Unclassified          // any driver, network or context error
    | NilDereference        // the process panics on a nil account
    | Died                  // the process stops before answering

  datatype Result<+T> = Ok(value: T) | Error(error: Err)

  datatype Account = Account(balance: int64, version: int64)

  const NEW_ACCOUNT := Account(0, 0)

  /** The sequential specification: one plain `Grant` or `Redeem` on an account value. */
  function Perform(kind: Kind, a: Account, amount: int64): (r: Result<Account>)
  {
    if amount <= 0 then Error(InvalidAmount)
    else if kind == Redeem && a.balance < amount then Error(InsufficientBalance)
    else
      var delta := if kind == Grant then amount else -amount;
      Ok(Account(Wrap(a.balance + delta), Wrap(a.version + 1)))
  }

  /** When an operation succeeds, when it is refused and how, and what it does to the version. */
  lemma PerformDecides(kind: Kind, a: Account, amount: int64)
    ensures var r := Perform(kind, a, amount);
            && (r.Ok? <==> amount > 0 && (kind == Redeem ==> amount <= a.balance))
            && (r == Error(InvalidAmount) <==> amount <= 0)
            && (r == Error(InsufficientBalance) <==> amount > 0 && kind == Redeem && a.balance < amount)
            && (r.Ok? ==> r.value.version == if a.version == MAX_INT64 then MIN_INT64 else a.version + 1)
  {
    if a.version == MAX_INT64 {
      assert (MAX_INT64 + 1 - MIN_INT64) % TWO_TO_THE_64 == 0;
    }
  }

  /** The exact, unbounded change that an operation stands for. */
  function Delta(kind: Kind, amount: int64): int
  {
    if kind == Grant then amount as int else -(amount as int)
  }

  /** A grant that leaves the int64 range; a redeem never does. */
  predicate Overflows(kind: Kind, a: Account, amount: int64)
  {
    kind == Grant && a.balance + amount > MAX_INT64
  }

  /** An operation is exactly right unless it is a grant past 2^63-1, which is short by 2^64 and leaves a negative
      balance. A redeem needs no bound: its own balance check keeps it in range, and what it leaves is never
      negative. */
  lemma PerformIsExactIffInRange(kind: Kind, a: Account, amount: int64)
    requires Perform(kind, a, amount).Ok?
    ensures var b, exact := Perform(kind, a, amount).value.balance, a.balance + Delta(kind, amount);
            && b == (if Overflows(kind, a, amount) then exact - TWO_TO_THE_64 else exact)
            && (b == exact <==> !Overflows(kind, a, amount))
            && (kind == Redeem ==> b >= 0)
            && (Overflows(kind, a, amount) ==> b < 0)
  {
    if Overflows(kind, a, amount) {
      var x := a.balance + amount;
      assert x - MIN_INT64 == (x - MIN_INT64 - TWO_TO_THE_64) + TWO_TO_THE_64;
      assert (x - MIN_INT64) % TWO_TO_THE_64 == x - MIN_INT64 - TWO_TO_THE_64;
    }
  }

  /** The aggregate root that the use cases mutate inside a transaction. */
  class MileageAccount {
    const userID: string
    var balance: int64
    var version: int64

    constructor (userID: string, a: Account)
      ensures this.userID == userID && Value() == a
    {
      this.userID := userID;
      balance := a.balance;
      version := a.version;
    }

    function Value(): (a: Account)
      reads this
    {
      Account(balance, version)
    }

    method Grant(amount: int64) returns (err: Option<Err>)
      modifies this
      ensures err == (if amount <= 0 then Some(InvalidAmount) else None)
      ensures err.Some? ==> Value() == old(Value())
      ensures err == None ==>
                && balance == (if old(balance) + amount <= MAX_INT64 then old(balance) + amount
                               else old(balance) + amount - TWO_TO_THE_64)
                && version == (if old(version) == MAX_INT64 then MIN_INT64 else old(version) + 1)
      ensures match Perform(Kind.Grant, old(Value()), amount)
              case Ok(a) => err == None && Value() == a
              case Error(e) => err == Some(e) && Value() == old(Value())
    {
      PerformDecides(Kind.Grant, Value(), amount);
      if Perform(Kind.Grant, Value(), amount).Ok? {
        PerformIsExactIffInRange(Kind.Grant, Value(), amount);
      }
      if amount <= 0 {
        return Some(InvalidAmount);
      }
      balance := Wrap(balance + amount);
      version := Wrap(version + 1);
      return None;
    }

    method Redeem(amount: int64) returns (err: Option<Err>)
      modifies this
      ensures err == (if amount <= 0 then Some(InvalidAmount)
                      else if old(balance) < amount then Some(InsufficientBalance) else None)
      ensures err.Some? ==> Value() == old(Value())
      ensures err == None ==>
                && balance == old(balance) - amount
                && version == (if old(version) == MAX_INT64 then MIN_INT64 else old(version) + 1)
      ensures match Perform(Kind.Redeem, old(Value()), amount)
              case Ok(a) => err == None && Value() == a
              case Error(e) => err == Some(e) && Value() == old(Value())
    {
      PerformDecides(Kind.Redeem, Value(), amount);
      if Perform(Kind.Redeem, Value(), amount).Ok? {
        PerformIsExactIffInRange(Kind.Redeem, Value(), amount);
      }
      if amount <= 0 {
        return Some(InvalidAmount);
      }
      if balance < amount {
        return Some(InsufficientBalance);
      }
      balance := Wrap(balance - amount);
      version := Wrap(version + 1);
      return None;
    }

    /** The dry run agrees with the real operation: true exactly when `Redeem` would succeed. */
    predicate CanRedeem(amount: int64)
      reads this
      ensures CanRedeem(amount) <==> 0 < amount <= balance
      ensures CanRedeem(amount) <==> Perform(Kind.Redeem, Value(), amount).Ok?
    {
      amount > 0 && balance >= amount
    }
  }
}
