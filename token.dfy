/** The balance ledger of token.rs: `balances` maps an account to its balance
    (u64 in the source, `nat` here); an account that is not in the map holds
    0. The only operation moves tokens from the caller to a receiver. */
module Token {
  import opened Ledgers

  type Balances = map<AccountId, nat>

  /** The message of the contract's one `assert!`. */
  datatype TokenError = NotEnoughBalance

  /** `transfer`: the debited account is always `sender`, the caller. The
      balance is checked first; then the sender's balance is written, and only
      after that is the receiver's balance read and written. */
  function TransferStep(balances: Balances, sender: AccountId, receiverId: AccountId, amount: nat): (t: Transition<Balances, TokenError>)
    ensures t.outcome.Rejected? <==> Get(balances, sender) < amount
    ensures t.outcome.Rejected? ==> t.next == balances
    ensures t.outcome.Accepted? && sender != receiverId ==>
      && Get(t.next, sender) == Get(balances, sender) - amount
      && Get(t.next, receiverId) == Get(balances, receiverId) + amount
    ensures forall a :: a != sender && a != receiverId ==> Get(t.next, a) == Get(balances, a)
  {
    var senderBalance := Get(balances, sender);
    if senderBalance < amount then Transition(Rejected(NotEnoughBalance), balances)
    else
      var debited := balances[sender := senderBalance - amount];
      Transition(Accepted, debited[receiverId := Get(debited, receiverId) + amount])
  }

  /** A self-transfer that is accepted leaves every balance as it was: the
      credit reads the balance the debit has just written. */
  lemma SelfTransferChangesNothing(balances: Balances, sender: AccountId, amount: nat)
    ensures forall a :: Get(TransferStep(balances, sender, sender, amount).next, a) == Get(balances, a)
  {
  }

  /** `transfer` with its two reads hoisted above both writes: the receiver's
      balance is read before the sender's write. Not what the contract does;
      it is here to show why the contract's read order matters. */
  function TransferReadingBothFirst(balances: Balances, sender: AccountId, receiverId: AccountId, amount: nat): Balances
  {
    var senderBalance := Get(balances, sender);
    var receiverBalance := Get(balances, receiverId);
    if senderBalance < amount then balances
    else balances[sender := senderBalance - amount][receiverId := receiverBalance + amount]
  }

  /** With both reads first, an accepted self-transfer would raise the sum of
      all balances by `amount`, breaking the conservation that
      `TransferConservesSupply` proves for the contract's actual order. */
  lemma ReadingBothFirstWouldMint(balances: Balances, sender: AccountId, amount: nat)
    requires amount <= Get(balances, sender)
    ensures Total(TransferReadingBothFirst(balances, sender, sender, amount)) == Total(balances) + amount
  {
    var senderBalance := Get(balances, sender);
    var debited := balances[sender := senderBalance - amount];
    TotalUpdate(balances, sender, senderBalance - amount);
    TotalUpdate(debited, sender, senderBalance + amount);
  }

  /** Every transfer, accepted or rejected, leaves the sum of all balances
      unchanged. */
  lemma TransferConservesSupply(balances: Balances, sender: AccountId, receiverId: AccountId, amount: nat)
    ensures Total(TransferStep(balances, sender, receiverId, amount).next) == Total(balances)
  {
    var senderBalance := Get(balances, sender);
    if amount <= senderBalance {
      var debited := balances[sender := senderBalance - amount];
      TotalUpdate(balances, sender, senderBalance - amount);
      TotalUpdate(debited, receiverId, Get(debited, receiverId) + amount);
    }
  }

  /** A transfer call, with the caller made explicit. */
  datatype TransferCall = TransferCall(sender: AccountId, receiverId: AccountId, amount: nat)

  /** The balances after the transfers `calls`, in order. */
  function Run(balances: Balances, calls: seq<TransferCall>): Balances
    decreases |calls|
  {
    if calls == [] then balances
    else
      var c := calls[0];
      Run(TransferStep(balances, c.sender, c.receiverId, c.amount).next, calls[1..])
  }

  /** No sequence of transfers creates or destroys tokens. */
  lemma {:induction false} RunConservesSupply(balances: Balances, calls: seq<TransferCall>)
    ensures Total(Run(balances, calls)) == Total(balances)
    decreases |calls|
  {
    if calls != [] {
      var c := calls[0];
      TransferConservesSupply(balances, c.sender, c.receiverId, c.amount);
      RunConservesSupply(TransferStep(balances, c.sender, c.receiverId, c.amount).next, calls[1..]);
    }
  }

  /** With every balance empty, A cannot send 50 to B; once C (holding 100)
      has sent A 100, A can, and then A and B hold 50 each. */
  lemma TransferScenario(a: AccountId, b: AccountId, c: AccountId)
    requires a != b && a != c && b != c
    ensures
      var genesis: Balances := map[c := 100];
      var t1 := TransferStep(genesis, a, b, 50);
      var t2 := TransferStep(t1.next, c, a, 100);
      var t3 := TransferStep(t2.next, a, b, 50);
      && t1.outcome == Rejected(NotEnoughBalance) && t1.next == genesis
      && t2.outcome == Accepted
      && t3.outcome == Accepted
      && Get(t3.next, a) == 50 && Get(t3.next, b) == 50 && Get(t3.next, c) == 0
  {
  }

  /** The deployed contract. The ghost `supply` is the sum of all balances,
      which no call changes. */
  class TokenContract {
    var balances: Balances
    ghost var supply: nat

    ghost predicate Valid()
      reads this
    {
      Total(balances) == supply
    }

    /** The contract with the balances it holds in storage. */
    constructor (genesis: Balances)
      ensures Valid() && balances == genesis && supply == Total(genesis)
    {
      balances := genesis;
      supply := Total(genesis);
    }

    /** `transfer` with `caller` standing for the predecessor account. */
    method Transfer(caller: AccountId, receiverId: AccountId, amount: nat) returns (outcome: Outcome<TokenError>)
      requires Valid()
      modifies this
      ensures Valid() && supply == old(supply)
      ensures Transition(outcome, balances) == TransferStep(old(balances), caller, receiverId, amount)
    {
      TransferConservesSupply(balances, caller, receiverId, amount);
      var senderBalance := Get(balances, caller);
      if senderBalance < amount {
        return Rejected(NotEnoughBalance);
      }
      balances := balances[caller := senderBalance - amount];
      balances := balances[receiverId := Get(balances, receiverId) + amount];
      outcome := Accepted;
    }

    /** `get_balance`: reads only; 0 for an unknown account, and on a valid
        contract never more than the total supply. */
    function GetBalance(accountId: AccountId): (balance: nat)
      reads this
      ensures accountId !in balances ==> balance == 0
      ensures accountId in balances ==> balance == balances[accountId]
      ensures Valid() ==> balance <= supply
    {
      EntryAtMostTotal(balances, accountId);
      Get(balances, accountId)
    }
  }
}
