/**
 * The balance ledger: the amount a transfer moves (the sum of the sender's
 * cart lines), the two balance updates a transfer makes, the one a recharge
 * makes, and what each does to the total of all balances.
 */
module Ledger {
  import opened Models
  import opened Carts

  /** The `reduce` over the cart: the sum of the line totals, from the left. */
  function CartTotal(items: seq<CartItem>): (total: int)
    ensures (forall i :: 0 <= i < |items| ==> LineOk(items[i])) ==> total >= |items|
  {
    if |items| == 0 then 0 else CartTotal(items[..|items| - 1]) + items[|items| - 1].totalPrice
  }

  /**
   * transferBalance's guard chain, in the handler's order: a receiver id, not
   * the sender; a non-empty sender cart; both users exist; enough balance.
   * On success it gives the amount to move.
   */
  function TransferCheck(sender: Id, receiverId: Option<Id>, carts: map<Id, Cart>, users: map<Id, User>): (r: Result<int>)
    ensures receiverId.None? ==> r == Err(ReceiverRequired)
    ensures receiverId == Some(sender) ==> r == Err(SelfTransfer)
    ensures receiverId.Some? && receiverId.value != sender && (sender !in carts || carts[sender].items == [])
      ==> r == Err(CartEmpty)
    ensures r == Err(UsersNotFound) <==>
      && receiverId.Some? && receiverId.value != sender
      && sender in carts && carts[sender].items != []
      && (sender !in users || receiverId.value !in users)
    ensures r == Err(InsufficientBalance) <==>
      && receiverId.Some? && receiverId.value != sender
      && sender in carts && carts[sender].items != []
      && sender in users && receiverId.value in users
      && users[sender].balance < CartTotal(carts[sender].items)
    ensures r.Ok? <==>
      && receiverId.Some? && receiverId.value != sender
      && sender in carts && carts[sender].items != []
      && sender in users && receiverId.value in users
      && users[sender].balance >= CartTotal(carts[sender].items)
    ensures r.Ok? ==> r.value == CartTotal(carts[sender].items)
    ensures r.Err? ==> r.error in {ReceiverRequired, SelfTransfer, CartEmpty, UsersNotFound, InsufficientBalance}
  {
    if receiverId.None? then Err(ReceiverRequired)
    else if receiverId.value == sender then Err(SelfTransfer)
    else if sender !in carts || |carts[sender].items| == 0 then Err(CartEmpty)
    else
      var total := CartTotal(carts[sender].items);
      if sender !in users || receiverId.value !in users then Err(UsersNotFound)
      else if users[sender].balance < total then Err(InsufficientBalance)
      else Ok(total)
  }

  /** The two balance updates of a transfer: debit the sender, credit the receiver. */
  function Settle(users: map<Id, User>, sender: Id, receiver: Id, amount: int): (m: map<Id, User>)
    requires sender in users && receiver in users && sender != receiver
    ensures m.Keys == users.Keys
    ensures m[sender].balance == users[sender].balance - amount
    ensures m[receiver].balance == users[receiver].balance + amount
    ensures m[sender].balance + m[receiver].balance == users[sender].balance + users[receiver].balance
    ensures m[sender] == users[sender].(balance := m[sender].balance)
    ensures m[receiver] == users[receiver].(balance := m[receiver].balance)
    ensures forall u :: u in users && u != sender && u != receiver ==> m[u] == users[u]
  {
    var debited := users[sender := users[sender].(balance := users[sender].balance - amount)];
    debited[receiver := debited[receiver].(balance := debited[receiver].balance + amount)]
  }

  /** A recharge: one user's balance grows by the amount. */
  function Credit(users: map<Id, User>, user: Id, amount: int): (m: map<Id, User>)
    requires user in users
    ensures m.Keys == users.Keys
    ensures m[user] == users[user].(balance := users[user].balance + amount)
    ensures forall u :: u in users && u != user ==> m[u] == users[u]
  {
    users[user := users[user].(balance := users[user].balance + amount)]
  }

  /** The sum of every user's balance. */
  ghost function TotalBalance(users: map<Id, User>): int
    decreases |users|
  {
    if users == map[] then 0
    else
      var u :| u in users;
      users[u].balance + TotalBalance(users - {u})
  }

  lemma RemoveShrinks(users: map<Id, User>, u: Id)
    requires u in users
    ensures |users - {u}| == |users| - 1
  {
    assert (users - {u}).Keys == users.Keys - {u};
  }

  /** Any user can be the one taken out first. */
  lemma {:induction false} TotalBalanceRemove(users: map<Id, User>, u: Id)
    requires u in users
    ensures TotalBalance(users) == users[u].balance + TotalBalance(users - {u})
    decreases |users|
  {
    var v :| v in users && TotalBalance(users) == users[v].balance + TotalBalance(users - {v});
    if v != u {
      RemoveShrinks(users, u);
      RemoveShrinks(users, v);
      TotalBalanceRemove(users - {v}, u);
      TotalBalanceRemove(users - {u}, v);
      assert users - {v} - {u} == users - {u} - {v};
    }
  }

  /** Replacing one user's record changes the total by the change in its balance. */
  lemma TotalBalanceUpdate(users: map<Id, User>, u: Id, x: User)
    requires u in users
    ensures TotalBalance(users[u := x]) == TotalBalance(users) - users[u].balance + x.balance
  {
    TotalBalanceRemove(users, u);
    TotalBalanceRemove(users[u := x], u);
    assert users[u := x] - {u} == users - {u};
  }

  /** Adding a new user adds its balance to the total. */
  lemma TotalBalanceInsert(users: map<Id, User>, u: Id, x: User)
    requires u !in users
    ensures TotalBalance(users[u := x]) == TotalBalance(users) + x.balance
  {
    TotalBalanceRemove(users[u := x], u);
    assert users[u := x] - {u} == users;
  }

  /** A transfer moves money between two users and creates or destroys none. */
  lemma SettleConserves(users: map<Id, User>, sender: Id, receiver: Id, amount: int)
    requires sender in users && receiver in users && sender != receiver
    ensures TotalBalance(Settle(users, sender, receiver, amount)) == TotalBalance(users)
  {
    var debited := users[sender := users[sender].(balance := users[sender].balance - amount)];
    TotalBalanceUpdate(users, sender, debited[sender]);
    TotalBalanceUpdate(debited, receiver, debited[receiver].(balance := debited[receiver].balance + amount));
  }

  /** A recharge adds exactly its amount to the total. */
  lemma CreditAdds(users: map<Id, User>, user: Id, amount: int)
    requires user in users
    ensures TotalBalance(Credit(users, user, amount)) == TotalBalance(users) + amount
  {
    TotalBalanceUpdate(users, user, users[user].(balance := users[user].balance + amount));
  }

  /** A transfer that passed the balance check leaves the sender solvent. */
  lemma SettleKeepsSenderSolvent(users: map<Id, User>, sender: Id, receiver: Id, amount: int)
    requires sender in users && receiver in users && sender != receiver
    requires users[sender].balance >= amount
    ensures Settle(users, sender, receiver, amount)[sender].balance >= 0
  {
  }

  /** A fresh account (balance 2300) buys two copies of a 500 book: it pays 1000 and keeps 1300. */
  lemma TransferExample(buyer: User, seller: User)
    requires buyer.balance == DefaultBalance
    ensures var items := [CartItem(7, 2, 2 * 500)];
      var m := Settle(map[1 := buyer, 2 := seller], 1, 2, CartTotal(items));
      CartTotal(items) == 1000 && m[1].balance == 1300 && m[2].balance == seller.balance + 1000
  {
    assert [CartItem(7, 2, 2 * 500)][..0] == [];
  }
}
