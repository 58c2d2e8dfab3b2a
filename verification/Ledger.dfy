/** Wallets and the append-only ledger that every money step writes to. */
module Ledger {
  import opened Common

  type User = nat

  datatype Item = Tunnel(t: nat) | Ip(addr: nat) | Block(b: nat)

  /** The idempotency keys, by the code that builds them. */
  datatype IdemKey =
    | Renewal(item: Item, day: int)
    | Purchase(item: Item, at: int)
    | TierChange(t: nat, from: nat, to: nat, second: int)
    | Redemption(code: nat, user: User)

  datatype Wallet = Wallet(balance: int, topup: int, spent: int)

  datatype Row = Row(user: User, amount: int, balanceAfter: int, key: Option<IdemKey>)

  datatype Books = Books(wallets: map<User, Wallet>, rows: seq<Row>)

  /** The unique index on idempotency_key already has this key. */
  predicate Used(b: Books, key: IdemKey) {
    exists i :: 0 <= i < |b.rows| && b.rows[i].key == Some(key)
  }

  /** The wallet update and ledger insert that every money step performs together. */
  function Post(b: Books, user: User, amount: int, key: Option<IdemKey>): Books
    requires user in b.wallets
  {
    var w := b.wallets[user];
    var balance := w.balance + amount;
    Books(b.wallets[user := Wallet(balance,
                                   w.topup + (if amount > 0 then amount else 0),
                                   w.spent + (if amount < 0 then -amount else 0))],
          b.rows + [Row(user, amount, balance, key)])
  }

  function Sum(rows: seq<Row>, user: User): int
    decreases |rows|
  {
    if rows == [] then 0 else
    var r := rows[|rows| - 1];
    Sum(rows[..|rows| - 1], user) + if r.user == user then r.amount else 0
  }

  ghost predicate WalletOk(b: Books, u: User)
    requires u in b.wallets
  {
    var w := b.wallets[u];
    w.balance == Sum(b.rows, u) == w.topup - w.spent && w.balance >= 0 && w.topup >= 0 && w.spent >= 0
  }

  ghost predicate RowOk(b: Books, i: nat)
    requires i < |b.rows|
  {
    b.rows[i].user in b.wallets && b.rows[i].balanceAfter == Sum(b.rows[..i + 1], b.rows[i].user)
  }

  ghost predicate KeysUnique(rows: seq<Row>) {
    forall i, j :: 0 <= i < j < |rows| && rows[i].key.Some? ==> rows[i].key != rows[j].key
  }

  /** Conservation: each balance is the sum of its ledger rows and what was ever topped up minus what
      was ever spent, it is never negative, every row carries the running balance, and no
      idempotency key occurs twice. */
  ghost predicate Balanced(b: Books) {
    && (forall u :: u in b.wallets ==> WalletOk(b, u))
    && (forall i :: 0 <= i < |b.rows| ==> RowOk(b, i))
    && KeysUnique(b.rows)
    && (forall u :: u !in b.wallets ==> Sum(b.rows, u) == 0)
  }

  lemma PostKeeps(b: Books, user: User, amount: int, key: Option<IdemKey>)
    requires Balanced(b) && user in b.wallets
    requires b.wallets[user].balance + amount >= 0
    requires key.Some? ==> !Used(b, key.value)
    ensures Balanced(Post(b, user, amount, key))
  {
    var b' := Post(b, user, amount, key);
    var n := |b.rows|;
    assert b'.rows[..n] == b.rows;
    assert forall u :: Sum(b'.rows, u) == Sum(b.rows, u) + if u == user then amount else 0;
    assert WalletOk(b, user);
    forall u | u in b'.wallets ensures WalletOk(b', u) {
      if u != user { assert WalletOk(b, u); }
    }
    forall i | 0 <= i < |b'.rows| ensures RowOk(b', i) {
      if i < n {
        assert RowOk(b, i);
        assert b'.rows[..i + 1] == b.rows[..i + 1];
      } else {
        assert b'.rows[..i + 1] == b'.rows;
      }
    }
  }

  /** A new customer's wallet. */
  function Open(b: Books, user: User): Books {
    if user in b.wallets then b else b.(wallets := b.wallets[user := Wallet(0, 0, 0)])
  }

  lemma OpenKeeps(b: Books, user: User)
    requires Balanced(b)
    ensures Balanced(Open(b, user))
  {
    var b' := Open(b, user);
    forall i | 0 <= i < |b'.rows| ensures RowOk(b', i) { assert RowOk(b, i); }
    forall u | u in b'.wallets ensures WalletOk(b', u) {
      if u in b.wallets { assert WalletOk(b, u); }
    }
  }

  lemma PostUses(b: Books, user: User, amount: int, key: Option<IdemKey>, k: IdemKey)
    requires user in b.wallets
    ensures Used(Post(b, user, amount, key), k) <==> Used(b, k) || key == Some(k)
  {
    var b' := Post(b, user, amount, key);
    var n := |b.rows|;
    assert b'.rows[n].key == key;
    if Used(b, k) {
      var i :| 0 <= i < n && b.rows[i].key == Some(k);
      assert b'.rows[i].key == Some(k);
    }
  }
}
