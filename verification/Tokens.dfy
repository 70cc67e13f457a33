/** SEP-41 token contracts: balances per token and holder, moved by `transfer`. */
module Tokens {
  import opened Machine
  import opened Sums

  type Book = map<Address, int>

  /** One book per deployed token; calling a token that is not a key traps. */
  type Ledger = map<Address, Book>

  function Entry(b: Book, h: Address): int {
    if h in b then b[h] else 0
  }

  function Balance(l: Ledger, t: Address, h: Address): int {
    if t in l then Entry(l[t], h) else 0
  }

  ghost function Supply(l: Ledger, t: Address): int {
    if t in l then Sum(l[t]) else 0
  }

  /** Balances are never negative and a token's whole supply fits an i128. */
  ghost predicate Sound(l: Ledger) {
    forall t :: t in l ==> (forall h :: h in l[t] ==> 0 <= l[t][h]) && Sum(l[t]) <= I128_MAX
  }

  /** The ledger after a transfer, or None when the token contract traps. */
  function Moved(l: Ledger, t: Address, from: Address, to: Address, amount: int): Option<Ledger> {
    if t !in l || amount < 0 || Balance(l, t, from) < amount then None else
    var debited := l[t][from := Entry(l[t], from) - amount];
    if Entry(debited, to) + amount > I128_MAX then None
    else Some(l[t := debited[to := Entry(debited, to) + amount]])
  }

  /** The change a transfer of `amount` of `t` makes to what `h` holds of `u`. */
  function Change(t: Address, from: Address, to: Address, amount: int, u: Address, h: Address): int {
    (if u == t && h == to then amount else 0) - (if u == t && h == from then amount else 0)
  }

  /** Moving an amount between two entries of a book keeps its sum. */
  lemma MovedEntries(b: Book, from: Address, to: Address, amount: int)
    requires forall h :: h in b ==> 0 <= b[h]
    requires 0 <= amount <= Entry(b, from)
    ensures var d := b[from := Entry(b, from) - amount];
            var m := d[to := Entry(d, to) + amount];
            && Sum(m) == Sum(b)
            && m[to] <= Sum(b)
            && (forall h :: h in m ==> 0 <= m[h])
            && (forall h ::
                  Entry(m, h) == Entry(b, h) + (if h == to then amount else 0) - (if h == from then amount else 0))
  {
    var d := b[from := Entry(b, from) - amount];
    var m := d[to := Entry(d, to) + amount];
    SumPut(b, from, Entry(b, from) - amount);
    SumPut(d, to, Entry(d, to) + amount);
    SumCovers(m, to, to);
  }

  /** In any ledger a transfer that succeeds changes the two balances by the amount and no other. */
  lemma MovedBalances(l: Ledger, t: Address, from: Address, to: Address, amount: int)
    requires Moved(l, t, from, to, amount).Some?
    ensures var m := Moved(l, t, from, to, amount).value;
            && 0 <= amount && m.Keys == l.Keys
            && forall u, h :: Balance(m, u, h) == Balance(l, u, h) + Change(t, from, to, amount, u, h)
  {
  }

  /** In a sound ledger a covered transfer always succeeds, changes the two balances by the amount,
      conserves every supply and leaves the ledger sound. */
  lemma MovedEffect(l: Ledger, t: Address, from: Address, to: Address, amount: int)
    requires Sound(l)
    ensures Moved(l, t, from, to, amount).Some? <==> t in l && 0 <= amount <= Balance(l, t, from)
    ensures Moved(l, t, from, to, amount).Some? ==>
              var m := Moved(l, t, from, to, amount).value;
              && Sound(m) && m.Keys == l.Keys
              && (forall u :: Supply(m, u) == Supply(l, u))
              && (forall u, h :: Balance(m, u, h) == Balance(l, u, h) + Change(t, from, to, amount, u, h))
  {
    hide Sum;
    if t in l && 0 <= amount <= Balance(l, t, from) {
      MovedEntries(l[t], from, to, amount);
    }
  }

  /** Balances of a sound ledger lie in 0..I128_MAX. */
  lemma BalanceRange(l: Ledger, t: Address, h: Address)
    requires Sound(l)
    ensures 0 <= Balance(l, t, h) <= I128_MAX
  {
    if t in l && h in l[t] {
      SumCovers(l[t], h, h);
    }
  }

  /** The token contracts as one mutable object. */
  class TokenLedger {
    var books: Ledger

    constructor (books: Ledger)
      ensures this.books == books
    {
      this.books := books;
    }

    function GetBalance(t: Address, h: Address): Option<int>
      reads this
    {
      if t in books then Some(Balance(books, t, h)) else None
    }

    /** `ok` is false when the token contract traps; then nothing has moved. */
    method Transfer(t: Address, from: Address, to: Address, amount: int) returns (ok: bool)
      modifies this
      ensures ok <==> Moved(old(books), t, from, to, amount).Some?
      ensures books == if ok then Moved(old(books), t, from, to, amount).value else old(books)
    {
      if t !in books || amount < 0 || Entry(books[t], from) < amount {
        return false;
      }
      var book := books[t];
      book := book[from := Entry(book, from) - amount];
      var credited := Entry(book, to) + amount;
      if credited > I128_MAX {
        return false;
      }
      book := book[to := credited];
      books := books[t := book];
      return true;
    }
  }
}
