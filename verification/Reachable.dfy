/** What holds in every state that runs reach from an empty database. */
module Reachable {
  import opened Common
  import opened Ledger
  import opened Tables
  import opened Placement
  import opened Runs
  import opened Renewals
  import opened Grace

  /** Before any row exists. */
  function Empty(): Db {
    Db(Books(map[], []), map[], map[], map[], map[], map[])
  }

  lemma EmptyInOrder(start: int)
    ensures Sound(Empty()) && Counted(Empty()) && Balanced(Empty().books) && KeysBehind(Empty(), start)
    ensures forall it :: Kept(Empty(), it)
  {
  }

  /** The books balance after any run; ownership, renewal keys and grace after any timely one; the pool
      counters after any timely and careful one. */
  lemma ReachableInOrder(es: seq<Event>, start: int, it: Item)
    ensures Balanced(Run(Empty(), es).books)
    ensures TimelyRun(Empty(), es) ==> Sound(Run(Empty(), es))
    ensures TimelyRun(Empty(), es) && CarefulRun(Empty(), es) ==> Counted(Run(Empty(), es))
    ensures TimelyRun(Empty(), es) && Monotone(start, es) ==> KeysBehind(Run(Empty(), es), Clock(start, es))
    ensures TimelyRun(Empty(), es) && (it.Ip? ==> BuysClearRun(Empty(), es, it)) ==> Kept(Run(Empty(), es), it)
  {
    EmptyInOrder(start);
    LedgerConserved(Empty(), es);
    if TimelyRun(Empty(), es) {
      OwnershipKept(Empty(), es);
      if CarefulRun(Empty(), es) { CountersKept(Empty(), es); }
      if Monotone(start, es) { RunBehind(Empty(), start, es); }
      if it.Ip? ==> BuysClearRun(Empty(), es, it) { ItemGraceKept(Empty(), es, it); }
    }
  }
}
