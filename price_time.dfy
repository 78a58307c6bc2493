/**
 * Price-time priority.  Each side of a book is a priority queue over its
 * comparator (InMemoryOrderBook.java:32-36): buy orders by price descending then
 * timestamp ascending, sell orders by price ascending then timestamp ascending.
 * A queue is modelled as a sequence kept sorted by that comparator, so that
 * `peek` is its first element, `poll` drops it, `offer` inserts in order and
 * `remove(o)` deletes the object `o` (Order has no `equals`, so by identity).
 */
module PriceTime {
  import opened Wrappers
  import opened Model

  /** `a` may be served no later than `b` on the buy side. */
  predicate BuyFirst(a: Order, b: Order) {
    a.price > b.price || (a.price == b.price && a.timestamp <= b.timestamp)
  }

  /** `a` may be served no later than `b` on the sell side. */
  predicate SellFirst(a: Order, b: Order) {
    a.price < b.price || (a.price == b.price && a.timestamp <= b.timestamp)
  }

  predicate First(side: OrderType, a: Order, b: Order) {
    if side == BUY then BuyFirst(a, b) else SellFirst(a, b)
  }

  /**
   * A well-formed queue of one side: every order is of that side, appears once,
   * and takes priority over (or ties with) every order queued behind it.
   */
  ghost predicate Queue(side: OrderType, q: seq<Order>)
    decreases |q|
  {
    q == [] ||
    (&& q[0].orderType == side
     && q[0] !in q[1..]
     && (forall x :: x in q[1..] ==> First(side, q[0], x))
     && Queue(side, q[1..]))
  }

  /** `offer`: `o` goes after every queued order that takes priority over it or ties with it. */
  function Enqueue(side: OrderType, q: seq<Order>, o: Order): (r: seq<Order>)
    ensures |r| == |q| + 1
  {
    if q == [] then [o]
    else if First(side, q[0], o) then [q[0]] + Enqueue(side, q[1..], o)
    else [o] + q
  }

  /** `remove(o)`: deletes the first occurrence of the object `o`, if any. */
  function Remove(q: seq<Order>, o: Order): (r: seq<Order>)
    ensures |r| == if o in q then |q| - 1 else |q|
  {
    if q == [] then []
    else if q[0] == o then q[1..]
    else [q[0]] + Remove(q[1..], o)
  }

  /** `addOrder` on one side: the order joins this side's queue only if it is of this side. */
  function Offer(side: OrderType, q: seq<Order>, o: Order): (r: seq<Order>)
    ensures o.orderType == side ==> |r| == |q| + 1
    ensures o.orderType != side ==> r == q
  {
    if o.orderType == side then Enqueue(side, q, o) else q
  }

  /** Remaining quantity and status of every order of `q`. */
  ghost function States(q: seq<Order>): map<Order, Fill>
    reads q
  {
    map o | o in q :: o.State()
  }

  /** Offering an order to both sides adds exactly that order, in its current state, to the states of the queued orders. */
  lemma OfferStates(buys: seq<Order>, sells: seq<Order>, o: Order)
    ensures States(Offer(BUY, buys, o) + Offer(SELL, sells, o)) == States(buys + sells)[o := o.State()]
  {
    EnqueueMembers(BUY, buys, o);
    EnqueueMembers(SELL, sells, o);
    assert States(Offer(BUY, buys, o) + Offer(SELL, sells, o)).Keys == States(buys + sells).Keys + {o};
  }

  /** `peek`: the first order of a queue, None (Java's null) for an empty one. */
  function Head(q: seq<Order>): (r: Option<Order>)
    ensures r.None? <==> q == []
    ensures r.Some? ==> r.value in q
  {
    if q == [] then None else Some(q[0])
  }

  /** Serving order is transitive. */
  lemma FirstTransitive(side: OrderType, a: Order, b: Order, c: Order)
    requires First(side, a, b) && First(side, b, c)
    ensures First(side, a, c)
  {
  }

  /** Serving order is total: of two orders, one may be served no later than the other. */
  lemma FirstTotal(side: OrderType, a: Order, b: Order)
    ensures First(side, a, b) || First(side, b, a)
  {
  }

  /** The head of a queue takes priority over (or ties with) every queued order. */
  lemma HeadFirst(side: OrderType, q: seq<Order>)
    requires Queue(side, q) && q != []
    ensures forall o :: o in q ==> First(side, q[0], o)
  {
    assert First(side, q[0], q[0]);
    assert q == [q[0]] + q[1..];
  }

  /** A queue is in priority order and holds no order twice. */
  lemma {:induction false} QueueOrdered(side: OrderType, q: seq<Order>)
    requires Queue(side, q)
    ensures forall i, j :: 0 <= i < j < |q| ==> First(side, q[i], q[j]) && q[i] != q[j]
  {
    if q != [] {
      var tail := q[1..];
      QueueOrdered(side, tail);
      forall i, j | 0 <= i < j < |q| ensures First(side, q[i], q[j]) && q[i] != q[j] {
        assert q[j] == tail[j - 1];
        if i > 0 {
          assert q[i] == tail[i - 1];
        }
      }
    }
  }

  /** A queue holds only orders of its side. */
  lemma {:induction false} QueueSide(side: OrderType, q: seq<Order>)
    requires Queue(side, q)
    ensures forall o :: o in q ==> o.orderType == side
  {
    if q != [] {
      QueueSide(side, q[1..]);
      assert q == [q[0]] + q[1..];
    }
  }

  /** Putting in front of a queue an order of its side that goes first over all of it. */
  lemma QueueCons(side: OrderType, a: Order, s: seq<Order>)
    requires Queue(side, s) && a.orderType == side && a !in s
    requires forall x :: x in s ==> First(side, a, x)
    ensures Queue(side, [a] + s)
  {
    assert ([a] + s)[1..] == s;
  }

  /** Inserting adds exactly the order `o`. */
  lemma {:induction false} EnqueueMembers(side: OrderType, q: seq<Order>, o: Order)
    ensures forall x :: x in Enqueue(side, q, o) ==> x in q || x == o
    ensures forall x :: x in q ==> x in Enqueue(side, q, o)
    ensures o in Enqueue(side, q, o)
  {
    if q != [] && First(side, q[0], o) {
      EnqueueMembers(side, q[1..], o);
      assert q == [q[0]] + q[1..];
    }
  }

  /** Inserting adds one copy of `o` and nothing else. */
  lemma {:induction false} EnqueuePermutes(side: OrderType, q: seq<Order>, o: Order)
    ensures multiset(Enqueue(side, q, o)) == multiset(q) + multiset{o}
  {
    if q != [] && First(side, q[0], o) {
      EnqueuePermutes(side, q[1..], o);
      assert q == [q[0]] + q[1..];
    }
  }

  /** Inserting an order of the right side that is not queued yet keeps a queue well formed. */
  lemma {:induction false} EnqueueKeepsQueue(side: OrderType, q: seq<Order>, o: Order)
    requires Queue(side, q) && o !in q && o.orderType == side
    ensures Queue(side, Enqueue(side, q, o))
  {
    var r := Enqueue(side, q, o);
    if q == [] {
      assert r[1..] == [];
    } else if First(side, q[0], o) {
      var rest := Enqueue(side, q[1..], o);
      EnqueueKeepsQueue(side, q[1..], o);
      EnqueueMembers(side, q[1..], o);
      forall x | x in rest ensures First(side, q[0], x) {
        assert x in q[1..] || x == o;
      }
      assert q[0] != o;
      QueueCons(side, q[0], rest);
    } else {
      FirstTotal(side, q[0], o);
      forall x | x in q ensures First(side, o, x) {
        HeadFirst(side, q);
        FirstTransitive(side, o, q[0], x);
      }
      QueueCons(side, o, q);
    }
  }

  /** Removing takes out exactly the order `o`, if it is there; otherwise nothing changes. */
  lemma {:induction false} RemoveMembers(side: OrderType, q: seq<Order>, o: Order)
    requires Queue(side, q)
    ensures forall x :: x in Remove(q, o) ==> x in q && x != o
    ensures forall x :: x in q && x != o ==> x in Remove(q, o)
    ensures o !in q ==> Remove(q, o) == q
  {
    if q != [] && q[0] != o {
      RemoveMembers(side, q[1..], o);
      assert q == [q[0]] + q[1..];
    }
  }

  /** Removing takes away one copy of `o`, if there is one, and nothing else. */
  lemma {:induction false} RemovePermutes(q: seq<Order>, o: Order)
    ensures multiset(Remove(q, o)) == multiset(q) - multiset{o}
  {
    if q != [] {
      assert q == [q[0]] + q[1..];
      if q[0] != o {
        RemovePermutes(q[1..], o);
      }
    }
  }

  /** Removing keeps a queue well formed. */
  lemma {:induction false} RemoveKeepsQueue(side: OrderType, q: seq<Order>, o: Order)
    requires Queue(side, q)
    ensures Queue(side, Remove(q, o))
  {
    if q != [] && q[0] != o {
      var r := Remove(q, o);
      var rest := Remove(q[1..], o);
      RemoveKeepsQueue(side, q[1..], o);
      RemoveMembers(side, q[1..], o);
      forall x | x in rest ensures First(side, q[0], x) {
        assert x in q[1..];
      }
      assert q[0] !in rest;
      QueueCons(side, q[0], rest);
    }
  }
}
