/**
 The state behind the mutex of `OrderedProcessor`, as a value, and what each critical section does to it.

 `C` is the type of a waiter channel. The class in `OrderedProcessor.dfy` instantiates it with heap objects,
 the transition system in `LoggerSystem.dfy` with channel numbers.
 */
module TicketQueue {

  datatype Queue<C> = Queue(counter: nat, next: nat, active: set<nat>, waiters: map<nat, C>)

  datatype Entered<C> = Granted(queue: Queue<C>) | MustWait(queue: Queue<C>)

  function Empty<C>(): Queue<C> {
    Queue(0, 1, {}, map[])
  }

  function Take<C>(q: Queue<C>): Queue<C> {
    q.(counter := q.counter + 1, active := q.active + {q.counter + 1})
  }

  /** Where the skip loop stops: the first number from `next` on that is active or was never handed out. */
  function Frontier(next: nat, counter: nat, active: set<nat>): (n: nat)
    ensures next <= n && (next <= counter + 1 ==> n <= counter + 1)
    ensures n in active || counter < n
    ensures forall k: nat :: next <= k < n ==> k !in active
    decreases counter + 1 - next
  {
    if next <= counter && next !in active then Frontier(next + 1, counter, active) else next
  }

  function SkipTo<C>(q: Queue<C>, n: nat): Queue<C> {
    q.(next := n, waiters := map k | k in q.waiters && !(q.next < k <= n) :: q.waiters[k])
  }

  lemma SkipOneMore<C>(q: Queue<C>, n: nat)
    requires q.next <= n
    ensures SkipTo(q, n + 1).waiters == SkipTo(q, n).waiters - {n + 1}
  {
  }

  function Skip<C>(q: Queue<C>): Queue<C> {
    SkipTo(q, Frontier(q.next, q.counter, q.active))
  }

  /** The waiters whose channels get closed when the cursor moves from `q.next` to `n`. */
  function WokenUpTo<C>(q: Queue<C>, n: nat): set<nat> {
    set k | k in q.waiters && q.next < k <= n
  }

  function Woken<C>(q: Queue<C>): set<nat> {
    WokenUpTo(q, Frontier(q.next, q.counter, q.active))
  }

  /** First critical section of `WaitForSequence`; `c` is the channel it makes when it has to wait. */
  function Enter<C>(q: Queue<C>, ticket: nat, c: C): Entered<C> {
    var s := Skip(q);
    if ticket <= s.next then Granted(s) else MustWait(s.(waiters := s.waiters[ticket := c]))
  }

  /** Critical section of the timeout branch. */
  function Expire<C>(q: Queue<C>, ticket: nat): Queue<C> {
    q.(waiters := q.waiters - {ticket})
  }

  function Finish<C>(q: Queue<C>, ticket: nat): Queue<C> {
    q.(active := q.active - {ticket})
  }

  function Complete<C>(q: Queue<C>, ticket: nat): Queue<C> {
    Skip(Finish(q, ticket))
  }

  /**
   What holds whenever the mutex is free: the cursor is the smallest ticket still held, or the next one to be
   handed out when none is held, and only later tickets have waiters.
   */
  ghost predicate Settled<C>(q: Queue<C>) {
    && 1 <= q.next <= q.counter + 1
    && (q.next in q.active || q.next == q.counter + 1)
    && (forall t <- q.active :: q.next <= t <= q.counter)
    && (forall t <- q.waiters :: q.next < t <= q.counter)
  }

  /** Every critical section restores `Settled`. A caller completes or waits for tickets it holds. */
  lemma SectionsKeepSettled<C>(q: Queue<C>, ticket: nat, c: C)
    requires Settled(q)
    ensures Settled(Take(q))
    ensures ticket in q.active ==> Settled(Enter(q, ticket, c).queue)
    ensures Settled(Expire(q, ticket))
    ensures Settled(Complete(q, ticket))
  {
    SettledMeansNothingToSkip(q);
  }

  /** The skip at the start of `WaitForSequence` never moves the cursor or closes a channel. */
  lemma SettledMeansNothingToSkip<C>(q: Queue<C>)
    requires Settled(q)
    ensures Skip(q) == q && Woken(q) == {}
  {
    assert Frontier(q.next, q.counter, q.active) == q.next;
    assert Skip(q).waiters == q.waiters;
  }

  /** A held ticket is let through at once exactly when it is the cursor. */
  lemma GrantedIffFirst<C>(q: Queue<C>, ticket: nat, c: C)
    requires Settled(q) && ticket in q.active
    ensures Enter(q, ticket, c).Granted? <==> ticket == q.next
    ensures Enter(q, ticket, c).Granted? <==> forall t <- q.active :: ticket <= t
  {
    SettledMeansNothingToSkip(q);
  }

  // ----- The cursor refines a queue of outstanding tickets.

  /** The outstanding tickets among `lo .. hi - 1`, in the order they were handed out. */
  function Ascending(active: set<nat>, lo: nat, hi: nat): (s: seq<nat>)
    requires lo <= hi
    ensures forall t: nat :: t in s <==> t in active && lo <= t < hi
    ensures Increasing(s)
    decreases hi - lo
  {
    if lo == hi then []
    else
      var rest := Ascending(active, lo + 1, hi);
      assert forall i :: 0 <= i < |rest| ==> rest[i] in rest;
      if lo in active then [lo] + rest else rest
  }

  function Outstanding<C>(q: Queue<C>): seq<nat> {
    Ascending(q.active, 0, q.counter + 1)
  }

  function Without(s: seq<nat>, t: nat): seq<nat> {
    if s == [] then [] else (if s[0] == t then [] else [s[0]]) + Without(s[1..], t)
  }

  ghost predicate Increasing(s: seq<nat>) {
    forall i, j :: 0 <= i < j < |s| ==> s[i] < s[j]
  }

  /** Two increasing sequences with the same elements are the same sequence. */
  lemma {:induction false} IncreasingUnique(a: seq<nat>, b: seq<nat>)
    requires Increasing(a) && Increasing(b)
    requires forall t :: t in a <==> t in b
    ensures a == b
  {
    if a != [] { assert a[0] in b; }
    if b != [] { assert b[0] in a; }
    if a != [] && b != [] {
      assert a[0] == b[0];
      forall t ensures t in a[1..] <==> t in b[1..] {
        assert t in a[1..] ==> t in a && t != a[0];
        assert t in b[1..] ==> t in b && t != b[0];
      }
      IncreasingUnique(a[1..], b[1..]);
      assert a == [a[0]] + a[1..] && b == [b[0]] + b[1..];
    }
  }

  lemma {:induction false} WithoutElements(s: seq<nat>, t: nat)
    requires Increasing(s)
    ensures Increasing(Without(s, t))
    ensures forall u :: u in Without(s, t) <==> u in s && u != t
  {
    if s != [] {
      WithoutElements(s[1..], t);
      assert s == [s[0]] + s[1..];
      var rest := Without(s[1..], t);
      forall i | 0 <= i < |rest| ensures s[0] < rest[i] {
        assert rest[i] in rest && rest[i] in s[1..];
      }
    }
  }

  lemma OutstandingHead<C>(q: Queue<C>)
    requires Settled(q)
    ensures q.next == if Outstanding(q) == [] then q.counter + 1 else Outstanding(q)[0]
  {
    assert q.next in q.active ==> q.next in Outstanding(q);
    if Outstanding(q) != [] {
      assert Outstanding(q)[0] in Outstanding(q);
    }
  }

  lemma TakeAppends<C>(q: Queue<C>)
    requires Settled(q)
    ensures Outstanding(Take(q)) == Outstanding(q) + [q.counter + 1]
  {
    var o, t := Outstanding(q), q.counter + 1;
    assert forall i :: 0 <= i < |o| ==> o[i] in o;
    IncreasingUnique(Outstanding(Take(q)), o + [t]);
  }

  lemma CompleteRemoves<C>(q: Queue<C>, ticket: nat)
    requires Settled(q)
    ensures Outstanding(Complete(q, ticket)) == Without(Outstanding(q), ticket)
  {
    WithoutElements(Outstanding(q), ticket);
    IncreasingUnique(Outstanding(Complete(q, ticket)), Without(Outstanding(q), ticket));
  }

  /**
   The counter, the set and the cursor simulate a first-in first-out queue: a ticket is appended when it is
   taken, leaves from any position when it completes, and is granted when it is the head; the cursor is the head.
   */
  lemma RefinesQueue<C>(q: Queue<C>, ticket: nat, c: C)
    requires Settled(q)
    ensures Outstanding(Take(q)) == Outstanding(q) + [q.counter + 1]
    ensures Outstanding(Complete(q, ticket)) == Without(Outstanding(q), ticket)
    ensures q.next == if Outstanding(q) == [] then q.counter + 1 else Outstanding(q)[0]
    ensures ticket in q.active ==>
              var e := Enter(q, ticket, c);
              && Outstanding(e.queue) == Outstanding(q)
              && (e.Granted? <==> ticket == Outstanding(q)[0])
  {
    TakeAppends(q);
    CompleteRemoves(q, ticket);
    OutstandingHead(q);
    if ticket in q.active {
      GrantedIffFirst(q, ticket, c);
      SettledMeansNothingToSkip(q);
      assert ticket in Outstanding(q);
    }
  }
}
