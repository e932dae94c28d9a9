/**
 * The lottery: tickets numbered 1..n held in a vector (`LotteryVector`, drawn
 * from the back) or a forward list (`LotteryForwardList`, drawn from the
 * front), and a draw that shuffles the tickets, takes up to `numWinners` of
 * them, gives each a prize in [0, 10000] and keeps the winners in a `Stack`
 * (`LotteryDrawStack`) or a `Queue` (`LotteryDrawQueue`) with a prize table by
 * ticket number. The shuffle and the prizes are nondeterministic choices; the
 * prizes, `double` in the program but always drawn from an integer
 * distribution, are integers.
 */
module Lottery {
  import opened Wrappers
  import opened LinkedContainers

  datatype Ticket = Ticket(number: int, prize: int)

  /** The tickets `generateTickets(n)` produces: numbers 1..n in ascending order, prize 0. */
  function TicketRange(n: int): (ts: seq<Ticket>)
    ensures |ts| == if n > 0 then n else 0
  {
    if n <= 0 then [] else TicketRange(n - 1) + [Ticket(n, 0)]
  }

  lemma {:induction false} TicketRangeAt(n: int, i: int)
    requires 0 <= i < n
    ensures TicketRange(n)[i] == Ticket(i + 1, 0)
  {
    if i < n - 1 {
      TicketRangeAt(n - 1, i);
    }
  }

  /** Ticket numbers of a generated range are distinct, so each draws at most one prize. */
  lemma TicketRangeDistinct(n: int)
    ensures DistinctNumbers(TicketRange(n))
  {
    var ts := TicketRange(n);
    forall i, j | 0 <= i < j < |ts|
      ensures ts[i].number != ts[j].number
    {
      TicketRangeAt(n, i);
      TicketRangeAt(n, j);
    }
  }

  predicate DistinctNumbers(ts: seq<Ticket>) {
    forall i, j :: 0 <= i < j < |ts| ==> ts[i].number != ts[j].number
  }

  /** `checkAndGetValue`: the recorded prize of a ticket number, 0 when none is recorded. */
  function PrizeOf(prizes: map<int, int>, number: int): (r: int)
    ensures number !in prizes ==> r == 0
    ensures PrizesInRange(prizes) ==> 0 <= r <= 10000
  {
    if number in prizes then prizes[number] else 0
  }

  /** `setPrize` then `checkAndGetValue`: the number reads back its prize, the others are unchanged. */
  lemma SetThenCheck(prizes: map<int, int>, number: int, prize: int, other: int)
    ensures PrizeOf(prizes[number := prize], number) == prize
    ensures other != number ==> PrizeOf(prizes[number := prize], other) == PrizeOf(prizes, other)
  {
  }

  /** The first index of a ticket with this number (`find_if`), if any. */
  function FindIndex(ts: seq<Ticket>, number: int): (r: Option<nat>)
    ensures r.Some? ==> r.value < |ts| && ts[r.value].number == number &&
                        forall j :: 0 <= j < r.value ==> ts[j].number != number
    ensures r.None? ==> forall j :: 0 <= j < |ts| ==> ts[j].number != number
  {
    if ts == [] then None
    else if ts[0].number == number then Some(0)
    else match FindIndex(ts[1..], number)
      case None => None
      case Some(k) => Some(k + 1)
  }

  /** Every prize in `prizes` is in [0, 10000]. */
  predicate PrizesInRange(prizes: map<int, int>) {
    forall n :: n in prizes ==> 0 <= prizes[n] <= 10000
  }

  predicate InPrizeRange(t: Ticket) {
    0 <= t.prize <= 10000
  }

  /** The prize table after recording each drawn ticket's prize under its number, in draw order. */
  function RecordPrizes(prizes: map<int, int>, drawn: seq<Ticket>): (r: map<int, int>)
    ensures r.Keys == prizes.Keys + set t | t in drawn :: t.number
  {
    if drawn == [] then prizes
    else
      var last := drawn[|drawn| - 1];
      RecordPrizes(prizes, drawn[..|drawn| - 1])[last.number := last.prize]
  }

  /** A drawn ticket whose number is drawn once reads back its own prize; other numbers keep theirs. */
  lemma {:induction false} RecordPrizesLookup(prizes: map<int, int>, drawn: seq<Ticket>, number: int)
    requires DistinctNumbers(drawn)
    ensures forall i :: 0 <= i < |drawn| && drawn[i].number == number ==>
      PrizeOf(RecordPrizes(prizes, drawn), number) == drawn[i].prize
    ensures (forall i :: 0 <= i < |drawn| ==> drawn[i].number != number) ==>
      PrizeOf(RecordPrizes(prizes, drawn), number) == PrizeOf(prizes, number)
  {
    if drawn != [] {
      var init := drawn[..|drawn| - 1];
      assert DistinctNumbers(init);
      RecordPrizesLookup(prizes, init, number);
    }
  }

  /** Recording prizes in [0, 10000] into a table of such prizes keeps every prize in range. */
  lemma {:induction false} RecordPrizesInRange(prizes: map<int, int>, drawn: seq<Ticket>)
    requires PrizesInRange(prizes)
    requires forall j :: 0 <= j < |drawn| ==> InPrizeRange(drawn[j])
    ensures PrizesInRange(RecordPrizes(prizes, drawn))
  {
    if drawn != [] {
      RecordPrizesInRange(prizes, drawn[..|drawn| - 1]);
    }
  }

  function Reverse<T>(s: seq<T>): (r: seq<T>)
    ensures |r| == |s|
  {
    if s == [] then [] else [s[|s| - 1]] + Reverse(s[..|s| - 1])
  }

  /**
   * The draw took the last `|drawn|` tickets of `shuffled`, last first, each
   * with a prize in [0, 10000].
   */
  predicate TakenFromBack(shuffled: seq<Ticket>, drawn: seq<Ticket>) {
    |drawn| <= |shuffled| &&
    forall j :: 0 <= j < |drawn| ==>
      drawn[j] == shuffled[|shuffled| - 1 - j].(prize := drawn[j].prize) && InPrizeRange(drawn[j])
  }

  /** The draw took the first `|drawn|` tickets of `shuffled`, in order, each with a prize in [0, 10000]. */
  predicate TakenFromFront(shuffled: seq<Ticket>, drawn: seq<Ticket>) {
    |drawn| <= |shuffled| &&
    forall j :: 0 <= j < |drawn| ==> drawn[j] == shuffled[j].(prize := drawn[j].prize) && InPrizeRange(drawn[j])
  }

  /** One more draw from the back. */
  lemma TakenFromBackStep(shuffled: seq<Ticket>, drawn: seq<Ticket>, t: Ticket)
    requires TakenFromBack(shuffled, drawn) && |drawn| < |shuffled|
    requires t == shuffled[|shuffled| - 1 - |drawn|].(prize := t.prize) && InPrizeRange(t)
    ensures TakenFromBack(shuffled, drawn + [t])
  {
  }

  /** One more draw from the front. */
  lemma TakenFromFrontStep(shuffled: seq<Ticket>, drawn: seq<Ticket>, t: Ticket)
    requires TakenFromFront(shuffled, drawn) && |drawn| < |shuffled|
    requires t == shuffled[|drawn|].(prize := t.prize) && InPrizeRange(t)
    ensures TakenFromFront(shuffled, drawn + [t])
  {
  }

  /** Recording one more winner updates the table under its number. */
  lemma RecordPrizesStep(prizes: map<int, int>, drawn: seq<Ticket>, t: Ticket)
    ensures RecordPrizes(prizes, drawn + [t]) == RecordPrizes(prizes, drawn)[t.number := t.prize]
  {
    assert (drawn + [t])[..|drawn|] == drawn;
  }

  /** `onto` with `pushed` pushed onto it in order: the last pushed is first. */
  function PushedOnto<T>(onto: seq<T>, pushed: seq<T>): (r: seq<T>)
    ensures |r| == |onto| + |pushed|
  {
    if pushed == [] then onto else [pushed[|pushed| - 1]] + PushedOnto(onto, pushed[..|pushed| - 1])
  }

  /** Pushing onto a stack puts the pushed values, most recent first, in front of what was there. */
  lemma {:induction false} PushedOntoReverse<T>(onto: seq<T>, pushed: seq<T>)
    ensures PushedOnto(onto, pushed) == Reverse(pushed) + onto
  {
    if pushed != [] {
      var init := pushed[..|pushed| - 1];
      PushedOntoReverse(onto, init);
      assert ([pushed[|pushed| - 1]] + Reverse(init)) + onto == [pushed[|pushed| - 1]] + (Reverse(init) + onto);
    }
  }

  /** A value occurring at least twice sits at two different positions. */
  lemma {:induction false} TwiceAtTwo<T>(s: seq<T>, x: T) returns (p: nat, q: nat)
    requires multiset(s)[x] >= 2
    ensures p < q < |s| && s[p] == x && s[q] == x
  {
    assert s == [s[0]] + s[1..];
    if s[0] == x {
      assert x in multiset(s[1..]);
      var k :| 0 <= k < |s[1..]| && s[1..][k] == x;
      p, q := 0, k + 1;
    } else {
      var p', q' := TwiceAtTwo(s[1..], x);
      p, q := p' + 1, q' + 1;
    }
  }

  /** Shuffling keeps ticket numbers distinct. */
  lemma PermutationKeepsDistinct(a: seq<Ticket>, b: seq<Ticket>)
    requires multiset(a) == multiset(b) && DistinctNumbers(a)
    ensures DistinctNumbers(b)
  {
    forall i, j | 0 <= i < j < |b|
      ensures b[i].number != b[j].number
    {
      if b[i] == b[j] {
        assert b == b[..j] + b[j..];
        assert b[i] == b[..j][i];
        assert b[j] == b[j..][0];
        assert multiset(b)[b[i]] == multiset(b[..j])[b[i]] + multiset(b[j..])[b[i]];
        var p, q := TwiceAtTwo(a, b[i]);
      } else {
        assert b[i] in multiset(a) && b[j] in multiset(a);
        var p :| 0 <= p < |a| && a[p] == b[i];
        var q :| 0 <= q < |a| && a[q] == b[j];
      }
    }
  }

  /**
   * A draw from a shuffle of tickets 1..n: the winners have distinct numbers
   * in 1..n, and each winner's number reads back its own prize.
   */
  lemma DrawFromRange(n: int, shuffled: seq<Ticket>, drawn: seq<Ticket>, back: bool, prizes: map<int, int>)
    requires multiset(shuffled) == multiset(TicketRange(n))
    requires if back then TakenFromBack(shuffled, drawn) else TakenFromFront(shuffled, drawn)
    ensures DistinctNumbers(drawn)
    ensures forall i :: 0 <= i < |drawn| ==> 1 <= drawn[i].number <= n
    ensures forall i :: 0 <= i < |drawn| ==> PrizeOf(RecordPrizes(prizes, drawn), drawn[i].number) == drawn[i].prize
  {
    TicketRangeDistinct(n);
    PermutationKeepsDistinct(TicketRange(n), shuffled);
    forall i | 0 <= i < |drawn|
      ensures 1 <= drawn[i].number <= n
    {
      var k := if back then |shuffled| - 1 - i else i;
      assert drawn[i].number == shuffled[k].number;
      assert shuffled[k] in multiset(TicketRange(n));
      var m :| 0 <= m < |TicketRange(n)| && TicketRange(n)[m] == shuffled[k];
      TicketRangeAt(n, m);
    }
    forall i, j | 0 <= i < j < |drawn|
      ensures drawn[i].number != drawn[j].number
    {
      if back {
        assert drawn[i].number == shuffled[|shuffled| - 1 - i].number;
        assert drawn[j].number == shuffled[|shuffled| - 1 - j].number;
      } else {
        assert drawn[i].number == shuffled[i].number;
        assert drawn[j].number == shuffled[j].number;
      }
    }
    forall i | 0 <= i < |drawn|
      ensures PrizeOf(RecordPrizes(prizes, drawn), drawn[i].number) == drawn[i].prize
    {
      RecordPrizesLookup(prizes, drawn, drawn[i].number);
    }
  }

  /** The lottery over a `std::vector<Ticket>`: tickets leave from the back. */
  class LotteryVector {
    var tickets: seq<Ticket>
    var prizes: map<int, int>

    constructor ()
      ensures tickets == [] && prizes == map[]
    {
      tickets := [];
      prizes := map[];
    }

    /** `generateTickets`: clear, then append tickets 1..n. */
    method GenerateTickets(numTickets: int)
      modifies this
      ensures tickets == TicketRange(numTickets) && prizes == old(prizes)
    {
      tickets := [];
      var i := 1;
      while i <= numTickets
        invariant 1 <= i && (numTickets >= 1 ==> i <= numTickets + 1) && (numTickets < 1 ==> i == 1)
        invariant tickets == TicketRange(i - 1) && prizes == old(prizes)
      {
        tickets := tickets + [Ticket(i, 0)];
        i := i + 1;
      }
      if numTickets < 1 {
        assert TicketRange(numTickets) == [];
      }
    }

    /** `shuffleTickets`: some permutation of the tickets. */
    method ShuffleTickets()
      modifies this
      ensures multiset(tickets) == multiset(old(tickets)) && prizes == old(prizes)
    {
      var shuffled :| multiset(shuffled) == multiset(tickets);
      tickets := shuffled;
    }

    /** `getRandomTicket`: remove and return the last ticket. */
    method GetRandomTicket() returns (t: Ticket)
      requires tickets != []
      modifies this
      ensures t == old(tickets)[|old(tickets)| - 1]
      ensures tickets == old(tickets)[..|old(tickets)| - 1] && prizes == old(prizes)
    {
      t := tickets[|tickets| - 1];
      tickets := tickets[..|tickets| - 1];
    }

    /** `findTicket`: the position of the first ticket with this number, if any. */
    function FindTicket(number: int): (r: Option<nat>)
      reads this
      ensures r.Some? ==> r.value < |tickets| && tickets[r.value].number == number &&
                          forall j :: 0 <= j < r.value ==> tickets[j].number != number
      ensures r.None? <==> forall j :: 0 <= j < |tickets| ==> tickets[j].number != number
    {
      FindIndex(tickets, number)
    }

    /** `checkAndGetValue`: the prize recorded for the ticket's number, 0 when it took no part in a draw. */
    function CheckAndGetValue(t: Ticket): (r: int)
      reads this
      ensures t.number in prizes ==> r == prizes[t.number]
      ensures t.number !in prizes ==> r == 0
    {
      PrizeOf(prizes, t.number)
    }

    method SetPrize(t: Ticket, prize: int)
      modifies this
      ensures prizes == old(prizes)[t.number := prize] && tickets == old(tickets)
    {
      prizes := prizes[t.number := prize];
    }

    /** `hasTickets`: some ticket number can still be found. */
    predicate HasTickets()
      reads this
      ensures HasTickets() <==> exists n :: FindTicket(n).Some?
    {
      assert tickets != [] ==> FindTicket(tickets[0].number).Some?;
      tickets != []
    }
  }

  /** The lottery over a `std::forward_list<Ticket>`: tickets leave from the front. */
  class LotteryForwardList {
    var tickets: seq<Ticket>
    var prizes: map<int, int>

    constructor ()
      ensures tickets == [] && prizes == map[]
    {
      tickets := [];
      prizes := map[];
    }

    /** `generateTickets`: clear, then prepend tickets n, n-1, ..., 1. */
    method GenerateTickets(numTickets: int)
      modifies this
      ensures tickets == TicketRange(numTickets) && prizes == old(prizes)
    {
      tickets := [];
      var i := numTickets;
      while i >= 1
        invariant (numTickets >= 0 ==> 0 <= i <= numTickets) && (numTickets < 0 ==> i == numTickets)
        invariant |tickets| == if i >= 0 then numTickets - i else 0
        invariant forall j :: 0 <= j < |tickets| ==> tickets[j] == Ticket(i + 1 + j, 0)
        invariant prizes == old(prizes)
      {
        tickets := [Ticket(i, 0)] + tickets;
        i := i - 1;
      }
      var expected := TicketRange(numTickets);
      forall j | 0 <= j < |tickets|
        ensures tickets[j] == expected[j]
      {
        TicketRangeAt(numTickets, j);
      }
    }

    /** `shuffleTickets`: copied to a vector, shuffled, copied back: some permutation. */
    method ShuffleTickets()
      modifies this
      ensures multiset(tickets) == multiset(old(tickets)) && prizes == old(prizes)
    {
      var shuffled :| multiset(shuffled) == multiset(tickets);
      tickets := shuffled;
    }

    /** `getRandomTicket`: remove and return the first ticket. */
    method GetRandomTicket() returns (t: Ticket)
      requires tickets != []
      modifies this
      ensures t == old(tickets)[0]
      ensures tickets == old(tickets)[1..] && prizes == old(prizes)
    {
      t := tickets[0];
      tickets := tickets[1..];
    }

    /** `findTicket`: the position of the first ticket with this number, if any. */
    function FindTicket(number: int): (r: Option<nat>)
      reads this
      ensures r.Some? ==> r.value < |tickets| && tickets[r.value].number == number &&
                          forall j :: 0 <= j < r.value ==> tickets[j].number != number
      ensures r.None? <==> forall j :: 0 <= j < |tickets| ==> tickets[j].number != number
    {
      FindIndex(tickets, number)
    }

    /** `checkAndGetValue`: the prize recorded for the ticket's number, 0 when it took no part in a draw. */
    function CheckAndGetValue(t: Ticket): (r: int)
      reads this
      ensures t.number in prizes ==> r == prizes[t.number]
      ensures t.number !in prizes ==> r == 0
    {
      PrizeOf(prizes, t.number)
    }

    method SetPrize(t: Ticket, prize: int)
      modifies this
      ensures prizes == old(prizes)[t.number := prize] && tickets == old(tickets)
    {
      prizes := prizes[t.number := prize];
    }

    /** `hasTickets`: some ticket number can still be found. */
    predicate HasTickets()
      reads this
      ensures HasTickets() <==> exists n :: FindTicket(n).Some?
    {
      assert tickets != [] ==> FindTicket(tickets[0].number).Some?;
      tickets != []
    }
  }

  /** A ticket sequence in non-increasing prize order. */
  predicate SortedByPrize(ts: seq<Ticket>) {
    forall i, j :: 0 <= i < j < |ts| ==> ts[i].prize >= ts[j].prize
  }

  /** Each ticket's prize is at least its successor's. */
  predicate AdjacentSorted(ts: seq<Ticket>) {
    forall i :: 0 <= i < |ts| - 1 ==> ts[i].prize >= ts[i + 1].prize
  }

  /** Adjacent order is the whole order: every earlier prize is at least every later one. */
  lemma {:induction false} AdjacentSortedIsSorted(ts: seq<Ticket>)
    requires AdjacentSorted(ts)
    ensures SortedByPrize(ts)
  {
    if |ts| > 1 {
      AdjacentSortedIsSorted(ts[1..]);
      forall j | 0 < j < |ts|
        ensures ts[0].prize >= ts[j].prize
      {
        assert ts[1..][0].prize >= ts[1..][j - 1].prize || j == 1;
      }
    }
  }

  /** Insert `t` before the first ticket with a prize not above its own. */
  function InsertByPrize(t: Ticket, sorted: seq<Ticket>): (r: seq<Ticket>)
    requires AdjacentSorted(sorted)
    ensures AdjacentSorted(r)
    ensures multiset(r) == multiset(sorted) + multiset{t}
    ensures |r| == |sorted| + 1 && (r[0] == t || (sorted != [] && r[0] == sorted[0]))
  {
    if sorted == [] then [t]
    else if t.prize >= sorted[0].prize then [t] + sorted
    else
      assert sorted == [sorted[0]] + sorted[1..];
      [sorted[0]] + InsertByPrize(t, sorted[1..])
  }

  /**
   * The order `std::sort` with `a.getPrize() > b.getPrize()` leaves the
   * winners in: non-increasing prize, a permutation of its input (`std::sort`
   * is not stable, so ties may come out in any order; this is one of them).
   */
  function SortByPrize(ts: seq<Ticket>): (r: seq<Ticket>)
    ensures AdjacentSorted(r)
    ensures multiset(r) == multiset(ts)
  {
    if ts == [] then []
    else
      assert ts == [ts[0]] + ts[1..];
      InsertByPrize(ts[0], SortByPrize(ts[1..]))
  }

  /** The draw into a stack of winners, from a `LotteryVector`. */
  class LotteryDrawStack {
    var winningTickets: Stack<Ticket>
    var prizes: map<int, int>

    ghost predicate Valid()
      reads this, winningTickets, winningTickets.Repr
    {
      winningTickets.Valid()
    }

    constructor ()
      ensures Valid() && fresh(winningTickets)
      ensures winningTickets.contents == [] && prizes == map[]
    {
      winningTickets := new Stack();
      prizes := map[];
    }

    /**
     * `conductDraw`: shuffle, then while fewer than `numWinners` are drawn and
     * tickets remain, take the last ticket, give it a prize in [0, 10000], push
     * it and record its prize under its number. `shuffled` is the shuffle's
     * outcome and `drawn` the winners in draw order.
     */
    method ConductDraw(lottery: LotteryVector, numWinners: int)
      returns (ghost shuffled: seq<Ticket>, ghost drawn: seq<Ticket>)
      requires Valid()
      modifies this, winningTickets, lottery
      ensures Valid() && winningTickets == old(winningTickets)
      ensures multiset(shuffled) == multiset(old(lottery.tickets))
      ensures |drawn| == if numWinners <= 0 then 0 else if numWinners <= |shuffled| then numWinners else |shuffled|
      ensures TakenFromBack(shuffled, drawn)
      ensures lottery.tickets == shuffled[..|shuffled| - |drawn|] && lottery.prizes == old(lottery.prizes)
      ensures winningTickets.contents == PushedOnto(old(winningTickets.contents), drawn)
      ensures prizes == RecordPrizes(old(prizes), drawn)
    {
      lottery.ShuffleTickets();
      shuffled := lottery.tickets;
      drawn := [];
      var i := 0;
      while i < numWinners && lottery.HasTickets()
        invariant i == |drawn| <= |shuffled| && (i == 0 || i <= numWinners)
        invariant TakenFromBack(shuffled, drawn)
        invariant lottery.tickets == shuffled[..|shuffled| - i] && lottery.prizes == old(lottery.prizes)
        invariant Valid() && winningTickets == old(winningTickets)
        invariant winningTickets.contents == PushedOnto(old(winningTickets.contents), drawn)
        invariant prizes == RecordPrizes(old(prizes), drawn)
      {
        var ticket := DrawOne(lottery);
        TakenFromBackStep(shuffled, drawn, ticket);
        assert (drawn + [ticket])[..|drawn|] == drawn;
        RecordPrizesStep(old(prizes), drawn, ticket);
        drawn := drawn + [ticket];
        i := i + 1;
      }
    }

    /**
     * One pass of the draw loop: take the last ticket, give it a prize in
     * [0, 10000], record the prize under its number and push the ticket.
     */
    method DrawOne(lottery: LotteryVector) returns (ticket: Ticket)
      requires Valid() && lottery.tickets != []
      modifies this, winningTickets, lottery
      ensures Valid() && winningTickets == old(winningTickets)
      ensures ticket == old(lottery.tickets)[|old(lottery.tickets)| - 1].(prize := ticket.prize)
      ensures InPrizeRange(ticket)
      ensures lottery.tickets == old(lottery.tickets)[..|old(lottery.tickets)| - 1]
      ensures lottery.prizes == old(lottery.prizes)
      ensures winningTickets.contents == [ticket] + old(winningTickets.contents)
      ensures prizes == old(prizes)[ticket.number := ticket.prize]
    {
      ticket := lottery.GetRandomTicket();
      var prize :| 0 <= prize <= 10000;
      ticket := ticket.(prize := prize);
      prizes := prizes[ticket.number := prize];
      winningTickets.Push(ticket);
    }

    /**
     * `printWinningTickets`, without the printing: pop every winner (the copy
     * of the stack shares its nodes, so this consumes them) and sort by prize,
     * highest first.
     */
    method WinningTickets() returns (sorted: seq<Ticket>)
      requires Valid()
      modifies winningTickets
      ensures Valid() && winningTickets.contents == []
      ensures multiset(sorted) == multiset(old(winningTickets.contents))
      ensures SortedByPrize(sorted)
    {
      var popped: seq<Ticket> := [];
      while !winningTickets.IsEmpty()
        invariant winningTickets.Valid()
        invariant popped + winningTickets.contents == old(winningTickets.contents)
        decreases |winningTickets.contents|
      {
        var t := winningTickets.Pop();
        popped := popped + [t.value];
      }
      sorted := SortByPrize(popped);
      AdjacentSortedIsSorted(sorted);
    }

    /** `checkAndGetValue`: a winner's prize, 0 for any other number. */
    function CheckAndGetValue(ticketNumber: int): (r: int)
      reads this
      ensures ticketNumber in prizes ==> r == prizes[ticketNumber]
      ensures ticketNumber !in prizes ==> r == 0
    {
      PrizeOf(prizes, ticketNumber)
    }
  }

  /** The draw into a queue of winners, from a `LotteryForwardList`. */
  class LotteryDrawQueue {
    var winningTickets: Queue<Ticket>
    var prizes: map<int, int>

    ghost predicate Valid()
      reads this, winningTickets, winningTickets.Repr
    {
      winningTickets.Valid()
    }

    constructor ()
      ensures Valid() && fresh(winningTickets)
      ensures winningTickets.contents == [] && prizes == map[]
    {
      winningTickets := new Queue();
      prizes := map[];
    }

    /**
     * `conductDraw`: as for the stack, but tickets leave the forward list from
     * the front and the winners are enqueued.
     */
    method ConductDraw(lottery: LotteryForwardList, numWinners: int)
      returns (ghost shuffled: seq<Ticket>, ghost drawn: seq<Ticket>)
      requires Valid()
      modifies this, winningTickets, lottery, winningTickets.Repr
      ensures Valid() && winningTickets == old(winningTickets)
      ensures multiset(shuffled) == multiset(old(lottery.tickets))
      ensures |drawn| == if numWinners <= 0 then 0 else if numWinners <= |shuffled| then numWinners else |shuffled|
      ensures TakenFromFront(shuffled, drawn)
      ensures lottery.tickets == shuffled[|drawn|..] && lottery.prizes == old(lottery.prizes)
      ensures winningTickets.contents == old(winningTickets.contents) + drawn
      ensures prizes == RecordPrizes(old(prizes), drawn)
    {
      lottery.ShuffleTickets();
      shuffled := lottery.tickets;
      drawn := [];
      ghost var queued := winningTickets.contents;
      var i := 0;
      while i < numWinners && lottery.HasTickets()
        invariant i == |drawn| <= |shuffled| && (i == 0 || i <= numWinners)
        invariant TakenFromFront(shuffled, drawn)
        invariant lottery.tickets == shuffled[i..] && lottery.prizes == old(lottery.prizes)
        invariant Valid() && winningTickets == old(winningTickets)
        invariant winningTickets.contents == queued + drawn
        invariant old(winningTickets.Repr) <= winningTickets.Repr && fresh(winningTickets.Repr - old(winningTickets.Repr))
        invariant prizes == RecordPrizes(old(prizes), drawn)
      {
        var ticket := DrawOne(lottery);
        TakenFromFrontStep(shuffled, drawn, ticket);
        assert (queued + drawn) + [ticket] == queued + (drawn + [ticket]);
        RecordPrizesStep(old(prizes), drawn, ticket);
        drawn := drawn + [ticket];
        i := i + 1;
      }
    }

    /**
     * One pass of the draw loop: take the first ticket, give it a prize in
     * [0, 10000], record the prize under its number and enqueue the ticket.
     */
    method DrawOne(lottery: LotteryForwardList) returns (ticket: Ticket)
      requires Valid() && lottery.tickets != []
      modifies this, winningTickets, lottery, winningTickets.Repr
      ensures Valid() && winningTickets == old(winningTickets)
      ensures ticket == old(lottery.tickets)[0].(prize := ticket.prize)
      ensures InPrizeRange(ticket)
      ensures lottery.tickets == old(lottery.tickets)[1..] && lottery.prizes == old(lottery.prizes)
      ensures winningTickets.contents == old(winningTickets.contents) + [ticket]
      ensures old(winningTickets.Repr) <= winningTickets.Repr && fresh(winningTickets.Repr - old(winningTickets.Repr))
      ensures prizes == old(prizes)[ticket.number := ticket.prize]
    {
      ticket := lottery.GetRandomTicket();
      var prize :| 0 <= prize <= 10000;
      ticket := ticket.(prize := prize);
      prizes := prizes[ticket.number := prize];
      winningTickets.Enqueue(ticket);
    }

    /** `printWinningTickets`, without the printing: dequeue every winner and sort by prize. */
    method WinningTickets() returns (sorted: seq<Ticket>)
      requires Valid()
      modifies winningTickets
      ensures Valid() && winningTickets.contents == []
      ensures multiset(sorted) == multiset(old(winningTickets.contents))
      ensures SortedByPrize(sorted)
    {
      var dequeued: seq<Ticket> := [];
      while !winningTickets.IsEmpty()
        invariant winningTickets.Valid()
        invariant dequeued + winningTickets.contents == old(winningTickets.contents)
        decreases |winningTickets.contents|
      {
        var t := winningTickets.Dequeue();
        dequeued := dequeued + [t.value];
      }
      sorted := SortByPrize(dequeued);
      AdjacentSortedIsSorted(sorted);
    }

    /** `checkAndGetValue`: the prize recorded for the number, 0 when it did not win. */
    function CheckAndGetValue(ticketNumber: int): (r: int)
      reads this
      ensures ticketNumber in prizes ==> r == prizes[ticketNumber]
      ensures ticketNumber !in prizes ==> r == 0
    {
      PrizeOf(prizes, ticketNumber)
    }
  }
}
