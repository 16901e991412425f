/** The alert queue together with the books kept about it: where every admitted alert went, and what each
queued group stands for. */
module AlertStock {
  import opened Common
  import opened AlertModel
  import opened AlertQueueSpec

  datatype Fate = Evicted | Expired | Cleared | Played

  /** An alert leaving the queue: the ticket it was admitted under, and why it left. */
  datatype Departure = Departure(ticket: nat, fate: Fate)

  /** The queue, the departures from it, and for every ticket the source events merged under it. */
  datatype Stock = Stock(items: seq<Item>, next: nat, left: seq<Departure>, members: seq<seq<Member>>)

  const EMPTY_STOCK := Stock([], 0, [], [])

  function Departing(items: seq<Item>, fate: Fate): seq<Departure> {
    seq(|items|, i requires 0 <= i < |items| => Departure(items[i].ticket, fate))
  }

  function Admit(st: Stock, maxItems: int, inst: Instance, now: int): Stock {
    var o := Offer(st.items, st.next, maxItems, inst);
    Stock(o.items, o.next,
          st.left + (if o.evicted.Some? then Departing([o.evicted.value], Evicted) else []),
          if o.accepted then st.members + [[Member(inst, now)]] else st.members)
  }

  function Take(st: Stock, maxAge: int, now: int): Stock {
    var r := PopNext(st.items, maxAge, now);
    st.(items := r.rest,
        left := st.left + Departing(r.expired, Expired) + (if r.item.Some? then Departing([r.item.value], Played) else []))
  }

  function Empty(st: Stock): Stock {
    st.(items := [], left := st.left + Departing(st.items, Cleared))
  }

  function MergeInto(st: Stock, i: nat, candidate: Instance, now: int): Stock
    requires i < |st.items|
  {
    var t := st.items[i].ticket;
    st.(items := st.items[i := Item(Merge(st.items[i].inst, candidate), t)],
        members := if t < |st.members| then st.members[t := st.members[t] + [Member(candidate, now)]] else st.members)
  }

  // ----- every admitted alert is in exactly one place -----

  function Tickets(items: seq<Item>): seq<nat> {
    seq(|items|, i requires 0 <= i < |items| => items[i].ticket)
  }

  function Gone(left: seq<Departure>): seq<nat> {
    seq(|left|, i requires 0 <= i < |left| => left[i].ticket)
  }

  function Below(n: nat): seq<nat> {
    seq(n, i => i)
  }

  /** The tickets in the queue and those that left are together all the tickets given out, each once. */
  ghost predicate Conserved(st: Stock) {
    multiset(Tickets(st.items)) + multiset(Gone(st.left)) == multiset(Below(st.next))
  }

  lemma {:induction false} GoneAppend(left: seq<Departure>, items: seq<Item>, fate: Fate)
    ensures multiset(Gone(left + Departing(items, fate))) == multiset(Gone(left)) + multiset(Tickets(items))
  {
    assert Gone(left + Departing(items, fate)) == Gone(left) + Tickets(items);
  }

  lemma TicketsAppend(items: seq<Item>, it: Item)
    ensures multiset(Tickets(items + [it])) == multiset(Tickets(items)) + multiset{it.ticket}
  {
    assert Tickets(items + [it]) == Tickets(items) + [it.ticket];
  }

  lemma TicketsRemove(items: seq<Item>, i: nat)
    requires i < |items|
    ensures multiset(Tickets(RemoveAt(items, i))) + multiset{items[i].ticket} == multiset(Tickets(items))
  {
    assert Tickets(RemoveAt(items, i)) == RemoveAt(Tickets(items), i);
    assert Tickets(items) == Tickets(items)[..i] + [items[i].ticket] + Tickets(items)[i + 1..];
  }

  lemma TicketsCons(it: Item, items: seq<Item>)
    ensures multiset(Tickets([it] + items)) == multiset{it.ticket} + multiset(Tickets(items))
  {
    assert Tickets([it] + items) == [it.ticket] + Tickets(items);
  }

  lemma TicketsOne(it: Item)
    ensures Tickets([it]) == [it.ticket]
  {
  }

  lemma BelowNext(n: nat)
    ensures multiset(Below(n + 1)) == multiset(Below(n)) + multiset{n}
  {
    assert Below(n + 1) == Below(n) + [n];
  }

  /** Where item w gives way to `it`, its ticket moves from the queue to the departures. */
  lemma {:induction false} ReplacedTickets(items: seq<Item>, w: nat, it: Item, left: seq<Departure>)
    requires w < |items|
    ensures multiset(Tickets(RemoveAt(items, w) + [it])) + multiset(Gone(left + Departing([items[w]], Evicted)))
         == multiset(Tickets(items)) + multiset(Gone(left)) + multiset{it.ticket}
  {
    TicketsRemove(items, w);
    TicketsAppend(RemoveAt(items, w), it);
    GoneAppend(left, [items[w]], Evicted);
    TicketsOne(items[w]);
  }

  lemma {:induction false} AdmitConserves(st: Stock, maxItems: int, inst: Instance, now: int)
    requires Conserved(st)
    ensures Conserved(Admit(st, maxItems, inst, now))
  {
    var o := Offer(st.items, st.next, maxItems, inst);
    var it := Item(inst, st.next);
    BelowNext(st.next);
    if o.evicted.Some? {
      ReplacedTickets(st.items, Pick(st.items, EvictedBefore), it, st.left);
    } else {
      TicketsAppend(st.items, it);
      assert st.left + [] == st.left;
    }
  }

  lemma {:induction false} PopConserves(items: seq<Item>, maxAge: int, now: int)
    ensures var r := PopNext(items, maxAge, now);
            multiset(Tickets(items)) == multiset(Tickets(r.expired)) +
              (if r.item.Some? then multiset{r.item.value.ticket} else multiset{}) + multiset(Tickets(r.rest))
    decreases |items|
  {
    if items != [] {
      var p := Pick(items, PlaysBefore);
      var rest := RemoveAt(items, p);
      TicketsRemove(items, p);
      if Stale(items[p], maxAge, now) {
        var later := PopNext(rest, maxAge, now);
        PopConserves(rest, maxAge, now);
        TicketsCons(items[p], later.expired);
      }
    }
  }

  lemma {:induction false} TakeConserves(st: Stock, maxAge: int, now: int)
    requires Conserved(st)
    ensures Conserved(Take(st, maxAge, now))
  {
    var r := PopNext(st.items, maxAge, now);
    PopConserves(st.items, maxAge, now);
    GoneAppend(st.left, r.expired, Expired);
    var left := st.left + Departing(r.expired, Expired);
    if r.item.Some? {
      GoneAppend(left, [r.item.value], Played);
      TicketsOne(r.item.value);
    } else {
      assert left + [] == left;
    }
  }

  lemma {:induction false} EmptyConserves(st: Stock)
    requires Conserved(st)
    ensures Conserved(Empty(st))
  {
    GoneAppend(st.left, st.items, Cleared);
    assert Tickets([]) == [];
  }

  lemma {:induction false} MergeConserves(st: Stock, i: nat, candidate: Instance, now: int)
    requires Conserved(st) && i < |st.items|
    ensures Conserved(MergeInto(st, i, candidate, now))
  {
    assert Tickets(MergeInto(st, i, candidate, now).items) == Tickets(st.items);
  }

  // ----- every queued group is the faithful aggregate of its members -----

  ghost predicate Grouped(st: Stock) {
    && Ticketed(st.items, st.next) && |st.members| == st.next
    && forall it | it in st.items :: it.ticket < |st.members| && Represents(it.inst, st.members[it.ticket])
  }

  ghost predicate Proper(inst: Instance) {
    inst.groupCount == 1 && NonNegative(inst)
  }

  lemma {:induction false} AdmitGroups(st: Stock, maxItems: int, inst: Instance, now: int)
    requires Grouped(st) && Proper(inst)
    ensures Grouped(Admit(st, maxItems, inst, now))
  {
    TicketedOffer(st.items, st.next, maxItems, inst);
    FounderRepresents(inst, now);
    var after := Admit(st, maxItems, inst, now);
    forall it | it in after.items ensures it.ticket < |after.members| && Represents(it.inst, after.members[it.ticket]) {
      assert it == Item(inst, st.next) || it in st.items;
    }
  }

  lemma {:induction false} PopKeepsItems(items: seq<Item>, maxAge: int, now: int, it: Item)
    ensures var r := PopNext(items, maxAge, now);
            (it in r.rest ==> it in items) && (r.item == Some(it) ==> it in items)
    decreases |items|
  {
    if items != [] {
      PopKeepsItems(RemoveAt(items, Pick(items, PlaysBefore)), maxAge, now, it);
    }
  }

  lemma {:induction false} TakeGroups(st: Stock, maxAge: int, now: int)
    requires Grouped(st)
    ensures Grouped(Take(st, maxAge, now))
  {
    TicketedPop(st.items, st.next, maxAge, now);
    forall it | it in PopNext(st.items, maxAge, now).rest
      ensures it.ticket < |st.members| && Represents(it.inst, st.members[it.ticket])
    {
      PopKeepsItems(st.items, maxAge, now, it);
    }
  }

  lemma {:induction false} MergeGroups(st: Stock, i: nat, candidate: Instance, now: int)
    requires Grouped(st) && i < |st.items| && Proper(candidate) && GroupingEligible(candidate)
    requires Joinable(st.items[i], KeyOf(candidate), now)
    ensures Grouped(MergeInto(st, i, candidate, now))
  {
    var it, after := st.items[i], MergeInto(st, i, candidate, now);
    MergeRepresents(it.inst, st.members[it.ticket], candidate, now);
    TicketedUpdate(st.items, st.next, i, Merge(it.inst, candidate));
    forall x | x in after.items ensures x.ticket < |after.members| && Represents(x.inst, after.members[x.ticket]) {
      if x != after.items[i] {
        assert x in st.items;
        if x.ticket == it.ticket {
          OtherTicketsDiffer(st.items, st.next, i, after.items[i].inst, x);
        }
      }
    }
  }

  /** Replacing the item at i leaves no other item with its ticket. */
  lemma {:induction false} OtherTicketsDiffer(items: seq<Item>, next: nat, i: nat, inst: Instance, x: Item)
    requires Ticketed(items, next) && i < |items|
    requires x in items[i := Item(inst, items[i].ticket)] && x.ticket == items[i].ticket
    ensures x == Item(inst, items[i].ticket)
  {
    var now := items[i := Item(inst, items[i].ticket)];
    TicketedUpdate(items, next, i, inst);
    assert now[i] in now;
    TicketIdentifies(now, next, x, now[i]);
  }
}
