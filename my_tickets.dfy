/**
 * The client's "my tickets" page: the fetched tickets are grouped per event,
 * the groups are ordered with upcoming events first, a search box filters
 * them by event name or location, and dates are printed as DD/MM/YYYY and
 * HH:MM. Event dates are timestamps (ints); `now` is a parameter.
 */
module MyTickets {
  import opened Wrappers
  import opened JsText

  datatype Event = Event(id: int, name: string, date: int, location: string, description: Option<string>)

  datatype Ticket = Ticket(id: int, eventId: int, purchaseDate: string, buyerId: int, event: Event)

  datatype GroupedTickets = GroupedTickets(event: Event, quantity: int, tickets: seq<Ticket>, isPastEvent: bool)

  // ------------------------------------------------------------ sequences

  predicate Distinct<T(==)>(s: seq<T>) { forall i, j :: 0 <= i < j < |s| ==> s[i] != s[j] }

  /** `a` is `b` with some elements left out, the rest kept in order. */
  predicate IsSubsequence<T(==)>(a: seq<T>, b: seq<T>)
    decreases |b|
  {
    a == [] || (b != [] && ((a[0] == b[0] && IsSubsequence(a[1..], b[1..])) || IsSubsequence(a, b[1..])))
  }

  lemma {:induction false} SubsequenceRefl<T>(a: seq<T>)
    ensures IsSubsequence(a, a)
    decreases |a|
  {
    if a != [] {
      SubsequenceRefl(a[1..]);
    }
  }

  lemma {:induction false} SubsequenceAppendRight<T>(a: seq<T>, b: seq<T>, x: T)
    requires IsSubsequence(a, b)
    ensures IsSubsequence(a, b + [x])
    decreases |b|
  {
    if a != [] {
      assert (b + [x])[0] == b[0] && (b + [x])[1..] == b[1..] + [x];
      if a[0] == b[0] && IsSubsequence(a[1..], b[1..]) {
        SubsequenceAppendRight(a[1..], b[1..], x);
      } else {
        SubsequenceAppendRight(a, b[1..], x);
      }
    }
  }

  lemma {:induction false} SubsequenceOfLast<T>(b: seq<T>, x: T)
    ensures IsSubsequence([x], b + [x])
    decreases |b|
  {
    if b == [] {
      assert [x][1..] == [];
      assert b + [x] == [x];
    } else {
      assert (b + [x])[1..] == b[1..] + [x];
      SubsequenceOfLast(b[1..], x);
    }
  }

  lemma {:induction false} SubsequenceAppendBoth<T>(a: seq<T>, b: seq<T>, x: T)
    requires IsSubsequence(a, b)
    ensures IsSubsequence(a + [x], b + [x])
    decreases |b|
  {
    if a == [] {
      assert a + [x] == [x];
      SubsequenceOfLast(b, x);
    } else {
      assert (b + [x])[0] == b[0] && (b + [x])[1..] == b[1..] + [x];
      assert (a + [x])[0] == a[0] && (a + [x])[1..] == a[1..] + [x];
      if a[0] == b[0] && IsSubsequence(a[1..], b[1..]) {
        SubsequenceAppendBoth(a[1..], b[1..], x);
      } else {
        SubsequenceAppendBoth(a, b[1..], x);
      }
    }
  }

  // ------------------------------------------------------------- grouping

  /** The distinct event ids among the tickets. */
  function EventIds(data: seq<Ticket>): (r: set<int>)
  {
    if data == [] then {} else EventIds(data[..|data| - 1]) + {data[|data| - 1].eventId}
  }

  /** The tickets of `data` whose eventId is `k`, in input order. */
  function TicketsFor(data: seq<Ticket>, k: int): (r: seq<Ticket>)
    ensures |r| <= |data|
  {
    if data == [] then []
    else TicketsFor(data[..|data| - 1], k) + (if data[|data| - 1].eventId == k then [data[|data| - 1]] else [])
  }

  lemma TicketsForAppend(before: seq<Ticket>, t: Ticket, k: int)
    ensures TicketsFor(before + [t], k) == TicketsFor(before, k) + (if t.eventId == k then [t] else [])
  {
    assert (before + [t])[..|before|] == before;
  }

  lemma EventIdsAppend(before: seq<Ticket>, t: Ticket)
    ensures EventIds(before + [t]) == EventIds(before) + {t.eventId}
  {
    assert (before + [t])[..|before|] == before;
  }

  /** An id is in EventIds exactly when some ticket carries it. */
  lemma {:induction false} EventIdsMembers(data: seq<Ticket>)
    ensures forall k :: k in EventIds(data) <==> exists t :: t in data && t.eventId == k
  {
    if data != [] {
      var init, last := data[..|data| - 1], data[|data| - 1];
      assert data == init + [last];
      EventIdsMembers(init);
      forall k ensures k in EventIds(data) <==> exists t :: t in data && t.eventId == k {
        if k in EventIds(init) {
          var t :| t in init && t.eventId == k;
          assert t in data;
        }
        if exists t :: t in data && t.eventId == k {
          var t :| t in data && t.eventId == k;
          if t != last {
            assert t in init;
          }
        }
      }
    }
  }

  /** The tickets TicketsFor selects are exactly those of `data` with eventId `k`. */
  lemma {:induction false} TicketsForMembers(data: seq<Ticket>, k: int)
    ensures forall t :: t in TicketsFor(data, k) <==> t in data && t.eventId == k
  {
    if data != [] {
      var init, last := data[..|data| - 1], data[|data| - 1];
      assert data == init + [last];
      TicketsForMembers(init, k);
    }
  }

  lemma {:induction false} TicketsForNonEmpty(data: seq<Ticket>, k: int)
    ensures TicketsFor(data, k) != [] <==> k in EventIds(data)
  {
    if data != [] {
      var init, last := data[..|data| - 1], data[|data| - 1];
      TicketsForNonEmpty(init, k);
    }
  }

  /** A group's tickets keep the order they had in the input. */
  lemma {:induction false} TicketsForInOrder(data: seq<Ticket>, k: int)
    ensures IsSubsequence(TicketsFor(data, k), data)
  {
    if data != [] {
      var init, last := data[..|data| - 1], data[|data| - 1];
      assert data == init + [last];
      TicketsForInOrder(init, k);
      TicketsForAppend(init, last, k);
      if last.eventId == k {
        SubsequenceAppendBoth(TicketsFor(init, k), init, last);
      } else {
        assert TicketsFor(data, k) == TicketsFor(init, k);
        SubsequenceAppendRight(TicketsFor(init, k), init, last);
      }
    }
  }

  /**
   * The group the page builds for event `k`: the event of its first ticket,
   * all its tickets in input order, their number, and whether the event of
   * the last of them lies before `now`.
   */
  function GroupFor(data: seq<Ticket>, k: int, now: int): (g: GroupedTickets)
    requires k in EventIds(data)
    ensures g.tickets == TicketsFor(data, k) && g.quantity == |g.tickets| >= 1
    ensures g.tickets[0].eventId == k
  {
    TicketsForNonEmpty(data, k);
    TicketsForMembers(data, k);
    var ts := TicketsFor(data, k);
    assert ts[0] in ts;
    GroupedTickets(ts[0].event, |ts|, ts, ts[|ts| - 1].event.date < now)
  }

  /** One more ticket of another event leaves the group of event `k` as it was. */
  lemma GroupForOther(before: seq<Ticket>, t: Ticket, k: int, now: int)
    requires k in EventIds(before) && k != t.eventId
    ensures k in EventIds(before + [t]) && GroupFor(before + [t], k, now) == GroupFor(before, k, now)
  {
    EventIdsAppend(before, t);
    TicketsForAppend(before, t, k);
  }

  /** One more ticket of an event already seen extends its group and takes its isPastEvent. */
  lemma GroupForSame(before: seq<Ticket>, t: Ticket, now: int)
    requires t.eventId in EventIds(before)
    ensures t.eventId in EventIds(before + [t])
    ensures var g := GroupFor(before, t.eventId, now);
      GroupFor(before + [t], t.eventId, now) == GroupedTickets(g.event, g.quantity + 1, g.tickets + [t], t.event.date < now)
  {
    EventIdsAppend(before, t);
    TicketsForAppend(before, t, t.eventId);
    TicketsForNonEmpty(before, t.eventId);
    var ts := TicketsFor(before, t.eventId);
    assert (ts + [t])[0] == ts[0];
  }

  /** The first ticket of an event starts a group of its own. */
  lemma GroupForFirst(before: seq<Ticket>, t: Ticket, now: int)
    requires t.eventId !in EventIds(before)
    ensures t.eventId in EventIds(before + [t])
    ensures GroupFor(before + [t], t.eventId, now) == GroupedTickets(t.event, 1, [t], t.event.date < now)
  {
    EventIdsAppend(before, t);
    TicketsForAppend(before, t, t.eventId);
    TicketsForNonEmpty(before, t.eventId);
  }

  /** `Object.values(groups)` when the keys are enumerated in the order `keys`. */
  function ValuesInOrder(groups: map<int, GroupedTickets>, keys: seq<int>): (r: seq<GroupedTickets>)
    requires forall i :: 0 <= i < |keys| ==> keys[i] in groups
    ensures |r| == |keys| && forall i :: 0 <= i < |keys| ==> r[i] == groups[keys[i]]
  {
    seq(|keys|, i requires 0 <= i < |keys| => groups[keys[i]])
  }

  function SumQuantity(s: seq<GroupedTickets>): (r: int)
  {
    if s == [] then 0 else SumQuantity(s[..|s| - 1]) + s[|s| - 1].quantity
  }

  lemma {:induction false} SumQuantityConcat(a: seq<GroupedTickets>, b: seq<GroupedTickets>)
    ensures SumQuantity(a + b) == SumQuantity(a) + SumQuantity(b)
    decreases |b|
  {
    if b == [] {
      assert a + b == a;
    } else {
      assert (a + b)[..|a + b| - 1] == a + b[..|b| - 1];
      SumQuantityConcat(a, b[..|b| - 1]);
    }
  }

  /** Quantities add up the same in any order. */
  lemma {:induction false} SumQuantityPermutation(a: seq<GroupedTickets>, b: seq<GroupedTickets>)
    requires multiset(a) == multiset(b)
    ensures SumQuantity(a) == SumQuantity(b)
    decreases |a|
  {
    if a != [] {
      var x := a[|a| - 1];
      assert x in multiset(b);
      var j :| 0 <= j < |b| && b[j] == x;
      var b' := b[..j] + b[j + 1..];
      assert b == b[..j] + [x] + b[j + 1..];
      assert a == a[..|a| - 1] + [x];
      assert multiset(a[..|a| - 1]) == multiset(a) - multiset{x};
      assert multiset(b') == multiset(b) - multiset{x};
      SumQuantityPermutation(a[..|a| - 1], b');
      SumQuantityConcat(b[..j] + [x], b[j + 1..]);
      SumQuantityConcat(b[..j], [x]);
      SumQuantityConcat(b[..j], b[j + 1..]);
      assert SumQuantity([x]) == x.quantity by { assert [x][..0] == []; }
    }
  }

  lemma {:induction false} DistinctCardinality(s: seq<int>)
    requires Distinct(s)
    ensures |set x | x in s| == |s|
  {
    if s != [] {
      var init := s[..|s| - 1];
      DistinctCardinality(init);
      assert (set x | x in s) == (set x | x in init) + {s[|s| - 1]};
    }
  }

  /** After the tickets `processed`, there is one group per event id seen, and it is that event's GroupFor. */
  ghost predicate GroupsMatch(processed: seq<Ticket>, now: int, groups: map<int, GroupedTickets>)
  {
    && groups.Keys == EventIds(processed)
    && (forall k :: k in groups ==> groups[k] == GroupFor(processed, k, now))
  }

  /** `order` lists every key of `groups` exactly once. */
  ghost predicate KeyOrder(groups: map<int, GroupedTickets>, order: seq<int>)
  {
    && Distinct(order)
    && (forall k :: k in order <==> k in groups)
    && (forall i :: 0 <= i < |order| ==> order[i] in groups)
  }

  /** A ticket of an event already seen: its group gains the ticket and takes the ticket's isPastEvent. */
  lemma StepGroupsExisting(before: seq<Ticket>, t: Ticket, now: int, groups: map<int, GroupedTickets>)
    requires GroupsMatch(before, now, groups) && t.eventId in groups
    ensures var g := groups[t.eventId];
      GroupsMatch(before + [t], now,
        groups[t.eventId := GroupedTickets(g.event, g.quantity + 1, g.tickets + [t], t.event.date < now)])
  {
    EventIdsAppend(before, t);
    var g := groups[t.eventId];
    var groups' := groups[t.eventId := GroupedTickets(g.event, g.quantity + 1, g.tickets + [t], t.event.date < now)];
    forall k | k in groups' ensures groups'[k] == GroupFor(before + [t], k, now) {
      if k == t.eventId {
        GroupForSame(before, t, now);
      } else {
        GroupForOther(before, t, k, now);
      }
    }
  }

  /** A ticket of a new event: a group holding just that ticket. */
  lemma StepGroupsNew(before: seq<Ticket>, t: Ticket, now: int, groups: map<int, GroupedTickets>)
    requires GroupsMatch(before, now, groups) && t.eventId !in groups
    ensures GroupsMatch(before + [t], now, groups[t.eventId := GroupedTickets(t.event, 1, [t], t.event.date < now)])
  {
    EventIdsAppend(before, t);
    var groups' := groups[t.eventId := GroupedTickets(t.event, 1, [t], t.event.date < now)];
    forall k | k in groups' ensures groups'[k] == GroupFor(before + [t], k, now) {
      if k == t.eventId {
        GroupForFirst(before, t, now);
      } else {
        GroupForOther(before, t, k, now);
      }
    }
  }

  /** The total quantity of the groups of `keys`, summed directly over the map. */
  function SumOver(groups: map<int, GroupedTickets>, keys: seq<int>): (n: int)
    requires forall i :: 0 <= i < |keys| ==> keys[i] in groups
  {
    if keys == [] then 0 else SumOver(groups, keys[..|keys| - 1]) + groups[keys[|keys| - 1]].quantity
  }

  lemma {:induction false} SumOverFrame(groups: map<int, GroupedTickets>, keys: seq<int>, k: int, g: GroupedTickets)
    requires forall i :: 0 <= i < |keys| ==> keys[i] in groups
    requires k !in keys
    ensures SumOver(groups[k := g], keys) == SumOver(groups, keys)
  {
    if keys != [] {
      SumOverFrame(groups, keys[..|keys| - 1], k, g);
    }
  }

  lemma {:induction false} SumOverUpdate(groups: map<int, GroupedTickets>, keys: seq<int>, k: int, g: GroupedTickets)
    requires forall i :: 0 <= i < |keys| ==> keys[i] in groups
    requires Distinct(keys) && k in keys
    ensures SumOver(groups[k := g], keys) == SumOver(groups, keys) - groups[k].quantity + g.quantity
  {
    var init, last := keys[..|keys| - 1], keys[|keys| - 1];
    assert keys == init + [last];
    if last == k {
      assert k !in init;
      SumOverFrame(groups, init, k, g);
    } else {
      SumOverUpdate(groups, init, k, g);
    }
  }

  /** Summing the values listed in key order is summing over the keys. */
  lemma {:induction false} SumOverValues(groups: map<int, GroupedTickets>, keys: seq<int>)
    requires forall i :: 0 <= i < |keys| ==> keys[i] in groups
    ensures SumQuantity(ValuesInOrder(groups, keys)) == SumOver(groups, keys)
  {
    if keys != [] {
      var values := ValuesInOrder(groups, keys);
      assert values[..|keys| - 1] == ValuesInOrder(groups, keys[..|keys| - 1]);
      SumOverValues(groups, keys[..|keys| - 1]);
    }
  }

  /** Replacing a group by one with one ticket more adds one to the total quantity. */
  lemma StepSumExisting(groups: map<int, GroupedTickets>, order: seq<int>, k: int, g: GroupedTickets, n: int)
    requires KeyOrder(groups, order) && k in groups && SumOver(groups, order) == n
    requires g.quantity == groups[k].quantity + 1
    ensures KeyOrder(groups[k := g], order)
    ensures SumOver(groups[k := g], order) == n + 1
  {
    SumOverUpdate(groups, order, k, g);
  }

  /** A new key appended to the order adds its group's quantity to the total. */
  lemma StepSumNew(groups: map<int, GroupedTickets>, order: seq<int>, k: int, g: GroupedTickets, n: int)
    requires KeyOrder(groups, order) && k !in groups && SumOver(groups, order) == n
    requires g.quantity == 1
    ensures KeyOrder(groups[k := g], order + [k])
    ensures SumOver(groups[k := g], order + [k]) == n + 1
  {
    SumOverFrame(groups, order, k, g);
    assert (order + [k])[..|order|] == order;
  }

  /** The loop invariant after the tickets `processed`: the groups, their key order, and the total quantity. */
  ghost predicate Grouped(processed: seq<Ticket>, now: int, groups: map<int, GroupedTickets>, order: seq<int>)
  {
    && GroupsMatch(processed, now, groups)
    && KeyOrder(groups, order)
    && SumOver(groups, order) == |processed|
  }

  /** Before any ticket: no groups, no keys, nothing counted. */
  lemma StepStart(data: seq<Ticket>, now: int)
    ensures Grouped(data[..0], now, map[], [])
  {
    assert data[..0] == [];
  }

  /** Processing a ticket of an event already seen keeps the invariant. */
  lemma StepExisting(data: seq<Ticket>, i: nat, now: int, groups: map<int, GroupedTickets>, order: seq<int>, updated: GroupedTickets)
    requires i < |data| && Grouped(data[..i], now, groups, order) && data[i].eventId in groups
    requires var g := groups[data[i].eventId];
      updated == GroupedTickets(g.event, g.quantity + 1, g.tickets + [data[i]], data[i].event.date < now)
    ensures Grouped(data[..i + 1], now, groups[data[i].eventId := updated], order)
  {
    var t := data[i];
    assert data[..i + 1] == data[..i] + [t];
    StepGroupsExisting(data[..i], t, now, groups);
    StepSumExisting(groups, order, t.eventId, updated, i);
  }

  /** Processing a ticket of a new event keeps the invariant. */
  lemma StepNew(data: seq<Ticket>, i: nat, now: int, groups: map<int, GroupedTickets>, order: seq<int>, created: GroupedTickets)
    requires i < |data| && Grouped(data[..i], now, groups, order) && data[i].eventId !in groups
    requires created == GroupedTickets(data[i].event, 1, [data[i]], data[i].event.date < now)
    ensures Grouped(data[..i + 1], now, groups[data[i].eventId := created], order + [data[i].eventId])
  {
    var t := data[i];
    assert data[..i + 1] == data[..i] + [t];
    StepGroupsNew(data[..i], t, now, groups);
    StepSumNew(groups, order, t.eventId, created, i);
  }

  /** What the invariant says once every ticket has been processed. */
  lemma GroupedMeans(data: seq<Ticket>, now: int, groups: map<int, GroupedTickets>, order: seq<int>)
    requires Grouped(data, now, groups, order)
    ensures groups.Keys == EventIds(data)
    ensures forall k :: k in groups ==> groups[k] == GroupFor(data, k, now)
    ensures Distinct(order) && forall k :: k in order <==> k in groups
    ensures forall i :: 0 <= i < |order| ==> order[i] in groups
    ensures SumQuantity(ValuesInOrder(groups, order)) == |data|
  {
    SumOverValues(groups, order);
  }

  /**
   * The grouping loop: one entry per distinct eventId, each equal to
   * GroupFor, `order` listing each key once in first-seen order, and the
   * quantities of all groups adding up to the number of tickets.
   */
  method GroupTickets(data: seq<Ticket>, now: int) returns (groups: map<int, GroupedTickets>, order: seq<int>)
    ensures groups.Keys == EventIds(data)
    ensures forall k :: k in groups ==> groups[k] == GroupFor(data, k, now)
    ensures Distinct(order) && forall k :: k in order <==> k in groups
    ensures forall i :: 0 <= i < |order| ==> order[i] in groups
    ensures SumQuantity(ValuesInOrder(groups, order)) == |data|
  {
    groups, order := map[], [];
    var i := 0;
    StepStart(data, now);
    while i < |data|
      invariant 0 <= i <= |data|
      invariant Grouped(data[..i], now, groups, order)
    {
      groups, order := AddTicket(data, i, now, groups, order);
      i := i + 1;
    }
    assert data[..i] == data;
    GroupedMeans(data, now, groups, order);
  }

  /**
   * The `forEach` callback for the ticket `data[i]`: a seen event's group
   * gets one more ticket and the ticket's isPastEvent, a new event gets a
   * fresh group and its key is added after the others.
   */
  method AddTicket(data: seq<Ticket>, i: nat, now: int, groups: map<int, GroupedTickets>, order: seq<int>)
    returns (groups': map<int, GroupedTickets>, order': seq<int>)
    requires i < |data| && Grouped(data[..i], now, groups, order)
    ensures Grouped(data[..i + 1], now, groups', order')
    ensures order' == if data[i].eventId in groups then order else order + [data[i].eventId]
  {
    var ticket := data[i];
    var isPastEvent := ticket.event.date < now;
    if ticket.eventId in groups {
      var g := groups[ticket.eventId];
      var updated := GroupedTickets(g.event, g.quantity + 1, g.tickets + [ticket], isPastEvent);
      StepExisting(data, i, now, groups, order, updated);
      groups', order' := groups[ticket.eventId := updated], order;
    } else {
      var created := GroupedTickets(ticket.event, 1, [ticket], isPastEvent);
      StepNew(data, i, now, groups, order, created);
      groups', order' := groups[ticket.eventId := created], order + [ticket.eventId];
    }
  }

  // -------------------------------------------------------------- ordering

  /**
   * The comparator passed to `sort`: positive puts `a` after `b`, negative
   * before it. A past event goes after an upcoming one; two events of the
   * same kind go by date, ties comparing equal.
   */
  function CompareGroups(a: GroupedTickets, b: GroupedTickets): (r: int)
    ensures a.isPastEvent && !b.isPastEvent ==> r > 0
    ensures !a.isPastEvent && b.isPastEvent ==> r < 0
    ensures a.isPastEvent == b.isPastEvent ==>
      (r < 0 <==> a.event.date < b.event.date) && (r == 0 <==> a.event.date == b.event.date)
  {
    if a.isPastEvent && !b.isPastEvent then 1
    else if !a.isPastEvent && b.isPastEvent then -1
    else a.event.date - b.event.date
  }

  /** `a` may stand before `b` in the sorted array. */
  predicate Precedes(a: GroupedTickets, b: GroupedTickets) { CompareGroups(a, b) <= 0 }

  predicate IsOrdered(s: seq<GroupedTickets>) { forall i, j :: 0 <= i < j < |s| ==> Precedes(s[i], s[j]) }

  /** The order the comparator imposes: no past event before an upcoming one, dates ascending within each kind. */
  lemma OrderedMeans(s: seq<GroupedTickets>)
    ensures IsOrdered(s) <==>
      forall i, j :: 0 <= i < j < |s| ==>
        && (s[i].isPastEvent ==> s[j].isPastEvent)
        && (s[i].isPastEvent == s[j].isPastEvent ==> s[i].event.date <= s[j].event.date)
  {
  }

  lemma PrecedesTotalPreorder(a: GroupedTickets, b: GroupedTickets, c: GroupedTickets)
    ensures Precedes(a, b) || Precedes(b, a)
    ensures Precedes(a, b) && Precedes(b, c) ==> Precedes(a, c)
  {
  }

  /** An element that may precede the head of an ordered sequence may precede all of it. */
  lemma PrecedesAll(g: GroupedTickets, s: seq<GroupedTickets>)
    requires IsOrdered(s) && (s == [] || Precedes(g, s[0]))
    ensures forall j :: 0 <= j < |s| ==> Precedes(g, s[j])
  {
    forall j | 0 <= j < |s| ensures Precedes(g, s[j]) {
      PrecedesTotalPreorder(g, s[0], s[j]);
    }
  }

  /** Putting an element that may precede every member in front keeps a sequence ordered. */
  lemma ConsOrdered(a: GroupedTickets, s: seq<GroupedTickets>)
    requires IsOrdered(s) && forall j :: 0 <= j < |s| ==> Precedes(a, s[j])
    ensures IsOrdered([a] + s)
  {
  }

  /** The head of an ordered sequence may precede everything the insertion into its tail produces. */
  lemma HeadPrecedesInsertion(g: GroupedTickets, s: seq<GroupedTickets>, rest: seq<GroupedTickets>)
    requires IsOrdered(s) && s != [] && !Precedes(g, s[0])
    requires multiset(rest) == multiset(s[1..]) + multiset{g}
    ensures forall j :: 0 <= j < |rest| ==> Precedes(s[0], rest[j])
  {
    forall j | 0 <= j < |rest| ensures Precedes(s[0], rest[j]) {
      var x := rest[j];
      assert x in multiset(rest);
      if x == g {
        PrecedesTotalPreorder(g, s[0], g);
      } else {
        assert x in multiset(s[1..]);
        var i :| 0 <= i < |s[1..]| && s[1..][i] == x;
        assert s[i + 1] == x;
      }
    }
  }

  function InsertOrdered(g: GroupedTickets, s: seq<GroupedTickets>): (r: seq<GroupedTickets>)
    requires IsOrdered(s)
    ensures IsOrdered(r) && multiset(r) == multiset(s) + multiset{g}
    decreases |s|
  {
    if s == [] || Precedes(g, s[0]) then
      PrecedesAll(g, s);
      ConsOrdered(g, s);
      [g] + s
    else
      var rest := InsertOrdered(g, s[1..]);
      assert s == [s[0]] + s[1..];
      HeadPrecedesInsertion(g, s, rest);
      ConsOrdered(s[0], rest);
      [s[0]] + rest
  }

  /** `Array.prototype.sort` with CompareGroups: an ordered permutation of its input. */
  function SortByComparator(s: seq<GroupedTickets>): (r: seq<GroupedTickets>)
    ensures IsOrdered(r) && multiset(r) == multiset(s)
  {
    if s == [] then []
    else
      assert s == [s[0]] + s[1..];
      InsertOrdered(s[0], SortByComparator(s[1..]))
  }

  lemma OrderCardinality(groups: map<int, GroupedTickets>, order: seq<int>)
    requires Distinct(order) && forall k :: k in order <==> k in groups
    ensures |order| == |groups.Keys|
  {
    DistinctCardinality(order);
    assert (set x | x in order) == groups.Keys;
  }

  /** A permutation has the same length and the same members. */
  lemma PermutationMembers(a: seq<GroupedTickets>, b: seq<GroupedTickets>)
    requires multiset(a) == multiset(b)
    ensures |a| == |b|
    ensures forall x :: x in a <==> x in b
  {
    assert |multiset(a)| == |multiset(b)|;
    forall x ensures x in a <==> x in b {
      assert x in a <==> x in multiset(a);
      assert x in b <==> x in multiset(b);
    }
  }

  /** The values listed in key order: one per distinct event. */
  lemma ValuesCount(data: seq<Ticket>, groups: map<int, GroupedTickets>, order: seq<int>)
    requires groups.Keys == EventIds(data)
    requires Distinct(order) && forall k :: k in order <==> k in groups
    requires forall i :: 0 <= i < |order| ==> order[i] in groups
    ensures |ValuesInOrder(groups, order)| == |EventIds(data)|
  {
    OrderCardinality(groups, order);
  }

  /** The values listed in key order contain the group of every event. */
  lemma ValuesCoverEvents(data: seq<Ticket>, now: int, groups: map<int, GroupedTickets>, order: seq<int>)
    requires groups.Keys == EventIds(data)
    requires forall k :: k in groups ==> groups[k] == GroupFor(data, k, now)
    requires forall k :: k in order <==> k in groups
    requires forall i :: 0 <= i < |order| ==> order[i] in groups
    ensures forall k :: k in EventIds(data) ==> GroupFor(data, k, now) in ValuesInOrder(groups, order)
  {
    var values := ValuesInOrder(groups, order);
    forall k | k in EventIds(data) ensures GroupFor(data, k, now) in values {
      var j :| 0 <= j < |order| && order[j] == k;
      assert values[j] == GroupFor(data, k, now);
    }
  }

  /** Every value listed in key order is the group of the event of its first ticket. */
  lemma ValuesAreGroups(data: seq<Ticket>, now: int, groups: map<int, GroupedTickets>, order: seq<int>)
    requires groups.Keys == EventIds(data)
    requires forall k :: k in groups ==> groups[k] == GroupFor(data, k, now)
    requires forall i :: 0 <= i < |order| ==> order[i] in groups
    ensures forall g :: g in ValuesInOrder(groups, order) ==>
      g.tickets != [] && g.tickets[0].eventId in EventIds(data) && g == GroupFor(data, g.tickets[0].eventId, now)
  {
    var values := ValuesInOrder(groups, order);
    forall g | g in values
      ensures g.tickets != [] && g.tickets[0].eventId in EventIds(data) && g == GroupFor(data, g.tickets[0].eventId, now)
    {
      var j :| 0 <= j < |values| && values[j] == g;
      assert g == GroupFor(data, order[j], now);
    }
  }

  /**
   * Grouping followed by `Object.values(groups).sort(...)`: one group per
   * distinct event, each the GroupFor of its event, in comparator order,
   * with quantities adding up to the number of tickets.
   */
  method OrganizeTickets(data: seq<Ticket>, now: int) returns (sorted: seq<GroupedTickets>)
    ensures IsOrdered(sorted)
    ensures |sorted| == |EventIds(data)|
    ensures forall k :: k in EventIds(data) ==> GroupFor(data, k, now) in sorted
    ensures forall g :: g in sorted ==>
      g.tickets != [] && g.tickets[0].eventId in EventIds(data) && g == GroupFor(data, g.tickets[0].eventId, now)
    ensures SumQuantity(sorted) == |data|
  {
    var groups, order := GroupTickets(data, now);
    var values := ValuesInOrder(groups, order);
    sorted := SortByComparator(values);
    ValuesCount(data, groups, order);
    ValuesCoverEvents(data, now, groups, order);
    ValuesAreGroups(data, now, groups, order);
    PermutationMembers(sorted, values);
    SumQuantityPermutation(sorted, values);
  }

  // --------------------------------------------------------------- search

  /** A group matches when `needle` occurs in its lowercased name or in its lowercased location. */
  predicate MatchesSearch(g: GroupedTickets, needle: string)
    ensures MatchesSearch(g, needle) <==>
      (exists i :: OccursAt(ToLowerCase(g.event.name), needle, i)) ||
      (exists i :: OccursAt(ToLowerCase(g.event.location), needle, i))
  {
    IncludesIffOccurs(ToLowerCase(g.event.name), needle);
    IncludesIffOccurs(ToLowerCase(g.event.location), needle);
    Includes(ToLowerCase(g.event.name), needle) || Includes(ToLowerCase(g.event.location), needle)
  }

  /** `groups.filter(...)`: the matching groups, each as often as in `groups`, in their original order. */
  function KeepMatching(groups: seq<GroupedTickets>, needle: string): (r: seq<GroupedTickets>)
    ensures forall g :: g in r <==> g in groups && MatchesSearch(g, needle)
    ensures forall g :: multiset(r)[g] == if MatchesSearch(g, needle) then multiset(groups)[g] else 0
    ensures IsSubsequence(r, groups)
  {
    if groups == [] then []
    else
      assert groups == [groups[0]] + groups[1..];
      if MatchesSearch(groups[0], needle) then [groups[0]] + KeepMatching(groups[1..], needle)
      else KeepMatching(groups[1..], needle)
  }

  /**
   * The search effect: a term that is blank after trimming shows every group;
   * otherwise exactly the groups whose lowercased name or location includes
   * the lowercased, untrimmed term, in their order.
   */
  function SearchGroups(groupedTickets: seq<GroupedTickets>, searchTerm: string): (r: seq<GroupedTickets>)
    ensures IsBlank(searchTerm) ==> r == groupedTickets
    ensures !IsBlank(searchTerm) ==>
      forall g :: g in r <==> g in groupedTickets && MatchesSearch(g, ToLowerCase(searchTerm))
    ensures !IsBlank(searchTerm) ==>
      forall g :: multiset(r)[g] == if MatchesSearch(g, ToLowerCase(searchTerm)) then multiset(groupedTickets)[g] else 0
    ensures IsSubsequence(r, groupedTickets)
  {
    TrimEmptyIffBlank(searchTerm);
    SubsequenceRefl(groupedTickets);
    if Trim(searchTerm) == "" then groupedTickets
    else KeepMatching(groupedTickets, ToLowerCase(searchTerm))
  }

  // ---------------------------------------------------------- date display

  /**
   * formatarData, from the getters getDate(), getMonth() (zero-based) and
   * getFullYear(): the text always ends with "/" and the unpadded year, and
   * for a day and a month below 100 both fields are two characters wide.
   */
  function FormatDate(day: int, month: int, year: int): (r: string)
    ensures var y := IntToString(year); |r| >= 6 + |y| && r[|r| - |y|..] == y && r[|r| - |y| - 1] == '/'
    ensures 0 <= day < 100 && 0 <= month + 1 < 100 ==>
      |r| == 6 + |IntToString(year)| && r[2] == '/' && r[5] == '/'
  {
    var dd := PadStart(IntToString(day), 2, '0');
    var mm := PadStart(IntToString(month + 1), 2, '0');
    var y := IntToString(year);
    var head := dd + "/" + mm + "/";
    EndsWithField(head, y);
    TwoDigitFields(day, month + 1);
    DateLayout(dd, mm, y);
    head + y
  }

  /** Two numbers below 100, each printed and padded to 2 with '0', give two fields of two characters. */
  lemma TwoDigitFields(a: int, b: int)
    ensures 0 <= a < 100 && 0 <= b < 100 ==>
      |PadStart(IntToString(a), 2, '0')| == 2 && |PadStart(IntToString(b), 2, '0')| == 2
  {
    if 0 <= a < 100 && 0 <= b < 100 {
      PadTwoDigits(a);
      PadTwoDigits(b);
    }
  }

  /** A field appended after a separator is the suffix of the text, with the separator just before it. */
  lemma EndsWithField(head: string, field: string)
    requires head != [] && head[|head| - 1] == '/'
    ensures var r := head + field; r[|r| - |field|..] == field && r[|r| - |field| - 1] == '/'
  {
  }

  /**
   * formatarHora, from the getters getHours() and getMinutes(): for an hour
   * and a minute below 100 the text is two characters, ":" and two characters.
   */
  function FormatTime(hours: int, minutes: int): (r: string)
    ensures |r| >= 5
    ensures 0 <= hours < 100 && 0 <= minutes < 100 ==> |r| == 5 && r[2] == ':'
  {
    var hh := PadStart(IntToString(hours), 2, '0');
    var mi := PadStart(IntToString(minutes), 2, '0');
    TwoDigitFields(hours, minutes);
    TimeLayout(hh, mi);
    hh + ":" + mi
  }

  /** With two-character day and month fields, every part of `${dd}/${mm}/${y}` sits at its offset. */
  lemma DateLayout(dd: string, mm: string, y: string)
    ensures var r := dd + "/" + mm + "/" + y;
      |dd| == 2 && |mm| == 2 ==>
        && |r| == 6 + |y| && r[2] == '/' && r[5] == '/'
        && r[..2] == dd && r[3..5] == mm && r[6..] == y
  {
    var r := dd + "/" + mm + "/" + y;
    assert r == dd + (['/'] + (mm + (['/'] + y)));
  }

  /** With two-character fields, every part of `${hh}:${mi}` sits at its offset. */
  lemma TimeLayout(hh: string, mi: string)
    ensures var r := hh + ":" + mi;
      |hh| == 2 && |mi| == 2 ==> |r| == 5 && r[2] == ':' && r[..2] == hh && r[3..] == mi
  {
  }

  /** For the values a Date yields: two-digit day, two-digit month plus one, then the unpadded year. */
  lemma FormatDateFields(day: int, month: int, year: int)
    requires 1 <= day <= 31 && 0 <= month <= 11
    ensures var r := FormatDate(day, month, year);
      && |r| == 6 + |IntToString(year)|
      && r[2] == '/' && r[5] == '/'
      && AllDigits(r[..2]) && DecimalValue(r[..2]) == day
      && AllDigits(r[3..5]) && DecimalValue(r[3..5]) == month + 1
      && r[6..] == IntToString(year)
  {
    PadTwoDigits(day);
    PadTwoDigits(month + 1);
    DateLayout(PadStart(IntToString(day), 2, '0'), PadStart(IntToString(month + 1), 2, '0'), IntToString(year));
  }

  /** For the values a Date yields: "HH:MM" with both fields two digits. */
  lemma FormatTimeFields(hours: int, minutes: int)
    requires 0 <= hours <= 23 && 0 <= minutes <= 59
    ensures var r := FormatTime(hours, minutes);
      && |r| == 5 && r[2] == ':'
      && AllDigits(r[..2]) && DecimalValue(r[..2]) == hours
      && AllDigits(r[3..]) && DecimalValue(r[3..]) == minutes
  {
    PadTwoDigits(hours);
    PadTwoDigits(minutes);
    TimeLayout(PadStart(IntToString(hours), 2, '0'), PadStart(IntToString(minutes), 2, '0'));
  }
}
