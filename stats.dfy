/** The dashboard statistics of the ticket list: how many tickets there are,
    how many are open, how many arrive per day, and how they split over the
    categories and the priorities. The grouped count queries the store
    answers are inputs; the two breakdowns are built from them by first
    giving every choice a zero and then overwriting the counted ones. */
module TicketStats {
  import opened Tickets
  import TicketFilter

  /** One row of a grouped count query: a stored value and how many tickets
      carry it. */
  datatype Row<K> = Row(key: K, count: nat)

  /** The statistics snapshot the endpoint answers with. */
  datatype Stats = Stats(
    totalTickets: nat,
    openTickets: nat,
    avgTicketsPerDay: real,
    priorityBreakdown: map<Priority, nat>,
    categoryBreakdown: map<Category, nat>)

  /** Microseconds in one day: timestamps are microsecond counts. */
  const MicrosecondsPerDay: int := 86_400_000_000

  // ---------------------------------------------------------------------
  // Counting over the ticket sequence

  function CategoriesOf(ts: seq<Ticket>): (r: seq<Category>)
    ensures |r| == |ts|
    ensures forall i :: 0 <= i < |ts| ==> r[i] == ts[i].category
  {
    if ts == [] then [] else [ts[0].category] + CategoriesOf(ts[1..])
  }

  function PrioritiesOf(ts: seq<Ticket>): (r: seq<Priority>)
    ensures |r| == |ts|
    ensures forall i :: 0 <= i < |ts| ==> r[i] == ts[i].priority
  {
    if ts == [] then [] else [ts[0].priority] + PrioritiesOf(ts[1..])
  }

  /** Number of tickets whose status is open. */
  function OpenCount(ts: seq<Ticket>): (n: nat)
    ensures n <= |ts|
    ensures n == 0 <==> forall t :: t in ts ==> t.status != Open
    ensures n == |ts| <==> forall t :: t in ts ==> t.status == Open
  {
    if ts == [] then 0
    else (if ts[0].status == Open then 1 else 0) + OpenCount(ts[1..])
  }

  /** Number of tickets carrying the category `c`, counted the way the list
      endpoint counts them: the length of the list filtered by that code. */
  lemma {:induction false} CategoryCountIsListing(ts: seq<Ticket>, c: Category)
    ensures multiset(CategoriesOf(ts))[c]
            == |TicketFilter.Narrow(ts, TicketFilter.CategoryIs(CategoryCode(c)))|
  {
    CodesInjective();
    if ts != [] {
      CategoryCountIsListing(ts[1..], c);
      assert CategoriesOf(ts) == [ts[0].category] + CategoriesOf(ts[1..]);
    }
  }

  lemma {:induction false} PriorityCountIsListing(ts: seq<Ticket>, p: Priority)
    ensures multiset(PrioritiesOf(ts))[p]
            == |TicketFilter.Narrow(ts, TicketFilter.PriorityIs(PriorityCode(p)))|
  {
    CodesInjective();
    if ts != [] {
      PriorityCountIsListing(ts[1..], p);
      assert PrioritiesOf(ts) == [ts[0].priority] + PrioritiesOf(ts[1..]);
    }
  }

  lemma {:induction false} OpenCountIsListing(ts: seq<Ticket>)
    ensures OpenCount(ts) == |TicketFilter.Narrow(ts, TicketFilter.StatusIs(StatusCode(Open)))|
  {
    CodesInjective();
    if ts != [] {
      OpenCountIsListing(ts[1..]);
    }
  }

  /** The open count equals the length of the list a request with
      `status=open` returns, and the total that of the unfiltered list. */
  lemma CountsAgreeWithListing(ts: seq<Ticket>)
    ensures OpenCount(ts) == |TicketFilter.GetQueryset(ts, TicketFilter.NoQuery.(status := Some("open")))|
    ensures |ts| == |TicketFilter.GetQueryset(ts, TicketFilter.NoQuery)|
  {
    OpenCountIsListing(ts);
    TicketFilter.GetQuerysetWithoutCriteria(ts, TicketFilter.NoQuery);
  }

  // ---------------------------------------------------------------------
  // Grouped rows and breakdowns

  /** No element occurs twice. */
  predicate Distinct<K(==)>(s: seq<K>)
  {
    forall i, j :: 0 <= i < j < |s| ==> s[i] != s[j]
  }

  lemma DistinctTail<K>(s: seq<K>)
    requires Distinct(s) && s != []
    ensures Distinct(s[1..]) && s[0] !in s[1..]
  {
    forall b | 0 <= b < |s[1..]| ensures s[1..][b] != s[0] {
      assert s[1..][b] == s[b + 1];
    }
  }

  /** The keys that have a row. */
  function RowKeys<K>(rows: seq<Row<K>>): set<K>
  {
    set r | r in rows :: r.key
  }

  /** `rows` is what a grouped count over `xs` answers, in any order: every
      value present in `xs` has a row, and every row carries the number of
      occurrences of its value. (A grouped query gives each value one row;
      the breakdown does not depend on that.) */
  ghost predicate IsGrouping<K>(rows: seq<Row<K>>, xs: seq<K>)
  {
    && (forall i :: 0 <= i < |rows| ==> 0 < rows[i].count == multiset(xs)[rows[i].key])
    && (forall x :: x in xs ==> x in RowKeys(rows))
  }

  /** A grouping listed in the order of `keys`. */
  function GroupBy<K(==)>(xs: seq<K>, keys: seq<K>): (rows: seq<Row<K>>)
    ensures forall r :: r in rows ==> r.key in keys && r.count == multiset(xs)[r.key] > 0
    ensures forall k :: k in keys && multiset(xs)[k] > 0 ==> k in RowKeys(rows)
  {
    if keys == [] then []
    else
      var n := multiset(xs)[keys[0]];
      (if n > 0 then [Row(keys[0], n)] else []) + GroupBy(xs, keys[1..])
  }

  /** Grouping over choices that cover every value is a grouping: the
      grouped queries always have an answer. */
  lemma {:induction false} GroupByIsGrouping<K>(xs: seq<K>, keys: seq<K>)
    requires forall x :: x in xs ==> x in keys
    ensures IsGrouping(GroupBy(xs, keys), xs)
  {
    var rows := GroupBy(xs, keys);
    forall i | 0 <= i < |rows| ensures rows[i].count == multiset(xs)[rows[i].key] {
      assert rows[i] in rows;
    }
  }

  /** A breakdown: each choice in `choices` gets a zero, then each grouped
      row overwrites the entry of its key with its count. */
  method Breakdown<K(==,!new)>(choices: seq<K>, rows: seq<Row<K>>, ghost xs: seq<K>) returns (m: map<K, nat>)
    requires IsGrouping(rows, xs)
    requires Distinct(choices)
    requires forall x :: x in xs ==> x in choices
    ensures forall k :: k in m <==> k in choices
    ensures forall k :: k in m ==> m[k] == multiset(xs)[k]
    ensures SumOver(m, choices) == |xs|
  {
    m := map k | k in choices :: 0;
    for i := 0 to |rows|
      invariant forall k :: k in m <==> k in choices
      invariant forall k :: k in m ==>
                  m[k] == if k in RowKeys(rows[..i]) then multiset(xs)[k] else 0
    {
      assert rows[i].key in xs;
      assert rows[..i + 1] == rows[..i] + [rows[i]];
      assert RowKeys(rows[..i + 1]) == RowKeys(rows[..i]) + {rows[i].key};
      m := m[rows[i].key := rows[i].count];
    }
    assert rows[..|rows|] == rows;
    CountsSumToLength(m, choices, xs);
  }

  /** Sum of the entries of `m` over `keys`. */
  function SumOver<K>(m: map<K, nat>, keys: seq<K>): nat
    requires forall k :: k in keys ==> k in m
  {
    if keys == [] then 0 else m[keys[0]] + SumOver(m, keys[1..])
  }

  /** `xs` without its occurrences of `k`. */
  function Without<K(==,!new)>(xs: seq<K>, k: K): (r: seq<K>)
    ensures |xs| == multiset(xs)[k] + |r|
    ensures forall j :: j != k ==> multiset(r)[j] == multiset(xs)[j]
    ensures forall x :: x in r ==> x in xs && x != k
  {
    if xs == [] then []
    else
      assert xs == [xs[0]] + xs[1..];
      (if xs[0] == k then [] else [xs[0]]) + Without(xs[1..], k)
  }

  /** A map that holds, for each of a list of distinct keys covering every
      value of `xs`, the number of occurrences of that key in `xs`, sums to
      the length of `xs` over those keys. */
  lemma {:induction false} CountsSumToLength<K(!new)>(m: map<K, nat>, keys: seq<K>, xs: seq<K>)
    requires Distinct(keys)
    requires forall x :: x in xs ==> x in keys
    requires forall k :: k in keys ==> k in m && m[k] == multiset(xs)[k]
    ensures SumOver(m, keys) == |xs|
  {
    if keys == [] {
      assert multiset(xs) == multiset{};
    } else {
      DistinctTail(keys);
      var k0 := keys[0];
      var rest := Without(xs, k0);
      forall x | x in rest ensures x in keys[1..] {
        assert x in xs && x != k0;
      }
      forall k | k in keys[1..] ensures k in m && m[k] == multiset(rest)[k] {
        assert k != k0;
      }
      CountsSumToLength(m, keys[1..], rest);
    }
  }

  // ---------------------------------------------------------------------
  // Days active and the per-day average

  /** Creation instant of the oldest ticket; None when there is none. */
  function FirstCreated(ts: seq<Ticket>): (r: Option<int>)
    ensures r.None? <==> ts == []
    ensures r.Some? ==> forall t :: t in ts ==> r.value <= t.createdAt
    ensures r.Some? ==> exists t :: t in ts && t.createdAt == r.value
  {
    if ts == [] then None
    else
      var rest := FirstCreated(ts[1..]);
      assert forall t :: t in ts[1..] ==> t in ts;
      if rest.Some? && rest.value < ts[0].createdAt then rest else Some(ts[0].createdAt)
  }

  /** The whole number of days from `first` to `now`, rounded towards minus
      infinity as the `days` of a time difference are. */
  function WholeDays(first: int, now: int): (d: int)
    ensures d * MicrosecondsPerDay <= now - first < (d + 1) * MicrosecondsPerDay
  {
    (now - first) / MicrosecondsPerDay
  }

  /** Days the system has been active: whole days since the oldest ticket
      (since `now` when there is none), but at least one. */
  function DaysActive(ts: seq<Ticket>, now: int): (d: int)
    ensures d >= 1
    ensures ts == [] ==> d == 1
    ensures ts != [] ==> d >= WholeDays(FirstCreated(ts).value, now)
    ensures ts != [] && WholeDays(FirstCreated(ts).value, now) >= 1 ==>
              d == WholeDays(FirstCreated(ts).value, now)
    ensures ts != [] && WholeDays(FirstCreated(ts).value, now) < 1 ==> d == 1
  {
    var first := if FirstCreated(ts).Some? then FirstCreated(ts).value else now;
    var days := WholeDays(first, now);
    if days > 1 then days else 1
  }

  /** The priority breakdown: every priority, with its number of tickets. */
  method PriorityBreakdown(ts: seq<Ticket>, rows: seq<Row<Priority>>) returns (m: map<Priority, nat>)
    requires IsGrouping(rows, PrioritiesOf(ts))
    ensures forall p :: p in m && m[p] == multiset(PrioritiesOf(ts))[p]
    ensures SumOver(m, PriorityChoices()) == |ts|
  {
    ChoicesComplete();
    m := Breakdown(PriorityChoices(), rows, PrioritiesOf(ts));
  }

  /** The category breakdown: every category, with its number of tickets. */
  method CategoryBreakdown(ts: seq<Ticket>, rows: seq<Row<Category>>) returns (m: map<Category, nat>)
    requires IsGrouping(rows, CategoriesOf(ts))
    ensures forall c :: c in m && m[c] == multiset(CategoriesOf(ts))[c]
    ensures SumOver(m, CategoryChoices()) == |ts|
  {
    ChoicesComplete();
    m := Breakdown(CategoryChoices(), rows, CategoriesOf(ts));
  }

  /** Tickets per day, before rounding: the total spread evenly over the
      active days. */
  function PerDay(total: nat, days: int): (r: real)
    requires days >= 1
    ensures r * days as real == total as real
    ensures total == 0 ==> r == 0.0
    ensures 0.0 <= r <= total as real
  {
    total as real / days as real
  }

  /** The statistics snapshot. `now` is the clock reading; the two row
      sequences are the store's answers to the grouped counts by priority
      and by category. */
  method ComputeStats(ts: seq<Ticket>, now: int,
                      priorityRows: seq<Row<Priority>>, categoryRows: seq<Row<Category>>)
    returns (s: Stats)
    requires IsGrouping(priorityRows, PrioritiesOf(ts))
    requires IsGrouping(categoryRows, CategoriesOf(ts))
    ensures s.totalTickets == |ts|
    ensures s.openTickets == OpenCount(ts) <= s.totalTickets
    ensures s.avgTicketsPerDay == PerDay(s.totalTickets, DaysActive(ts, now))
    ensures ts == [] ==> s.totalTickets == 0 && s.avgTicketsPerDay == 0.0
    ensures forall c :: c in s.categoryBreakdown
    ensures forall p :: p in s.priorityBreakdown
    ensures forall c :: s.categoryBreakdown[c] == multiset(CategoriesOf(ts))[c]
    ensures forall p :: s.priorityBreakdown[p] == multiset(PrioritiesOf(ts))[p]
    ensures SumOver(s.categoryBreakdown, CategoryChoices()) == s.totalTickets
    ensures SumOver(s.priorityBreakdown, PriorityChoices()) == s.totalTickets
  {
    var total := |ts|;
    var open := OpenCount(ts);
    var days := DaysActive(ts, now);
    var avg := PerDay(total, days);

    var priorityBreakdown := PriorityBreakdown(ts, priorityRows);
    var categoryBreakdown := CategoryBreakdown(ts, categoryRows);
    s := Stats(total, open, avg, priorityBreakdown, categoryBreakdown);
  }
}
