/** The ticket list endpoint's filtering: up to four optional query
    parameters, each of which, when given, narrows the list. */
module TicketFilter {
  import opened Tickets
  import opened Text

  /** The query parameters of a list request; each may be missing. */
  datatype Query = Query(
    category: Option<string>,
    priority: Option<string>,
    status: Option<string>,
    search: Option<string>)

  /** A request with no parameters at all. */
  const NoQuery: Query := Query(None, None, None, None)

  /** A parameter restricts the list only when it is present and non-empty
      (the truth test on the parameter's value). */
  predicate Given(p: Option<string>)
  {
    p.Some? && p.value != ""
  }

  /** One narrowing step of the chain. Choice criteria compare the stored
      code with the parameter as given, so an unknown code matches nothing. */
  datatype Criterion =
    | CategoryIs(code: string)
    | PriorityIs(code: string)
    | StatusIs(code: string)
    | Mentions(term: string)

  predicate Satisfies(t: Ticket, c: Criterion)
  {
    match c
    case CategoryIs(code) => CategoryCode(t.category) == code
    case PriorityIs(code) => PriorityCode(t.priority) == code
    case StatusIs(code) => StatusCode(t.status) == code
    case Mentions(term) =>
      ContainsIgnoringCase(t.title, term) || ContainsIgnoringCase(t.description, term)
  }

  /** One `filter` call: the tickets that satisfy `c`, in their order. */
  function Narrow(ts: seq<Ticket>, c: Criterion): (r: seq<Ticket>)
    ensures |r| <= |ts|
    ensures forall t :: t in r <==> t in ts && Satisfies(t, c)
  {
    if ts == [] then []
    else (if Satisfies(ts[0], c) then [ts[0]] else []) + Narrow(ts[1..], c)
  }

  /** The list a request returns: start from all tickets and apply one
      narrowing step per given parameter, in the order category, priority,
      status, search. */
  function GetQueryset(all: seq<Ticket>, q: Query): seq<Ticket>
  {
    var byCategory := if Given(q.category) then Narrow(all, CategoryIs(q.category.value)) else all;
    var byPriority := if Given(q.priority) then Narrow(byCategory, PriorityIs(q.priority.value)) else byCategory;
    var byStatus := if Given(q.status) then Narrow(byPriority, StatusIs(q.status.value)) else byPriority;
    if Given(q.search) then Narrow(byStatus, Mentions(q.search.value)) else byStatus
  }

  /** Reference meaning of a request: a ticket is listed when it meets every
      given parameter; a parameter that is not given imposes nothing. */
  predicate Matches(t: Ticket, q: Query)
  {
    && (Given(q.category) ==> CategoryCode(t.category) == q.category.value)
    && (Given(q.priority) ==> PriorityCode(t.priority) == q.priority.value)
    && (Given(q.status) ==> StatusCode(t.status) == q.status.value)
    && (Given(q.search) ==>
          ContainsIgnoringCase(t.title, q.search.value)
          || ContainsIgnoringCase(t.description, q.search.value))
  }

  /** Reference selection: one pass over the tickets, keeping those that
      match, in their order. */
  function Select(ts: seq<Ticket>, q: Query): (r: seq<Ticket>)
    ensures |r| <= |ts|
    ensures forall t :: t in r <==> t in ts && Matches(t, q)
    ensures multiset(r) <= multiset(ts)
  {
    if ts == [] then []
    else
      assert ts == [ts[0]] + ts[1..];
      (if Matches(ts[0], q) then [ts[0]] else []) + Select(ts[1..], q)
  }

  /** Narrowing a selection by one more criterion is selecting by the
      query that also demands that criterion. */
  lemma {:induction false} NarrowSelect(ts: seq<Ticket>, q1: Query, c: Criterion, q2: Query)
    requires forall t :: Matches(t, q2) <==> Matches(t, q1) && Satisfies(t, c)
    ensures Narrow(Select(ts, q1), c) == Select(ts, q2)
  {
    if ts != [] {
      var t0 := ts[0];
      var s1 := Select(ts[1..], q1);
      NarrowSelect(ts[1..], q1, c, q2);
      assert Matches(t0, q2) <==> Matches(t0, q1) && Satisfies(t0, c);
      if Matches(t0, q1) {
        var sel := [t0] + s1;
        assert Select(ts, q1) == sel;
        assert sel[0] == t0 && sel[1..] == s1;
      } else {
        assert Select(ts, q1) == s1;
      }
    }
  }

  /** Selections by two queries that match the same tickets are equal. */
  lemma {:induction false} SelectSameMeaning(ts: seq<Ticket>, q1: Query, q2: Query)
    requires forall t :: Matches(t, q1) <==> Matches(t, q2)
    ensures Select(ts, q1) == Select(ts, q2)
  {
    if ts != [] {
      SelectSameMeaning(ts[1..], q1, q2);
    }
  }

  /** When no ticket matches, nothing is selected. */
  lemma {:induction false} SelectNoneMatching(ts: seq<Ticket>, q: Query)
    requires forall t :: t in ts ==> !Matches(t, q)
    ensures Select(ts, q) == []
  {
    if ts != [] {
      SelectNoneMatching(ts[1..], q);
    }
  }

  /** With no criterion every ticket is selected, in its order. */
  lemma {:induction false} SelectNothingRequired(ts: seq<Ticket>, q: Query)
    requires !Given(q.category) && !Given(q.priority) && !Given(q.status) && !Given(q.search)
    ensures Select(ts, q) == ts
  {
    if ts != [] {
      SelectNothingRequired(ts[1..], q);
    }
  }

  /** The step-by-step chain of the endpoint selects exactly the tickets
      that meet every given parameter, in their original order (AND of
      the given criteria). */
  lemma GetQuerysetIsSelect(all: seq<Ticket>, q: Query)
    ensures GetQueryset(all, q) == Select(all, q)
  {
    var q0 := NoQuery;
    var q1 := Query(q.category, None, None, None);
    var q2 := Query(q.category, q.priority, None, None);
    var q3 := Query(q.category, q.priority, q.status, None);
    SelectNothingRequired(all, q0);
    var s0 := all;
    var s1 := if Given(q.category) then Narrow(s0, CategoryIs(q.category.value)) else s0;
    if Given(q.category) {
      NarrowSelect(all, q0, CategoryIs(q.category.value), q1);
    } else {
      SelectSameMeaning(all, q0, q1);
    }
    assert s1 == Select(all, q1);
    var s2 := if Given(q.priority) then Narrow(s1, PriorityIs(q.priority.value)) else s1;
    if Given(q.priority) {
      NarrowSelect(all, q1, PriorityIs(q.priority.value), q2);
    } else {
      SelectSameMeaning(all, q1, q2);
    }
    assert s2 == Select(all, q2);
    var s3 := if Given(q.status) then Narrow(s2, StatusIs(q.status.value)) else s2;
    if Given(q.status) {
      NarrowSelect(all, q2, StatusIs(q.status.value), q3);
    } else {
      SelectSameMeaning(all, q2, q3);
    }
    assert s3 == Select(all, q3);
    if Given(q.search) {
      NarrowSelect(all, q3, Mentions(q.search.value), q);
    } else {
      SelectSameMeaning(all, q3, q);
    }
  }

  /** Every listed ticket is a stored ticket and meets every given
      parameter; every stored ticket that meets them is listed; and the
      list never holds a ticket more often than the store does. */
  lemma GetQuerysetMembership(all: seq<Ticket>, q: Query)
    ensures forall t :: t in GetQueryset(all, q) <==> t in all && Matches(t, q)
    ensures multiset(GetQueryset(all, q)) <= multiset(all)
  {
    GetQuerysetIsSelect(all, q);
  }

  /** A request without (non-empty) parameters lists every ticket. */
  lemma GetQuerysetWithoutCriteria(all: seq<Ticket>, q: Query)
    requires !Given(q.category) && !Given(q.priority) && !Given(q.status) && !Given(q.search)
    ensures GetQueryset(all, q) == all
  {
    GetQuerysetIsSelect(all, q);
    SelectNothingRequired(all, q);
  }

  /** With a search term, a ticket that passes the other parameters is
      listed exactly when the term, folded, occurs in its folded title or
      in its folded description. */
  lemma SearchMeaning(all: seq<Ticket>, q: Query, t: Ticket)
    requires Given(q.search)
    requires t in all
    requires Matches(t, q.(search := None))
    ensures t in GetQueryset(all, q) <==>
              IsSubstring(LowerAll(q.search.value), LowerAll(t.title))
              || IsSubstring(LowerAll(q.search.value), LowerAll(t.description))
  {
    GetQuerysetMembership(all, q);
  }

  /** Tickets are listed newest first (`-created_at`). */
  predicate NewestFirst(ts: seq<Ticket>)
  {
    forall i, j :: 0 <= i < j < |ts| ==> ts[i].createdAt >= ts[j].createdAt
  }

  lemma {:induction false} SelectKeepsOrder(ts: seq<Ticket>, q: Query)
    requires NewestFirst(ts)
    ensures NewestFirst(Select(ts, q))
  {
    if ts != [] {
      SelectKeepsOrder(ts[1..], q);
      var rest := Select(ts[1..], q);
      forall k | 0 <= k < |rest| ensures rest[k].createdAt <= ts[0].createdAt {
        assert rest[k] in ts[1..];
      }
    }
  }

  /** Filtering keeps the store's newest-first order. */
  lemma GetQuerysetKeepsOrder(all: seq<Ticket>, q: Query)
    requires NewestFirst(all)
    ensures NewestFirst(GetQueryset(all, q))
  {
    GetQuerysetIsSelect(all, q);
    SelectKeepsOrder(all, q);
  }

  /** A choice parameter that is not one of the stored codes (a typo, a
      different spelling) lists nothing rather than being ignored. */
  lemma UnknownChoiceListsNothing(all: seq<Ticket>, q: Query)
    requires
      || (Given(q.category) && ParseCategory(q.category.value).None?)
      || (Given(q.priority) && ParsePriority(q.priority.value).None?)
      || (Given(q.status) && ParseStatus(q.status.value).None?)
    ensures GetQueryset(all, q) == []
  {
    GetQuerysetIsSelect(all, q);
    assert forall t :: !Matches(t, q);
    SelectNoneMatching(all, q);
  }
}
