# Support ticket core, modelled in Dafny

The support ticket system stores tickets with a title, a description, a
category (billing, technical, account, general), a priority (low, medium,
high, critical), a status (open, in_progress, resolved, closed) and a
creation time. Around the stored tickets the backend offers three pieces
of logic, and this project models each of them and proves what it promises:

- **Filtering the ticket list** (`filter.dfy`). A list request carries up
  to four optional parameters: category, priority, status and a search
  term. Each one that is present and non-empty narrows the list, and the
  search term keeps the tickets whose title or description contains it,
  ignoring case. `GetQueryset` applies the narrowing steps one after the
  other, as the view does. `Select` is a one-pass reference definition.
  The two are proved equal, so the result is exactly the stored tickets
  that meet every given parameter, newest first.
- **Dashboard statistics** (`stats.dfy`). These are the total, the number
  of open tickets, tickets per day over the active days (whole days since
  the first ticket, at least one), and two breakdowns (per priority and
  per category). Each breakdown is built the way the
  view builds it: every choice first gets a zero, then a loop over the
  rows of a grouped count query overwrites the counted ones. `Breakdown`
  is that loop, with its invariant. `ComputeStats` proves four things:
  both breakdowns have every key, a key with no tickets maps to 0, both
  breakdowns sum to the total, and the average is the total over the
  active days of the given tickets at the given time.
- **Classification** (`classify.dfy`). A description goes to a remote
  language model, which answers with a suggested category and priority.
  Building the model client is an input that either gives a client or
  the error its construction raised. The client's one invocation covers
  the prompt, the request and the JSON parsing, and is a function that
  yields either the parsed reply or the failure it raised. `Classify`
  proves four things:
  - a missing or empty description is refused with no call to the client;
  - an error while building the client escapes as a server error, and
    nothing is sent;
  - otherwise the client is invoked exactly once;
  - a failed invocation gives the fixed suggestion general/medium.

`tickets.dfy` holds the shared entity: the three choice sets as
datatypes, their stored codes, and the creation of a ticket. Submitted
text is stripped of surrounding whitespace before it is checked and
stored, and the status is open unless one is submitted. `text.dfy` holds
the whitespace stripping and the case-insensitive substring test used by
the search.

Facts about the code that the model keeps:

- Classification refuses only a missing or empty description. Any other
  text, however short, is sent on.
- A failed invocation of the client gives the constant pair
  general/medium. No keyword rules are tried.
- The reply of the client is passed on unchecked. Its values are not
  compared with the choice sets.
- Tickets per day divide the total by the whole days since the first
  ticket, and by at least 1.
- Each breakdown comes from a grouped count query whose rows overwrite
  zero-filled entries. It is not built by incrementing counters in one
  pass.

## Model

| member | source | states |
|---|---|---|
| Tickets.CategoryChoices | backend_logic.py:17-22 | there are four category choices and they are pairwise distinct |
| Tickets.PriorityChoices | backend_logic.py:23-28 | there are four priority choices and they are pairwise distinct |
| Tickets.ChoicesComplete | backend_logic.py:17-28 | every category and every priority is among the declared choices, so the zero-filled breakdowns cover all of them |
| Tickets.ParseCategory | backend_logic.py:17-22 | a string is read as category c exactly when it is c's stored code |
| Tickets.ParsePriority | backend_logic.py:23-28 | a string is read as priority p exactly when it is p's stored code |
| Tickets.ParseStatus | backend_logic.py:29-34 | a string is read as status s exactly when it is s's stored code |
| Tickets.CodesInjective | backend_logic.py:17-34 | distinct choices have distinct codes, and no code is the empty string |
| Tickets.NewTicket | backend_logic.py:36-41 | a ticket is created exactly when the stripped title is non-empty and at most 200 characters long, the stripped description is non-empty, and neither holds a NUL character; it stores the stripped text, the given category, priority and time, and the submitted status or else open |
| Tickets.BlankTextRefused | backend_logic.py:36-37 | a title or description made only of whitespace is refused, so is text holding a NUL character anywhere, and so is a title longer than 200 characters without surrounding whitespace |
| Tickets.NewTicketStable | backend_logic.py:36-41 | submitting a created ticket's own fields again creates the same ticket |
| Text.ContainsIsSubstring | backend_logic.py:75-78 | the search scan answers true exactly when the term occurs at some position of the text |
| Text.ContainsIgnoringCase | backend_logic.py:75-78 | case-insensitive containment holds exactly when the case-folded term is a substring of the case-folded text |
| Text.SearchIgnoresTermCase | backend_logic.py:75-78 | searching for a term or for its lower-case form gives the same answer |
| Text.ContainsIgnoringCaseBasics | backend_logic.py:77 | a text contains any term equal to it up to case; the empty term is contained in every text (a fact of the lookup itself; the view never searches for it, as line 75 skips an empty term) |
| Text.Strip | backend_logic.py:51-54 | the serializer's stripped text is a piece of the input with only whitespace cut off either side, neither starting nor ending with whitespace, and empty exactly when the input is all whitespace |
| Text.StripIdempotent | backend_logic.py:51-54 | a stripped value passes through the stripping unchanged |
| Text.StripKeepsNonSpace | backend_logic.py:51-54 | stripping removes only whitespace: every other character of the input survives it |
| TicketFilter.Narrow | backend_logic.py:69-78 | one filter step keeps exactly the tickets that satisfy its criterion and never lengthens the list |
| TicketFilter.Select | backend_logic.py:62-79 | reference selection: keeps exactly the tickets that meet every given parameter, and never holds a ticket more often than the input |
| TicketFilter.NarrowSelect | backend_logic.py:69-78 | narrowing a selection by one more criterion equals selecting with the query that also demands it |
| TicketFilter.GetQuerysetIsSelect | backend_logic.py:62-79 | the step-by-step chain of filters equals the one-pass selection of tickets meeting every given parameter (AND), keeping the order of the ticket sequence it is given |
| TicketFilter.GetQuerysetMembership | backend_logic.py:62-79 | a ticket is listed exactly when it is stored and meets every given parameter; the list is a sub-multiset of the store |
| TicketFilter.GetQuerysetWithoutCriteria | backend_logic.py:63-79 | when no parameter is present and non-empty, the list is the ticket sequence it is given, unchanged |
| TicketFilter.SearchMeaning | backend_logic.py:75-78 | with a search term, a ticket that passes the other parameters is listed exactly when the folded term occurs in its folded title or in its folded description |
| TicketFilter.UnknownChoiceListsNothing | backend_logic.py:69-74 | a category, priority or status parameter that is not a stored code yields an empty list |
| TicketFilter.GetQuerysetKeepsOrder | backend_logic.py:43-44 | if the stored tickets are newest first, so is every filtered list |
| TicketStats.OpenCount | backend_logic.py:89 | the open count is at most the total; it is 0 exactly when no ticket is open and equals the total exactly when all are |
| TicketStats.OpenCountIsListing | backend_logic.py:89 | the open count equals the length of the list filtered by status code `open` |
| TicketStats.CategoryCountIsListing | backend_logic.py:101 | the number of tickets of a category equals the length of the list filtered by that category's code |
| TicketStats.PriorityCountIsListing | backend_logic.py:100 | the number of tickets of a priority equals the length of the list filtered by that priority's code |
| TicketStats.CountsAgreeWithListing | backend_logic.py:87-89 | open_tickets equals the length of the `status=open` list, and total_tickets equals the length of the unfiltered list |
| TicketStats.GroupBy | backend_logic.py:100-101 | every row of the grouped count names a choice and carries that choice's positive number of occurrences, and every present choice has a row |
| TicketStats.GroupByIsGrouping | backend_logic.py:100-101 | the grouped rows the stats rely on exist for every ticket sequence |
| TicketStats.Breakdown | backend_logic.py:103-109 | after zero-filling the choices and overwriting from the grouped rows, the map has exactly the choices as keys, each maps to its number of occurrences (0 if none), and the values sum to the number of tickets |
| TicketStats.CountsSumToLength | backend_logic.py:103-109 | per-key counts over distinct keys that cover every value sum to the number of values |
| TicketStats.PriorityBreakdown | backend_logic.py:103-105 | the priority breakdown has every priority as a key, holds each priority's ticket count, and sums to the total |
| TicketStats.CategoryBreakdown | backend_logic.py:107-109 | the category breakdown has every category as a key, holds each category's ticket count, and sums to the total |
| TicketStats.FirstCreated | backend_logic.py:91 | the earliest creation time is absent exactly when there are no tickets; otherwise it is one ticket's creation time and no later than any |
| TicketStats.WholeDays | backend_logic.py:96 | the whole days between two instants are rounded down: d days of microseconds fit in the difference and d + 1 do not |
| TicketStats.DaysActive | backend_logic.py:94-96 | days_active is at least 1; it is 1 without tickets; with tickets it is the whole days since the first ticket when that is at least 1, and 1 when it is less (a first ticket under a day old or in the future) |
| TicketStats.PerDay | backend_logic.py:97 | tickets per day times days_active is the total, it lies between 0 and the total, and it is 0 when there are no tickets |
| TicketStats.ComputeStats | backend_logic.py:82-117 | total is the ticket count; open count is the open tickets' count and at most the total; the average is the total over days_active of these tickets at `now`; both breakdowns have every key, hold per-choice counts and sum to the total; with no tickets total and average are 0 |
| Classify.Classify | backend_logic.py:120-156 | a missing or empty description is rejected with "Description required" and no call; otherwise an error building the client escapes with its message and no call; otherwise exactly one invocation with that description, whose parsed reply is passed on unchanged and whose failure gives general/medium with the failure's message |
| Classify.BlankNeverReachesRemote | backend_logic.py:121-123 | for a blank description the answer does not depend on building or invoking the client at all, and its status is 400 |
| Classify.NonBlankAlwaysSucceeds | backend_logic.py:140-156 | once the client is built, a non-blank description always gets status 200, and the answer depends on the client only through what it yields for that description |
| Classify.SetupFailureIsServerError | backend_logic.py:125 | an error raised while building the client, outside the guarded block, gives a server error (500) with that message, and nothing is sent |

## Left out

- The retrieve, update and delete operations of the list view: they are
  framework-provided. Of the serializer, creation is modelled in
  `NewTicket`.
- Tickets.NewTicket: the serializer's other checks (a null title, a
  category, priority or status outside the choice sets, an over-long
  choice code) are not modelled. The datatypes make those inputs
  impossible. The refusal of text holding a NUL character is modelled.
- Text.Strip: only the whitespace characters below 128 are stripped.
  Python's stripping also removes non-ASCII whitespace (no-break space,
  the Unicode space separators), which is not modelled.
- `Ticket.__str__` (backend_logic.py:46-47): display formatting only.
- The database: the store is assumed to be SQLite. Its `=` on the
  choice columns is case-sensitive, which `UnknownChoiceListsNothing`
  relies on, and its `LIKE` folds only ASCII letters. The tickets are
  the newest-first sequence `Ticket.objects.all()` returns (ordering by
  `-created_at`, backend_logic.py:43-44). The two grouped count queries are inputs of
  `ComputeStats`. `IsGrouping` constrains them: every row carries its
  value's full count, and every present value has a row.
- TicketFilter.GetQueryset: tickets with equal creation times may come
  back in a different relative order from each query, since the query
  orders only by `created_at`. The model keeps the order of the given
  sequence. What is promised in general is newest first
  (`GetQuerysetKeepsOrder`).
- TicketStats.ComputeStats: the response lists the keys of each
  breakdown in declaration order. A Dafny `map` has no order, so that
  order is not modelled.
- TicketStats.ComputeStats: the aggregate (backend_logic.py:87) and the
  two grouped counts (:100-101) are three separate reads with no
  transaction around them. The model assumes they all see the same
  tickets. A ticket written between the reads would break "the
  breakdowns sum to the total" in the running system.
- The clock: `now` is a parameter. Creation times are integer
  microseconds, so time zones and calendar arithmetic are not modelled.
- `thirty_days_ago` (backend_logic.py:84) is computed and never used, so
  it has no counterpart.
- TicketStats.PerDay: the average is the exact quotient. Rounding to one
  decimal place is not modelled because it is floating-point behaviour.
- Text.ContainsIgnoringCase: only the 26 ASCII letters are folded (the
  `LIKE` behaviour of SQLite). Unicode case folding, which other
  databases apply, is not modelled.
- TicketFilter.GetQueryset: each query parameter is a single string. A
  parameter repeated in the URL (where the last value is used) is not
  modelled.
- Classify.Classify: the prompt text, the five-second timeout, the
  client's automatic retries and the JSON parsing form one abstract
  invocation. That invocation may send the request more than once (by
  default up to three times), and `remoteCalls` records invocations, not
  network requests. Its reply type is a parameter. An exception raised
  inside the guarded block becomes `Raised`. A description that is not
  a string (a JSON number or list) is not modelled; the input is a
  string, or absent/null.
- Classify.NonBlankAlwaysSucceeds: success is promised only when the
  client was built. An error building it (no API key) escapes as a
  server error, as `SetupFailureIsServerError` states.
