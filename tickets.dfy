/** The Ticket entity of the support ticket system: its three closed choice
    sets (category, priority, status), the code string each choice is stored
    and queried under, and the record itself. */
module Tickets {
  import opened Text

  datatype Option<+T> = None | Some(value: T)

  /** Subject area of a ticket (CATEGORY_CHOICES). */
  datatype Category = Billing | Technical | Account | General

  /** Urgency of a ticket (PRIORITY_CHOICES). */
  datatype Priority = Low | Medium | High | Critical

  /** Workflow state of a ticket (STATUS_CHOICES). */
  datatype Status = Open | InProgress | Resolved | Closed

  /** The longest title the title column accepts. */
  const MaxTitleLength: nat := 200

  /** A stored ticket. `createdAt` is the creation instant in microseconds. */
  datatype Ticket = Ticket(
    title: string,
    description: string,
    category: Category,
    priority: Priority,
    status: Status,
    createdAt: int)

  /** The status a ticket gets when none is given. */
  const DefaultStatus: Status := Open

  /** Category choices in declaration order: the keys of the category breakdown. */
  function CategoryChoices(): (r: seq<Category>)
    ensures |r| == 4
    ensures forall i, j :: 0 <= i < j < |r| ==> r[i] != r[j]
  {
    [Billing, Technical, Account, General]
  }

  /** Priority choices in declaration order: the keys of the priority breakdown. */
  function PriorityChoices(): (r: seq<Priority>)
    ensures |r| == 4
    ensures forall i, j :: 0 <= i < j < |r| ==> r[i] != r[j]
  {
    [Low, Medium, High, Critical]
  }

  /** Every category and every priority is among the declared choices, so
      the zero-filled breakdowns have a key for each of them. */
  lemma ChoicesComplete()
    ensures forall c :: c in CategoryChoices()
    ensures forall p :: p in PriorityChoices()
  {
    var cs, ps := CategoryChoices(), PriorityChoices();
    forall c: Category ensures c in cs {
      if c == Billing { assert cs[0] == c; }
      else if c == Technical { assert cs[1] == c; }
      else if c == Account { assert cs[2] == c; }
      else { assert cs[3] == c; }
    }
    forall p: Priority ensures p in ps {
      if p == Low { assert ps[0] == p; }
      else if p == Medium { assert ps[1] == p; }
      else if p == High { assert ps[2] == p; }
      else { assert ps[3] == p; }
    }
  }

  /** The string a category is stored and compared under. */
  function CategoryCode(c: Category): string
  {
    match c
    case Billing => "billing"
    case Technical => "technical"
    case Account => "account"
    case General => "general"
  }

  function PriorityCode(p: Priority): string
  {
    match p
    case Low => "low"
    case Medium => "medium"
    case High => "high"
    case Critical => "critical"
  }

  function StatusCode(s: Status): string
  {
    match s
    case Open => "open"
    case InProgress => "in_progress"
    case Resolved => "resolved"
    case Closed => "closed"
  }

  /** The category stored under `s`, if `s` is one of the four codes. */
  function ParseCategory(s: string): (r: Option<Category>)
    ensures forall c :: r == Some(c) <==> CategoryCode(c) == s
  {
    if s == "billing" then Some(Billing)
    else if s == "technical" then Some(Technical)
    else if s == "account" then Some(Account)
    else if s == "general" then Some(General)
    else None
  }

  function ParsePriority(s: string): (r: Option<Priority>)
    ensures forall p :: r == Some(p) <==> PriorityCode(p) == s
  {
    if s == "low" then Some(Low)
    else if s == "medium" then Some(Medium)
    else if s == "high" then Some(High)
    else if s == "critical" then Some(Critical)
    else None
  }

  function ParseStatus(s: string): (r: Option<Status>)
    ensures forall st :: r == Some(st) <==> StatusCode(st) == s
  {
    if s == "open" then Some(Open)
    else if s == "in_progress" then Some(InProgress)
    else if s == "resolved" then Some(Resolved)
    else if s == "closed" then Some(Closed)
    else None
  }

  /** Distinct choices have distinct codes, and every code is a non-empty
      string (so a query for it is never mistaken for "no criterion"). */
  lemma CodesInjective()
    ensures forall c1, c2 :: CategoryCode(c1) == CategoryCode(c2) ==> c1 == c2
    ensures forall p1, p2 :: PriorityCode(p1) == PriorityCode(p2) ==> p1 == p2
    ensures forall s1, s2 :: StatusCode(s1) == StatusCode(s2) ==> s1 == s2
    ensures forall c :: CategoryCode(c) != ""
    ensures forall p :: PriorityCode(p) != ""
    ensures forall s :: StatusCode(s) != ""
  {
    forall c1, c2 | CategoryCode(c1) == CategoryCode(c2) ensures c1 == c2 {
      assert ParseCategory(CategoryCode(c1)) == Some(c1);
    }
    forall p1, p2 | PriorityCode(p1) == PriorityCode(p2) ensures p1 == p2 {
      assert ParsePriority(PriorityCode(p1)) == Some(p1);
    }
    forall s1, s2 | StatusCode(s1) == StatusCode(s2) ensures s1 == s2 {
      assert ParseStatus(StatusCode(s1)) == Some(s1);
    }
  }

  /** The constraints the ticket columns place on submitted text, checked
      after surrounding whitespace is stripped: a title that is not blank and
      at most 200 characters long, a description that is not blank, and no
      NUL character in either. */
  predicate AcceptableText(title: string, description: string)
  {
    && Strip(title) != "" && |Strip(title)| <= MaxTitleLength && Strip(description) != ""
    && '\0' !in Strip(title) && '\0' !in Strip(description)
  }

  /** A created ticket, or None when the submitted text is refused. Title and
      description are stored stripped; the status is the one submitted, or
      the default when none is. */
  function NewTicket(title: string, description: string, category: Category,
                     priority: Priority, status: Option<Status>, createdAt: int): (r: Option<Ticket>)
    ensures r.Some? <==> && Strip(title) != "" && |Strip(title)| <= MaxTitleLength
                         && Strip(description) != ""
                         && '\0' !in Strip(title) && '\0' !in Strip(description)
    ensures r.Some? ==> r.value.status == (if status.Some? then status.value else Open)
    ensures r.Some? ==> r.value.title == Strip(title) && r.value.description == Strip(description)
    ensures r.Some? ==> r.value.category == category && r.value.priority == priority
                        && r.value.createdAt == createdAt
  {
    if AcceptableText(title, description)
    then Some(Ticket(Strip(title), Strip(description), category, priority,
                     if status.Some? then status.value else DefaultStatus, createdAt))
    else None
  }

  /** A title or description made only of whitespace (or empty) is refused,
      and so is text holding a NUL character anywhere, and a title longer
      than 200 characters once stripped. */
  lemma BlankTextRefused(title: string, description: string, category: Category,
                         priority: Priority, status: Option<Status>, createdAt: int)
    ensures (forall k :: 0 <= k < |title| ==> IsSpace(title[k])) ==>
              NewTicket(title, description, category, priority, status, createdAt).None?
    ensures (forall k :: 0 <= k < |description| ==> IsSpace(description[k])) ==>
              NewTicket(title, description, category, priority, status, createdAt).None?
    ensures |title| > MaxTitleLength && !IsSpace(title[0]) && !IsSpace(title[|title| - 1]) ==>
              NewTicket(title, description, category, priority, status, createdAt).None?
    ensures '\0' in title || '\0' in description ==>
              NewTicket(title, description, category, priority, status, createdAt).None?
  {
    if '\0' in title {
      StripKeepsNonSpace(title, '\0');
    }
    if '\0' in description {
      StripKeepsNonSpace(description, '\0');
    }
    if |title| > MaxTitleLength && !IsSpace(title[0]) && !IsSpace(title[|title| - 1]) {
      assert Strip(title) == title;
    }
  }

  /** Submitting a created ticket's own fields again creates the same
      ticket: stored text is already stripped and passes the checks. */
  lemma NewTicketStable(title: string, description: string, category: Category,
                        priority: Priority, status: Option<Status>, createdAt: int)
    ensures var r := NewTicket(title, description, category, priority, status, createdAt);
            r.Some? ==>
              NewTicket(r.value.title, r.value.description, r.value.category,
                        r.value.priority, Some(r.value.status), r.value.createdAt) == r
  {
    StripIdempotent(title);
    StripIdempotent(description);
  }
}
