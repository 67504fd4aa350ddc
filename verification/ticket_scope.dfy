/**
 Who sees which tickets: the permission check on one ticket, and the search filter that lists
 the same tickets in one query.
 */
module TicketScope {
  import opened Wrappers
  import opened LikeSearch

  type UserId = nat
  type GroupId = nat

  datatype Scope = Platform | Tenant | Own | Group | Organization

  /** A stored ticket with what the search may look at; texts holds its searchable fields and its requester's. */
  datatype Ticket = Ticket(
    tenant: nat,
    deleted: bool,
    requester: UserId,
    assignee: Option<UserId>,
    group: Option<GroupId>,
    status: nat,
    priority: nat,
    kind: nat,
    channel: nat,
    createdAt: int,
    updatedAt: int,
    dueDate: Option<int>,
    attachments: nat,
    comments: nat,
    texts: seq<string>)

  /** Whether the ids and the permission key are well formed, and the scopes the actor's roles grant. */
  datatype Grants = Grants(wellFormed: bool, scopes: seq<Scope>)

  datatype Resource = Resource(owner: UserId, assignee: Option<UserId>, group: Option<GroupId>, actorGroups: seq<GroupId>)

  predicate ScopeAllows(scope: Scope, user: UserId, r: Resource) {
    match scope
    case Platform => true
    case Tenant => true
    case Own => r.owner == user || r.assignee == Some(user)
    case Group => r.group.Some? && r.group.value in r.actorGroups
    case Organization => false
  }

  predicate Can(g: Grants, user: UserId, resource: Option<Resource>) {
    && g.wellFormed && g.scopes != []
    && (resource.None? || exists s :: s in g.scopes && ScopeAllows(s, user, resource.value))
  }

  /** The ticket as callers present it: they know of no group membership. */
  function TicketResource(t: Ticket): Resource {
    Resource(t.requester, t.assignee, t.group, [])
  }

  /** What each scope gives: everything, what one owns or is assigned, what one's groups have, or nothing. */
  lemma MayAccessIff(g: Grants, user: UserId, r: Resource)
    ensures Can(g, user, Some(r)) <==>
      && g.wellFormed
      && (|| Platform in g.scopes || Tenant in g.scopes
          || (Own in g.scopes && (r.owner == user || r.assignee == Some(user)))
          || (Group in g.scopes && exists group :: r.group == Some(group) && group in r.actorGroups))
    ensures Can(g, user, None) <==> g.wellFormed && g.scopes != []
  {
    if s :| s in g.scopes && ScopeAllows(s, user, r) {
      assert s == Group ==> r.group == Some(r.group.value);
    }
  }

  /** A ticket is read by everyone with a tenant-wide scope and by its requester and assignee with their own; no group helps. */
  lemma MayReadIff(g: Grants, user: UserId, t: Ticket)
    ensures Can(g, user, Some(TicketResource(t))) <==>
      && g.wellFormed
      && (Platform in g.scopes || Tenant in g.scopes || (Own in g.scopes && (t.requester == user || t.assignee == Some(user))))
  {
    MayAccessIff(g, user, TicketResource(t));
  }

  // ------------------------------------------------------------------
  // Filters
  // ------------------------------------------------------------------

  datatype Filters = Filters(
    status: seq<nat>,
    priority: seq<nat>,
    kind: seq<nat>,
    channel: seq<nat>,
    assignee: seq<UserId>,
    requester: seq<UserId>,
    group: seq<GroupId>,
    createdAfter: Option<int>,
    createdBefore: Option<int>,
    updatedAfter: Option<int>,
    updatedBefore: Option<int>,
    dueAfter: Option<int>,
    dueBefore: Option<int>,
    hasAttachments: Option<bool>,
    hasComments: Option<bool>,
    query: string,
    requesterOrAssignee: Option<UserId>,
    assignedGroups: Option<seq<GroupId>>)

  predicate Within(from: Option<int>, to: Option<int>, x: int) {
    (from.Some? ==> from.value <= x) && (to.Some? ==> x <= to.value)
  }

  /** Date bounds are inclusive, and each holds by itself. */
  lemma BoundsAreInclusive(from: Option<int>, to: Option<int>, a: int, x: int)
    ensures Within(from, to, x) <==> Within(from, None, x) && Within(None, to, x)
    ensures Within(None, None, x)
    ensures Within(Some(a), None, x) <==> x == a || a < x
    ensures Within(None, Some(a), x) <==> x == a || x < a
  {}

  /** What the scope part of the filters asks of a ticket. */
  predicate InScope(f: Filters, t: Ticket) {
    || (f.requesterOrAssignee.None? && f.assignedGroups.None?)
    || (f.requesterOrAssignee.Some?
        && (t.requester == f.requesterOrAssignee.value || t.assignee == f.requesterOrAssignee))
    || (f.assignedGroups.Some? && t.group.Some? && t.group.value in f.assignedGroups.value)
  }

  ghost predicate TextWanted(fold: Folding, query: string, t: Ticket) {
    query != "" ==> exists s :: s in t.texts && Contains(fold, query, s)
  }

  /** What the filters other than the scope ask of a ticket. */
  ghost predicate Wanted(fold: Folding, f: Filters, t: Ticket) {
    && (f.status != [] ==> t.status in f.status)
    && (f.priority != [] ==> t.priority in f.priority)
    && (f.kind != [] ==> t.kind in f.kind)
    && (f.channel != [] ==> t.channel in f.channel)
    && (f.assignee != [] ==> t.assignee.Some? && t.assignee.value in f.assignee)
    && (f.requester != [] ==> t.requester in f.requester)
    && (f.group != [] ==> t.group.Some? && t.group.value in f.group)
    && Within(f.createdAfter, f.createdBefore, t.createdAt)
    && Within(f.updatedAfter, f.updatedBefore, t.updatedAt)
    && (f.dueAfter.Some? || f.dueBefore.Some? ==> t.dueDate.Some? && Within(f.dueAfter, f.dueBefore, t.dueDate.value))
    && (f.hasAttachments.Some? ==> f.hasAttachments.value == (t.attachments > 0))
    && (f.hasComments.Some? ==> f.hasComments.value == (t.comments > 0))
    && TextWanted(fold, f.query, t)
  }

  // ------------------------------------------------------------------
  // The query object
  // ------------------------------------------------------------------

  datatype Choice = RequesterIs(user: UserId) | AssigneeIs(user: UserId) | GroupIn(groups: seq<GroupId>)

  datatype Cond =
    | AnyOf(choices: seq<Choice>)
    | SomeTextLike(escaped: string)
    | AttachmentsExist(some: bool)
    | CommentsExist(some: bool)

  datatype Range = Range(gte: Option<int>, lte: Option<int>)

  /** Columns left at None are not looked at; noRow asks for an id from an empty list. */
  datatype Where = Where(
    tenant: nat,
    status: Option<seq<nat>>,
    priority: Option<seq<nat>>,
    kind: Option<seq<nat>>,
    channel: Option<seq<nat>>,
    assignee: Option<seq<UserId>>,
    requester: Option<seq<UserId>>,
    group: Option<seq<GroupId>>,
    noRow: bool,
    all: seq<Cond>,
    createdAt: Option<Range>,
    updatedAt: Option<Range>,
    dueDate: Option<Range>)

  predicate Fits(c: Choice, t: Ticket) {
    match c
    case RequesterIs(user) => t.requester == user
    case AssigneeIs(user) => t.assignee == Some(user)
    case GroupIn(groups) => t.group.Some? && t.group.value in groups
  }

  ghost predicate Holds(fold: Folding, c: Cond, t: Ticket) {
    match c
    case AnyOf(choices) => exists i :: 0 <= i < |choices| && Fits(choices[i], t)
    case SomeTextLike(escaped) => exists s :: s in t.texts && Like(fold, "%" + escaped + "%", s)
    case AttachmentsExist(some) => some == (t.attachments > 0)
    case CommentsExist(some) => some == (t.comments > 0)
  }

  ghost predicate AllHold(fold: Folding, all: seq<Cond>, t: Ticket) {
    all == [] || (AllHold(fold, all[..|all| - 1], t) && Holds(fold, all[|all| - 1], t))
  }

  predicate Among<T(==)>(listed: Option<seq<T>>, x: Option<T>) {
    listed.Some? ==> x.Some? && x.value in listed.value
  }

  predicate InRange(r: Option<Range>, x: Option<int>) {
    r.Some? ==> x.Some? && Within(r.value.gte, r.value.lte, x.value)
  }

  /** How the store evaluates the query: a missing value meets no comparison. */
  ghost predicate Passes(fold: Folding, w: Where, t: Ticket) {
    && t.tenant == w.tenant && !t.deleted && !w.noRow
    && Among(w.status, Some(t.status)) && Among(w.priority, Some(t.priority))
    && Among(w.kind, Some(t.kind)) && Among(w.channel, Some(t.channel))
    && Among(w.assignee, t.assignee) && Among(w.requester, Some(t.requester)) && Among(w.group, t.group)
    && InRange(w.createdAt, Some(t.createdAt)) && InRange(w.updatedAt, Some(t.updatedAt)) && InRange(w.dueDate, t.dueDate)
    && AllHold(fold, w.all, t)
  }

  datatype ScopeClause = Unrestricted | NoneVisible | OneOf(choices: seq<Choice>)

  method BuildScopeOrClause(f: Filters) returns (clause: ScopeClause)
    ensures clause.Unrestricted? <==> f.requesterOrAssignee.None? && f.assignedGroups.None?
    ensures clause.NoneVisible? ==> forall t :: !InScope(f, t)
    ensures clause.OneOf? ==> forall fold, t :: Holds(fold, AnyOf(clause.choices), t) <==> InScope(f, t)
  {
    if f.requesterOrAssignee.None? && f.assignedGroups.None? {
      return Unrestricted;
    }
    var scopeOr: seq<Choice> := [];
    if f.requesterOrAssignee.Some? {
      scopeOr := scopeOr + [RequesterIs(f.requesterOrAssignee.value), AssigneeIs(f.requesterOrAssignee.value)];
    }
    if f.assignedGroups.Some? && |f.assignedGroups.value| > 0 {
      scopeOr := scopeOr + [GroupIn(f.assignedGroups.value)];
    }
    if scopeOr == [] {
      return NoneVisible;
    }
    forall fold, t ensures Holds(fold, AnyOf(scopeOr), t) <==> InScope(f, t) {
      ScopeChoices(fold, f, scopeOr, t);
    }
    return OneOf(scopeOr);
  }

  lemma ScopeChoices(fold: Folding, f: Filters, choices: seq<Choice>, t: Ticket)
    requires choices != []
    requires choices ==
      (if f.requesterOrAssignee.Some?
       then [RequesterIs(f.requesterOrAssignee.value), AssigneeIs(f.requesterOrAssignee.value)] else [])
      + (if f.assignedGroups.Some? && |f.assignedGroups.value| > 0 then [GroupIn(f.assignedGroups.value)] else [])
    ensures Holds(fold, AnyOf(choices), t) <==> InScope(f, t)
  {
    forall i | 0 <= i < |choices| && Fits(choices[i], t) ensures InScope(f, t) {
      assert choices[i].RequesterIs? || choices[i].AssigneeIs? || choices[i].GroupIn?;
    }
    if f.requesterOrAssignee.Some? && t.requester == f.requesterOrAssignee.value {
      assert Fits(choices[0], t);
    } else if f.requesterOrAssignee.Some? && t.assignee == f.requesterOrAssignee {
      assert Fits(choices[1], t);
    } else if InScope(f, t) {
      assert Fits(choices[|choices| - 1], t);
    }
  }

  /** One more condition beside the others, if it is called for. */
  method AddWhen(all: seq<Cond>, b: bool, c: Cond) returns (more: seq<Cond>)
    ensures forall fold, t :: AllHold(fold, more, t) <==> AllHold(fold, all, t) && (b ==> Holds(fold, c, t))
  {
    more := all;
    if b {
      more := more + [c];
      assert more[..|more| - 1] == all;
    }
  }

  lemma TextLikeIsContains(fold: Folding, query: string, t: Ticket)
    requires query != ""
    ensures Holds(fold, SomeTextLike(EscapeLikePattern(query)), t) <==> TextWanted(fold, query, t)
  {
    forall s | s in t.texts
      ensures Like(fold, "%" + EscapeLikePattern(query) + "%", s) <==> Contains(fold, query, s)
    {
      SearchIsLiteral(fold, query, s);
    }
  }

  /** The conditions beside the columns, and whether the scope leaves no row at all. */
  method BuildAndConditions(f: Filters) returns (all: seq<Cond>, noRow: bool)
    ensures forall fold, t ::
      !noRow && AllHold(fold, all, t) <==>
        InScope(f, t) && TextWanted(fold, f.query, t)
        && (f.hasAttachments.Some? ==> f.hasAttachments.value == (t.attachments > 0))
        && (f.hasComments.Some? ==> f.hasComments.value == (t.comments > 0))
  {
    var scopeOr := BuildScopeOrClause(f);
    noRow := scopeOr.NoneVisible?;
    all := AddWhen([], scopeOr.OneOf?, AnyOf(if scopeOr.OneOf? then scopeOr.choices else []));
    all := AddWhen(all, f.query != "", SomeTextLike(EscapeLikePattern(f.query)));
    all := AddWhen(all, f.hasAttachments.Some?, AttachmentsExist(f.hasAttachments == Some(true)));
    all := AddWhen(all, f.hasComments.Some?, CommentsExist(f.hasComments == Some(true)));
    if f.query != "" {
      forall fold, t ensures Holds(fold, SomeTextLike(EscapeLikePattern(f.query)), t) <==> TextWanted(fold, f.query, t) {
        TextLikeIsContains(fold, f.query, t);
      }
    }
  }

  function Given<T>(xs: seq<T>): Option<seq<T>> {
    if |xs| > 0 then Some(xs) else None
  }

  function Bounds(from: Option<int>, to: Option<int>): Option<Range> {
    if from.Some? || to.Some? then Some(Range(from, to)) else None
  }

  /** Whatever the filters, the query asks for a live ticket of the tenant that is in scope and wanted. */
  method BuildWhereClause(tenant: nat, f: Filters) returns (where: Where)
    ensures forall fold, t ::
      Passes(fold, where, t) <==> t.tenant == tenant && !t.deleted && InScope(f, t) && Wanted(fold, f, t)
  {
    where := Where(tenant, None, None, None, None, None, None, None, false, [], None, None, None);
    where := where.(status := Given(f.status), priority := Given(f.priority));
    where := where.(kind := Given(f.kind), channel := Given(f.channel));
    where := where.(assignee := Given(f.assignee), requester := Given(f.requester), group := Given(f.group));
    var all, noRow := BuildAndConditions(f);
    where := where.(noRow := noRow, all := all);
    where := where.(createdAt := Bounds(f.createdAfter, f.createdBefore));
    where := where.(updatedAt := Bounds(f.updatedAfter, f.updatedBefore));
    where := where.(dueDate := Bounds(f.dueAfter, f.dueBefore));
  }

  // ------------------------------------------------------------------
  // Scope filters
  // ------------------------------------------------------------------

  datatype ListScope = Denied | TenantWide | Filtered(requesterOrAssignee: Option<UserId>, assignedGroups: Option<seq<GroupId>>)

  method ResolveListScopeFilter(g: Grants, user: UserId) returns (r: ListScope)
    ensures r.Denied? ==> forall t :: !Can(g, user, Some(TicketResource(t)))
    ensures !r.Denied? ==> Can(g, user, None)
    ensures r.TenantWide? ==> forall t :: Can(g, user, Some(TicketResource(t)))
    ensures r.Filtered? ==> (r.requesterOrAssignee.Some? || r.assignedGroups.Some?)
    ensures r.Filtered? ==> forall f: Filters, t ::
      InScope(f.(requesterOrAssignee := r.requesterOrAssignee, assignedGroups := r.assignedGroups), t)
      <==> Can(g, user, Some(TicketResource(t)))
  {
    if !g.wellFormed || |g.scopes| == 0 {
      return Denied;
    }
    if Tenant in g.scopes || Platform in g.scopes {
      return TenantWide;
    }
    var own: Option<UserId>, groups: Option<seq<GroupId>> := None, None;
    if Own in g.scopes {
      own := Some(user);
    }
    if Group in g.scopes {
      groups := Some([]);
    }
    if own == None && groups == None {
      return Denied;
    }
    return Filtered(own, groups);
  }

  /**
   The list a search returns for an actor is exactly the live tickets of the tenant that the other filters
   want and that the actor may read one by one; without any usable scope the search is refused, and then
   no ticket may be read.
   */
  method SearchTickets(g: Grants, user: UserId, tenant: nat, wanted: Filters) returns (where: Option<Where>)
    requires wanted.requesterOrAssignee == None && wanted.assignedGroups == None
    ensures where.None? ==> forall t :: !Can(g, user, Some(TicketResource(t)))
    ensures where.Some? ==> forall fold, t ::
      Passes(fold, where.value, t) <==>
        t.tenant == tenant && !t.deleted && Can(g, user, Some(TicketResource(t))) && Wanted(fold, wanted, t)
  {
    var scopeFilter := ResolveListScopeFilter(g, user);
    if scopeFilter.Denied? {
      return None;
    }
    var filters := wanted;
    if scopeFilter.Filtered? {
      filters := filters.(requesterOrAssignee := scopeFilter.requesterOrAssignee,
                          assignedGroups := scopeFilter.assignedGroups);
    }
    var query := BuildWhereClause(tenant, filters);
    return Some(query);
  }
}
