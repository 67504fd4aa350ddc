/**
 SLA policies and business schedules of one tenant: creation, draft edits and publication,
 and what they guarantee to the ticket a policy is matched to.
 */
module SlaConfig {
  import opened Wrappers
  import opened Publication
  import opened SlaMatcher

  type Key = string

  datatype ScheduleContent = ScheduleContent(timeZone: string, weeklyHours: string, holidays: string)

  datatype Config = Config(schedules: map<Key, Document<ScheduleContent>>, policies: map<Key, Document<PolicyContent>>)

  /** Fields left out of an edit keep their value. */
  datatype ScheduleEdit = ScheduleEdit(timeZone: Option<string>, weeklyHours: Option<string>, holidays: Option<string>)

  datatype PolicyEdit = PolicyEdit(
    priority: Option<int>,
    priorities: Option<seq<nat>>,
    kinds: Option<seq<nat>>,
    channels: Option<seq<nat>>,
    scheduleKey: Option<string>,
    responseMinutes: Option<int>,
    resolutionMinutes: Option<int>,
    warningThresholdPercent: Option<int>,
    pauseOnPending: Option<bool>,
    pauseOnHold: Option<bool>,
    restartResolutionOnReopen: Option<bool>)

  datatype Op =
    | CreateSchedule(key: Key, schedule: ScheduleContent)
    | EditSchedule(key: Key, scheduleEdit: ScheduleEdit)
    | PublishSchedule(key: Key)
    | CreatePolicy(key: Key, policy: PolicyContent)
    | EditPolicy(key: Key, policyEdit: PolicyEdit)
    | PublishPolicy(key: Key)

  datatype Refusal = NotFound | AlreadyExists | BadKey | BadTargets | NoDraft | ScheduleNotPublished | PriorityTaken

  function Or<T>(given: Option<T>, current: T): T {
    if given.Some? then given.value else current
  }

  function ScheduleEdited(e: ScheduleEdit, s: ScheduleContent): ScheduleContent {
    ScheduleContent(Or(e.timeZone, s.timeZone), Or(e.weeklyHours, s.weeklyHours), Or(e.holidays, s.holidays))
  }

  function PolicyEdited(e: PolicyEdit, p: PolicyContent): PolicyContent {
    PolicyContent(Or(e.priority, p.priority), Or(e.priorities, p.priorities), Or(e.kinds, p.kinds), Or(e.channels, p.channels),
                  Or(e.scheduleKey, p.scheduleKey), Or(e.responseMinutes, p.responseMinutes),
                  Or(e.resolutionMinutes, p.resolutionMinutes), Or(e.warningThresholdPercent, p.warningThresholdPercent),
                  Or(e.pauseOnPending, p.pauseOnPending), Or(e.pauseOnHold, p.pauseOnHold),
                  Or(e.restartResolutionOnReopen, p.restartResolutionOnReopen))
  }

  predicate ValidTargets(p: PolicyContent) {
    p.responseMinutes > 0 && p.resolutionMinutes > 0
  }

  function LiveSchedule(c: Config, key: Key): Option<Version<ScheduleContent>> {
    if key in c.schedules then Resolve(c.schedules[key]) else None
  }

  function LivePolicy(c: Config, key: Key): Option<Version<PolicyContent>> {
    if key in c.policies then Resolve(c.policies[key]) else None
  }

  /** Another policy already has a published version of this priority. */
  predicate PriorityTakenBy(c: Config, key: Key, other: Key, priority: int) {
    && other in c.policies && other != key
    && exists v :: v in c.policies[other].versions && v.state == Published && v.content.priority == priority
  }

  predicate PriorityInUse(c: Config, key: Key, priority: int) {
    exists other :: other in c.policies && PriorityTakenBy(c, key, other, priority)
  }

  function Next(c: Config, op: Op): Result<Config, Refusal>
    requires forall k :: k in c.schedules ==> c.schedules[k].versions != []
    requires forall k :: k in c.policies ==> c.policies[k].versions != []
  {
    var key := op.key;
    match op
    case CreateSchedule(_, content) =>
      if key != "default" then Err(BadKey)
      else if key in c.schedules then Err(AlreadyExists)
      else Ok(c.(schedules := c.schedules[key := NewDocument(content)]))
    case EditSchedule(_, edit) =>
      if key !in c.schedules then Err(NotFound)
      else
        var d := c.schedules[key];
        Ok(c.(schedules := c.schedules[key := Edited(d, ScheduleEdited(edit, Base(d).content))]))
    case PublishSchedule(_) =>
      if key !in c.schedules then Err(NotFound)
      else if !HasDraft(c.schedules[key]) then Err(NoDraft)
      else Ok(c.(schedules := c.schedules[key := PublishedDraft(c.schedules[key])]))
    case CreatePolicy(_, content) =>
      if !ValidTargets(content) then Err(BadTargets)
      else if key == "" then Err(BadKey)
      else if key in c.policies then Err(AlreadyExists)
      else Ok(c.(policies := c.policies[key := NewDocument(content)]))
    case EditPolicy(_, edit) =>
      if key !in c.policies then Err(NotFound)
      else
        var d := c.policies[key];
        var content := PolicyEdited(edit, Base(d).content);
        if (edit.responseMinutes.Some? || edit.resolutionMinutes.Some?) && !ValidTargets(PolicyEdited(edit, Latest(d).content))
        then Err(BadTargets)
        else Ok(c.(policies := c.policies[key := Edited(d, content)]))
    case PublishPolicy(_) =>
      if key !in c.policies then Err(NotFound)
      else if !HasDraft(c.policies[key]) then Err(NoDraft)
      else
        var draft := c.policies[key].versions[DraftIn(c.policies[key])].content;
        if LiveSchedule(c, draft.scheduleKey).None? then Err(ScheduleNotPublished)
        else if PriorityInUse(c, key, draft.priority) then Err(PriorityTaken)
        else Ok(c.(policies := c.policies[key := PublishedDraft(c.policies[key])]))
  }

  // ------------------------------------------------------------------
  // The invariant
  // ------------------------------------------------------------------

  ghost predicate SoundSchedules(c: Config) {
    forall k :: k in c.schedules ==> Sound(c.schedules[k])
  }

  ghost predicate SoundPolicy(d: Document<PolicyContent>) {
    Sound(d) && forall i :: 0 <= i < |d.versions| ==> ValidTargets(d.versions[i].content)
  }

  ghost predicate SoundPolicies(c: Config) {
    forall k :: k in c.policies ==> SoundPolicy(c.policies[k])
  }

  ghost predicate DistinctPriorities(c: Config) {
    forall k, l :: k != l && LivePolicy(c, k).Some? && LivePolicy(c, l).Some? ==>
      LivePolicy(c, k).value.content.priority != LivePolicy(c, l).value.content.priority
  }

  ghost predicate SchedulesResolve(c: Config) {
    forall k :: LivePolicy(c, k).Some? ==> LiveSchedule(c, LivePolicy(c, k).value.content.scheduleKey).Some?
  }

  ghost predicate Valid(c: Config) {
    SoundSchedules(c) && SoundPolicies(c) && DistinctPriorities(c) && SchedulesResolve(c)
  }

  /** Every document of the earlier configuration is there later, its published content untouched. */
  ghost predicate Follows(before: Config, after: Config) {
    && (forall k :: k in before.schedules ==> k in after.schedules && Succeeds(before.schedules[k], after.schedules[k]))
    && (forall k :: k in before.policies ==> k in after.policies && Succeeds(before.policies[k], after.policies[k]))
  }

  // ------------------------------------------------------------------
  // The services
  // ------------------------------------------------------------------

  class SlaConfigStore {
    var schedules: map<Key, Document<ScheduleContent>>
    var policies: map<Key, Document<PolicyContent>>

    ghost function View(): Config
      reads this
    {
      Config(schedules, policies)
    }

    constructor ()
      ensures View() == Config(map[], map[])
    {
      schedules, policies := map[], map[];
    }

    method FindPublishedScheduleVersion(key: Key) returns (r: Option<Version<ScheduleContent>>)
      requires SoundSchedules(View())
      ensures r == LiveSchedule(View(), key)
    {
      if key !in schedules || schedules[key].active == None {
        return None;
      }
      var versions, active := schedules[key].versions, schedules[key].active.value;
      ResolvesIff(schedules[key]);
      for i := 0 to |versions|
        invariant forall k :: 0 <= k < i ==> !(versions[k].state == Published && versions[k].number == active)
      {
        if versions[i].state == Published && versions[i].number == active {
          return Some(versions[i]);
        }
      }
      return None;
    }

    method CreateSchedule(key: Key, content: ScheduleContent) returns (r: Result<(), Refusal>)
      requires Valid(View())
      modifies this`schedules
      ensures Performed(old(View()), View(), Op.CreateSchedule(key, content), r)
    {
      if key != "default" {
        return Err(BadKey);
      }
      if key in schedules {
        return Err(AlreadyExists);
      }
      schedules := schedules[key := Document([Version(1, Draft, content)], None)];
      return Ok(());
    }

    method UpdateScheduleDraft(key: Key, edit: ScheduleEdit) returns (r: Result<(), Refusal>)
      requires Valid(View())
      modifies this`schedules
      ensures Performed(old(View()), View(), EditSchedule(key, edit), r)
    {
      if key !in schedules {
        return Err(NotFound);
      }
      var d := schedules[key];
      var at := DraftIn(d);
      if at == |d.versions| {
        var latest := d.versions[|d.versions| - 1];
        var draft := Version(latest.number + 1, Draft, ScheduleEdited(edit, latest.content));
        schedules := schedules[key := d.(versions := d.versions + [draft])];
      } else {
        var draft := d.versions[at].(content := ScheduleEdited(edit, d.versions[at].content));
        schedules := schedules[key := d.(versions := d.versions[at := draft])];
      }
      return Ok(());
    }

    method PublishSchedule(key: Key) returns (r: Result<(), Refusal>)
      requires Valid(View())
      modifies this`schedules
      ensures Performed(old(View()), View(), Op.PublishSchedule(key), r)
    {
      if key !in schedules {
        return Err(NotFound);
      }
      var d := schedules[key];
      if DraftIn(d) == |d.versions| {
        return Err(NoDraft);
      }
      var published := PublishDraft(d);
      schedules := schedules[key := published];
      return Ok(());
    }

    method CreatePolicy(key: Key, content: PolicyContent) returns (r: Result<(), Refusal>)
      requires Valid(View())
      modifies this`policies
      ensures Performed(old(View()), View(), Op.CreatePolicy(key, content), r)
    {
      if content.responseMinutes <= 0 || content.resolutionMinutes <= 0 {
        return Err(BadTargets);
      }
      if key == "" {
        return Err(BadKey);
      }
      if key in policies {
        return Err(AlreadyExists);
      }
      policies := policies[key := Document([Version(1, Draft, content)], None)];
      return Ok(());
    }

    method UpdatePolicyDraft(key: Key, edit: PolicyEdit) returns (r: Result<(), Refusal>)
      requires Valid(View())
      modifies this`policies
      ensures Performed(old(View()), View(), EditPolicy(key, edit), r)
    {
      if key !in policies {
        return Err(NotFound);
      }
      var d := policies[key];
      var at := DraftIn(d);
      var latest := d.versions[|d.versions| - 1];
      if edit.responseMinutes.Some? || edit.resolutionMinutes.Some? {
        if Or(edit.responseMinutes, latest.content.responseMinutes) <= 0
           || Or(edit.resolutionMinutes, latest.content.resolutionMinutes) <= 0 {
          return Err(BadTargets);
        }
      }
      if at == |d.versions| {
        var draft := Version(latest.number + 1, Draft, PolicyEdited(edit, latest.content));
        policies := policies[key := d.(versions := d.versions + [draft])];
      } else {
        var draft := d.versions[at].(content := PolicyEdited(edit, d.versions[at].content));
        policies := policies[key := d.(versions := d.versions[at := draft])];
      }
      return Ok(());
    }

    method PublishPolicy(key: Key) returns (r: Result<(), Refusal>)
      requires Valid(View())
      modifies this`policies
      ensures Performed(old(View()), View(), Op.PublishPolicy(key), r)
    {
      if key !in policies {
        return Err(NotFound);
      }
      var d := policies[key];
      var at := DraftIn(d);
      if at == |d.versions| {
        return Err(NoDraft);
      }
      var draft := d.versions[at].content;
      var schedule := FindPublishedScheduleVersion(draft.scheduleKey);
      if schedule == None {
        return Err(ScheduleNotPublished);
      }
      if exists other :: other in policies && PriorityTakenBy(Config(schedules, policies), key, other, draft.priority) {
        return Err(PriorityTaken);
      }
      var published := PublishDraft(d);
      policies := policies[key := published];
      return Ok(());
    }
  }

  ghost predicate Performed(before: Config, after: Config, op: Op, r: Result<(), Refusal>)
    requires Valid(before)
  {
    match Next(before, op)
    case Ok(next) => r == Ok(()) && after == next
    case Err(e) => r == Err(e) && after == before
  }

  // ------------------------------------------------------------------
  // Runs
  // ------------------------------------------------------------------

  lemma SchedulesOnlyGain(before: Config, after: Config)
    requires Valid(before) && SoundSchedules(after) && after.policies == before.policies
    requires forall k :: k in before.schedules ==> k in after.schedules && Succeeds(before.schedules[k], after.schedules[k])
    ensures Valid(after)
  {
    forall k ensures LiveSchedule(before, k).Some? ==> LiveSchedule(after, k).Some? {
      if k in before.schedules {
        ResolvesIff(before.schedules[k]);
        ResolvesIff(after.schedules[k]);
      }
    }
    assert forall k :: LivePolicy(after, k) == LivePolicy(before, k);
  }

  lemma PublishPolicyKeeps(c: Config, key: Key)
    requires Valid(c) && Next(c, PublishPolicy(key)).Ok?
    ensures Valid(Next(c, PublishPolicy(key)).value)
  {
    var after := Next(c, PublishPolicy(key)).value;
    var d := c.policies[key];
    var draft := d.versions[DraftIn(d)];
    assert SoundPolicy(d);
    PublishKeeps(d);
    PublishResolves(d);
    assert SoundPolicy(after.policies[key]);
    assert LivePolicy(after, key) == Some(draft.(state := Published));
    forall k | k != key ensures LivePolicy(after, k) == LivePolicy(c, k)
      && (LivePolicy(c, k).Some? ==> LivePolicy(c, k).value.content.priority != draft.content.priority)
    {
      if LivePolicy(c, k).Some? {
        ResolvesIff(c.policies[k]);
        assert !PriorityTakenBy(c, key, k, draft.content.priority);
      }
    }
    assert forall k :: LiveSchedule(after, k) == LiveSchedule(c, k);
  }

  lemma EditPolicyKeeps(c: Config, key: Key, edit: PolicyEdit)
    requires Valid(c) && Next(c, EditPolicy(key, edit)).Ok?
    ensures Valid(Next(c, EditPolicy(key, edit)).value)
  {
    var after := Next(c, EditPolicy(key, edit)).value;
    var d := c.policies[key];
    var content := PolicyEdited(edit, Base(d).content);
    EditKeeps(d, content);
    EditResolves(d, content);
    DraftIsLast(d);
    assert SoundPolicy(after.policies[key]);
    assert forall k :: LivePolicy(after, k) == LivePolicy(c, k);
    assert forall k :: LiveSchedule(after, k) == LiveSchedule(c, k);
  }

  lemma CreatePolicyKeeps(c: Config, key: Key, content: PolicyContent)
    requires Valid(c) && Next(c, CreatePolicy(key, content)).Ok?
    ensures Valid(Next(c, CreatePolicy(key, content)).value)
  {
    var after := Next(c, CreatePolicy(key, content)).value;
    assert forall k :: LivePolicy(after, k) == LivePolicy(c, k);
    assert forall k :: LiveSchedule(after, k) == LiveSchedule(c, k);
  }

  lemma ScheduleStepKeeps(c: Config, key: Key, d: Document<ScheduleContent>)
    requires Valid(c) && Sound(d) && (key in c.schedules ==> Succeeds(c.schedules[key], d))
    ensures var after := c.(schedules := c.schedules[key := d]); Valid(after) && Follows(c, after)
  {
    SchedulesOnlyGain(c, c.(schedules := c.schedules[key := d]));
  }

  lemma PolicyStepFollows(c: Config, key: Key, d: Document<PolicyContent>)
    requires key in c.policies ==> Succeeds(c.policies[key], d)
    ensures Follows(c, c.(policies := c.policies[key := d]))
  {}

  lemma NextKeeps(c: Config, op: Op)
    requires Valid(c) && Next(c, op).Ok?
    ensures Valid(Next(c, op).value) && Follows(c, Next(c, op).value)
  {
    match op
    case CreateSchedule(key, content) =>
      ScheduleStepKeeps(c, key, NewDocument(content));
    case EditSchedule(key, edit) =>
      var d := c.schedules[key];
      EditKeeps(d, ScheduleEdited(edit, Base(d).content));
      ScheduleStepKeeps(c, key, Edited(d, ScheduleEdited(edit, Base(d).content)));
    case PublishSchedule(key) =>
      PublishKeeps(c.schedules[key]);
      ScheduleStepKeeps(c, key, PublishedDraft(c.schedules[key]));
    case CreatePolicy(key, content) =>
      CreatePolicyKeeps(c, key, content);
      PolicyStepFollows(c, key, NewDocument(content));
    case EditPolicy(key, edit) =>
      var d := c.policies[key];
      assert SoundPolicy(d);
      EditKeeps(d, PolicyEdited(edit, Base(d).content));
      EditPolicyKeeps(c, key, edit);
      PolicyStepFollows(c, key, Edited(d, PolicyEdited(edit, Base(d).content)));
    case PublishPolicy(key) =>
      assert SoundPolicy(c.policies[key]);
      PublishKeeps(c.policies[key]);
      PublishPolicyKeeps(c, key);
      PolicyStepFollows(c, key, PublishedDraft(c.policies[key]));
  }

  lemma FollowsTransitive(a: Config, b: Config, c: Config)
    requires Follows(a, b) && Follows(b, c)
    ensures Follows(a, c)
  {
    forall k | k in a.schedules ensures k in c.schedules && Succeeds(a.schedules[k], c.schedules[k]) {
      SucceedsTransitive(a.schedules[k], b.schedules[k], c.schedules[k]);
    }
    forall k | k in a.policies ensures k in c.policies && Succeeds(a.policies[k], c.policies[k]) {
      SucceedsTransitive(a.policies[k], b.policies[k], c.policies[k]);
    }
  }

  ghost function Run(ops: seq<Op>): (c: Config)
    ensures Valid(c)
  {
    if ops == [] then Config(map[], map[])
    else
      var before, op := Run(ops[..|ops| - 1]), ops[|ops| - 1];
      match Next(before, op)
      case Err(_) => before
      case Ok(after) => NextKeeps(before, op); after
  }

  lemma {:induction false} RunFollows(ops: seq<Op>, n: nat)
    requires n <= |ops|
    ensures Follows(Run(ops[..n]), Run(ops))
    decreases |ops|
  {
    if n == |ops| {
      assert ops[..n] == ops;
    } else {
      var before, op := Run(ops[..|ops| - 1]), ops[|ops| - 1];
      RunFollows(ops[..|ops| - 1], n);
      assert ops[..|ops| - 1][..n] == ops[..n];
      if Next(before, op).Ok? {
        NextKeeps(before, op);
        FollowsTransitive(Run(ops[..n]), before, Run(ops));
      }
    }
  }

  /** Published and retired versions keep their content for ever. */
  lemma PublishedContentIsFrozen(ops: seq<Op>, n: nat, key: Key, i: nat)
    requires n <= |ops| && key in Run(ops[..n]).policies
    requires var vs := Run(ops[..n]).policies[key].versions; i < |vs| && vs[i].state != Draft
    ensures key in Run(ops).policies && i < |Run(ops).policies[key].versions|
    ensures Run(ops).policies[key].versions[i].content == Run(ops[..n]).policies[key].versions[i].content
    ensures Run(ops).policies[key].versions[i].state != Draft
  {
    RunFollows(ops, n);
  }

  /** cs lists the published policy versions, in any order. */
  ghost predicate Lists(c: Config, cs: seq<Candidate>) {
    forall cand :: cand in cs <==>
      cand.policy in c.policies
      && exists v :: v in c.policies[cand.policy].versions && v.state == Published && v.content == cand.content
  }

  /**
   Whatever was configured, a matching ticket gets one policy whatever order the policies are
   listed in: the only match of least priority. Its schedule resolves and its targets are positive.
   */
  lemma MatchIsUniqueAndHasItsSchedule(ops: seq<Op>, cs: seq<Candidate>, t: TicketAttributes, r: Option<Candidate>)
    requires Lists(Run(ops), cs) && IsChoice(cs, t, r) && r.Some?
    ensures LiveSchedule(Run(ops), r.value.content.scheduleKey).Some?
    ensures ValidTargets(r.value.content)
    ensures forall cand :: cand in cs && Matches(cand, t) && cand != r.value ==>
              r.value.content.priority < cand.content.priority
  {
    var c := Run(ops);
    forall cand | cand in cs
      ensures LivePolicy(c, cand.policy).Some? && LivePolicy(c, cand.policy).value.content == cand.content
    {
      ResolvesIff(c.policies[cand.policy]);
    }
    assert SoundPolicy(c.policies[r.value.policy]);
  }

  // ------------------------------------------------------------------
  // What each request does, field by field
  // ------------------------------------------------------------------

  /** A field is the given value if one was given, and otherwise stays. */
  ghost predicate Edits<T>(given: Option<T>, before: T, after: T) {
    match given
    case None => after == before
    case Some(v) => after == v
  }

  /** Only the policy under the key may differ. */
  ghost predicate OnlyPolicy(before: Config, after: Config, key: Key) {
    && after.schedules == before.schedules
    && after.policies.Keys == before.policies.Keys + {key}
    && forall k :: k in before.policies && k != key ==> after.policies[k] == before.policies[k]
  }

  ghost predicate OnlySchedule(before: Config, after: Config, key: Key) {
    && after.policies == before.policies
    && after.schedules.Keys == before.schedules.Keys + {key}
    && forall k :: k in before.schedules && k != key ==> after.schedules[k] == before.schedules[k]
  }

  /** An edit of a policy leaves a draft in which the fields given have the given values and no other changed. */
  lemma PolicyEditsSetGivenFields(ops: seq<Op>, key: Key, edit: PolicyEdit)
    requires Next(Run(ops), EditPolicy(key, edit)).Ok?
    ensures
      var before, after := Run(ops), Next(Run(ops), EditPolicy(key, edit)).value;
      && key in before.policies && OnlyPolicy(before, after, key)
      && var old', new' := Latest(before.policies[key]), Latest(after.policies[key]);
         && new'.state == Draft
         && Edits(edit.priority, old'.content.priority, new'.content.priority)
         && Edits(edit.priorities, old'.content.priorities, new'.content.priorities)
         && Edits(edit.kinds, old'.content.kinds, new'.content.kinds)
         && Edits(edit.channels, old'.content.channels, new'.content.channels)
         && Edits(edit.scheduleKey, old'.content.scheduleKey, new'.content.scheduleKey)
         && Edits(edit.responseMinutes, old'.content.responseMinutes, new'.content.responseMinutes)
         && Edits(edit.resolutionMinutes, old'.content.resolutionMinutes, new'.content.resolutionMinutes)
         && Edits(edit.warningThresholdPercent, old'.content.warningThresholdPercent, new'.content.warningThresholdPercent)
         && Edits(edit.pauseOnPending, old'.content.pauseOnPending, new'.content.pauseOnPending)
         && Edits(edit.pauseOnHold, old'.content.pauseOnHold, new'.content.pauseOnHold)
         && Edits(edit.restartResolutionOnReopen, old'.content.restartResolutionOnReopen, new'.content.restartResolutionOnReopen)
  {
    var d := Run(ops).policies[key];
    assert SoundPolicy(d);
    DraftIsLast(d);
    EditLeavesADraft(d, PolicyEdited(edit, Base(d).content));
  }

  lemma ScheduleEditsSetGivenFields(ops: seq<Op>, key: Key, edit: ScheduleEdit)
    requires Next(Run(ops), EditSchedule(key, edit)).Ok?
    ensures
      var before, after := Run(ops), Next(Run(ops), EditSchedule(key, edit)).value;
      && key in before.schedules && OnlySchedule(before, after, key)
      && var old', new' := Latest(before.schedules[key]), Latest(after.schedules[key]);
         && new'.state == Draft
         && Edits(edit.timeZone, old'.content.timeZone, new'.content.timeZone)
         && Edits(edit.weeklyHours, old'.content.weeklyHours, new'.content.weeklyHours)
         && Edits(edit.holidays, old'.content.holidays, new'.content.holidays)
  {
    var d := Run(ops).schedules[key];
    DraftIsLast(d);
    EditLeavesADraft(d, ScheduleEdited(edit, Base(d).content));
  }

  /** Created documents hold one draft, version 1. */
  lemma CreationsLeaveADraft(ops: seq<Op>, key: Key, policy: PolicyContent, schedule: ScheduleContent)
    ensures
      var before := Run(ops);
      (match Next(before, CreatePolicy(key, policy))
       case Ok(after) =>
         && OnlyPolicy(before, after, key) && key !in before.policies && key != ""
         && policy.responseMinutes > 0 && policy.resolutionMinutes > 0
         && after.policies[key] == Document([Version(1, Draft, policy)], None)
       case Err(e) =>
         || (e == BadTargets && (policy.responseMinutes <= 0 || policy.resolutionMinutes <= 0))
         || (e == BadKey && key == "") || (e == AlreadyExists && key in before.policies))
    ensures
      var before := Run(ops);
      (match Next(before, CreateSchedule(key, schedule))
       case Ok(after) =>
         && OnlySchedule(before, after, key) && key !in before.schedules && key == "default"
         && after.schedules[key] == Document([Version(1, Draft, schedule)], None)
       case Err(e) => (e == BadKey && key != "default") || (e == AlreadyExists && key in before.schedules))
  {
  }

  ghost predicate HasPublished<C>(d: Document<C>) {
    exists i :: 0 <= i < |d.versions| && d.versions[i].state == Published
  }

  lemma ResolvesIffPublished<C>(d: Document<C>)
    requires Sound(d)
    ensures Resolve(d).Some? <==> HasPublished(d)
  {
    ResolvesIff(d);
    if i :| 0 <= i < |d.versions| && d.versions[i].state == Published {
      assert d.versions[i] in d.versions;
    }
  }

  /** Some other policy has a published version of the priority. */
  ghost predicate OtherHasPriority(c: Config, key: Key, priority: int) {
    exists other, i :: other in c.policies && other != key && 0 <= i < |c.policies[other].versions|
      && c.policies[other].versions[i].state == Published && c.policies[other].versions[i].content.priority == priority
  }

  lemma PriorityInUseIff(c: Config, key: Key, priority: int)
    ensures PriorityInUse(c, key, priority) <==> OtherHasPriority(c, key, priority)
  {
    if PriorityInUse(c, key, priority) {
      var other :| other in c.policies && PriorityTakenBy(c, key, other, priority);
      var v :| v in c.policies[other].versions && v.state == Published && v.content.priority == priority;
      var i :| 0 <= i < |c.policies[other].versions| && c.policies[other].versions[i] == v;
    }
    if OtherHasPriority(c, key, priority) {
      var other, i :| other in c.policies && other != key && 0 <= i < |c.policies[other].versions|
        && c.policies[other].versions[i].state == Published && c.policies[other].versions[i].content.priority == priority;
      assert c.policies[other].versions[i] in c.policies[other].versions;
      assert PriorityTakenBy(c, key, other, priority);
    }
  }

  /**
   A policy is published exactly when its newest version is a draft, the schedule the draft names has a published
   version and no other policy has a published version of the draft's priority; otherwise the refusal says which.
   */
  lemma PolicyIsPublishedIff(ops: seq<Op>, key: Key)
    ensures
      var c := Run(ops);
      match Next(c, PublishPolicy(key))
      case Err(NotFound) => key !in c.policies
      case Err(NoDraft) => key in c.policies && Latest(c.policies[key]).state != Draft
      case Err(ScheduleNotPublished) =>
        && key in c.policies && Latest(c.policies[key]).state == Draft
        && var wanted := Latest(c.policies[key]).content.scheduleKey;
           !(wanted in c.schedules && HasPublished(c.schedules[wanted]))
      case Err(PriorityTaken) =>
        && key in c.policies && Latest(c.policies[key]).state == Draft
        && OtherHasPriority(c, key, Latest(c.policies[key]).content.priority)
      case Err(_) => false
      case Ok(after) =>
        && key in c.policies && Latest(c.policies[key]).state == Draft
        && var draft := Latest(c.policies[key]).content;
           && draft.scheduleKey in c.schedules && HasPublished(c.schedules[draft.scheduleKey])
           && !OtherHasPriority(c, key, draft.priority)
           && OnlyPolicy(c, after, key)
           && |after.policies[key].versions| == |c.policies[key].versions|
           && Latest(after.policies[key]) == Latest(c.policies[key]).(state := Published)
           && LivePolicy(after, key) == Some(Latest(after.policies[key]))
  {
    var c := Run(ops);
    if key in c.policies {
      var d := c.policies[key];
      assert SoundPolicy(d);
      DraftIff(d);
      DraftIsLast(d);
      PriorityInUseIff(c, key, Latest(d).content.priority);
      if Latest(d).content.scheduleKey in c.schedules {
        ResolvesIffPublished(c.schedules[Latest(d).content.scheduleKey]);
      }
      if HasDraft(d) {
        PublishingReplaces(d);
        PublishResolves(d);
      }
    }
  }

  /** A schedule is published exactly when its newest version is a draft. */
  lemma ScheduleIsPublishedIff(ops: seq<Op>, key: Key)
    ensures
      var c := Run(ops);
      match Next(c, PublishSchedule(key))
      case Err(NotFound) => key !in c.schedules
      case Err(NoDraft) => key in c.schedules && Latest(c.schedules[key]).state != Draft
      case Err(_) => false
      case Ok(after) =>
        && key in c.schedules && Latest(c.schedules[key]).state == Draft && OnlySchedule(c, after, key)
        && |after.schedules[key].versions| == |c.schedules[key].versions|
        && Latest(after.schedules[key]) == Latest(c.schedules[key]).(state := Published)
        && LiveSchedule(after, key) == Some(Latest(after.schedules[key]))
  {
    var c := Run(ops);
    if key in c.schedules {
      var d := c.schedules[key];
      DraftIff(d);
      DraftIsLast(d);
      if HasDraft(d) {
        PublishingReplaces(d);
        PublishResolves(d);
      }
    }
  }

  /** An edit is refused for a missing policy, or for minutes given that leave a target without time. */
  lemma PolicyEditsAreRefusedIff(ops: seq<Op>, key: Key, edit: PolicyEdit)
    ensures
      var c := Run(ops);
      var r := Next(c, EditPolicy(key, edit));
      && (r == Err(NotFound) <==> key !in c.policies)
      && (r == Err(BadTargets) <==>
            && key in c.policies && (edit.responseMinutes.Some? || edit.resolutionMinutes.Some?)
            && var last := Latest(c.policies[key]).content;
               || (if edit.responseMinutes.Some? then edit.responseMinutes.value else last.responseMinutes) <= 0
               || (if edit.resolutionMinutes.Some? then edit.resolutionMinutes.value else last.resolutionMinutes) <= 0)
      && (r.Err? ==> r.error == NotFound || r.error == BadTargets)
  {
  }

  /** An edit of a schedule is refused only if there is none. */
  lemma ScheduleEditsAreRefusedIff(ops: seq<Op>, key: Key, edit: ScheduleEdit)
    ensures Next(Run(ops), EditSchedule(key, edit)).Err? <==> key !in Run(ops).schedules
    ensures key !in Run(ops).schedules ==> Next(Run(ops), EditSchedule(key, edit)) == Err(NotFound)
  {}

  /** A run goes on from what its earlier requests left; a refused one changes nothing. */
  lemma RunOneMore(ops: seq<Op>, op: Op)
    ensures Run(ops + [op]) == match Next(Run(ops), op) case Ok(after) => after case Err(_) => Run(ops)
    ensures Run([]) == Config(map[], map[])
  {
    assert (ops + [op])[..|ops|] == ops;
  }
}
