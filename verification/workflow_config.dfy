/**
 Workflows of one tenant: versioned definitions under a priority no two live workflows share.
 Draft validation is a given rule on definitions; the outcome of publish validation, which
 looks at other tables, is given with the request.
 */
module WorkflowConfig {
  import opened Wrappers
  import opened Publication

  type Key = string

  datatype Definition = Definition(triggers: string, conditions: string, actions: string)

  type DraftRule = Definition -> bool

  datatype Workflow = Workflow(priority: int, deleted: bool, doc: Document<Definition>)

  type Workflows = map<Key, Workflow>

  datatype DefinitionEdit = DefinitionEdit(triggers: Option<string>, conditions: Option<string>, actions: Option<string>)

  datatype Op =
    | Create(key: Key, priority: int, definition: Definition)
    | EditDraft(key: Key, edit: DefinitionEdit, newPriority: Option<int>)
    | CloneDraft(key: Key, from: Option<nat>)
    | Publish(key: Key, publishable: bool)
    | SoftDelete(key: Key)

  datatype Refusal = NotFound | AlreadyExists | BadKey | BadPriority | BadDefinition | PriorityTaken | DraftExists | NoDraft

  predicate IsLive(ws: Workflows, key: Key) {
    key in ws && !ws[key].deleted
  }

  predicate UsesPriority(ws: Workflows, key: Key, priority: int) {
    IsLive(ws, key) && ws[key].priority == priority
  }

  predicate PriorityInUse(ws: Workflows, priority: int, except: Option<Key>) {
    exists k :: k in ws && UsesPriority(ws, k, priority) && except != Some(k)
  }

  function Merged(e: DefinitionEdit, d: Definition): Definition {
    Definition(if e.triggers.Some? then e.triggers.value else d.triggers,
               if e.conditions.Some? then e.conditions.value else d.conditions,
               if e.actions.Some? then e.actions.value else d.actions)
  }

  function Numbered(vs: seq<Version<Definition>>, number: nat): Option<Version<Definition>> {
    if vs == [] then None
    else if vs[|vs| - 1].number == number then Some(vs[|vs| - 1])
    else Numbered(vs[..|vs| - 1], number)
  }

  function HighestNumber(vs: seq<Version<Definition>>): nat {
    if vs == [] then 0
    else
      var rest := HighestNumber(vs[..|vs| - 1]);
      if rest < vs[|vs| - 1].number then vs[|vs| - 1].number else rest
  }

  /** The version to clone: the one asked for, else the published one, else the latest. */
  function CloneSource(d: Document<Definition>, from: Option<nat>): Option<Version<Definition>>
    requires d.versions != []
  {
    if from.Some? && from.value != 0 then Numbered(d.versions, from.value)
    else
      var i := NewestIn(d.versions, Published);
      Some(if i < |d.versions| then d.versions[i] else Latest(d))
  }

  function Cloned(d: Document<Definition>, content: Definition): Document<Definition> {
    d.(versions := d.versions + [Version(HighestNumber(d.versions) + 1, Draft, content)])
  }

  function Next(rule: DraftRule, ws: Workflows, op: Op): Result<Workflows, Refusal>
    requires forall k :: k in ws ==> ws[k].doc.versions != []
  {
    var key := op.key;
    match op
    case Create(_, priority, definition) =>
      if key == "" then Err(BadKey)
      else if priority <= 0 then Err(BadPriority)
      else if !rule(definition) then Err(BadDefinition)
      else if key in ws then Err(AlreadyExists)
      else if PriorityInUse(ws, priority, None) then Err(PriorityTaken)
      else Ok(ws[key := Workflow(priority, false, NewDocument(definition))])
    case EditDraft(_, edit, newPriority) =>
      if !IsLive(ws, key) then Err(NotFound)
      else
        var w := ws[key];
        var merged := Merged(edit, Base(w.doc).content);
        if !rule(merged) then Err(BadDefinition)
        else if newPriority.Some? && newPriority.value <= 0 then Err(BadPriority)
        else if newPriority.Some? && PriorityInUse(ws, newPriority.value, Some(key)) then Err(PriorityTaken)
        else Ok(ws[key := w.(doc := Edited(w.doc, merged),
                             priority := if newPriority.Some? then newPriority.value else w.priority)])
    case CloneDraft(_, from) =>
      if !IsLive(ws, key) then Err(NotFound)
      else if HasDraft(ws[key].doc) then Err(DraftExists)
      else
        var source := CloneSource(ws[key].doc, from);
        if source.None? then Err(NotFound)
        else Ok(ws[key := ws[key].(doc := Cloned(ws[key].doc, source.value.content))])
    case Publish(_, publishable) =>
      if !IsLive(ws, key) then Err(NotFound)
      else if !HasDraft(ws[key].doc) then Err(NoDraft)
      else if !publishable then Err(BadDefinition)
      else Ok(ws[key := ws[key].(doc := PublishedDraft(ws[key].doc))])
    case SoftDelete(_) =>
      if !IsLive(ws, key) then Err(NotFound)
      else Ok(ws[key := ws[key].(deleted := true)])
  }

  // ------------------------------------------------------------------
  // The invariant
  // ------------------------------------------------------------------

  ghost predicate SoundWorkflow(rule: DraftRule, w: Workflow) {
    && Sound(w.doc) && w.priority > 0
    && forall i :: 0 <= i < |w.doc.versions| ==> rule(w.doc.versions[i].content)
  }

  ghost predicate Valid(rule: DraftRule, ws: Workflows) {
    && (forall k :: k in ws ==> SoundWorkflow(rule, ws[k]))
    && (forall k, l :: k != l && IsLive(ws, k) && IsLive(ws, l) ==> ws[k].priority != ws[l].priority)
  }

  /** Deleted workflows stay as they were; the others keep their published content. */
  ghost predicate Follows(before: Workflows, after: Workflows) {
    forall k :: k in before ==>
      && k in after
      && Succeeds(before[k].doc, after[k].doc)
      && (before[k].deleted ==> after[k] == before[k])
  }

  // ------------------------------------------------------------------
  // The service
  // ------------------------------------------------------------------

  method MaxVersionNumber(vs: seq<Version<Definition>>) returns (highest: nat)
    ensures highest == HighestNumber(vs)
  {
    highest := 0;
    for i := 0 to |vs|
      invariant highest == HighestNumber(vs[..i])
    {
      assert vs[..i + 1][..i] == vs[..i];
      if highest < vs[i].number {
        highest := vs[i].number;
      }
    }
    assert vs[..|vs|] == vs;
  }

  class WorkflowStore {
    const rule: DraftRule
    var workflows: Workflows

    constructor (rule: DraftRule)
      ensures this.rule == rule && workflows == map[]
    {
      this.rule, workflows := rule, map[];
    }

    method FindByPriority(priority: int, except: Option<Key>) returns (found: bool)
      ensures found <==> PriorityInUse(workflows, priority, except)
    {
      found := false;
      var ws := workflows;
      var keys := ws.Keys;
      while keys != {}
        invariant keys <= ws.Keys && ws == workflows
        invariant forall k :: k in ws.Keys - keys ==> !(UsesPriority(ws, k, priority) && except != Some(k))
      {
        var k :| k in keys;
        if !ws[k].deleted && ws[k].priority == priority && except != Some(k) {
          return true;
        }
        keys := keys - {k};
      }
    }

    method CreateWorkflow(key: Key, priority: int, definition: Definition) returns (r: Result<(), Refusal>)
      requires Valid(rule, workflows)
      modifies this
      ensures Performed(rule, old(workflows), workflows, Create(key, priority, definition), r)
    {
      if key == "" {
        return Err(BadKey);
      }
      if priority <= 0 {
        return Err(BadPriority);
      }
      if !rule(definition) {
        return Err(BadDefinition);
      }
      if key in workflows {
        return Err(AlreadyExists);
      }
      var taken := FindByPriority(priority, None);
      if taken {
        return Err(PriorityTaken);
      }
      workflows := workflows[key := Workflow(priority, false, Document([Version(1, Draft, definition)], None))];
      return Ok(());
    }

    method UpdateDraft(key: Key, edit: DefinitionEdit, newPriority: Option<int>) returns (r: Result<(), Refusal>)
      requires Valid(rule, workflows)
      modifies this
      ensures Performed(rule, old(workflows), workflows, EditDraft(key, edit, newPriority), r)
    {
      if key !in workflows || workflows[key].deleted {
        return Err(NotFound);
      }
      var w := workflows[key];
      var at := DraftIn(w.doc);
      var latest := w.doc.versions[|w.doc.versions| - 1];
      var merged := Merged(edit, if at < |w.doc.versions| then w.doc.versions[at].content else latest.content);
      if !rule(merged) {
        return Err(BadDefinition);
      }
      if newPriority.Some? {
        if newPriority.value <= 0 {
          return Err(BadPriority);
        }
        var taken := FindByPriority(newPriority.value, Some(key));
        if taken {
          return Err(PriorityTaken);
        }
        w := w.(priority := newPriority.value);
      }
      var versions :=
        if at == |w.doc.versions| then w.doc.versions + [Version(latest.number + 1, Draft, merged)]
        else w.doc.versions[at := w.doc.versions[at].(content := merged)];
      workflows := workflows[key := w.(doc := w.doc.(versions := versions))];
      return Ok(());
    }

    method Clone(key: Key, from: Option<nat>) returns (r: Result<(), Refusal>)
      requires Valid(rule, workflows)
      modifies this
      ensures Performed(rule, old(workflows), workflows, CloneDraft(key, from), r)
    {
      if key !in workflows || workflows[key].deleted {
        return Err(NotFound);
      }
      var d := workflows[key].doc;
      if DraftIn(d) < |d.versions| {
        return Err(DraftExists);
      }
      var source := CloneSource(d, from);
      if source == None {
        return Err(NotFound);
      }
      var highest := MaxVersionNumber(d.versions);
      var draft := Version(highest + 1, Draft, source.value.content);
      workflows := workflows[key := workflows[key].(doc := d.(versions := d.versions + [draft]))];
      return Ok(());
    }

    method PublishWorkflow(key: Key, publishable: bool) returns (r: Result<(), Refusal>)
      requires Valid(rule, workflows)
      modifies this
      ensures Performed(rule, old(workflows), workflows, Publish(key, publishable), r)
    {
      if key !in workflows || workflows[key].deleted {
        return Err(NotFound);
      }
      var d := workflows[key].doc;
      if DraftIn(d) == |d.versions| {
        return Err(NoDraft);
      }
      if !publishable {
        return Err(BadDefinition);
      }
      var published := PublishDraft(d);
      workflows := workflows[key := workflows[key].(doc := published)];
      return Ok(());
    }

    method Delete(key: Key) returns (r: Result<(), Refusal>)
      requires Valid(rule, workflows)
      modifies this
      ensures Performed(rule, old(workflows), workflows, SoftDelete(key), r)
    {
      if key !in workflows || workflows[key].deleted {
        return Err(NotFound);
      }
      workflows := workflows[key := workflows[key].(deleted := true)];
      return Ok(());
    }
  }

  ghost predicate Performed(rule: DraftRule, before: Workflows, after: Workflows, op: Op, r: Result<(), Refusal>)
    requires Valid(rule, before)
  {
    match Next(rule, before, op)
    case Ok(next) => r == Ok(()) && after == next
    case Err(e) => r == Err(e) && after == before
  }

  // ------------------------------------------------------------------
  // Runs
  // ------------------------------------------------------------------

  lemma {:induction false} HighestIsLast(vs: seq<Version<Definition>>)
    requires forall i :: 0 <= i < |vs| ==> vs[i].number == i + 1
    ensures HighestNumber(vs) == |vs|
    decreases |vs|
  {
    if vs != [] { HighestIsLast(vs[..|vs| - 1]); }
  }

  lemma {:induction false} NumberedIsThere(vs: seq<Version<Definition>>, number: nat)
    requires Numbered(vs, number).Some?
    ensures Numbered(vs, number).value in vs && Numbered(vs, number).value.number == number
    decreases |vs|
  {
    if vs[|vs| - 1].number != number { NumberedIsThere(vs[..|vs| - 1], number); }
  }

  lemma CloneKeeps(rule: DraftRule, w: Workflow, from: Option<nat>)
    requires SoundWorkflow(rule, w) && !HasDraft(w.doc) && CloneSource(w.doc, from).Some?
    ensures var d := Cloned(w.doc, CloneSource(w.doc, from).value.content);
      SoundWorkflow(rule, w.(doc := d)) && Succeeds(w.doc, d)
  {
    HighestIsLast(w.doc.versions);
    if from.Some? && from.value != 0 {
      NumberedIsThere(w.doc.versions, from.value);
    }
    assert CloneSource(w.doc, from).value in w.doc.versions;
  }

  lemma ReplaceKeeps(rule: DraftRule, ws: Workflows, key: Key, w: Workflow)
    requires Valid(rule, ws) && SoundWorkflow(rule, w)
    requires key in ws ==> Succeeds(ws[key].doc, w.doc) && !ws[key].deleted
    requires !w.deleted ==> !PriorityInUse(ws, w.priority, Some(key))
    ensures Valid(rule, ws[key := w]) && Follows(ws, ws[key := w])
  {
    forall k | k != key && IsLive(ws, k) && !w.deleted ensures ws[k].priority != w.priority {
      assert !UsesPriority(ws, k, w.priority);
    }
  }

  lemma EditSound(rule: DraftRule, w: Workflow, content: Definition, priority: int)
    requires SoundWorkflow(rule, w) && rule(content) && priority > 0
    ensures SoundWorkflow(rule, w.(doc := Edited(w.doc, content), priority := priority))
    ensures Succeeds(w.doc, Edited(w.doc, content))
  {
    EditKeeps(w.doc, content);
    DraftIsLast(w.doc);
  }

  lemma PublishSound(rule: DraftRule, w: Workflow)
    requires SoundWorkflow(rule, w) && HasDraft(w.doc)
    ensures SoundWorkflow(rule, w.(doc := PublishedDraft(w.doc))) && Succeeds(w.doc, PublishedDraft(w.doc))
  {
    PublishKeeps(w.doc);
    forall i | 0 <= i < |w.doc.versions| ensures rule(PublishedDraft(w.doc).versions[i].content) {
      assert rule(w.doc.versions[i].content);
    }
  }

  lemma OwnPriorityIsFree(rule: DraftRule, ws: Workflows, key: Key)
    requires Valid(rule, ws) && IsLive(ws, key)
    ensures !PriorityInUse(ws, ws[key].priority, Some(key))
  {}

  /** An accepted operation replaces one workflow by a sound successor whose priority is free. */
  lemma NextReplaces(rule: DraftRule, ws: Workflows, op: Op) returns (w: Workflow)
    requires Valid(rule, ws) && Next(rule, ws, op).Ok?
    ensures Next(rule, ws, op).value == ws[op.key := w] && SoundWorkflow(rule, w)
    ensures op.key in ws ==> Succeeds(ws[op.key].doc, w.doc) && !ws[op.key].deleted
    ensures !w.deleted ==> !PriorityInUse(ws, w.priority, Some(op.key))
  {
    var key := op.key;
    if op.Create? {
      w := Workflow(op.priority, false, NewDocument(op.definition));
      assert !PriorityInUse(ws, op.priority, None);
    } else {
      w := ws[key];
      OwnPriorityIsFree(rule, ws, key);
      match op {
        case EditDraft(_, edit, newPriority) =>
          var priority := if newPriority.Some? then newPriority.value else w.priority;
          EditSound(rule, w, Merged(edit, Base(w.doc).content), priority);
          w := w.(doc := Edited(w.doc, Merged(edit, Base(w.doc).content)), priority := priority);
        case CloneDraft(_, from) =>
          CloneKeeps(rule, w, from);
          w := w.(doc := Cloned(w.doc, CloneSource(w.doc, from).value.content));
        case Publish(_, _) =>
          PublishSound(rule, w);
          w := w.(doc := PublishedDraft(w.doc));
        case _ =>
          w := w.(deleted := true);
      }
    }
  }

  lemma NextKeeps(rule: DraftRule, ws: Workflows, op: Op)
    requires Valid(rule, ws) && Next(rule, ws, op).Ok?
    ensures Valid(rule, Next(rule, ws, op).value) && Follows(ws, Next(rule, ws, op).value)
  {
    var w := NextReplaces(rule, ws, op);
    ReplaceKeeps(rule, ws, op.key, w);
  }

  ghost function Run(rule: DraftRule, ops: seq<Op>): (ws: Workflows)
    ensures Valid(rule, ws)
  {
    if ops == [] then map[]
    else
      var before, op := Run(rule, ops[..|ops| - 1]), ops[|ops| - 1];
      match Next(rule, before, op)
      case Err(_) => before
      case Ok(after) => NextKeeps(rule, before, op); after
  }

  lemma FollowsTransitive(a: Workflows, b: Workflows, c: Workflows)
    requires Follows(a, b) && Follows(b, c)
    ensures Follows(a, c)
  {
    forall k | k in a ensures k in c && Succeeds(a[k].doc, c[k].doc) && (a[k].deleted ==> c[k] == a[k]) {
      SucceedsTransitive(a[k].doc, b[k].doc, c[k].doc);
    }
  }

  lemma {:induction false} RunFollows(rule: DraftRule, ops: seq<Op>, n: nat)
    requires n <= |ops|
    ensures Follows(Run(rule, ops[..n]), Run(rule, ops))
    decreases |ops|
  {
    if n == |ops| {
      assert ops[..n] == ops;
    } else {
      var before, op := Run(rule, ops[..|ops| - 1]), ops[|ops| - 1];
      RunFollows(rule, ops[..|ops| - 1], n);
      assert ops[..|ops| - 1][..n] == ops[..n];
      if Next(rule, before, op).Ok? {
        NextKeeps(rule, before, op);
        FollowsTransitive(Run(rule, ops[..n]), before, Run(rule, ops));
      }
    }
  }

  /**
   A version once published keeps the definition it was published with, whatever is edited, cloned,
   published or deleted afterwards.
   */
  lemma PublishedDefinitionsAreFrozen(rule: DraftRule, ops: seq<Op>, n: nat, key: Key, i: nat)
    requires n <= |ops| && key in Run(rule, ops[..n])
    requires var vs := Run(rule, ops[..n])[key].doc.versions; i < |vs| && vs[i].state != Draft
    ensures var before, after := Run(rule, ops[..n])[key].doc, Run(rule, ops);
      && key in after && i < |after[key].doc.versions|
      && after[key].doc.versions[i].content == before.versions[i].content
      && after[key].doc.versions[i].number == i + 1
      && after[key].doc.versions[i].state != Draft
  {
    RunFollows(rule, ops, n);
    assert SoundWorkflow(rule, Run(rule, ops)[key]);
  }

  // ------------------------------------------------------------------
  // What each request does
  // ------------------------------------------------------------------

  /** A field is the given value if one was given, and otherwise stays. */
  ghost predicate Edits<T>(given: Option<T>, before: T, after: T) {
    match given
    case None => after == before
    case Some(v) => after == v
  }

  /** Only the workflow under the key may differ. */
  ghost predicate OnlyAt(before: Workflows, after: Workflows, key: Key) {
    after.Keys == before.Keys + {key} && forall k :: k in before && k != key ==> after[k] == before[k]
  }

  /** Some live workflow other than the one under the key has the priority. */
  ghost predicate OtherHasPriority(ws: Workflows, key: Key, priority: int) {
    exists k :: k in ws && k != key && !ws[k].deleted && ws[k].priority == priority
  }

  lemma PriorityInUseIff(ws: Workflows, key: Key, priority: int)
    ensures PriorityInUse(ws, priority, Some(key)) <==> OtherHasPriority(ws, key, priority)
    ensures key !in ws ==> (PriorityInUse(ws, priority, None) <==> OtherHasPriority(ws, key, priority))
  {
    if k :| k in ws && UsesPriority(ws, k, priority) && Some(key) != Some(k) {
      assert k != key && !ws[k].deleted && ws[k].priority == priority;
    }
    if k :| k in ws && k != key && !ws[k].deleted && ws[k].priority == priority {
      assert UsesPriority(ws, k, priority);
    }
  }

  /** A created workflow is live, with the priority asked for and its definition as the draft version 1. */
  lemma CreatesADraft(rule: DraftRule, ops: seq<Op>, key: Key, priority: int, definition: Definition)
    ensures
      var ws := Run(rule, ops);
      match Next(rule, ws, Create(key, priority, definition))
      case Err(BadKey) => key == ""
      case Err(BadPriority) => priority <= 0
      case Err(BadDefinition) => !rule(definition)
      case Err(AlreadyExists) => key in ws
      case Err(PriorityTaken) => OtherHasPriority(ws, key, priority)
      case Err(_) => false
      case Ok(after) =>
        && key != "" && priority > 0 && rule(definition) && key !in ws && !OtherHasPriority(ws, key, priority)
        && OnlyAt(ws, after, key)
        && after[key] == Workflow(priority, false, Document([Version(1, Draft, definition)], None))
  {
    PriorityInUseIff(Run(rule, ops), key, priority);
  }

  /** An edit leaves a draft, and the priority, changed exactly where new values were given. */
  lemma EditsSetGivenFields(rule: DraftRule, ops: seq<Op>, key: Key, edit: DefinitionEdit, newPriority: Option<int>)
    requires Next(rule, Run(rule, ops), EditDraft(key, edit, newPriority)).Ok?
    ensures
      var ws, after := Run(rule, ops), Next(rule, Run(rule, ops), EditDraft(key, edit, newPriority)).value;
      && key in ws && !ws[key].deleted && OnlyAt(ws, after, key) && !after[key].deleted
      && Edits(newPriority, ws[key].priority, after[key].priority)
      && after[key].doc.versions != []
      && var old', new' := Latest(ws[key].doc), Latest(after[key].doc);
         && new'.state == Draft
         && Edits(edit.triggers, old'.content.triggers, new'.content.triggers)
         && Edits(edit.conditions, old'.content.conditions, new'.content.conditions)
         && Edits(edit.actions, old'.content.actions, new'.content.actions)
  {
    var d := Run(rule, ops)[key].doc;
    assert SoundWorkflow(rule, Run(rule, ops)[key]);
    DraftIsLast(d);
    EditLeavesADraft(d, Merged(edit, Base(d).content));
  }

  /** An edit is refused for one of these reasons only. */
  lemma EditRefusals(rule: DraftRule, ops: seq<Op>, key: Key, edit: DefinitionEdit, newPriority: Option<int>)
    ensures
      var ws := Run(rule, ops);
      match Next(rule, ws, EditDraft(key, edit, newPriority))
      case Err(NotFound) => key !in ws || ws[key].deleted
      case Err(BadDefinition) =>
        && key in ws && !ws[key].deleted
        && exists d: Definition ::
             && Edits(edit.triggers, Latest(ws[key].doc).content.triggers, d.triggers)
             && Edits(edit.conditions, Latest(ws[key].doc).content.conditions, d.conditions)
             && Edits(edit.actions, Latest(ws[key].doc).content.actions, d.actions)
             && !rule(d)
      case Err(BadPriority) => newPriority.Some? && newPriority.value <= 0
      case Err(PriorityTaken) => newPriority.Some? && OtherHasPriority(ws, key, newPriority.value)
      case Err(_) => false
      case Ok(_) =>
        && key in ws && !ws[key].deleted
        && (newPriority.Some? ==> newPriority.value > 0 && !OtherHasPriority(ws, key, newPriority.value))
  {
    var ws := Run(rule, ops);
    if IsLive(ws, key) {
      assert SoundWorkflow(rule, ws[key]);
      DraftIsLast(ws[key].doc);
      var merged := Merged(edit, Base(ws[key].doc).content);
      assert Edits(edit.triggers, Latest(ws[key].doc).content.triggers, merged.triggers);
      if newPriority.Some? {
        PriorityInUseIff(ws, key, newPriority.value);
      }
    }
  }

  lemma {:induction false} NumberedIff(vs: seq<Version<Definition>>, number: nat)
    requires number > 0 && forall i :: 0 <= i < |vs| ==> vs[i].number == i + 1
    ensures Numbered(vs, number) == if number <= |vs| then Some(vs[number - 1]) else None
    decreases |vs|
  {
    if vs != [] && number != |vs| {
      NumberedIff(vs[..|vs| - 1], number);
    }
  }

  /** The version a clone copies: the one asked for, else the published one, else the newest. */
  lemma CloneSourceIs(d: Document<Definition>, from: Option<nat>)
    requires Sound(d)
    ensures
      var n, source := |d.versions|, CloneSource(d, from);
      if from.Some? && from.value != 0 then
        source == if from.value <= n then Some(d.versions[from.value - 1]) else None
      else source == Some(if d.active.Some? then d.versions[d.active.value - 1] else d.versions[n - 1])
  {
    if from.Some? && from.value != 0 {
      NumberedIff(d.versions, from.value);
    } else if d.active.Some? {
      assert d.versions[d.active.value - 1].state == Published;
    }
  }

  /** The document gains a draft, a copy of its version k, after its newest version. */
  ghost predicate GainsCopy(d: Document<Definition>, after: Document<Definition>, k: int) {
    && 1 <= k <= |d.versions|
    && after == d.(versions := d.versions + [Version(|d.versions| + 1, Draft, d.versions[k - 1].content)])
  }

  lemma CloningCopies(d: Document<Definition>, from: Option<nat>)
    requires Sound(d) && CloneSource(d, from).Some?
    ensures GainsCopy(d, Cloned(d, CloneSource(d, from).value.content),
      if from.Some? && from.value != 0 then from.value
      else if d.active.Some? then d.active.value
      else |d.versions|)
  {
    CloneSourceIs(d, from);
    HighestIsLast(d.versions);
  }

  /** A clone is refused for a missing workflow or version and beside a draft. */
  lemma ClonesAreRefusedIff(rule: DraftRule, ops: seq<Op>, key: Key, from: Option<nat>)
    ensures
      var ws := Run(rule, ops);
      Next(rule, ws, CloneDraft(key, from)) == Err(NotFound) <==>
        || key !in ws || ws[key].deleted
        || (Latest(ws[key].doc).state != Draft && from.Some? && from.value > |ws[key].doc.versions|)
    ensures
      var ws := Run(rule, ops);
      Next(rule, ws, CloneDraft(key, from)) == Err(DraftExists) <==>
        key in ws && !ws[key].deleted && Latest(ws[key].doc).state == Draft
  {
    var ws := Run(rule, ops);
    if IsLive(ws, key) {
      assert SoundWorkflow(rule, ws[key]);
      DraftIff(ws[key].doc);
      CloneSourceIs(ws[key].doc, from);
    }
  }

  /** Otherwise it adds a draft after the newest version: a copy of the version asked for, else the published, else the newest. */
  lemma ClonesCopyTheVersionAskedFor(rule: DraftRule, ops: seq<Op>, key: Key, from: Option<nat>)
    requires Next(rule, Run(rule, ops), CloneDraft(key, from)).Ok?
    ensures
      var ws, after := Run(rule, ops), Next(rule, Run(rule, ops), CloneDraft(key, from)).value;
      && key in ws && OnlyAt(ws, after, key)
      && after[key].deleted == ws[key].deleted && after[key].priority == ws[key].priority
      && GainsCopy(ws[key].doc, after[key].doc,
           if from.Some? && from.value != 0 then from.value
           else if ws[key].doc.active.Some? then ws[key].doc.active.value
           else |ws[key].doc.versions|)
  {
    var ws := Run(rule, ops);
    assert SoundWorkflow(rule, ws[key]);
    CloningCopies(ws[key].doc, from);
  }

  /** Publishing needs a live workflow, a draft and a valid definition, and publishes that draft. */
  lemma PublishesTheDraft(rule: DraftRule, ops: seq<Op>, key: Key, publishable: bool)
    ensures
      var ws := Run(rule, ops);
      match Next(rule, ws, Publish(key, publishable))
      case Err(NotFound) => key !in ws || ws[key].deleted
      case Err(NoDraft) => key in ws && !ws[key].deleted && Latest(ws[key].doc).state != Draft
      case Err(BadDefinition) => !publishable
      case Err(_) => false
      case Ok(after) =>
        && key in ws && !ws[key].deleted && Latest(ws[key].doc).state == Draft && publishable
        && OnlyAt(ws, after, key) && !after[key].deleted && after[key].priority == ws[key].priority
        && |after[key].doc.versions| == |ws[key].doc.versions|
        && Latest(after[key].doc) == Latest(ws[key].doc).(state := Published)
        && after[key].doc.active == Some(|ws[key].doc.versions|)
  {
    var ws := Run(rule, ops);
    if IsLive(ws, key) {
      assert SoundWorkflow(rule, ws[key]);
      DraftIff(ws[key].doc);
      DraftIsLast(ws[key].doc);
      if HasDraft(ws[key].doc) {
        PublishingReplaces(ws[key].doc);
      }
    }
  }

  /** A deletion only marks a live workflow. */
  lemma DeletionsMark(rule: DraftRule, ops: seq<Op>, key: Key)
    ensures
      var ws := Run(rule, ops);
      match Next(rule, ws, SoftDelete(key))
      case Err(e) => e == NotFound && (key !in ws || ws[key].deleted)
      case Ok(after) =>
        && key in ws && !ws[key].deleted
        && after == ws[key := Workflow(ws[key].priority, true, ws[key].doc)]
  {}

  /** A run goes on from what its earlier requests left; a refused one changes nothing. */
  lemma RunOneMore(rule: DraftRule, ops: seq<Op>, op: Op)
    ensures Run(rule, ops + [op]) ==
      match Next(rule, Run(rule, ops), op) case Ok(after) => after case Err(_) => Run(rule, ops)
    ensures Run(rule, []) == map[]
  {
    assert (ops + [op])[..|ops|] == ops;
  }
}
