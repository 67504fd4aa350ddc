/**
 Versioned configuration: a document has numbered versions, newest last, of which one may be
 a draft and one may be published; publishing the draft retires its predecessor.
 */
module Publication {
  import opened Wrappers

  datatype PublicationState = Draft | Published | Retired

  datatype Version<C> = Version(number: nat, state: PublicationState, content: C)

  datatype Document<C> = Document(versions: seq<Version<C>>, active: Option<nat>)

  function NewDocument<C>(content: C): Document<C> {
    Document([Version(1, Draft, content)], None)
  }

  /** Index of the newest version in a state, or |vs|. */
  function NewestIn<C>(vs: seq<Version<C>>, state: PublicationState): (i: nat)
    ensures i <= |vs|
    ensures i < |vs| ==> vs[i].state == state
    ensures forall k :: (if i < |vs| then i else -1) < k < |vs| ==> vs[k].state != state
  {
    if vs == [] then 0
    else if vs[|vs| - 1].state == state then |vs| - 1
    else
      var i := NewestIn(vs[..|vs| - 1], state);
      if i < |vs| - 1 then i else |vs|
  }

  function DraftIn<C>(d: Document<C>): nat {
    NewestIn(d.versions, Draft)
  }

  predicate HasDraft<C>(d: Document<C>) {
    DraftIn(d) < |d.versions|
  }

  /** The newest version. */
  function Latest<C>(d: Document<C>): Version<C>
    requires d.versions != []
  {
    d.versions[|d.versions| - 1]
  }

  /** The version an edit starts from: the draft, or else the latest. */
  function Base<C>(d: Document<C>): Version<C>
    requires d.versions != []
  {
    if HasDraft(d) then d.versions[DraftIn(d)] else Latest(d)
  }

  /** The draft gets new content; without a draft one is opened after the latest version. */
  function Edited<C>(d: Document<C>, content: C): Document<C>
    requires d.versions != []
  {
    if HasDraft(d) then d.(versions := d.versions[DraftIn(d) := d.versions[DraftIn(d)].(content := content)])
    else d.(versions := d.versions + [Version(Latest(d).number + 1, Draft, content)])
  }

  function RetiredIf<C>(v: Version<C>): Version<C> {
    if v.state == Published then v.(state := Retired) else v
  }

  function AllRetired<C>(vs: seq<Version<C>>): (r: seq<Version<C>>)
    ensures |r| == |vs| && forall i :: 0 <= i < |vs| ==> r[i] == RetiredIf(vs[i])
  {
    if vs == [] then [] else AllRetired(vs[..|vs| - 1]) + [RetiredIf(vs[|vs| - 1])]
  }

  function PublishedDraft<C>(d: Document<C>): Document<C>
    requires HasDraft(d)
  {
    var draft := d.versions[DraftIn(d)];
    Document(AllRetired(d.versions)[DraftIn(d) := draft.(state := Published)], Some(draft.number))
  }

  /** The published version the active number names, if it names one. */
  function Resolve<C>(d: Document<C>): Option<Version<C>> {
    if d.active.None? then None
    else
      var i := NewestIn(d.versions, Published);
      if i < |d.versions| && d.versions[i].number == d.active.value then Some(d.versions[i]) else None
  }

  /** Retires what is published, then publishes the draft. */
  method PublishDraft<C>(d: Document<C>) returns (r: Document<C>)
    requires HasDraft(d)
    ensures r == PublishedDraft(d)
  {
    var at := DraftIn(d);
    var versions := d.versions;
    for i := 0 to |versions|
      invariant |versions| == |d.versions|
      invariant forall k :: 0 <= k < i ==> versions[k] == RetiredIf(d.versions[k])
      invariant forall k :: i <= k < |versions| ==> versions[k] == d.versions[k]
    {
      if versions[i].state == Published {
        versions := versions[i := versions[i].(state := Retired)];
      }
    }
    versions := versions[at := versions[at].(state := Published)];
    r := Document(versions, Some(versions[at].number));
  }

  // ------------------------------------------------------------------
  // The invariant
  // ------------------------------------------------------------------

  /** Versions are numbered 1 to n, only the last can be a draft, and the active number names the one published version. */
  ghost predicate Sound<C>(d: Document<C>) {
    && d.versions != []
    && (forall i :: 0 <= i < |d.versions| ==> d.versions[i].number == i + 1)
    && (forall i :: 0 <= i < |d.versions| - 1 ==> d.versions[i].state != Draft)
    && (forall i :: 0 <= i < |d.versions| ==>
          (d.versions[i].state == Published <==> d.active == Some(d.versions[i].number)))
    && (d.active.Some? ==> 1 <= d.active.value <= |d.versions|)
  }

  /** Later states of a document: versions that left DRAFT keep their content, and states only move forward. */
  ghost predicate Succeeds<C>(before: Document<C>, after: Document<C>) {
    && |before.versions| <= |after.versions|
    && (before.active.Some? ==> after.active.Some?)
    && forall i :: 0 <= i < |before.versions| ==>
         var b, a := before.versions[i], after.versions[i];
         && a.number == b.number
         && (b.state != Draft ==> a.content == b.content && a.state != Draft)
         && (b.state == Retired ==> a.state == Retired)
  }

  lemma SucceedsTransitive<C>(a: Document<C>, b: Document<C>, c: Document<C>)
    requires Succeeds(a, b) && Succeeds(b, c)
    ensures Succeeds(a, c)
  {}

  lemma DraftIsLast<C>(d: Document<C>)
    requires Sound(d)
    ensures HasDraft(d) ==> DraftIn(d) == |d.versions| - 1
    ensures Base(d) == Latest(d)
  {}

  lemma EditKeeps<C>(d: Document<C>, content: C)
    requires Sound(d)
    ensures Sound(Edited(d, content)) && Succeeds(d, Edited(d, content))
  {
    DraftIsLast(d);
  }

  lemma PublishKeeps<C>(d: Document<C>)
    requires Sound(d) && HasDraft(d)
    ensures Sound(PublishedDraft(d)) && Succeeds(d, PublishedDraft(d))
  {
    DraftIsLast(d);
  }

  lemma ResolvesIff<C>(d: Document<C>)
    requires Sound(d)
    ensures Resolve(d).Some? <==> d.active.Some?
    ensures Resolve(d).Some? ==> Resolve(d).value in d.versions && Resolve(d).value.state == Published
    ensures forall v :: v in d.versions && v.state == Published ==> Resolve(d) == Some(v)
  {
    if d.active.Some? {
      assert d.versions[d.active.value - 1].state == Published;
    }
  }

  lemma PublishResolves<C>(d: Document<C>)
    requires Sound(d) && HasDraft(d)
    ensures Resolve(PublishedDraft(d)) == Some(d.versions[DraftIn(d)].(state := Published))
  {
    PublishKeeps(d);
    ResolvesIff(PublishedDraft(d));
    assert PublishedDraft(d).versions[DraftIn(d)] in PublishedDraft(d).versions;
  }

  lemma EditResolves<C>(d: Document<C>, content: C)
    requires Sound(d)
    ensures Resolve(Edited(d, content)) == Resolve(d)
  {
    EditKeeps(d, content);
    DraftIsLast(d);
    ResolvesIff(d);
    ResolvesIff(Edited(d, content));
    if Resolve(d).Some? {
      var i := d.active.value - 1;
      assert Edited(d, content).versions[i] == d.versions[i];
    }
  }

  // ------------------------------------------------------------------
  // What editing and publishing do to the versions
  // ------------------------------------------------------------------

  /** Only the newest version can be a draft. */
  lemma DraftIff<C>(d: Document<C>)
    requires Sound(d)
    ensures HasDraft(d) <==> Latest(d).state == Draft
  {}

  /** An edit leaves a draft of the new content as the newest version, added only if there was none, and nothing else. */
  lemma EditLeavesADraft<C>(d: Document<C>, content: C)
    requires Sound(d)
    ensures
      var after := Edited(d, content);
      && after.active == d.active
      && |after.versions| == |d.versions| + (if Latest(d).state == Draft then 0 else 1)
      && Latest(after) == Version(|after.versions|, Draft, content)
      && after.versions[..|after.versions| - 1] == d.versions[..|after.versions| - 1]
  {
    DraftIsLast(d);
  }

  /**
   Publishing turns the draft into the one published version, which the active number names, and retires the
   published version before it; contents and numbers stay.
   */
  lemma PublishingReplaces<C>(d: Document<C>)
    requires Sound(d) && HasDraft(d)
    ensures
      var after, n := PublishedDraft(d), |d.versions|;
      && after.active == Some(n) && |after.versions| == n
      && (forall i :: 0 <= i < n ==>
            after.versions[i].number == d.versions[i].number && after.versions[i].content == d.versions[i].content)
      && (forall i :: 0 <= i < n ==> after.versions[i].state == if i == n - 1 then Published else Retired)
  {
    DraftIsLast(d);
  }
}
