/** The choice of the SLA policy for a ticket. */
module SlaMatcher {
  import opened Wrappers

  datatype TicketAttributes = TicketAttributes(priority: nat, kind: nat, channel: nat)

  /** An empty list matches every value. */
  datatype PolicyContent = PolicyContent(
    priority: int,
    priorities: seq<nat>,
    kinds: seq<nat>,
    channels: seq<nat>,
    scheduleKey: string,
    responseMinutes: int,
    resolutionMinutes: int,
    warningThresholdPercent: int,
    pauseOnPending: bool,
    pauseOnHold: bool,
    restartResolutionOnReopen: bool)

  datatype Candidate = Candidate(policy: string, content: PolicyContent)

  predicate MatchesList(allowed: seq<nat>, value: nat) {
    |allowed| == 0 || value in allowed
  }

  predicate Matches(c: Candidate, t: TicketAttributes) {
    && MatchesList(c.content.priorities, t.priority)
    && MatchesList(c.content.kinds, t.kind)
    && MatchesList(c.content.channels, t.channel)
  }

  /** A policy without lists matches every ticket, and each list it has must name the ticket's value. */
  lemma MatchesIff(c: Candidate, t: TicketAttributes)
    ensures Matches(c, t) <==>
      && (c.content.priorities != [] ==> t.priority in c.content.priorities)
      && (c.content.kinds != [] ==> t.kind in c.content.kinds)
      && (c.content.channels != [] ==> t.channel in c.content.channels)
  {}

  /** Places c after every candidate of the same priority. */
  function Insert(sorted: seq<Candidate>, c: Candidate): seq<Candidate> {
    if sorted == [] || sorted[|sorted| - 1].content.priority <= c.content.priority then sorted + [c]
    else Insert(sorted[..|sorted| - 1], c) + [sorted[|sorted| - 1]]
  }

  /** The candidates by ascending priority, equal ones in their given order. */
  function Ordered(cs: seq<Candidate>): seq<Candidate> {
    if cs == [] then [] else Insert(Ordered(cs[..|cs| - 1]), cs[|cs| - 1])
  }

  ghost predicate Ascending(cs: seq<Candidate>) {
    forall i, j :: 0 <= i < j < |cs| ==> cs[i].content.priority <= cs[j].content.priority
  }

  lemma {:induction false} InsertSorts(sorted: seq<Candidate>, c: Candidate)
    requires Ascending(sorted)
    ensures Ascending(Insert(sorted, c)) && |Insert(sorted, c)| == |sorted| + 1
    ensures forall x :: x in Insert(sorted, c) <==> x in sorted || x == c
    decreases |sorted|
  {
    if sorted != [] && sorted[|sorted| - 1].content.priority > c.content.priority {
      var rest, last := sorted[..|sorted| - 1], sorted[|sorted| - 1];
      InsertSorts(rest, c);
      assert sorted == rest + [last];
      forall i | 0 <= i < |Insert(rest, c)| ensures Insert(rest, c)[i].content.priority <= last.content.priority {
        assert Insert(rest, c)[i] in Insert(rest, c);
      }
    }
  }

  lemma {:induction false} OrderedSorts(cs: seq<Candidate>)
    ensures Ascending(Ordered(cs)) && |Ordered(cs)| == |cs|
    ensures forall x :: x in Ordered(cs) <==> x in cs
    decreases |cs|
  {
    if cs != [] {
      var rest, last := cs[..|cs| - 1], cs[|cs| - 1];
      OrderedSorts(rest);
      InsertSorts(Ordered(rest), last);
      assert cs == rest + [last];
    }
  }

  /** A matching candidate of least priority, or none when nothing matches. */
  ghost predicate IsChoice(cs: seq<Candidate>, t: TicketAttributes, r: Option<Candidate>) {
    match r
    case None => forall c :: c in cs ==> !Matches(c, t)
    case Some(best) =>
      && best in cs && Matches(best, t)
      && forall c :: c in cs && Matches(c, t) ==> best.content.priority <= c.content.priority
  }

  method SelectMatchingSlaPolicy(candidates: seq<Candidate>, t: TicketAttributes) returns (r: Option<Candidate>)
    ensures IsChoice(candidates, t, r)
  {
    var ordered := Ordered(candidates);
    OrderedSorts(candidates);
    for i := 0 to |ordered|
      invariant forall k :: 0 <= k < i ==> !Matches(ordered[k], t)
    {
      var candidate := ordered[i];
      if !MatchesList(candidate.content.priorities, t.priority) {
        continue;
      }
      if !MatchesList(candidate.content.kinds, t.kind) {
        continue;
      }
      if !MatchesList(candidate.content.channels, t.channel) {
        continue;
      }
      return Some(candidate);
    }
    return None;
  }
}
