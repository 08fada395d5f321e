/** The in-memory audit trail: recording, the retention policy, and archiving what the policy selects. */
module AuditTrail {
  import Sorting

  /** What a caller asks to have recorded, as far as the id is concerned. */
  datatype Request = Request(action: string, actorId: string, targetType: string, targetId: string, projectKey: string,
                             outcome: string, reasonCode: string, metadata: string)

  /** The hashed payload. The hash is taken to be injective. */
  datatype AuditId = AuditId(request: Request, sequence: nat)

  datatype Event = Event(id: AuditId, actorRole: string, createdAt: int)

  datatype Policy = Policy(retention: nat, maxEvents: nat)

  ghost predicate Distinct(events: seq<Event>) {
    forall i, j :: 0 <= i < j < |events| ==> events[i].id != events[j].id
  }

  predicate Holds(events: seq<Event>, id: AuditId) {
    exists i :: 0 <= i < |events| && events[i].id == id
  }

  /** `events[event.audit_id] = event` on an insertion-ordered dictionary. */
  function Put(events: seq<Event>, event: Event): (r: seq<Event>)
    ensures |r| == if Holds(events, event.id) then |events| else |events| + 1
  {
    if events == [] then [event]
    else if events[0].id == event.id then [event] + events[1..]
    else
      assert Holds(events, event.id) <==> Holds(events[1..], event.id) by { HoldsCons(events, event.id); }
      [events[0]] + Put(events[1..], event)
  }

  lemma HoldsCons(events: seq<Event>, id: AuditId)
    requires events != []
    ensures Holds(events, id) <==> events[0].id == id || Holds(events[1..], id)
  {
    if i :| 0 <= i < |events| && events[i].id == id {
      assert i > 0 ==> events[1..][i - 1].id == id;
    }
    if i :| 0 <= i < |events[1..]| && events[1..][i].id == id {
      assert events[i + 1].id == id;
    }
  }

  lemma {:induction false} PutFresh(events: seq<Event>, event: Event)
    requires !Holds(events, event.id)
    ensures Put(events, event) == events + [event]
  {
    if events != [] {
      HoldsCons(events, event.id);
      PutFresh(events[1..], event);
      assert events + [event] == [events[0]] + (events[1..] + [event]);
    }
  }

  /** The dictionary of a list of events keyed by id. */
  function ById(events: seq<Event>): seq<Event> {
    if events == [] then [] else Put(ById(events[..|events| - 1]), events[|events| - 1])
  }

  lemma {:induction false} DistinctById(events: seq<Event>)
    requires Distinct(events)
    ensures ById(events) == events
  {
    if events != [] {
      var init, last := events[..|events| - 1], events[|events| - 1];
      DistinctById(init);
      assert !Holds(init, last.id);
      PutFresh(init, last);
      assert events == init + [last];
    }
  }

  /** `events.pop(id, None)` */
  function Remove(events: seq<Event>, id: AuditId): seq<Event> {
    if events == [] then [] else (if events[0].id == id then [] else [events[0]]) + Remove(events[1..], id)
  }

  // ---- the retention policy ----

  function Older(): (Event, Event) -> bool {
    (a: Event, b: Event) => a.createdAt <= b.createdAt
  }

  function Expired(cutoff: int, events: seq<Event>): (r: seq<Event>)
    ensures |r| <= |events|
  {
    if events == [] then [] else (if events[0].createdAt < cutoff then [events[0]] else []) + Expired(cutoff, events[1..])
  }

  function Kept(cutoff: int, events: seq<Event>): (r: seq<Event>)
    ensures |r| <= |events|
  {
    if events == [] then [] else (if events[0].createdAt < cutoff then [] else [events[0]]) + Kept(cutoff, events[1..])
  }

  /** `sorted(..., key=created_at)`: ties keep the order of recording. */
  function ByAge(events: seq<Event>): (r: seq<Event>)
    ensures multiset(r) == multiset(events)
  {
    Sorting.Sort(Older(), events)
  }

  function Overflow(kept: nat, policy: Policy): nat {
    if kept > policy.maxEvents then kept - policy.maxEvents else 0
  }

  /** The expired events of a trail read oldest first, and the oldest of the others beyond the limit. */
  function Select(byAge: seq<Event>, policy: Policy, now: int): (seq<Event>, seq<Event>) {
    var cutoff := now - policy.retention;
    var remaining := Kept(cutoff, byAge);
    (Expired(cutoff, byAge), remaining[..Overflow(|remaining|, policy)])
  }

  ghost predicate OldestFirst(events: seq<Event>) {
    forall i, j :: 0 <= i < j < |events| ==> events[i].createdAt <= events[j].createdAt
  }

  lemma ByAgeIsOldestFirst(events: seq<Event>)
    ensures OldestFirst(ByAge(events))
  {
    assert Sorting.TotalPreorder(Older());
    Sorting.SortSorts(Older(), events);
    assert forall a, b :: Older()(a, b) <==> a.createdAt <= b.createdAt;
  }

  lemma {:induction false} AllKept(cutoff: int, events: seq<Event>)
    requires forall i :: 0 <= i < |events| ==> events[i].createdAt >= cutoff
    ensures Expired(cutoff, events) == [] && Kept(cutoff, events) == events
  {
    if events != [] {
      AllKept(cutoff, events[1..]);
      assert events == [events[0]] + events[1..];
    }
  }

  lemma SplitCons(e: Event, rest: seq<Event>, j: nat)
    requires j <= |rest|
    ensures ([e] + rest)[..j + 1] == [e] + rest[..j] && ([e] + rest)[j + 1..] == rest[j..]
  {
  }

  /** In a trail read oldest first the expired events come first. */
  lemma {:induction false} FilterSplits(cutoff: int, events: seq<Event>) returns (k: nat)
    requires OldestFirst(events)
    ensures k <= |events|
    ensures Expired(cutoff, events) == events[..k] && Kept(cutoff, events) == events[k..]
    ensures forall i :: 0 <= i < k ==> events[i].createdAt < cutoff
    ensures forall i :: k <= i < |events| ==> events[i].createdAt >= cutoff
  {
    if events == [] || events[0].createdAt >= cutoff {
      AllKept(cutoff, events);
      k := 0;
    } else {
      var rest := events[1..];
      var j := FilterSplits(cutoff, rest);
      assert events == [events[0]] + rest;
      SplitCons(events[0], rest, j);
      k := j + 1;
    }
  }

  /** Where the policy cuts a trail read oldest first: nothing expired and no more than the limit is left, and nothing is
      taken without need. */
  ghost predicate Cut(byAge: seq<Event>, cut: nat, policy: Policy, now: int) {
    && cut <= |byAge|
    && |byAge| - cut <= policy.maxEvents
    && (forall i :: cut <= i < |byAge| ==> byAge[i].createdAt >= now - policy.retention)
    && (forall i :: 0 <= i < cut ==> byAge[i].createdAt < now - policy.retention || |byAge| - cut == policy.maxEvents)
  }

  lemma CutHere(byAge: seq<Event>, k: nat, policy: Policy, now: int)
    requires k <= |byAge|
    requires forall i :: 0 <= i < k ==> byAge[i].createdAt < now - policy.retention
    requires forall i :: k <= i < |byAge| ==> byAge[i].createdAt >= now - policy.retention
    ensures Cut(byAge, k + Overflow(|byAge| - k, policy), policy, now)
  {
  }

  lemma JoinSlices(byAge: seq<Event>, k: nat, over: nat)
    requires k + over <= |byAge|
    ensures byAge[..k] + byAge[k..][..over] == byAge[..k + over]
  {
  }

  /** Read oldest first, the candidates are a prefix of the trail. */
  lemma SelectIsPrefix(byAge: seq<Event>, policy: Policy, now: int) returns (cut: nat)
    requires OldestFirst(byAge)
    ensures Cut(byAge, cut, policy, now)
    ensures Select(byAge, policy, now).0 + Select(byAge, policy, now).1 == byAge[..cut]
  {
    var k := FilterSplits(now - policy.retention, byAge);
    cut := k + Overflow(|byAge| - k, policy);
    CutHere(byAge, k, policy, now);
    JoinSlices(byAge, k, Overflow(|byAge| - k, policy));
  }

  // ---- pruning ----

  function Without(events: seq<Event>, pruned: seq<Event>): (rest: seq<Event>) {
    if events == [] then []
    else (if Holds(pruned, events[0].id) then [] else [events[0]]) + Without(events[1..], pruned)
  }

  lemma {:induction false} WithoutNothing(events: seq<Event>)
    ensures Without(events, []) == events
  {
    if events != [] {
      WithoutNothing(events[1..]);
    }
  }

  lemma HoldsSnoc(events: seq<Event>, e: Event, id: AuditId)
    ensures Holds(events + [e], id) <==> Holds(events, id) || e.id == id
  {
    assert (events + [e])[|events|] == e;
    if i :| 0 <= i < |events| && events[i].id == id {
      assert (events + [e])[i].id == id;
    }
  }

  lemma {:induction false} WithoutOneMore(events: seq<Event>, pruned: seq<Event>, e: Event)
    ensures Remove(Without(events, pruned), e.id) == Without(events, pruned + [e])
  {
    if events != [] {
      HoldsSnoc(pruned, e, events[0].id);
      WithoutOneMore(events[1..], pruned, e);
      var rest := Without(events[1..], pruned);
      assert ([events[0]] + rest)[1..] == rest;
      assert [] + rest == rest;
      assert [] + Remove(rest, e.id) == Remove(rest, e.id);
    }
  }

  lemma {:induction false} WithoutCounts(events: seq<Event>, pruned: seq<Event>, e: Event)
    ensures multiset(Without(events, pruned))[e] == if Holds(pruned, e.id) then 0 else multiset(events)[e]
  {
    if events != [] {
      WithoutCounts(events[1..], pruned, e);
      assert events == [events[0]] + events[1..];
    }
  }

  lemma {:induction false} DistinctOnce(events: seq<Event>, e: Event)
    requires Distinct(events)
    ensures multiset(events)[e] <= 1
  {
    if events != [] {
      DistinctOnce(events[1..], e);
      assert events == [events[0]] + events[1..];
      assert e in multiset(events[1..]) ==> e in events[1..];
    }
  }

  lemma SameId(events: seq<Event>, a: Event, b: Event)
    requires Distinct(events) && a in events && b in events
    ensures a.id == b.id ==> a == b
  {
  }

  lemma {:induction false} CountedTwice(events: seq<Event>, i: nat, j: nat)
    requires i < j < |events|
    ensures events[i] == events[j] ==> multiset(events)[events[i]] >= 2
  {
    assert events == events[..j] + events[j..];
    assert events[..j][i] == events[i] && events[j..][0] == events[j];
    assert events[i] in multiset(events[..j]) && events[j] in multiset(events[j..]);
  }

  lemma RearrangedDistinct(events: seq<Event>, byAge: seq<Event>)
    requires Distinct(events) && multiset(byAge) == multiset(events)
    ensures Distinct(byAge)
  {
    Sorting.SameMembers(events, byAge);
    forall i, j | 0 <= i < j < |byAge| ensures byAge[i].id != byAge[j].id {
      SameId(events, byAge[i], byAge[j]);
      CountedTwice(byAge, i, j);
      DistinctOnce(events, byAge[i]);
    }
  }

  lemma SliceCounts(byAge: seq<Event>, cut: nat, e: Event)
    requires Distinct(byAge) && cut <= |byAge|
    ensures multiset(byAge[cut..])[e] == if Holds(byAge[..cut], e.id) then 0 else multiset(byAge)[e]
  {
    var archived, kept := byAge[..cut], byAge[cut..];
    assert byAge == archived + kept;
    assert e in multiset(archived) <==> e in archived;
    assert e in multiset(kept) <==> e in kept;
    assert e in archived ==> Holds(archived, e.id);
    assert Holds(archived, e.id) ==> e !in kept;
  }

  /** Taking the first `cut` events, oldest first, out of the trail leaves the others. */
  lemma PrefixPruned(events: seq<Event>, byAge: seq<Event>, cut: nat)
    requires Distinct(events) && multiset(byAge) == multiset(events) && cut <= |byAge|
    ensures multiset(Without(events, byAge[..cut])) == multiset(byAge[cut..])
  {
    RearrangedDistinct(events, byAge);
    forall e ensures multiset(Without(events, byAge[..cut]))[e] == multiset(byAge[cut..])[e] {
      WithoutCounts(events, byAge[..cut], e);
      SliceCounts(byAge, cut, e);
    }
  }

  lemma {:induction false} AlreadySorted(events: seq<Event>)
    requires OldestFirst(events)
    ensures ByAge(events) == events
  {
    if events != [] {
      AlreadySorted(events[1..]);
      assert events == [events[0]] + events[1..];
    }
  }

  /** What archiving promises: the archived and the remaining events are the old trail, oldest first in the archive and in
      recording order in the trail; nothing expired stays, nor more than the limit; nothing archived is newer than anything
      that stays; and an event that has not expired goes only when the trail is full. */
  ghost predicate Archives(before: seq<Event>, archived: seq<Event>, after: seq<Event>, policy: Policy, now: int) {
    && multiset(before) == multiset(archived) + multiset(after)
    && after == Without(before, archived)
    && OldestFirst(archived)
    && |after| <= policy.maxEvents
    && (forall e :: e in after ==> e.createdAt >= now - policy.retention)
    && (forall a, e :: a in archived && e in after ==> a.createdAt <= e.createdAt)
    && (forall a :: a in archived ==> a.createdAt < now - policy.retention || |after| == policy.maxEvents)
  }

  /** What is archived from a cut, and what that leaves. */
  lemma CutArchives(events: seq<Event>, byAge: seq<Event>, cut: nat, policy: Policy, now: int)
    requires Distinct(events) && multiset(byAge) == multiset(events) && OldestFirst(byAge) && Cut(byAge, cut, policy, now)
    ensures Archives(events, byAge[..cut], Without(events, byAge[..cut]), policy, now)
  {
    var archived, kept, after := byAge[..cut], byAge[cut..], Without(events, byAge[..cut]);
    PrefixPruned(events, byAge, cut);
    assert byAge == archived + kept;
    Sorting.SameMembers(after, kept);
  }

  /** `expired` and `overflow`, keyed by id and sorted by age again: the same list. */
  function ToArchive(events: seq<Event>, policy: Policy, now: int): seq<Event> {
    var candidates := Select(ByAge(events), policy, now);
    ByAge(ById(candidates.0 + candidates.1))
  }

  lemma ToArchiveIsPrefix(events: seq<Event>, policy: Policy, now: int) returns (cut: nat)
    requires Distinct(events)
    ensures OldestFirst(ByAge(events)) && Cut(ByAge(events), cut, policy, now)
    ensures ToArchive(events, policy, now) == ByAge(events)[..cut]
  {
    var byAge := ByAge(events);
    ByAgeIsOldestFirst(events);
    cut := SelectIsPrefix(byAge, policy, now);
    RearrangedDistinct(events, byAge);
    DistinctById(byAge[..cut]);
    AlreadySorted(byAge[..cut]);
  }

  lemma ToArchiveArchives(events: seq<Event>, policy: Policy, now: int)
    requires Distinct(events)
    ensures Archives(events, ToArchive(events, policy, now), Without(events, ToArchive(events, policy, now)), policy, now)
  {
    var cut := ToArchiveIsPrefix(events, policy, now);
    CutArchives(events, ByAge(events), cut, policy, now);
  }

  /** The policy and the clock decide how many events go, and which. */
  lemma ArchivedSize(before: seq<Event>, archived: seq<Event>, after: seq<Event>, policy: Policy, now: int)
    requires Archives(before, archived, after, policy, now)
    ensures |before| == |archived| + |after|
  {
    assert |multiset(before)| == |before| && |multiset(archived)| == |archived| && |multiset(after)| == |after|;
  }

  lemma ArchivedForRoom(before: seq<Event>, archived: seq<Event>, after: seq<Event>, policy: Policy, now: int)
    requires Archives(before, archived, after, policy, now)
    requires forall e :: e in before ==> e.createdAt >= now - policy.retention
    ensures archived == [] || |after| == policy.maxEvents
  {
    if archived != [] {
      assert archived[0] in archived && archived[0] in multiset(archived) && archived[0] in multiset(before);
      assert archived[0] in before;
    }
  }

  /** Archiving again at the same time archives nothing. */
  lemma ArchivesOnce(before: seq<Event>, archived: seq<Event>, after: seq<Event>, again: seq<Event>, rest: seq<Event>, policy: Policy, now: int)
    requires Archives(before, archived, after, policy, now)
    requires Archives(after, again, rest, policy, now)
    ensures again == [] && rest == after
  {
    ArchivedSize(after, again, rest, policy, now);
    ArchivedForRoom(after, again, rest, policy, now);
    assert |again| == 0;
    WithoutNothing(after);
  }

  // ---- the service ----

  class AuditService {
    var events: seq<Event>
    const policy: Policy

    ghost predicate Valid() reads this {
      Distinct(events) && policy.maxEvents >= 1 && policy.retention >= 1
    }

    constructor (policy: Policy)
      requires policy.maxEvents >= 1 && policy.retention >= 1
      ensures Valid() && events == [] && this.policy == policy
    {
      this.policy := policy;
      events := [];
    }

    /** The sequence number in the id is the number of events held, not the number ever recorded. */
    method Record(request: Request, actorRole: string, createdAt: int) returns (event: Event)
      requires Valid()
      modifies this
      ensures Valid() && event == Event(AuditId(request, |old(events)|), actorRole, createdAt)
      ensures events == Put(old(events), event)
    {
      event := Event(AuditId(request, |events|), actorRole, createdAt);
      PutDistinct(events, event);
      events := Put(events, event);
    }

    method Pop(archived: seq<Event>)
      modifies this
      ensures events == Without(old(events), archived)
    {
      WithoutNothing(events);
      for i := 0 to |archived|
        invariant events == Without(old(events), archived[..i])
      {
        WithoutOneMore(old(events), archived[..i], archived[i]);
        assert archived[..i + 1] == archived[..i] + [archived[i]];
        events := Remove(events, archived[i].id);
      }
      assert archived[..|archived|] == archived;
    }

    /** Nothing leaves the trail unless the archive was written. */
    method ArchiveAndPrune(written: bool, now: int) returns (archived: seq<Event>)
      requires Valid()
      modifies this
      ensures Valid()
      ensures written ==> archived == ToArchive(old(events), policy, now) && Archives(old(events), archived, events, policy, now)
      ensures !written ==> archived == [] && events == old(events)
    {
      var toArchive := ToArchive(events, policy, now);
      if !written {
        return [];
      }
      archived := toArchive;
      ToArchiveArchives(events, policy, now);
      WithoutDistinct(events, archived);
      Pop(archived);
    }
  }

  lemma {:induction false} PutDistinct(events: seq<Event>, event: Event)
    requires Distinct(events)
    ensures Distinct(Put(events, event))
    ensures forall e :: e in Put(events, event) ==> e == event || e in events
  {
    if events != [] && events[0].id != event.id {
      PutDistinct(events[1..], event);
      var rest := Put(events[1..], event);
      assert forall i :: 0 <= i < |rest| ==> rest[i] in rest && (rest[i] == event || rest[i] in events[1..]);
    }
  }

  lemma {:induction false} WithoutMembers(events: seq<Event>, pruned: seq<Event>, e: Event)
    ensures e in Without(events, pruned) ==> e in events
  {
    if events != [] {
      WithoutMembers(events[1..], pruned, e);
    }
  }

  lemma DistinctCons(e: Event, rest: seq<Event>)
    requires Distinct(rest) && forall i :: 0 <= i < |rest| ==> rest[i].id != e.id
    ensures Distinct([e] + rest)
  {
  }

  lemma {:induction false} WithoutDistinct(events: seq<Event>, pruned: seq<Event>)
    requires Distinct(events)
    ensures Distinct(Without(events, pruned))
  {
    if events != [] {
      var rest := Without(events[1..], pruned);
      WithoutDistinct(events[1..], pruned);
      forall i | 0 <= i < |rest| ensures rest[i].id != events[0].id {
        WithoutMembers(events[1..], pruned, rest[i]);
      }
      DistinctCons(events[0], rest);
    }
  }

  // ---- whole runs ----

  datatype Step = Record(request: Request, actorRole: string, createdAt: int) | Prune(now: int)

  /** The trail, everything archived, and how many events a later record replaced. */
  datatype Trail = Trail(events: seq<Event>, archive: seq<Event>, replaced: nat)

  function Apply(t: Trail, policy: Policy, step: Step): Trail {
    match step
    case Record(request, role, createdAt) =>
      var event := Event(AuditId(request, |t.events|), role, createdAt);
      Trail(Put(t.events, event), t.archive, t.replaced + if Holds(t.events, event.id) then 1 else 0)
    case Prune(now) =>
      var archived := ToArchive(t.events, policy, now);
      Trail(Without(t.events, archived), t.archive + archived, t.replaced)
  }

  function RunSteps(policy: Policy, steps: seq<Step>): Trail {
    if steps == [] then Trail([], [], 0) else Apply(RunSteps(policy, steps[..|steps| - 1]), policy, steps[|steps| - 1])
  }

  function Records(steps: seq<Step>): nat {
    if steps == [] then 0 else Records(steps[..|steps| - 1]) + if steps[|steps| - 1].Record? then 1 else 0
  }

  /** Along every run each recorded event is in the trail, in the archive, or was replaced by a later record; and as long
      as nothing was archived, nothing was replaced: the trail is what was recorded, numbered in order. */
  lemma {:induction false} RunConserves(policy: Policy, steps: seq<Step>)
    ensures var t := RunSteps(policy, steps);
            && Distinct(t.events)
            && |t.events| + |t.archive| + t.replaced == Records(steps)
            && (t.archive == [] ==> t.replaced == 0 && Numbered(t.events))
  {
    if steps != [] {
      var before, step := RunSteps(policy, steps[..|steps| - 1]), steps[|steps| - 1];
      RunConserves(policy, steps[..|steps| - 1]);
      if step.Record? {
        var event := Event(AuditId(step.request, |before.events|), step.actorRole, step.createdAt);
        PutDistinct(before.events, event);
        if before.archive == [] {
          PutFresh(before.events, event);
        }
      } else {
        var archived := ToArchive(before.events, policy, step.now);
        ToArchiveArchives(before.events, policy, step.now);
        ArchivedSize(before.events, archived, Without(before.events, archived), policy, step.now);
        WithoutDistinct(before.events, archived);
        WithoutNothing(before.events);
      }
    }
  }

  ghost predicate Numbered(events: seq<Event>) {
    forall i :: 0 <= i < |events| ==> events[i].id.sequence == i
  }

  /** A record replaces a held event exactly when one with the same request carries the current count as its number. */
  lemma ReplacesIff(events: seq<Event>, request: Request, actorRole: string, createdAt: int)
    ensures var event := Event(AuditId(request, |events|), actorRole, createdAt);
            |Put(events, event)| == |events| <==>
            exists i :: 0 <= i < |events| && events[i].id.request == request && events[i].id.sequence == |events|
  {
    var event := Event(AuditId(request, |events|), actorRole, createdAt);
    if i :| 0 <= i < |events| && events[i].id.request == request && events[i].id.sequence == |events| {
      assert events[i].id == event.id;
    }
  }

  /** After pruning that does happen: three equal requests, the oldest archived, and the fourth takes the place of the third. */
  lemma PruningFreesANumberInUse(r: Request)
    ensures RunSteps(Policy(365, 2), [Record(r, "", 1), Record(r, "", 2), Record(r, "", 3)] + [Prune(3)] + [Record(r, "", 4)]).replaced == 1
  {
    var policy := Policy(365, 2);
    var three := [Record(r, "", 1), Record(r, "", 2), Record(r, "", 3)];
    var e0, e1, e2 := Numbered1(r, 0), Numbered1(r, 1), Numbered1(r, 2);
    ThreeRecorded(r, policy);
    RunOne(policy, three, Prune(3));
    OneArchived(e0, e1, e2, policy);
    WithoutFirst(e0, e1, e2);
    RunOne(policy, three + [Prune(3)], Record(r, "", 4));
    assert [e1, e2][1].id == AuditId(r, 2);
  }

  function Numbered1(r: Request, sequence: nat): Event {
    Event(AuditId(r, sequence), "", sequence + 1)
  }

  lemma RunOne(policy: Policy, steps: seq<Step>, step: Step)
    ensures RunSteps(policy, steps + [step]) == Apply(RunSteps(policy, steps), policy, step)
  {
    assert (steps + [step])[..|steps|] == steps;
  }

  lemma ThreeRecorded(r: Request, policy: Policy)
    ensures RunSteps(policy, [Record(r, "", 1), Record(r, "", 2), Record(r, "", 3)]) ==
            Trail([Numbered1(r, 0), Numbered1(r, 1), Numbered1(r, 2)], [], 0)
  {
    var e0, e1, e2 := Numbered1(r, 0), Numbered1(r, 1), Numbered1(r, 2);
    var first, second, third := Record(r, "", 1), Record(r, "", 2), Record(r, "", 3);
    RunOne(policy, [], first);
    PutFresh([], e0);
    assert [] + [first] == [first];
    assert RunSteps(policy, [first]) == Trail([e0], [], 0);
    RunOne(policy, [first], second);
    PutFresh([e0], e1);
    assert [first] + [second] == [first, second];
    assert RunSteps(policy, [first, second]) == Trail([e0, e1], [], 0);
    RunOne(policy, [first, second], third);
    PutFresh([e0, e1], e2);
    assert [first, second] + [third] == [first, second, third];
  }

  lemma OneSelected(all: seq<Event>, policy: Policy)
    requires policy == Policy(365, 2) && |all| == 3
    requires forall i :: 0 <= i < 3 ==> all[i].createdAt == i + 1
    ensures Select(all, policy, 3) == ([], all[..1])
  {
    AllKept(-362, all);
  }

  lemma OneArchived(e0: Event, e1: Event, e2: Event, policy: Policy)
    requires policy == Policy(365, 2) && e0.createdAt == 1 && e1.createdAt == 2 && e2.createdAt == 3
    ensures ToArchive([e0, e1, e2], policy, 3) == [e0]
  {
    var all := [e0, e1, e2];
    AlreadySorted(all);
    OneSelected(all, policy);
    assert [] + all[..1] == [e0];
    DistinctById([e0]);
    AlreadySorted([e0]);
  }

  lemma WithoutFirst(e0: Event, e1: Event, e2: Event)
    requires e0.id != e1.id && e0.id != e2.id
    ensures Without([e0, e1, e2], [e0]) == [e1, e2]
  {
    assert [e0][0] == e0;
    assert [e0, e1, e2][1..] == [e1, e2] && [e1, e2][1..] == [e2] && [e2][1..] == [];
    assert Without([e2], [e0]) == [e2];
    assert Without([e1, e2], [e0]) == [e1] + [e2];
  }
}
