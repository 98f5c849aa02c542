/**
 Admission of local command processes: the shared limits, the counters behind them, and the list of
 recently finished activities.
 */
module Admission {
  import opened Sums
  import opened Wrappers

  type AgentId = nat
  type ActivityId = nat

  const MAX_ACTIVE_TASKS: nat := 64
  const MAX_ACTIVE_CHILD_TASKS: nat := 48
  const MAX_ACTIVE_TASKS_PER_CHILD: nat := 16
  const MAX_RECENT_TASKS: nat := 20

  datatype Owner = Main | Agent(id: AgentId)

  datatype Refusal = AllBusy | ChildQuota

  // ---------------------------------------------------------------- counters

  datatype Counters = Counters(active: nat, activeChildren: nat, perChild: map<AgentId, nat>)

  function SaturatingDec(n: nat): nat {
    if n == 0 then 0 else n - 1
  }

  function Refused(c: Counters, owner: Owner): Option<Refusal> {
    if c.active >= MAX_ACTIVE_TASKS then Some(AllBusy)
    else if owner.Agent?
         && (c.activeChildren >= MAX_ACTIVE_CHILD_TASKS
             || LookupOr(c.perChild, owner.id, 0) >= MAX_ACTIVE_TASKS_PER_CHILD) then Some(ChildQuota)
    else None
  }

  function Reserved(c: Counters, owner: Owner): Counters {
    if Refused(c, owner).Some? then c
    else if owner.Main? then c.(active := c.active + 1)
    else Counters(c.active + 1, c.activeChildren + 1, c.perChild[owner.id := LookupOr(c.perChild, owner.id, 0) + 1])
  }

  function Released(c: Counters, owner: Owner): Counters {
    if owner.Main? then c.(active := SaturatingDec(c.active))
    else
      var remaining := SaturatingDec(LookupOr(c.perChild, owner.id, 0));
      Counters(SaturatingDec(c.active), SaturatingDec(c.activeChildren),
               if remaining == 0 then c.perChild - {owner.id} else c.perChild[owner.id := remaining])
  }

  class ActivityAdmission {
    var active: nat
    var activeChildren: nat
    var perChild: map<AgentId, nat>

    ghost function View(): Counters
      reads this
    {
      Counters(active, activeChildren, perChild)
    }

    constructor ()
      ensures View() == Counters(0, 0, map[])
    {
      active, activeChildren, perChild := 0, 0, map[];
    }

    method ReserveSlot(owner: Owner) returns (refusal: Option<Refusal>)
      modifies this
      ensures refusal == Refused(old(View()), owner)
      ensures View() == Reserved(old(View()), owner)
    {
      if active >= MAX_ACTIVE_TASKS {
        return Some(AllBusy);
      }
      if owner.Agent? {
        var childActive := LookupOr(perChild, owner.id, 0);
        if activeChildren >= MAX_ACTIVE_CHILD_TASKS || childActive >= MAX_ACTIVE_TASKS_PER_CHILD {
          return Some(ChildQuota);
        }
        activeChildren := activeChildren + 1;
        perChild := perChild[owner.id := childActive + 1];
      }
      active := active + 1;
      refusal := None;
    }

    method ReleaseSlot(owner: Owner)
      modifies this
      ensures View() == Released(old(View()), owner)
    {
      active := SaturatingDec(active);
      if owner.Agent? {
        activeChildren := SaturatingDec(activeChildren);
        var remaining := SaturatingDec(LookupOr(perChild, owner.id, 0));
        if remaining == 0 {
          perChild := perChild - {owner.id};
        } else {
          perChild := perChild[owner.id := remaining];
        }
      }
    }
  }

  // ---------------------------------------------------------------- permits

  /** The counters together with the permits that exist. */
  datatype State = State(counters: Counters, live: multiset<Owner>)

  datatype Step = Reserve(owner: Owner) | Drop(owner: Owner)

  /** Only a permit that exists can be dropped. */
  predicate Enabled(s: State, step: Step) {
    step.Drop? ==> step.owner in s.live
  }

  function Apply(s: State, step: Step): State {
    match step
    case Reserve(owner) =>
      State(Reserved(s.counters, owner),
            if Refused(s.counters, owner).Some? then s.live else s.live + multiset{owner})
    case Drop(owner) => State(Released(s.counters, owner), s.live - multiset{owner})
  }

  ghost predicate Runs(s: State, steps: seq<Step>, t: State)
    decreases steps
  {
    if steps == [] then s == t
    else Enabled(s, steps[0]) && Runs(Apply(s, steps[0]), steps[1..], t)
  }

  const Initial: State := State(Counters(0, 0, map[]), multiset{})

  function Children(live: multiset<Owner>): int {
    |live| - live[Main]
  }

  ghost predicate Counted(s: State) {
    && s.counters.active == |s.live|
    && s.counters.activeChildren == Children(s.live) == Sum(s.counters.perChild)
    && (forall id: AgentId :: LookupOr(s.counters.perChild, id, 0) == s.live[Agent(id)])
    && (forall id <- s.counters.perChild :: s.counters.perChild[id] > 0)
  }

  ghost predicate WithinLimits(live: multiset<Owner>) {
    && |live| <= MAX_ACTIVE_TASKS
    && Children(live) <= MAX_ACTIVE_CHILD_TASKS
    && forall id: AgentId :: live[Agent(id)] <= MAX_ACTIVE_TASKS_PER_CHILD
  }

  ghost predicate Inv(s: State) {
    Counted(s) && WithinLimits(s.live)
  }

  lemma ReserveKeepsInv(s: State, owner: Owner)
    requires Inv(s)
    ensures Inv(Apply(s, Reserve(owner)))
  {
    var t := Apply(s, Reserve(owner));
    if Refused(s.counters, owner).None? && owner.Agent? {
      var counts := s.counters.perChild;
      SumWith(counts, owner.id, LookupOr(counts, owner.id, 0) + 1);
      if owner.id in counts {
        SumWithout(counts, owner.id);
      } else {
        assert counts - {owner.id} == counts;
      }
      assert t.live[Main] == s.live[Main];
      forall id: AgentId ensures LookupOr(t.counters.perChild, id, 0) == t.live[Agent(id)] {
        assert LookupOr(counts, id, 0) == s.live[Agent(id)];
      }
    }
    forall id: AgentId ensures t.live[Agent(id)] <= MAX_ACTIVE_TASKS_PER_CHILD {
      assert LookupOr(s.counters.perChild, id, 0) == s.live[Agent(id)];
    }
  }

  lemma DropKeepsInv(s: State, owner: Owner)
    requires Inv(s) && owner in s.live
    ensures Inv(Apply(s, Drop(owner)))
  {
    var t := Apply(s, Drop(owner));
    if owner.Agent? {
      var counts := s.counters.perChild;
      assert LookupOr(counts, owner.id, 0) == s.live[owner];
      SumWithout(counts, owner.id);
      SumWith(counts, owner.id, counts[owner.id] - 1);
      assert t.live[Main] == s.live[Main];
      forall id: AgentId ensures LookupOr(t.counters.perChild, id, 0) == t.live[Agent(id)] {
        assert LookupOr(counts, id, 0) == s.live[Agent(id)];
      }
    }
    forall id: AgentId ensures t.live[Agent(id)] <= MAX_ACTIVE_TASKS_PER_CHILD {
      assert t.live[Agent(id)] <= s.live[Agent(id)];
    }
  }

  lemma {:induction false} RunKeepsInv(s: State, steps: seq<Step>, t: State)
    requires Inv(s) && Runs(s, steps, t)
    ensures Inv(t)
    decreases steps
  {
    if steps != [] {
      match steps[0] {
        case Reserve(owner) => ReserveKeepsInv(s, owner);
        case Drop(owner) => DropKeepsInv(s, owner);
      }
      RunKeepsInv(Apply(s, steps[0]), steps[1..], t);
    }
  }

  lemma InitialIsCounted()
    ensures Inv(Initial)
  {
    assert |Initial.live| == 0;
  }

  // ---------------------------------------------------------------- results about permits

  /**
   Conservation: after any reservations and drops the counters are exactly the live permits, in total, over
   all children and per child, and the limits hold.
   */
  lemma CountersAreLivePermits(steps: seq<Step>, t: State)
    requires Runs(Initial, steps, t)
    ensures t.counters.active == |t.live| <= MAX_ACTIVE_TASKS
    ensures t.counters.activeChildren == Sum(t.counters.perChild) == |t.live| - t.live[Main] <= MAX_ACTIVE_CHILD_TASKS
    ensures forall id: AgentId ::
              LookupOr(t.counters.perChild, id, 0) == t.live[Agent(id)] <= MAX_ACTIVE_TASKS_PER_CHILD
    ensures forall id: AgentId :: id in t.counters.perChild <==> Agent(id) in t.live
  {
    InitialIsCounted();
    RunKeepsInv(Initial, steps, t);
    forall id: AgentId ensures id in t.counters.perChild <==> Agent(id) in t.live {
      assert LookupOr(t.counters.perChild, id, 0) == t.live[Agent(id)];
    }
  }

  /** Releasing what is not counted changes nothing. */
  lemma ReleasingNothing(owner: Owner)
    ensures Released(Counters(0, 0, map[]), owner) == Counters(0, 0, map[])
  {
  }

  lemma ReservingUndoesReleasing(c: Counters, owner: Owner)
    requires 1 <= c.active <= MAX_ACTIVE_TASKS
    requires owner.Agent? ==>
               && 1 <= c.activeChildren <= MAX_ACTIVE_CHILD_TASKS
               && owner.id in c.perChild && 1 <= c.perChild[owner.id] <= MAX_ACTIVE_TASKS_PER_CHILD
    ensures Reserved(Released(c, owner), owner) == c
  {
    if owner.Agent? {
      var released := Released(c, owner);
      assert LookupOr(released.perChild, owner.id, 0) == c.perChild[owner.id] - 1;
      assert released.perChild[owner.id := c.perChild[owner.id]] == c.perChild;
    }
  }

  /** Dropping a permit undoes its reservation, counter by counter: no subtraction ever stops at zero. */
  lemma DroppingNeverSaturates(steps: seq<Step>, t: State, owner: Owner)
    requires Runs(Initial, steps, t) && owner in t.live
    ensures t.counters.active >= 1
    ensures owner.Agent? ==> t.counters.activeChildren >= 1 && LookupOr(t.counters.perChild, owner.id, 0) >= 1
    ensures Reserved(Released(t.counters, owner), owner) == t.counters
  {
    CountersAreLivePermits(steps, t);
    if owner.Agent? {
      assert LookupOr(t.counters.perChild, owner.id, 0) == t.live[Agent(owner.id)];
      TwoOwners(t.live, owner);
    }
    ReservingUndoesReleasing(t.counters, owner);
  }

  lemma TwoOwners(live: multiset<Owner>, owner: Owner)
    requires owner != Main
    ensures live[Main] + live[owner] <= |live|
  {
    var rest := live[Main := 0];
    assert live == rest + multiset{}[Main := live[Main]];
    assert rest[owner] == live[owner];
    var others := rest[owner := 0];
    assert rest == others + multiset{}[owner := rest[owner]];
  }

  /** A request is admitted exactly when no limit is reached, counted in live permits. */
  lemma AdmittedIffWithinLimits(steps: seq<Step>, t: State, owner: Owner)
    requires Runs(Initial, steps, t)
    ensures Refused(t.counters, owner).None?
            <==> WithinLimits(t.live + multiset{owner})
  {
    InitialIsCounted();
    RunKeepsInv(Initial, steps, t);
    var more := t.live + multiset{owner};
    assert |more| == |t.live| + 1;
    if owner.Agent? {
      assert LookupOr(t.counters.perChild, owner.id, 0) == t.live[owner];
      assert more[owner] == t.live[owner] + 1 && more[Main] == t.live[Main];
      assert forall id: AgentId :: id != owner.id ==> more[Agent(id)] == t.live[Agent(id)];
    } else {
      assert more[Main] == t.live[Main] + 1;
      assert forall id: AgentId :: more[Agent(id)] == t.live[Agent(id)];
    }
  }

  /** Which refusal is given: all are busy at 64 permits, and children have 48 in all and 16 each. */
  lemma RefusalIsExact(steps: seq<Step>, t: State, owner: Owner)
    requires Runs(Initial, steps, t)
    ensures Refused(t.counters, owner) == Some(AllBusy) <==> |t.live| >= 64
    ensures
      Refused(t.counters, owner) == Some(ChildQuota) <==>
        |t.live| < 64 && owner != Main && (|t.live| - t.live[Main] >= 48 || t.live[owner] >= 16)
  {
    CountersAreLivePermits(steps, t);
    if owner.Agent? {
      assert LookupOr(t.counters.perChild, owner.id, 0) == t.live[Agent(owner.id)];
    }
  }

  /** Children cannot starve the main agent: it is admitted as long as it holds fewer than 16 permits. */
  lemma MainAlwaysHasRoom(steps: seq<Step>, t: State)
    requires Runs(Initial, steps, t)
    requires t.live[Main] < MAX_ACTIVE_TASKS - MAX_ACTIVE_CHILD_TASKS
    ensures Refused(t.counters, Main).None?
  {
    CountersAreLivePermits(steps, t);
  }

  // ---------------------------------------------------------------- recently finished activities

  function Without(recent: seq<ActivityId>, id: ActivityId): seq<ActivityId> {
    if recent == [] then []
    else (if recent[0] == id then [] else [recent[0]]) + Without(recent[1..], id)
  }

  function Front(recent: seq<ActivityId>): seq<ActivityId> {
    if |recent| <= MAX_RECENT_TASKS then recent else recent[..MAX_RECENT_TASKS]
  }

  function Finished(recent: seq<ActivityId>, id: ActivityId): seq<ActivityId> {
    [id] + Without(recent, id)
  }

  class RecentActivities {
    var recent: seq<ActivityId>
    var records: set<ActivityId>

    constructor ()
      ensures recent == [] && records == {}
    {
      recent, records := [], {};
    }

    /** The records of activities that fall off the list are forgotten with them. */
    method RetainRecent(id: ActivityId)
      modifies this
      ensures recent == Front(Finished(old(recent), id))
      ensures records == old(records) - Members(Finished(old(recent), id)[|recent|..])
    {
      hide Without, Members;
      ghost var all := Finished(recent, id);
      var kept := RetainOthers(recent, id);
      recent := [id] + kept;
      assert recent == all[..|recent|] && all[|recent|..] == [];
      assert Members([]) == {} by { MembersOfNothing(); }
      while |recent| > MAX_RECENT_TASKS
        invariant |recent| <= |all| && recent == all[..|recent|]
        invariant |recent| == |all| || MAX_RECENT_TASKS <= |recent|
        invariant records == old(records) - Members(all[|recent|..])
      {
        var last := |recent| - 1;
        var expired := recent[last];
        assert all[last..] == [expired] + all[last + 1..];
        MembersCons(expired, all[last + 1..]);
        recent := recent[..last];
        records := records - {expired};
      }
    }
  }

  function Members(ids: seq<ActivityId>): set<ActivityId> {
    set id | id in ids
  }

  lemma MembersOfNothing()
    ensures Members([]) == {}
  {
  }

  lemma MembersCons(id: ActivityId, ids: seq<ActivityId>)
    ensures Members([id] + ids) == {id} + Members(ids)
  {
  }

  method RetainOthers(recent: seq<ActivityId>, id: ActivityId) returns (kept: seq<ActivityId>)
    ensures kept == Without(recent, id)
  {
    kept := [];
    var i := 0;
    while i < |recent|
      invariant i <= |recent|
      invariant kept + Without(recent[i..], id) == Without(recent, id)
    {
      assert recent[i..][1..] == recent[i + 1..];
      var rest := Without(recent[i + 1..], id);
      assert kept + ([recent[i]] + rest) == (kept + [recent[i]]) + rest && kept + ([] + rest) == kept + rest;
      if recent[i] != id {
        kept := kept + [recent[i]];
      }
      i := i + 1;
    }
  }

  function FinishedAll(ids: seq<ActivityId>): seq<ActivityId> {
    if ids == [] then [] else Finished(FinishedAll(ids[..|ids| - 1]), ids[|ids| - 1])
  }

  function RetainedAll(ids: seq<ActivityId>): seq<ActivityId> {
    if ids == [] then [] else Front(Finished(RetainedAll(ids[..|ids| - 1]), ids[|ids| - 1]))
  }

  lemma {:induction false} WithoutAppend(a: seq<ActivityId>, b: seq<ActivityId>, id: ActivityId)
    ensures Without(a + b, id) == Without(a, id) + Without(b, id)
  {
    if a == [] {
      assert a + b == b;
    } else {
      assert (a + b)[1..] == a[1..] + b;
      WithoutAppend(a[1..], b, id);
    }
  }

  ghost predicate Distinct(a: seq<ActivityId>) {
    forall i, j | 0 <= i < j < |a| :: a[i] != a[j]
  }

  lemma {:induction false} WithoutKeeps(a: seq<ActivityId>, id: ActivityId)
    ensures id !in Without(a, id)
    ensures forall x <- Without(a, id) :: x in a
    ensures id !in a ==> Without(a, id) == a
  {
    if a != [] {
      WithoutKeeps(a[1..], id);
      assert forall x <- a[1..] :: x in a;
      assert forall x <- Without(a, id) :: (x == a[0] && a[0] != id) || x in Without(a[1..], id);
    }
  }

  lemma {:induction false} WithoutDistinct(a: seq<ActivityId>, id: ActivityId)
    requires Distinct(a)
    ensures Distinct(Without(a, id)) && |a| - 1 <= |Without(a, id)|
  {
    if a != [] {
      WithoutDistinct(a[1..], id);
      WithoutKeeps(a[1..], id);
      assert a[0] !in a[1..];
    }
  }

  lemma FinishedDistinct(a: seq<ActivityId>, id: ActivityId)
    requires Distinct(a)
    ensures Distinct(Finished(a, id))
  {
    WithoutDistinct(a, id);
    WithoutKeeps(a, id);
  }

  /** Cutting the list before or after a finish comes to the same. */
  lemma FrontOfFinished(all: seq<ActivityId>, id: ActivityId)
    requires Distinct(all)
    ensures Front(Finished(Front(all), id)) == Front(Finished(all, id))
  {
    if |all| > MAX_RECENT_TASKS {
      var front, back := all[..MAX_RECENT_TASKS], all[MAX_RECENT_TASKS..];
      assert all == front + back;
      WithoutAppend(front, back, id);
      WithoutDistinct(front, id);
      assert Finished(all, id) == Finished(front, id) + Without(back, id);
      assert |Finished(front, id)| >= MAX_RECENT_TASKS;
    }
  }

  /** Forgetting early loses nothing: the list is always the twenty most recently finished, latest first. */
  lemma {:induction false} RecentIsTheLastTwenty(ids: seq<ActivityId>)
    ensures RetainedAll(ids) == Front(FinishedAll(ids))
    ensures Distinct(FinishedAll(ids))
  {
    if ids != [] {
      var before, id := ids[..|ids| - 1], ids[|ids| - 1];
      RecentIsTheLastTwenty(before);
      FrontOfFinished(FinishedAll(before), id);
      FinishedDistinct(FinishedAll(before), id);
    }
  }

  /** The position of the last occurrence. */
  function LastAt(ids: seq<ActivityId>, id: ActivityId): (at: nat)
    requires id in ids
    ensures at < |ids| && ids[at] == id && id !in ids[at + 1..]
  {
    var last := |ids| - 1;
    if ids[last] == id then last
    else
      var at := LastAt(ids[..last], id);
      assert ids[at + 1..] == ids[..last][at + 1..] + [ids[last]];
      at
  }

  lemma {:induction false} WithoutOrder(a: seq<ActivityId>, id: ActivityId, i: nat, j: nat)
      returns (x: nat, y: nat)
    requires i < j < |Without(a, id)|
    ensures x < y < |a| && a[x] == Without(a, id)[i] && a[y] == Without(a, id)[j]
  {
    if a[0] == id {
      x, y := WithoutOrder(a[1..], id, i, j);
      x, y := x + 1, y + 1;
    } else if i > 0 {
      x, y := WithoutOrder(a[1..], id, i - 1, j - 1);
      x, y := x + 1, y + 1;
    } else {
      var k := WithoutAt(a[1..], id, j - 1);
      x, y := 0, k + 1;
    }
  }

  lemma {:induction false} WithoutAt(a: seq<ActivityId>, id: ActivityId, i: nat) returns (x: nat)
    requires i < |Without(a, id)|
    ensures x < |a| && a[x] == Without(a, id)[i] && a[x] != id
  {
    if a[0] == id {
      x := WithoutAt(a[1..], id, i);
      x := x + 1;
    } else if i > 0 {
      x := WithoutAt(a[1..], id, i - 1);
      x := x + 1;
    } else {
      x := 0;
    }
  }

  lemma {:induction false} WithoutMembers(a: seq<ActivityId>, id: ActivityId, x: ActivityId)
    ensures x in Without(a, id) <==> x in a && x != id
  {
    if a != [] {
      WithoutMembers(a[1..], id, x);
      assert x in a <==> x == a[0] || x in a[1..];
    }
  }

  /** Later entries of the list finished earlier. */
  ghost predicate LatestFirst(ids: seq<ActivityId>, recent: seq<ActivityId>) {
    && (forall id :: id in recent <==> id in ids)
    && forall i, j | 0 <= i < j < |recent| ::
         recent[i] in ids && recent[j] in ids && LastAt(ids, recent[i]) > LastAt(ids, recent[j])
  }

  lemma LastOfMore(before: seq<ActivityId>, last: ActivityId, id: ActivityId)
    requires id in before + [last]
    ensures LastAt(before + [last], id) == if id == last then |before| else LastAt(before, id)
  {
    assert (before + [last])[..|before|] == before;
  }

  lemma FinishedKeepsOrder(before: seq<ActivityId>, recent: seq<ActivityId>, last: ActivityId)
    requires LatestFirst(before, recent)
    ensures LatestFirst(before + [last], Finished(recent, last))
  {
    hide LastAt, Without;
    var ids, all := before + [last], Finished(recent, last);
    forall id ensures id in all <==> id in ids {
      WithoutMembers(recent, last, id);
    }
    forall i, j | 0 <= i < j < |all|
      ensures all[i] in ids && all[j] in ids && LastAt(ids, all[i]) > LastAt(ids, all[j])
    {
      if i > 0 {
        OtherOrder(before, recent, last, i - 1, j - 1);
        LastOfMore(before, last, all[i]);
      } else {
        LastOfMore(before, last, last);
      }
      AnyOther(before, recent, last, j - 1);
      LastOfMore(before, last, all[j]);
    }
  }

  lemma AnyOther(before: seq<ActivityId>, recent: seq<ActivityId>, last: ActivityId, i: nat)
    requires LatestFirst(before, recent) && i < |Without(recent, last)|
    ensures
      var id := Without(recent, last)[i];
      id != last && id in before && LastAt(before, id) < |before|
  {
    hide LastAt, Without;
    var x := WithoutAt(recent, last, i);
    LastIsInside(before, recent[x]);
  }

  lemma OtherOrder(before: seq<ActivityId>, recent: seq<ActivityId>, last: ActivityId, i: nat, j: nat)
    requires LatestFirst(before, recent) && i < j < |Without(recent, last)|
    ensures
      var (first, second) := (Without(recent, last)[i], Without(recent, last)[j]);
      && first != last && second != last && first in before && second in before
      && LastAt(before, first) > LastAt(before, second)
  {
    hide LastAt, Without;
    var u, v := WithoutOrder(recent, last, i, j);
    var x := WithoutAt(recent, last, i);
    var y := WithoutAt(recent, last, j);
  }

  lemma LastIsInside(ids: seq<ActivityId>, id: ActivityId)
    requires id in ids
    ensures LastAt(ids, id) < |ids|
  {
  }

  lemma {:induction false} FinishedInOrder(ids: seq<ActivityId>)
    ensures Distinct(FinishedAll(ids)) && LatestFirst(ids, FinishedAll(ids))
  {
    hide LatestFirst, Finished, Distinct;
    if ids == [] {
      assert LatestFirst([], []) && Distinct([]) by { NothingInOrder(); }
    } else {
      var before, last := ids[..|ids| - 1], ids[|ids| - 1];
      FinishedInOrder(before);
      FinishedDistinct(FinishedAll(before), last);
      FinishedKeepsOrder(before, FinishedAll(before), last);
      assert before + [last] == ids;
    }
  }

  lemma NothingInOrder()
    ensures LatestFirst([], []) && Distinct([])
  {
  }

  /**
   The list holds the activities that finished, each once, at most twenty of them: of any two that have
   finished the one that did so last comes first, and nothing on the list finished before anything that fell
   off.
   */
  lemma LatestComesFirst(ids: seq<ActivityId>)
    ensures
      var (recent, all) := (RetainedAll(ids), FinishedAll(ids));
      && recent == all[..if |all| <= 20 then |all| else 20] && Distinct(recent)
      && (forall id :: id in all <==> id in ids)
      && forall i, j | 0 <= i < j < |all| ::
           all[i] in ids && all[j] in ids && LastAt(ids, all[i]) > LastAt(ids, all[j])
  {
    hide Without, LastAt;
    FinishedInOrder(ids);
    RecentIsTheLastTwenty(ids);
  }
}
