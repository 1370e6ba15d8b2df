/** The table-wide speaker calendar and the choice of a free speaker. */
module SeedSchedule {
  import opened Domain
  import opened Sampling

  datatype Range = Range(start: Time, end: Time)

  predicate Collides(ranges: seq<Range>, start: Time, end: Time) {
    exists i :: 0 <= i < |ranges| && start < ranges[i].end && ranges[i].start < end
  }

  function Calendar(busy: map<Id, seq<Range>>, user: Id): seq<Range> {
    if user in busy then busy[user] else []
  }

  class SpeakerSchedule {
    var busy: map<Id, seq<Range>>

    constructor ()
      ensures busy == map[]
    {
      busy := map[];
    }

    method Overlaps(user: Id, start: Time, end: Time) returns (taken: bool)
      ensures taken <==> Collides(Calendar(busy, user), start, end)
    {
      var ranges := Calendar(busy, user);
      for i := 0 to |ranges|
        invariant forall j | 0 <= j < i :: !(start < ranges[j].end && ranges[j].start < end)
      {
        if start < ranges[i].end && ranges[i].start < end {
          return true;
        }
      }
      taken := false;
    }

    method Reserve(user: Id, start: Time, end: Time)
      modifies this
      ensures busy == old(busy)[user := Calendar(old(busy), user) + [Range(start, end)]]
    {
      busy := busy[user := Calendar(busy, user) + [Range(start, end)]];
    }
  }

  /** The first candidate free for the slot; none means every candidate is busy
      then, which is where the generator gives up. */
  method PickSpeaker(candidates: seq<Id>, sched: SpeakerSchedule, start: Time, end: Time) returns (speaker: Option<Id>)
    ensures speaker.None? <==> forall c | c in candidates :: Collides(Calendar(sched.busy, c), start, end)
    ensures speaker.Some? ==>
      exists i ::
        && 0 <= i < |candidates| && candidates[i] == speaker.value
        && !Collides(Calendar(sched.busy, speaker.value), start, end)
        && forall j | 0 <= j < i :: Collides(Calendar(sched.busy, candidates[j]), start, end)
  {
    for i := 0 to |candidates|
      invariant forall j | 0 <= j < i :: Collides(Calendar(sched.busy, candidates[j]), start, end)
    {
      var taken := sched.Overlaps(candidates[i], start, end);
      if !taken {
        assert candidates[i] in candidates;
        return Some(candidates[i]);
      }
    }
    speaker := None;
  }

  /** As long as fewer users have ever been booked than the pool holds, some member
      of the pool has an empty calendar, so a candidate list that ends in the whole
      pool always offers a speaker. */
  lemma SomeoneIsFree(pool: set<Id>, candidates: seq<Id>, busy: map<Id, seq<Range>>, start: Time, end: Time)
    requires |busy| < |pool| && forall u | u in pool :: u in candidates
    ensures exists c :: c in candidates && !Collides(Calendar(busy, c), start, end)
  {
    assert |busy.Keys| == |busy|;
    if pool <= busy.Keys {
      SmallerSubset(pool, busy.Keys);
      assert false;
    }
    var u :| u in pool && u !in busy.Keys;
    assert Calendar(busy, u) == [];
    assert u in candidates && !Collides(Calendar(busy, u), start, end);
  }

  /** The first free candidate is one of the members if they come first and one of
      them is free. */
  lemma MemberComesFirst(
    memberIds: seq<Id>, candidates: seq<Id>, busy: map<Id, seq<Range>>, start: Time, end: Time, speaker: Id)
    requires |memberIds| <= |candidates| && multiset(candidates[..|memberIds|]) == multiset(memberIds)
    requires exists u :: u in memberIds && !Collides(Calendar(busy, u), start, end)
    requires exists i ::
      && 0 <= i < |candidates| && candidates[i] == speaker
      && forall j | 0 <= j < i :: Collides(Calendar(busy, candidates[j]), start, end)
    ensures speaker in memberIds
  {
    hide Collides, Calendar;
    var first := candidates[..|memberIds|];
    var u :| u in memberIds && !Collides(Calendar(busy, u), start, end);
    assert u in multiset(first);
    var n :| 0 <= n < |first| && first[n] == u;
    var i :| 0 <= i < |candidates| && candidates[i] == speaker
      && forall j | 0 <= j < i :: Collides(Calendar(busy, candidates[j]), start, end);
    assert candidates[n] == u && i <= n;
    assert first[i] == speaker && speaker in multiset(first);
  }
}
