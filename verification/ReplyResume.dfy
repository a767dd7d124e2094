/** What resolving a handoff comes to: which handoff is meant, what is written, and which event is to be queued again. */
module ReplyResume {
  import opened Outcomes
  import opened ReplyRows
  import opened ReplyInvariant

  /** The conversation has an active handoff, this one. */
  ghost predicate IsActiveOf(handoffs: seq<Handoff>, c: Thread, h: nat) {
    h < |handoffs| && handoffs[h].conversation == c && (handoffs[h].status.Queued? || handoffs[h].status.Claimed?)
  }

  /** The resolved handoff of the conversation that was closed last, the newer one of two closed at the same time. */
  ghost predicate IsLastResolved(handoffs: seq<Handoff>, c: Thread, h: nat) {
    && h < |handoffs| && handoffs[h].conversation == c && handoffs[h].status.Resolved?
    && forall i :: 0 <= i < |handoffs| && i != h && handoffs[i].conversation == c && handoffs[i].status.Resolved?
                   ==> Later(handoffs, h, i)
  }

  /** The handoff a resolve is about: the active one, unless another person claimed it and there is no override; for a
      resume without an active one, the last resolved. */
  ghost predicate IsMeant(handoffs: seq<Handoff>, c: Thread, actor: nat, allow: bool, resume: bool, h: nat) {
    || (IsActiveOf(handoffs, c, h) && (handoffs[h].status.Claimed? && handoffs[h].claimant != Some(actor) ==> allow))
    || (resume && (forall i :: !IsActiveOf(handoffs, c, i)) && IsLastResolved(handoffs, c, h))
  }

  /** The run a resume wakes: the source of the handoff, if it waits in the same conversation. */
  ghost predicate Wakes(rows: Rows, c: Thread, h: nat, r: nat) {
    && h < |rows.handoffs| && rows.handoffs[h].source == Some(r)
    && r < |rows.runs| && rows.runs[r].conversation == c && (rows.runs[r].status.Paused? || rows.runs[r].status.Pending?)
  }

  ghost predicate IsNewestEvent(events: seq<Event>, message: nat, e: nat) {
    && e < |events| && events[e].message == Some(message)
    && forall later :: e < later < |events| ==> events[later].message != Some(message)
  }

  lemma ActiveIs(rows: Rows, c: Thread, clock: int, h: nat)
    requires HandoffsOk(rows, clock)
    ensures ActiveHandoff(rows.handoffs, c) == Some(h) <==> IsActiveOf(rows.handoffs, c, h)
  {
    if IsActiveOf(rows.handoffs, c, h) {
      var found := ActiveHandoff(rows.handoffs, c);
      assert IsActive(rows.handoffs[h]) && found.Some?;
    }
  }

  lemma LastResolvedIs(handoffs: seq<Handoff>, c: Thread, h: nat)
    ensures LatestResolved(handoffs, c) == Some(h) <==> IsLastResolved(handoffs, c, h)
  {
  }

  /** At most one handoff is meant. */
  lemma MeantIsUnique(rows: Rows, c: Thread, actor: nat, allow: bool, resume: bool, clock: int, h: nat, i: nat)
    requires HandoffsOk(rows, clock)
    requires IsMeant(rows.handoffs, c, actor, allow, resume, h) && IsMeant(rows.handoffs, c, actor, allow, resume, i)
    ensures h == i
  {
    ActiveIs(rows, c, clock, h);
    ActiveIs(rows, c, clock, i);
    LastResolvedIs(rows.handoffs, c, h);
    LastResolvedIs(rows.handoffs, c, i);
  }

  /** A resolve succeeds exactly when some handoff is meant, and then it is about that one. */
  lemma ResolvesMeant(rows: Rows, c: Thread, actor: nat, allow: bool, resume: bool, cancel: bool, now: int, clock: int)
    requires HandoffsOk(rows, clock)
    ensures var result := ResolveHandoff(rows, c, actor, allow, resume, cancel, now).1;
            && (forall h: nat :: IsMeant(rows.handoffs, c, actor, allow, resume, h)
                                 <==> result.Ok? && result.value.handoff == h)
            && (result.Err? ==> result.code == if exists h :: IsActiveOf(rows.handoffs, c, h) then "handoff_not_owner"
                                               else "handoff_active_missing")
            && (result.Err? ==> ResolveHandoff(rows, c, actor, allow, resume, cancel, now).0 == rows)
  {
    hide ActiveHandoff, LatestResolved, HandoffsOk, ResumeRun, IsActiveOf, IsLastResolved;
    forall h: nat ensures ActiveHandoff(rows.handoffs, c) == Some(h) <==> IsActiveOf(rows.handoffs, c, h) {
      ActiveIs(rows, c, clock, h);
    }
    forall h: nat ensures LatestResolved(rows.handoffs, c) == Some(h) <==> IsLastResolved(rows.handoffs, c, h) {
      LastResolvedIs(rows.handoffs, c, h);
    }
    forall h: nat | IsActiveOf(rows.handoffs, c, h) ensures h < |rows.handoffs| { ActiveInside(rows.handoffs, c, h); }
    var found := ActiveHandoff(rows.handoffs, c);
    if found.Some? { assert IsActiveOf(rows.handoffs, c, found.value); }
  }

  lemma ActiveInside(handoffs: seq<Handoff>, c: Thread, h: nat)
    requires IsActiveOf(handoffs, c, h)
    ensures h < |handoffs|
  {
  }

  /** What a successful resolve writes and answers. With a resume the source run waits again, without lease and text, and
      the event to queue again is the newest one of the message it answers; everything else stays. */
  lemma ResolveWrites(rows: Rows, c: Thread, actor: nat, allow: bool, resume: bool, cancel: bool, now: int, clock: int,
                      h: nat)
    requires HandoffsOk(rows, clock) && IsMeant(rows.handoffs, c, actor, allow, resume, h)
    ensures var (after, result) := ResolveHandoff(rows, c, actor, allow, resume, cancel, now);
            && result.Ok? && result.value.handoff == h
            && after.events == rows.events && after.messages == rows.messages
            && after.handoffs == (if IsActiveOf(rows.handoffs, c, h)
                                  then rows.handoffs[h := rows.handoffs[h].(status := if cancel then Cancelled else Resolved,
                                                                            closedAt := Some(now))]
                                  else rows.handoffs)
    ensures var (after, result) := ResolveHandoff(rows, c, actor, allow, resume, cancel, now);
            forall r: nat :: resume && Wakes(rows, c, h, r) ==>
              && after.runs == rows.runs[r := rows.runs[r].(status := Pending, text := None, token := None, until := None)]
              && (forall e: nat :: result.value.resume == Some(e) <==> IsNewestEvent(rows.events, rows.runs[r].message, e))
              && (result.value.resume.None?
                  <==> forall e :: 0 <= e < |rows.events| ==> rows.events[e].message != Some(rows.runs[r].message))
    ensures var (after, result) := ResolveHandoff(rows, c, actor, allow, resume, cancel, now);
            !resume || (forall r: nat :: !Wakes(rows, c, h, r)) ==> after.runs == rows.runs && result.value.resume.None?
  {
    hide ActiveHandoff, LatestResolved, HandoffsOk, IsLastResolved;
    ResolvesMeant(rows, c, actor, allow, resume, cancel, now, clock);
    ActiveIs(rows, c, clock, h);
    if rows.handoffs[h].source.Some? { var wakes := Wakes(rows, c, h, rows.handoffs[h].source.value); }
  }

  /** So after a resume that wakes a run whose message came with an event, that event is never forgotten. */
  lemma ResumeQueuesAnswer(rows: Rows, c: Thread, actor: nat, allow: bool, cancel: bool, now: int, clock: int,
                           h: nat, r: nat, e: nat)
    requires HandoffsOk(rows, clock) && IsMeant(rows.handoffs, c, actor, allow, true, h) && Wakes(rows, c, h, r)
    requires e < |rows.events| && rows.events[e].message == Some(rows.runs[r].message)
    ensures var (after, result) := ResolveHandoff(rows, c, actor, allow, true, cancel, now);
            && result.Ok? && result.value.resume.Some? && e <= result.value.resume.value < |rows.events|
            && rows.events[result.value.resume.value].message == Some(rows.runs[r].message)
            && r < |after.runs| && after.runs[r].status.Pending? && after.runs[r].token.None? && after.runs[r].until.None?
            && after.runs[r].text.None?
  {
    hide ResolveHandoff, IsMeant, HandoffsOk;
    ResolveWrites(rows, c, actor, allow, true, cancel, now, clock, h);
    var result := ResolveHandoff(rows, c, actor, allow, true, cancel, now).1;
    var newest := result.value.resume;
    if newest.Some? { assert IsNewestEvent(rows.events, rows.runs[r].message, newest.value); }
  }

  /** A request answers with the active handoff and writes nothing to it but a source it does not have yet; without an
      active one it opens a queued handoff with the source it was given. */
  lemma RequestsExactly(rows: Rows, c: Thread, source: Option<nat>, clock: int, h: nat)
    requires HandoffsOk(rows, clock)
    ensures IsActiveOf(rows.handoffs, c, h) ==>
              RequestHandoff(rows, c, source)
              == (rows.(handoffs := rows.handoffs[h := rows.handoffs[h].(source := if rows.handoffs[h].source.Some?
                                                                                    then rows.handoffs[h].source else source)]), h)
    ensures (forall i: nat :: !IsActiveOf(rows.handoffs, c, i)) ==>
              RequestHandoff(rows, c, source)
              == (rows.(handoffs := rows.handoffs + [Handoff(c, Queued, None, None, source)]), |rows.handoffs|)
  {
    ActiveIs(rows, c, clock, h);
    var found := ActiveHandoff(rows.handoffs, c);
    if found.Some? { ActiveIs(rows, c, clock, found.value); }
    if IsActiveOf(rows.handoffs, c, h) { assert rows.handoffs[h := rows.handoffs[h]] == rows.handoffs; }
  }

  /** The claim goes to whoever asks first, and stays with them until they or an override release it. */
  lemma ClaimsExactly(rows: Rows, c: Thread, actor: nat, clock: int, h: nat)
    requires HandoffsOk(rows, clock)
    ensures ClaimHandoff(rows, c, actor).1 == Ok(h)
            <==> IsActiveOf(rows.handoffs, c, h) && (rows.handoffs[h].status.Queued? || rows.handoffs[h].claimant == Some(actor))
    ensures ReleaseHandoff(rows, c, actor, false).1 == Ok(h)
            <==> IsActiveOf(rows.handoffs, c, h) && rows.handoffs[h].status.Claimed? && rows.handoffs[h].claimant == Some(actor)
    ensures ReleaseHandoff(rows, c, actor, true).1 == Ok(h)
            <==> IsActiveOf(rows.handoffs, c, h) && rows.handoffs[h].status.Claimed?
  {
    ActiveIs(rows, c, clock, h);
    var found := ActiveHandoff(rows.handoffs, c);
    if found.Some? { ActiveIs(rows, c, clock, found.value); }
  }
}
