/** What every reachable state of the reply protocol satisfies, and the proof that each step keeps it. */
module ReplyInvariant {
  import opened Outcomes
  import opened Whitespace
  import opened ReplyRows
  import opened ReplyProtocol

  // ---------------------------------------------------------------- the invariant

  ghost predicate RunOk(run: Run, messages: nat, nextToken: nat) {
    && run.message < messages
    && (run.text.Some? <==> run.status.Generated?)
    && (run.token.Some? <==> run.until.Some?)
    && (run.token.Some? ==> IsOpen(run) && run.token.value < nextToken)
  }

  ghost predicate HandoffOk(h: Handoff, clock: int) {
    && (h.status.Queued? ==> h.claimant.None?)
    && (h.status.Claimed? ==> h.claimant.Some?)
    && (h.closedAt.Some? <==> !IsActive(h))
    && (h.closedAt.Some? ==> h.closedAt.value <= clock)
  }

  ghost predicate EventsOk(rows: Rows) {
    && (forall i, j :: 0 <= i < j < |rows.events| && rows.events[i].account == rows.events[j].account
                       ==> rows.events[i].external != rows.events[j].external)
    && (forall i :: 0 <= i < |rows.events| && rows.events[i].message.Some? ==> rows.events[i].message.value < |rows.messages|)
  }

  ghost predicate MessagesOk(rows: Rows) {
    forall i, j :: 0 <= i < j < |rows.messages| && rows.messages[i].key.Some? ==> rows.messages[i].key != rows.messages[j].key
  }

  ghost predicate RunsOk(rows: Rows, nextToken: nat) {
    && (forall r :: 0 <= r < |rows.runs| ==> RunOk(rows.runs[r], |rows.messages|, nextToken))
    && (forall i, j :: 0 <= i < j < |rows.runs| ==> rows.runs[i].message != rows.runs[j].message)
  }

  ghost predicate HandoffsOk(rows: Rows, clock: int) {
    && (forall h :: 0 <= h < |rows.handoffs| ==> HandoffOk(rows.handoffs[h], clock))
    && (forall i, j :: 0 <= i < j < |rows.handoffs| && rows.handoffs[i].conversation == rows.handoffs[j].conversation
                       ==> !IsActive(rows.handoffs[i]))
  }

  ghost predicate RowsOk(rows: Rows, nextToken: nat, clock: int) {
    EventsOk(rows) && MessagesOk(rows) && RunsOk(rows, nextToken) && HandoffsOk(rows, clock)
  }

  /** Message m is the reply of run r: it carries the run's key, an AI author and a stored text. */
  ghost predicate ReplyOf(s: State, r: nat, m: nat) {
    && r < |s.trails| && r < |s.rows.runs|
    && m < |s.rows.messages|
    && s.rows.messages[m].key == Some(ReplyKey(r))
    && s.rows.messages[m].text in s.trails[r].stored
    && OutboundMatches(s.rows.messages[m], s.rows.runs[r].conversation, s.rows.runs[r].account, s.rows.messages[m].text, AI)
  }

  ghost predicate PcOk(s: State, pc: Pc) {
    && (pc.Resolving? ==> pc.event < |s.rows.events|)
    && (pc.Inserting? ==> pc.message < |s.rows.messages|)
    && (PcRun(pc).Some? ==> PcRun(pc).value < |s.rows.runs| && PcRun(pc).value < |s.trails|)
    && (PcToken(pc).Some? ==> PcToken(pc).value < s.nextToken)
    && (pc.Persisting? ==> IsDeliverable(pc.text))
    && (pc.Guarding? || InTransaction(pc) ==> pc.text in s.trails[pc.run].stored)
    && (pc.Completing? ==> ReplyOf(s, pc.run, pc.reply))
  }

  /** A worker whose claim is still the row's lease has not read an older clock than the claim. */
  ghost predicate SeenOk(s: State, worker: Worker) {
    var r, t := PcRun(worker.pc), PcToken(worker.pc);
    t.Some? && r.Some? && Holds(s.rows, r.value, t.value) && r.value < |s.trails| && s.trails[r.value].leases != []
    ==> s.trails[r.value].leases[|s.trails[r.value].leases| - 1].from <= worker.seen
  }

  ghost predicate WorkersOk(s: State) {
    && (forall w :: 0 <= w < |s.workers| ==> PcOk(s, s.workers[w].pc) && SeenOk(s, s.workers[w]) && s.workers[w].seen <= s.clock)
    && (forall v, w :: 0 <= v < w < |s.workers| && PcToken(s.workers[v].pc).Some?
                       ==> PcToken(s.workers[v].pc) != PcToken(s.workers[w].pc))
  }

  /** The conversation lock is held exactly by the worker inside the guarded transaction, and
      while it is held the conversation has no active handoff. */
  ghost predicate LocksOk(s: State) {
    && (forall w :: 0 <= w < |s.workers| && InTransaction(s.workers[w].pc) ==>
          && s.workers[w].pc.run < |s.rows.runs|
          && s.rows.runs[s.workers[w].pc.run].conversation in s.locks
          && s.locks[s.rows.runs[s.workers[w].pc.run].conversation] == w)
    && (forall c :: c in s.locks ==>
          && s.locks[c] < |s.workers| && InTransaction(s.workers[s.locks[c]].pc)
          && s.workers[s.locks[c]].pc.run < |s.rows.runs|
          && s.rows.runs[s.workers[s.locks[c]].pc.run].conversation == c)
    && (forall h :: 0 <= h < |s.rows.handoffs| && IsActive(s.rows.handoffs[h]) ==> s.rows.handoffs[h].conversation !in s.locks)
  }

  /** Leases granted since the last clearing follow one another without overlap, and the row shows the last. */
  ghost predicate LeasesOk(leases: seq<Lease>, run: Run) {
    && (run.token.None? ==> leases == [])
    && (run.token.Some? ==> leases != [] && run.until.Some?
                            && leases[|leases| - 1].token == run.token.value
                            && leases[|leases| - 1].until == run.until.value)
    && (forall i :: 0 <= i < |leases| ==> leases[i].from <= leases[i].until)
    && (forall i, j :: 0 <= i < j < |leases| ==> leases[i].until < leases[j].from && leases[i].token < leases[j].token)
  }

  /** Is a worker between the external send of run r and the commit of its message? */
  ghost predicate InFlight(s: State, r: nat)
    requires r < |s.rows.runs|
  {
    var c := s.rows.runs[r].conversation;
    c in s.locks && s.locks[c] < |s.workers| && s.workers[s.locks[c]].pc.Sent? && s.workers[s.locks[c]].pc.run == r
  }

  /** Every external send is accounted for: committed, lost, or still in flight. */
  ghost predicate SendsOk(s: State, r: nat)
    requires r < |s.rows.runs| && r < |s.trails|
  {
    var trail := s.trails[r];
    && trail.commits <= 1
    && (trail.commits == 1 ==> FindKey(s.rows.messages, ReplyKey(r)).Some? && !InFlight(s, r))
    && (s.rows.runs[r].channel.Telegram? ==> trail.sends == trail.lost + trail.commits + if InFlight(s, r) then 1 else 0)
    && (s.rows.runs[r].channel.Website? ==> trail.sends == 0 && trail.lost == 0)
  }

  ghost predicate TrailOk(s: State, r: nat)
    requires r < |s.rows.runs| && r < |s.trails|
  {
    && LeasesOk(s.trails[r].leases, s.rows.runs[r])
    && (forall t :: t in s.trails[r].stored ==> IsDeliverable(t))
    && (s.rows.runs[r].text.Some? ==> s.rows.runs[r].text.value in s.trails[r].stored)
    && (s.rows.runs[r].status.Succeeded? ==> s.rows.runs[r].outbound.Some? && ReplyOf(s, r, s.rows.runs[r].outbound.value))
    && SendsOk(s, r)
  }

  ghost predicate TrailsOk(s: State) {
    && |s.trails| == |s.rows.runs|
    && forall r :: 0 <= r < |s.rows.runs| ==> TrailOk(s, r)
  }

  ghost predicate Inv(s: State) {
    RowsOk(s.rows, s.nextToken, s.clock) && TrailsOk(s) && WorkersOk(s) && LocksOk(s)
  }

  // ---------------------------------------------------------------- two frames

  ghost predicate Extends(before: seq<Message>, after: seq<Message>) {
    |before| <= |after| && forall i :: 0 <= i < |before| ==> after[i] == before[i]
  }

  /** A worker moves on without touching rows, trails or locks. */
  ghost predicate Moves(s: State, w: nat, worker: Worker) {
    && w < |s.workers|
    && !InTransaction(s.workers[w].pc) && !InTransaction(worker.pc)
    && PcOk(s, worker.pc) && SeenOk(s, worker) && worker.seen <= s.clock
    && (PcToken(worker.pc).Some? ==>
          forall v :: 0 <= v < |s.workers| && v != w ==> PcToken(s.workers[v].pc) != PcToken(worker.pc))
  }

  lemma PutKeepsTrails(s: State, w: nat, worker: Worker)
    requires TrailsOk(s) && Moves(s, w, worker)
    ensures TrailsOk(Put(s, w, worker))
  {
    var after := Put(s, w, worker);
    forall r | 0 <= r < |s.rows.runs| ensures TrailOk(after, r) {
      assert TrailOk(s, r);
      assert InFlight(after, r) <==> InFlight(s, r);
    }
  }

  lemma PutKeepsWorkers(s: State, w: nat, worker: Worker)
    requires WorkersOk(s) && Moves(s, w, worker)
    ensures WorkersOk(Put(s, w, worker))
  {
    var after := Put(s, w, worker);
    forall v | 0 <= v < |s.workers|
      ensures PcOk(after, after.workers[v].pc) && SeenOk(after, after.workers[v]) && after.workers[v].seen <= after.clock
    {
      assert PcOk(s, s.workers[v].pc) && SeenOk(s, s.workers[v]);
    }
  }

  lemma PutKeepsInv(s: State, w: nat, worker: Worker)
    requires Inv(s) && Moves(s, w, worker)
    ensures Inv(Put(s, w, worker))
  {
    PutKeepsTrails(s, w, worker);
    PutKeepsWorkers(s, w, worker);
    assert LocksOk(Put(s, w, worker));
  }

  lemma PcOfWorker(s: State, w: nat)
    requires Inv(s) && w < |s.workers|
    ensures PcOk(s, s.workers[w].pc)
  {
  }

  /** The usual move: the claim, if there still is one, is the one the worker already had. */
  lemma GoKeepsInv(s: State, w: nat, pc: Pc)
    requires Inv(s) && w < |s.workers|
    requires !InTransaction(s.workers[w].pc) && !InTransaction(pc) && PcOk(s, pc)
    requires PcToken(pc).Some? ==> PcToken(pc) == PcToken(s.workers[w].pc) && PcRun(pc) == PcRun(s.workers[w].pc)
    ensures Inv(Go(s, w, pc))
  {
    assert SeenOk(s, s.workers[w]);
    PutKeepsInv(s, w, s.workers[w].(pc := pc));
  }

  /** How a transaction may change a run's row when it grants no lease and stores no text. */
  ghost predicate RunEvolves(s: State, r: nat, after: Run)
    requires r < |s.rows.runs|
  {
    var before := s.rows.runs[r];
    && after.conversation == before.conversation && after.account == before.account && after.channel == before.channel
    && (after == before
        || (after.token.None? && (after.text.Some? ==> after.text == before.text)
            && (after.status.Succeeded? ==> after.outbound.Some? && ReplyOf(s, r, after.outbound.value))))
  }

  ghost predicate RowsEvolve(s: State, after: Rows) {
    && |s.rows.events| <= |after.events|
    && Extends(s.rows.messages, after.messages)
    && |s.rows.runs| <= |after.runs|
    && (forall r :: 0 <= r < |s.rows.runs| ==> RunEvolves(s, r, after.runs[r]))
    && (forall r :: |s.rows.runs| <= r < |after.runs| ==>
          after.runs[r].token.None? && after.runs[r].text.None? && !after.runs[r].status.Succeeded?)
    && (forall h :: 0 <= h < |after.handoffs| && IsActive(after.handoffs[h]) ==> after.handoffs[h].conversation !in s.locks)
  }

  lemma ReplyOfEvolves(s: State, after: Rows, r: nat, m: nat)
    requires |s.trails| == |s.rows.runs| && RowsEvolve(s, after) && ReplyOf(s, r, m)
    ensures ReplyOf(WithRows(s, after), r, m)
  {
    assert RunEvolves(s, r, after.runs[r]);
  }

  lemma TrailEvolves(s: State, after: Rows, r: nat)
    requires Inv(s) && RowsEvolve(s, after) && r < |s.rows.runs|
    ensures TrailOk(WithRows(s, after), r)
  {
    var t := WithRows(s, after);
    assert TrailOk(s, r) && RunEvolves(s, r, after.runs[r]);
    if after.runs[r].status.Succeeded? { ReplyOfEvolves(s, after, r, after.runs[r].outbound.value); }
    assert InFlight(s, r) <==> InFlight(t, r);
    if s.trails[r].commits == 1 {
      var m := FindKey(s.rows.messages, ReplyKey(r)).value;
      assert after.messages[m].key == Some(ReplyKey(r));
    }
  }

  lemma WorkersEvolve(s: State, after: Rows)
    requires Inv(s) && RowsEvolve(s, after)
    ensures WorkersOk(WithRows(s, after))
  {
    var t := WithRows(s, after);
    forall w | 0 <= w < |s.workers| ensures PcOk(t, t.workers[w].pc) && SeenOk(t, t.workers[w]) {
      var pc := s.workers[w].pc;
      assert PcOk(s, pc) && SeenOk(s, s.workers[w]);
      if pc.Completing? { ReplyOfEvolves(s, after, pc.run, pc.reply); }
      if PcRun(pc).Some? {
        var r := PcRun(pc).value;
        assert RunEvolves(s, r, after.runs[r]) && TrailOk(s, r);
      }
    }
  }

  lemma LocksEvolve(s: State, after: Rows)
    requires Inv(s) && RowsEvolve(s, after)
    ensures LocksOk(WithRows(s, after))
  {
    forall r | 0 <= r < |s.rows.runs| ensures after.runs[r].conversation == s.rows.runs[r].conversation {
      assert RunEvolves(s, r, after.runs[r]);
    }
  }

  lemma WithRowsKeepsInv(s: State, after: Rows)
    requires Inv(s) && RowsEvolve(s, after) && RowsOk(after, s.nextToken, s.clock)
    ensures Inv(WithRows(s, after))
  {
    WorkersEvolve(s, after);
    LocksEvolve(s, after);
    forall r | 0 <= r < |after.runs| ensures TrailOk(WithRows(s, after), r) {
      if r < |s.rows.runs| { TrailEvolves(s, after, r); }
      else { assert !InFlight(WithRows(s, after), r); }
    }
  }

  /** A claim, a renewal or a persist: one open run gets a new row and a new trail. */
  ghost predicate Touches(s: State, rows: Rows, r: nat, trail: Trail, nextToken: nat) {
    && r < |s.rows.runs| && |s.trails| == |s.rows.runs| && r < |rows.runs|
    && s.nextToken <= nextToken
    && rows == SetRun(s.rows, r, rows.runs[r])
    && rows.runs[r].message == s.rows.runs[r].message
    && rows.runs[r].conversation == s.rows.runs[r].conversation
    && rows.runs[r].account == s.rows.runs[r].account
    && rows.runs[r].channel == s.rows.runs[r].channel
    && IsOpen(rows.runs[r]) && RunOk(rows.runs[r], |s.rows.messages|, nextToken)
    && LeasesOk(trail.leases, rows.runs[r])
    && trail == s.trails[r].(leases := trail.leases, stored := trail.stored)
    && s.trails[r].stored <= trail.stored
    && (forall t :: t in trail.stored ==> IsDeliverable(t))
    && (rows.runs[r].text.Some? ==> rows.runs[r].text.value in trail.stored)
    && ((rows.runs[r].token == s.rows.runs[r].token && s.trails[r].leases != [] && trail.leases != [])
          ==> trail.leases[|trail.leases| - 1].from == s.trails[r].leases[|s.trails[r].leases| - 1].from)
    && (rows.runs[r].token == s.rows.runs[r].token || (rows.runs[r].token.Some? && s.nextToken <= rows.runs[r].token.value))
    && (rows.runs[r].token.Some? ==> s.trails[r].leases != [] || rows.runs[r].token != s.rows.runs[r].token)
  }

  lemma TouchKeepsTrails(s: State, rows: Rows, r: nat, trail: Trail, nextToken: nat)
    requires Inv(s) && Touches(s, rows, r, trail, nextToken)
    ensures TrailsOk(Touch(s, rows, r, trail).(nextToken := nextToken))
  {
    var t := Touch(s, rows, r, trail).(nextToken := nextToken);
    forall q | 0 <= q < |rows.runs| ensures TrailOk(t, q) {
      assert TrailOk(s, q);
      assert InFlight(s, q) <==> InFlight(t, q);
      if s.rows.runs[q].status.Succeeded? { assert ReplyOf(s, q, s.rows.runs[q].outbound.value); }
    }
  }

  lemma TouchKeepsWorkers(s: State, rows: Rows, r: nat, trail: Trail, nextToken: nat)
    requires Inv(s) && Touches(s, rows, r, trail, nextToken)
    ensures WorkersOk(Touch(s, rows, r, trail).(nextToken := nextToken))
  {
    var t := Touch(s, rows, r, trail).(nextToken := nextToken);
    forall w | 0 <= w < |s.workers| ensures PcOk(t, t.workers[w].pc) && SeenOk(t, t.workers[w]) {
      assert PcOk(s, s.workers[w].pc) && SeenOk(s, s.workers[w]);
      if s.workers[w].pc.Completing? { assert ReplyOf(s, s.workers[w].pc.run, s.workers[w].pc.reply); }
    }
  }

  lemma TouchKeepsInv(s: State, rows: Rows, r: nat, trail: Trail, nextToken: nat)
    requires Inv(s) && Touches(s, rows, r, trail, nextToken)
    ensures Inv(Touch(s, rows, r, trail).(nextToken := nextToken))
  {
    TouchKeepsTrails(s, rows, r, trail, nextToken);
    TouchKeepsWorkers(s, rows, r, trail, nextToken);
    var t := Touch(s, rows, r, trail).(nextToken := nextToken);
    assert RunsOk(rows, nextToken);
    assert LocksOk(t);
  }

  // ---------------------------------------------------------------- each step keeps it

  lemma InitialInv(workers: nat)
    ensures Inv(Initial(workers))
  {
  }

  lemma TickKeepsInv(s: State, elapsed: nat)
    requires Inv(s)
    ensures Inv(s.(clock := s.clock + elapsed))
  {
    var t := s.(clock := s.clock + elapsed);
    forall r | 0 <= r < |s.rows.runs| ensures TrailOk(t, r) {
      assert TrailOk(s, r) && (InFlight(s, r) <==> InFlight(t, r));
    }
    forall w | 0 <= w < |s.workers| ensures PcOk(t, t.workers[w].pc) && SeenOk(t, t.workers[w]) {
      assert PcOk(s, s.workers[w].pc) && SeenOk(s, s.workers[w]);
    }
  }

  lemma StartKeepsInv(s: State, w: nat, e: nat)
    requires Inv(s)
    ensures Inv(StartStep(s, w, e))
  {
    if StartStep(s, w, e) != s { GoKeepsInv(s, w, Resolving(e)); }
  }

  lemma ResolveKeepsInv(s: State, w: nat, routed: bool)
    requires Inv(s)
    ensures Inv(ResolveStep(s, w, routed))
  {
    if PcAt(s, w).Resolving? { GoKeepsInv(s, w, ResolveStep(s, w, routed).workers[w].pc); }
  }

  lemma InsertKeepsRows(rows: Rows, message: nat, channel: Channel, prompt: nat, nextToken: nat, clock: int)
    requires RowsOk(rows, nextToken, clock) && message < |rows.messages|
    ensures RowsOk(InsertRun(rows, message, channel, prompt).0, nextToken, clock)
    ensures InsertRun(rows, message, channel, prompt).1 < |InsertRun(rows, message, channel, prompt).0.runs|
  {
    var after := InsertRun(rows, message, channel, prompt).0;
    forall i, j | 0 <= i < j < |after.runs| ensures after.runs[i].message != after.runs[j].message {
      if j == |rows.runs| { assert after.runs[i] == rows.runs[i]; }
    }
  }

  lemma InsertKeepsInv(s: State, w: nat, channel: Channel, prompt: nat)
    requires Inv(s)
    ensures Inv(InsertStep(s, w, channel, prompt))
  {
    var pc := PcAt(s, w);
    if pc.Inserting? {
      assert PcOk(s, pc);
      var rows := InsertRun(s.rows, pc.message, channel, prompt).0;
      InsertKeepsRows(s.rows, pc.message, channel, prompt, s.nextToken, s.clock);
      WithRowsKeepsInv(s, rows);
      GoKeepsInv(WithRows(s, rows), w, Claiming(InsertRun(s.rows, pc.message, channel, prompt).1));
    }
  }

  lemma LeasesThere(s: State, r: nat)
    requires Inv(s) && r < |s.rows.runs|
    ensures s.rows.runs[r].token.Some? ==> s.trails[r].leases != []
  {
    assert TrailOk(s, r);
  }

  lemma GrantedKeepsInv(s: State, w: nat, r: nat, now: int)
    requires Inv(s) && w < |s.workers| && s.workers[w].pc == Claiming(r) && r < |s.rows.runs|
    requires ClockReading(s, w, now) && ClaimRun(s.rows, r, s.nextToken, now).1.ClaimedRun?
    ensures Inv(ClaimStep(s, w, now))
  {
    hide LocksOk, LeasesOk;
    assert TrailOk(s, r);
    assert s.rows.runs[r].token.Some? ==> s.trails[r].leases != [] by { LeasesThere(s, r); }
    var rows := ClaimRun(s.rows, r, s.nextToken, now).0;
    var trail := s.trails[r].(leases := s.trails[r].leases + [Lease(s.nextToken, now, now + LEASE_SECONDS)]);
    ClaimGrows(s, r, now);
    TouchKeepsInv(s, rows, r, trail, s.nextToken + 1);
    forall v | 0 <= v < |s.workers| ensures PcToken(s.workers[v].pc) != Some(s.nextToken) {
      assert PcOk(s, s.workers[v].pc);
    }
    PutKeepsInv(Touch(s, rows, r, trail).(nextToken := s.nextToken + 1), w, Worker(Loading(r, s.nextToken), now));
  }

  lemma ClaimKeepsInv(s: State, w: nat, now: int)
    requires Inv(s)
    ensures Inv(ClaimStep(s, w, now))
  {
    var pc := PcAt(s, w);
    if pc.Claiming? && ClockReading(s, w, now) {
      assert PcOk(s, pc);
      if ClaimRun(s.rows, pc.run, s.nextToken, now).1.ClaimedRun? {
        GrantedKeepsInv(s, w, pc.run, now);
      } else {
        PutKeepsInv(s, w, Worker(Idle, now));
      }
    }
  }

  /** A granted claim starts strictly after every lease granted since the last clearing. */
  lemma ClaimGrows(s: State, r: nat, now: int)
    requires Inv(s) && r < |s.rows.runs| && ClaimRun(s.rows, r, s.nextToken, now).1.ClaimedRun?
    ensures LeasesOk(s.trails[r].leases + [Lease(s.nextToken, now, now + LEASE_SECONDS)],
                     ClaimRun(s.rows, r, s.nextToken, now).0.runs[r])
    ensures RunOk(ClaimRun(s.rows, r, s.nextToken, now).0.runs[r], |s.rows.messages|, s.nextToken + 1)
    ensures forall t :: t in s.trails[r].stored ==> IsDeliverable(t)
    ensures s.rows.runs[r].text.Some? ==> s.rows.runs[r].text.value in s.trails[r].stored
  {
    assert TrailOk(s, r) && RunOk(s.rows.runs[r], |s.rows.messages|, s.nextToken);
    var leases := s.trails[r].leases;
    if leases != [] {
      var last := |leases| - 1;
      assert forall i :: 0 <= i < last ==> leases[i].until < leases[last].from && leases[i].token < leases[last].token;
    }
  }

  lemma LoadKeepsInv(s: State, w: nat, usable: bool)
    requires Inv(s)
    ensures Inv(LoadStep(s, w, usable))
  {
    var pc := PcAt(s, w);
    if pc.Loading? {
      assert PcOk(s, pc) && TrailOk(s, pc.run);
      GoKeepsInv(s, w, LoadStep(s, w, usable).workers[w].pc);
    }
  }

  lemma RenewedKeepsInv(s: State, r: nat, token: nat, now: int)
    requires Inv(s) && r < |s.rows.runs| && RenewLease(s.rows, r, token, now).1
    requires s.trails[r].leases != [] ==> s.trails[r].leases[|s.trails[r].leases| - 1].from <= now
    ensures Inv(Touch(s, RenewLease(s.rows, r, token, now).0, r, ExtendLease(s.trails[r], now + LEASE_SECONDS)))
  {
    assert TrailOk(s, r) && RunOk(s.rows.runs[r], |s.rows.messages|, s.nextToken);
    TouchKeepsInv(s, RenewLease(s.rows, r, token, now).0, r, ExtendLease(s.trails[r], now + LEASE_SECONDS), s.nextToken);
  }

  lemma RenewedMoves(t: State, w: nat, now: int)
    requires Inv(t) && w < |t.workers| && t.workers[w].pc.Working? && t.workers[w].seen <= now <= t.clock
    ensures Inv(Put(t, w, Worker(t.workers[w].pc, now)))
  {
    assert PcOk(t, t.workers[w].pc) && SeenOk(t, t.workers[w]);
    PutKeepsInv(t, w, Worker(t.workers[w].pc, now));
  }

  lemma RenewKeepsInv(s: State, w: nat, now: int)
    requires Inv(s)
    ensures Inv(RenewStep(s, w, now))
  {
    var pc := PcAt(s, w);
    if pc.Working? && ClockReading(s, w, now) {
      assert PcOk(s, pc) && SeenOk(s, s.workers[w]);
      var (rows, kept) := RenewLease(s.rows, pc.run, pc.token, now);
      if kept {
        RenewedKeepsInv(s, pc.run, pc.token, now);
        RenewedMoves(Touch(s, rows, pc.run, ExtendLease(s.trails[pc.run], now + LEASE_SECONDS)), w, now);
      } else {
        PutKeepsInv(s, w, Worker(Idle, now));
      }
    }
  }

  /** A requested handoff keeps the one-active rule, and only its own conversation can become active. */
  lemma RequestHandoffKeepsRows(rows: Rows, c: Thread, source: Option<nat>, clock: int)
    requires HandoffsOk(rows, clock)
    ensures HandoffsOk(RequestHandoff(rows, c, source).0, clock)
    ensures RequestHandoff(rows, c, source).0 == rows.(handoffs := RequestHandoff(rows, c, source).0.handoffs)
    ensures var after := RequestHandoff(rows, c, source).0.handoffs;
            forall h :: 0 <= h < |after| && IsActive(after[h]) && after[h].conversation != c
                    ==> h < |rows.handoffs| && after[h] == rows.handoffs[h]
  {
    var after := RequestHandoff(rows, c, source).0.handoffs;
    forall h | 0 <= h < |after| ensures HandoffOk(after[h], clock) {
      if h < |rows.handoffs| { assert HandoffOk(rows.handoffs[h], clock); }
    }
  }

  lemma PauseKeepsInv(s: State, r: nat)
    requires Inv(s) && r < |s.rows.runs| && s.rows.runs[r].conversation !in s.locks
    ensures Inv(WithRows(s, PauseForApproval(s.rows, s.rows.runs[r].conversation, r)))
  {
    var c := s.rows.runs[r].conversation;
    RequestHandoffKeepsRows(s.rows, c, Some(r), s.clock);
    var rows := PauseForApproval(s.rows, c, r);
    assert RunOk(s.rows.runs[r], |s.rows.messages|, s.nextToken);
    assert RunsOk(rows, s.nextToken);
    WithRowsKeepsInv(s, rows);
  }

  lemma ToolPauseKeepsInv(s: State, w: nat, enabled: bool)
    requires Inv(s)
    ensures Inv(ToolPauseStep(s, w, enabled))
  {
    var pc := PcAt(s, w);
    if pc.Working? && enabled {
      assert PcOk(s, pc);
      if s.rows.runs[pc.run].conversation !in s.locks {
        PauseKeepsInv(s, pc.run);
        GoKeepsInv(WithRows(s, PauseForApproval(s.rows, s.rows.runs[pc.run].conversation, pc.run)), w, Idle);
      }
    }
  }

  lemma ProduceKeepsInv(s: State, w: nat, text: string)
    requires Inv(s)
    ensures Inv(ProduceStep(s, w, text))
  {
    var pc := PcAt(s, w);
    if pc.Working? {
      assert PcOk(s, pc);
      if ValidateResponse(text).Ok? { ValidatedIsDeliverable(text); }
      GoKeepsInv(s, w, ProduceStep(s, w, text).workers[w].pc);
    }
  }

  lemma FailWorkKeepsInv(s: State, w: nat, terminal: bool, again: bool)
    requires Inv(s)
    ensures Inv(FailWorkStep(s, w, terminal, again))
  {
    var pc := PcAt(s, w);
    if pc.Working? {
      assert PcOk(s, pc);
      GoKeepsInv(s, w, Releasing(pc.run, pc.token, terminal, again));
    }
  }

  lemma StoredKeepsInv(s: State, r: nat, token: nat, text: string)
    requires Inv(s) && r < |s.rows.runs| && IsDeliverable(text) && PersistText(s.rows, r, token, text).1
    ensures Inv(Touch(s, PersistText(s.rows, r, token, text).0, r, s.trails[r].(stored := s.trails[r].stored + {text})))
  {
    assert TrailOk(s, r) && RunOk(s.rows.runs[r], |s.rows.messages|, s.nextToken);
    TouchKeepsInv(s, PersistText(s.rows, r, token, text).0, r, s.trails[r].(stored := s.trails[r].stored + {text}), s.nextToken);
  }

  lemma PersistKeepsInv(s: State, w: nat)
    requires Inv(s)
    ensures Inv(PersistStep(s, w))
  {
    var pc := PcAt(s, w);
    if pc.Persisting? {
      assert PcOk(s, pc);
      if PersistText(s.rows, pc.run, pc.token, pc.text).1 {
        StoredKeepsInv(s, pc.run, pc.token, pc.text);
        var t := Touch(s, PersistText(s.rows, pc.run, pc.token, pc.text).0, pc.run,
                       s.trails[pc.run].(stored := s.trails[pc.run].stored + {pc.text}));
        StoredMoves(t, w, pc.run, pc.token, pc.text);
      } else {
        GoKeepsInv(s, w, Idle);
      }
    }
  }

  lemma StoredMoves(t: State, w: nat, r: nat, token: nat, text: string)
    requires Inv(t) && w < |t.workers| && t.workers[w].pc == Persisting(r, token, text)
    requires r < |t.trails| && text in t.trails[r].stored
    ensures Inv(Go(t, w, Guarding(r, token, text)))
  {
    assert PcOk(t, t.workers[w].pc);
    GoKeepsInv(t, w, Guarding(r, token, text));
  }

  // ---------------------------------------------------------------- the guarded transaction

  lemma DeliverableIsStripped(text: string)
    requires IsDeliverable(text)
    ensures Strip(text) == text
  {
  }

  /** What entering or leaving the guarded transaction leaves alone. */
  ghost predicate SameBase(s: State, t: State) {
    && t.rows == s.rows.(messages := t.rows.messages) && Extends(s.rows.messages, t.rows.messages)
    && t.clock == s.clock && t.nextToken == s.nextToken
    && |t.trails| == |s.trails| && |t.workers| == |s.workers|
    && forall r :: 0 <= r < |s.trails| ==> t.trails[r].leases == s.trails[r].leases && t.trails[r].stored == s.trails[r].stored
  }

  ghost predicate OnlyWorker(s: State, t: State, w: nat) {
    && w < |s.workers| == |t.workers|
    && (forall v :: 0 <= v < |s.workers| && v != w ==> t.workers[v] == s.workers[v])
    && t.workers[w].seen == s.workers[w].seen
    && (PcToken(t.workers[w].pc).Some? ==>
          PcToken(t.workers[w].pc) == PcToken(s.workers[w].pc) && PcRun(t.workers[w].pc) == PcRun(s.workers[w].pc))
  }

  lemma BasePc(s: State, t: State, pc: Pc)
    requires SameBase(s, t) && PcOk(s, pc)
    ensures PcOk(t, pc)
  {
    if pc.Completing? { assert ReplyOf(s, pc.run, pc.reply); }
  }

  lemma BaseWorkers(s: State, t: State, w: nat)
    requires WorkersOk(s) && SameBase(s, t) && OnlyWorker(s, t, w) && PcOk(t, t.workers[w].pc)
    ensures WorkersOk(t)
  {
    forall v | 0 <= v < |s.workers|
      ensures PcOk(t, t.workers[v].pc) && SeenOk(t, t.workers[v]) && t.workers[v].seen <= t.clock
    {
      assert PcOk(s, s.workers[v].pc) && SeenOk(s, s.workers[v]);
      if v != w { BasePc(s, t, s.workers[v].pc); }
    }
  }

  lemma BaseTrail(s: State, t: State, q: nat)
    requires SameBase(s, t) && |s.trails| == |s.rows.runs| && q < |s.rows.runs| && TrailOk(s, q) && SendsOk(t, q)
    ensures TrailOk(t, q)
  {
    if s.rows.runs[q].status.Succeeded? { assert ReplyOf(s, q, s.rows.runs[q].outbound.value); }
  }

  /** The send account of a run the step does not concern. */
  lemma OtherSends(s: State, t: State, q: nat)
    requires SameBase(s, t) && |s.trails| == |s.rows.runs| && q < |s.rows.runs| && SendsOk(s, q)
    requires t.trails[q] == s.trails[q] && (InFlight(t, q) <==> InFlight(s, q))
    ensures SendsOk(t, q)
  {
    if s.trails[q].commits == 1 {
      var m := FindKey(s.rows.messages, ReplyKey(q)).value;
      assert t.rows.messages[m].key == Some(ReplyKey(q));
    }
  }

  lemma EnterKeepsInv(s: State, w: nat, c: Thread, pc: Pc)
    requires Inv(s) && w < |s.workers| && !InTransaction(s.workers[w].pc)
    requires pc.Guarded? && PcOk(s, pc) && s.rows.runs[pc.run].conversation == c && c !in s.locks
    requires PcToken(pc) == PcToken(s.workers[w].pc) && PcRun(pc) == PcRun(s.workers[w].pc)
    requires ActiveHandoff(s.rows.handoffs, c).None?
    ensures Inv(Go(s.(locks := s.locks[c := w]), w, pc))
  {
    var t := Go(s.(locks := s.locks[c := w]), w, pc);
    BasePc(s, t, pc);
    BaseWorkers(s, t, w);
    forall q | 0 <= q < |s.rows.runs| ensures TrailOk(t, q) {
      assert TrailOk(s, q);
      OtherSends(s, t, q);
      BaseTrail(s, t, q);
    }
    assert LocksOk(t);
  }

  lemma GuardKeepsInv(s: State, w: nat)
    requires Inv(s)
    ensures Inv(GuardStep(s, w))
  {
    var pc := PcAt(s, w);
    if pc.Guarding? && s.rows.runs[pc.run].conversation !in s.locks {
      assert PcOk(s, pc);
      var c := s.rows.runs[pc.run].conversation;
      var (rows, outcome) := GuardDispatch(s.rows, c, pc.run, pc.token);
      match outcome
      case MayDispatch => EnterKeepsInv(s, w, c, Guarded(pc.run, pc.token, pc.text));
      case LeaseLost => GoKeepsInv(s, w, Idle);
      case PausedForHandoff =>
        GuardPauseEvolves(s, c, pc.run, pc.token);
        WithRowsKeepsInv(s, rows);
        GoKeepsInv(WithRows(s, rows), w, Idle);
    }
  }

  lemma GuardPauseEvolves(s: State, c: Thread, r: nat, token: nat)
    requires Inv(s) && GuardDispatch(s.rows, c, r, token).1.PausedForHandoff?
    ensures RowsEvolve(s, GuardDispatch(s.rows, c, r, token).0)
    ensures RowsOk(GuardDispatch(s.rows, c, r, token).0, s.nextToken, s.clock)
  {
    hide ReplyOf, TrailsOk, WorkersOk, RunOk;
    GuardPauseRuns(s.rows, c, r, token, s.nextToken);
    GuardPauseHandoffs(s.rows, c, r, token, s.clock);
  }

  lemma GuardPauseRuns(rows: Rows, c: Thread, r: nat, token: nat, nextToken: nat)
    requires RunsOk(rows, nextToken) && GuardDispatch(rows, c, r, token).1.PausedForHandoff?
    ensures RunsOk(GuardDispatch(rows, c, r, token).0, nextToken)
  {
    assert RunOk(rows.runs[r], |rows.messages|, nextToken);
  }

  lemma GuardPauseHandoffs(rows: Rows, c: Thread, r: nat, token: nat, clock: int)
    requires HandoffsOk(rows, clock) && GuardDispatch(rows, c, r, token).1.PausedForHandoff?
    ensures HandoffsOk(GuardDispatch(rows, c, r, token).0, clock)
  {
    var after := GuardDispatch(rows, c, r, token).0;
    forall h | 0 <= h < |after.handoffs| ensures HandoffOk(after.handoffs[h], clock) {
      assert HandoffOk(rows.handoffs[h], clock);
    }
  }

  /** While worker w is inside the transaction of a run, only that run can be in flight in its conversation. */
  lemma LeaveFrame(s: State, t: State, w: nat, q: nat)
    requires Inv(s) && w < |s.workers| && InTransaction(s.workers[w].pc) && SameBase(s, t) && OnlyWorker(s, t, w)
    requires q < |s.rows.runs| && q != s.workers[w].pc.run && t.trails[q] == s.trails[q]
    requires PcRun(t.workers[w].pc).Some? ==> PcRun(t.workers[w].pc) == PcRun(s.workers[w].pc)
    requires var c := s.rows.runs[s.workers[w].pc.run].conversation; t.locks == s.locks || t.locks == s.locks - {c}
    ensures TrailOk(t, q)
  {
    assert PcOk(s, s.workers[w].pc);
    var c := s.rows.runs[s.workers[w].pc.run].conversation;
    assert s.locks[c] == w;
    assert TrailOk(s, q);
    assert InFlight(t, q) <==> InFlight(s, q);
    OtherSends(s, t, q);
    BaseTrail(s, t, q);
  }

  /** Leaving the transaction without a commit: the lock is freed and a Telegram send is counted as lost. */
  lemma AbortKeepsInv(s: State, w: nat, pc: Pc)
    requires Inv(s) && w < |s.workers| && InTransaction(s.workers[w].pc) && !InTransaction(pc) && PcOk(s, pc)
    requires PcRun(pc).Some? ==> PcRun(pc) == PcRun(s.workers[w].pc)
    requires PcToken(pc).Some? ==> PcToken(pc) == PcToken(s.workers[w].pc)
    ensures Inv(Go(Abort(s, w), w, pc))
  {
    assert PcOk(s, s.workers[w].pc);
    var r := s.workers[w].pc.run;
    var t := Go(Abort(s, w), w, pc);
    AbortFrame(s, w, pc, r, t);
    AbortAccount(s, w, pc, r, t);
    BasePc(s, t, pc);
    BaseWorkers(s, t, w);
    forall q | 0 <= q < |s.rows.runs| ensures TrailOk(t, q) {
      if q == r {
        assert TrailOk(s, q);
        BaseTrail(s, t, q);
      } else { LeaveFrame(s, t, w, q); }
    }
    LeaveKeepsLocks(s, t, w);
  }

  lemma AbortFrame(s: State, w: nat, pc: Pc, r: nat, t: State)
    requires w < |s.workers| && InTransaction(s.workers[w].pc) && !InTransaction(pc)
    requires r == s.workers[w].pc.run && r < |s.rows.runs| && r < |s.trails|
    requires PcRun(pc).Some? ==> PcRun(pc) == PcRun(s.workers[w].pc)
    requires PcToken(pc).Some? ==> PcToken(pc) == PcToken(s.workers[w].pc)
    requires t == Go(Abort(s, w), w, pc)
    ensures SameBase(s, t) && OnlyWorker(s, t, w)
    ensures t.locks == s.locks - {s.rows.runs[r].conversation}
    ensures forall q :: 0 <= q < |s.trails| && q != r ==> t.trails[q] == s.trails[q]
  {
  }

  lemma AbortAccount(s: State, w: nat, pc: Pc, r: nat, t: State)
    requires TrailsOk(s) && LocksOk(s) && w < |s.workers| && InTransaction(s.workers[w].pc) && !InTransaction(pc)
    requires r == s.workers[w].pc.run && r < |s.rows.runs|
    requires t == Go(Abort(s, w), w, pc)
    ensures SendsOk(t, r)
  {
    assert SendsOk(s, r) by { assert TrailOk(s, r); }
    assert s.locks[s.rows.runs[r].conversation] == w;
    assert InFlight(s, r) <==> s.workers[w].pc.Sent?;
  }

  lemma LeaveKeepsLocks(s: State, t: State, w: nat)
    requires LocksOk(s) && w < |s.workers| && InTransaction(s.workers[w].pc) && SameBase(s, t) && OnlyWorker(s, t, w)
    requires s.workers[w].pc.run < |s.rows.runs| && !InTransaction(t.workers[w].pc)
    requires t.locks == s.locks - {s.rows.runs[s.workers[w].pc.run].conversation}
    ensures LocksOk(t)
  {
  }

  lemma ReplayedIsReply(s: State, pc: Pc)
    requires Inv(s) && InTransaction(pc) && PcOk(s, pc)
    requires LookupReply(s.rows, s.rows.runs[pc.run], pc.run, pc.text).Replayed?
    ensures ReplyOf(s, pc.run, LookupReply(s.rows, s.rows.runs[pc.run], pc.run, pc.text).message)
  {
    assert TrailOk(s, pc.run);
    DeliverableIsStripped(pc.text);
  }

  lemma SentFrame(s: State, w: nat, pc: Pc, terminal: bool, t: State)
    requires PcAt(s, w) == pc && pc.Guarded? && pc.run < |s.rows.runs| && pc.run < |s.trails|
    requires LookupReply(s.rows, s.rows.runs[pc.run], pc.run, pc.text).Fresh? && t == SendStep(s, w, true, terminal)
    ensures SameBase(s, t) && OnlyWorker(s, t, w) && t.locks == s.locks && t.rows == s.rows
    ensures t.workers[w].pc == Sent(pc.run, pc.token, pc.text)
    ensures forall q :: 0 <= q < |s.trails| && q != pc.run ==> t.trails[q] == s.trails[q]
  {
    hide LookupReply;
  }

  lemma SentAccount(s: State, w: nat, pc: Pc, terminal: bool, t: State)
    requires TrailsOk(s) && LocksOk(s) && PcAt(s, w) == pc && pc.Guarded? && pc.run < |s.rows.runs|
    requires LookupReply(s.rows, s.rows.runs[pc.run], pc.run, pc.text).Fresh? && t == SendStep(s, w, true, terminal)
    ensures SendsOk(t, pc.run)
  {
    assert SendsOk(s, pc.run) by { assert TrailOk(s, pc.run); }
    assert s.locks[s.rows.runs[pc.run].conversation] == w;
    assert !InFlight(s, pc.run) && InFlight(t, pc.run);
  }

  /** The external send: one more send, now in flight. */
  lemma SentKeepsInv(s: State, w: nat, terminal: bool)
    requires Inv(s) && PcAt(s, w).Guarded? && PcOk(s, PcAt(s, w))
    requires LookupReply(s.rows, s.rows.runs[PcAt(s, w).run], PcAt(s, w).run, PcAt(s, w).text).Fresh?
    ensures Inv(SendStep(s, w, true, terminal))
  {
    hide LookupReply, SendStep, SameBase, OnlyWorker, SendsOk, RowsOk, WorkersOk, TrailOk;
    var pc := PcAt(s, w);
    var t := SendStep(s, w, true, terminal);
    SentFrame(s, w, pc, terminal, t);
    SentAccount(s, w, pc, terminal, t);
    BaseClock(s, t);
    BasePc(s, t, t.workers[w].pc);
    BaseWorkers(s, t, w);
    forall q | 0 <= q < |s.rows.runs| ensures TrailOk(t, q) {
      if q == pc.run { BaseTrail(s, t, q); } else { LeaveFrame(s, t, w, q); }
    }
    SentLocks(s, t, w);
  }

  lemma BaseClock(s: State, t: State)
    requires SameBase(s, t)
    ensures t.clock == s.clock && t.nextToken == s.nextToken
    ensures |t.trails| == |s.trails| && |t.workers| == |s.workers|
  {
  }

  lemma SentLocks(s: State, t: State, w: nat)
    requires LocksOk(s) && w < |s.workers| && InTransaction(s.workers[w].pc) && OnlyWorker(s, t, w)
    requires t.locks == s.locks && t.rows == s.rows && t.workers[w].pc.Sent? && t.workers[w].pc.run == s.workers[w].pc.run
    ensures LocksOk(t)
  {
  }

  lemma SendKeepsInv(s: State, w: nat, delivered: bool, terminal: bool)
    requires Inv(s)
    ensures Inv(SendStep(s, w, delivered, terminal))
  {
    hide Inv, ReplyOf, LookupReply;
    var pc := PcAt(s, w);
    if pc.Guarded? {
      PcOfWorker(s, w);
      match LookupReply(s.rows, s.rows.runs[pc.run], pc.run, pc.text)
      case Replayed(m) => ReplayedIsReply(s, pc); AbortKeepsInv(s, w, Completing(pc.run, pc.token, m));
      case Conflict => AbortKeepsInv(s, w, Releasing(pc.run, pc.token, true, false));
      case Fresh =>
        if delivered { SentKeepsInv(s, w, terminal); } else { AbortKeepsInv(s, w, Releasing(pc.run, pc.token, terminal, false)); }
    }
  }

  /** The commit of a fresh reply: the send in flight becomes the run's one committed message. */
  ghost predicate ReadyToCommit(s: State, w: nat, pc: Pc) {
    && pc.Sent? && PcAt(s, w) == pc && pc.run < |s.rows.runs| && pc.run < |s.trails|
    && LookupReply(s.rows, s.rows.runs[pc.run], pc.run, pc.text).Fresh?
  }

  lemma CommittedKeepsInv(s: State, w: nat, pc: Pc)
    requires Inv(s) && ReadyToCommit(s, w, pc) && PcOk(s, pc)
    ensures Inv(Committed(s, w))
  {
    var t := Committed(s, w);
    CommittedFrame(s, w, pc, t);
    CommittedMove(s, w, pc, t);
    CommittedReply(s, w, pc, t);
    CommittedKeepsTrails(s, w, pc, t);
    BaseWorkers(s, t, w);
    AppendMessageKeepsRows(s.rows, ReplyMessage(s.rows.runs[pc.run], pc.run, pc.text), s.nextToken, s.clock);
    LeaveKeepsLocks(s, t, w);
  }

  lemma CommittedFrame(s: State, w: nat, pc: Pc, t: State)
    requires ReadyToCommit(s, w, pc) && t == Committed(s, w)
    ensures t.rows == s.rows.(messages := s.rows.messages + [ReplyMessage(s.rows.runs[pc.run], pc.run, pc.text)])
    ensures SameBase(s, t)
    ensures forall q :: 0 <= q < |s.trails| && q != pc.run ==> t.trails[q] == s.trails[q]
  {
  }

  lemma CommittedMove(s: State, w: nat, pc: Pc, t: State)
    requires ReadyToCommit(s, w, pc) && t == Committed(s, w)
    ensures OnlyWorker(s, t, w)
    ensures t.workers[w].pc == Completing(pc.run, pc.token, |s.rows.messages|)
    ensures t.locks == s.locks - {s.rows.runs[pc.run].conversation}
  {
  }

  lemma CommittedReply(s: State, w: nat, pc: Pc, t: State)
    requires TrailsOk(s) && ReadyToCommit(s, w, pc) && PcOk(s, pc) && t == Committed(s, w)
    ensures PcOk(t, t.workers[w].pc)
  {
    CommittedFrame(s, w, pc, t);
    CommittedMove(s, w, pc, t);
    assert TrailOk(s, pc.run);
    DeliverableIsStripped(pc.text);
    assert t.rows.messages[|s.rows.messages|] == ReplyMessage(s.rows.runs[pc.run], pc.run, pc.text);
    assert ReplyOf(t, pc.run, |s.rows.messages|);
  }

  lemma CommittedAccount(s: State, w: nat, pc: Pc, t: State)
    requires TrailsOk(s) && LocksOk(s) && ReadyToCommit(s, w, pc) && t == Committed(s, w)
    ensures SendsOk(t, pc.run)
  {
    var r := pc.run;
    CommittedFrame(s, w, pc, t);
    CommittedMove(s, w, pc, t);
    assert SendsOk(s, r) by { assert TrailOk(s, r); }
    assert s.locks[s.rows.runs[r].conversation] == w;
    assert InFlight(s, r) && !InFlight(t, r);
    assert t.rows.messages[|s.rows.messages|].key == Some(ReplyKey(r));
    assert FindKey(t.rows.messages, ReplyKey(r)).Some?;
  }

  lemma CommittedKeepsTrails(s: State, w: nat, pc: Pc, t: State)
    requires Inv(s) && ReadyToCommit(s, w, pc) && t == Committed(s, w)
    ensures TrailsOk(t)
  {
    CommittedFrame(s, w, pc, t);
    CommittedMove(s, w, pc, t);
    CommittedAccount(s, w, pc, t);
    forall q | 0 <= q < |s.rows.runs| ensures TrailOk(t, q) {
      if q == pc.run {
        assert TrailOk(s, q);
        BaseTrail(s, t, q);
      } else { LeaveFrame(s, t, w, q); }
    }
  }

  /** A message under a new key, or under none, keeps the unique constraint. */
  lemma AppendMessageKeepsRows(rows: Rows, message: Message, nextToken: nat, clock: int)
    requires RowsOk(rows, nextToken, clock)
    requires message.key.Some? ==> FindKey(rows.messages, message.key.value).None?
    ensures RowsOk(rows.(messages := rows.messages + [message]), nextToken, clock)
  {
    var after := rows.(messages := rows.messages + [message]);
    forall i | 0 <= i < |rows.runs| ensures RunOk(after.runs[i], |after.messages|, nextToken) {
      assert RunOk(rows.runs[i], |rows.messages|, nextToken);
    }
    forall i, j | 0 <= i < j < |after.messages| && after.messages[i].key.Some?
      ensures after.messages[i].key != after.messages[j].key
    {
      if j == |rows.messages| { assert after.messages[i] == rows.messages[i]; }
    }
    assert EventsOk(after);
  }

  lemma CommitKeepsInv(s: State, w: nat, ok: bool)
    requires Inv(s)
    ensures Inv(CommitStep(s, w, ok))
  {
    hide Inv, ReplyOf, LookupReply, Committed;
    var pc := PcAt(s, w);
    if pc.Sent? {
      PcOfWorker(s, w);
      if !ok { AbortKeepsInv(s, w, Releasing(pc.run, pc.token, false, false)); }
      else {
        match LookupReply(s.rows, s.rows.runs[pc.run], pc.run, pc.text)
        case Fresh => CommittedKeepsInv(s, w, pc);
        case Replayed(m) => ReplayedIsReply(s, pc); AbortKeepsInv(s, w, Completing(pc.run, pc.token, m));
        case Conflict => AbortKeepsInv(s, w, Releasing(pc.run, pc.token, true, false));
      }
    }
  }

  lemma CrashKeepsInv(s: State, w: nat)
    requires Inv(s)
    ensures Inv(CrashStep(s, w))
  {
    if w < |s.workers| {
      if InTransaction(s.workers[w].pc) { AbortKeepsInv(s, w, Idle); } else { GoKeepsInv(s, w, Idle); }
    }
  }

  lemma FaultKeepsInv(s: State, w: nat)
    requires Inv(s)
    ensures Inv(FaultStep(s, w))
  {
    var pc := PcAt(s, w);
    if PcToken(pc).Some? && !pc.Releasing? {
      assert PcOk(s, pc);
      var next := Releasing(PcRun(pc).value, PcToken(pc).value, false, false);
      if InTransaction(pc) { AbortKeepsInv(s, w, next); } else { GoKeepsInv(s, w, next); }
    }
  }

  // ---------------------------------------------------------------- the worker's last steps

  /** One run's row changes, its lease goes, and nothing else does. */
  lemma RunColumnsKeepInv(s: State, r: nat, rows: Rows)
    requires Inv(s) && r < |s.rows.runs| && r < |rows.runs| && rows == SetRun(s.rows, r, rows.runs[r])
    requires RunEvolves(s, r, rows.runs[r])
    requires rows.runs[r] != s.rows.runs[r] ==>
               rows.runs[r].message == s.rows.runs[r].message && rows.runs[r].until.None?
               && (rows.runs[r].text.Some? <==> rows.runs[r].status.Generated?)
    ensures Inv(WithRows(s, rows))
  {
    hide ReplyOf;
    assert RunOk(s.rows.runs[r], |s.rows.messages|, s.nextToken);
    assert RunsOk(rows, s.nextToken);
    WithRowsKeepsInv(s, rows);
  }

  lemma CompleteKeepsInv(s: State, w: nat)
    requires Inv(s)
    ensures Inv(CompleteStep(s, w))
  {
    var pc := PcAt(s, w);
    if pc.Completing? {
      assert PcOk(s, pc);
      var rows := CompleteRun(s.rows, pc.run, pc.token, pc.reply).0;
      RunColumnsKeepInv(s, pc.run, rows);
      GoKeepsInv(WithRows(s, rows), w, Idle);
    }
  }

  lemma ReleaseKeepsInv(s: State, w: nat)
    requires Inv(s)
    ensures Inv(ReleaseStep(s, w))
  {
    var pc := PcAt(s, w);
    if pc.Releasing? {
      assert PcOk(s, pc);
      var rows := ReleaseRun(s.rows, pc.run, pc.token, pc.terminal);
      RunColumnsKeepInv(s, pc.run, rows);
      GoKeepsInv(WithRows(s, rows), w, ReleaseStep(s, w).workers[w].pc);
    }
  }

  // ---------------------------------------------------------------- environment and operators

  lemma IngestKeepsRows(rows: Rows, thread: Thread, event: nat, external: nat, body: Option<string>, nextToken: nat, clock: int)
    requires RowsOk(rows, nextToken, clock)
    ensures RowsOk(PersistInbound(rows, thread, event, external, body).0, nextToken, clock)
  {
    var key := InboundKey(thread, external);
    if FindEvent(rows.events, thread.account, event).None? && body.Some? && FindKey(rows.messages, key).None? {
      var message := Message(Some(key), thread, true, Customer, body.value, None);
      AppendMessageKeepsRows(rows, message, nextToken, clock);
    }
  }

  /** Ingestion, event bookkeeping and foreign messages append rows and leave runs and handoffs alone. */
  lemma AppendKeepsInv(s: State, after: Rows)
    requires Inv(s) && RowsOk(after, s.nextToken, s.clock)
    requires |s.rows.events| <= |after.events| && Extends(s.rows.messages, after.messages)
    requires after.runs == s.rows.runs && after.handoffs == s.rows.handoffs
    ensures Inv(WithRows(s, after))
  {
    WithRowsKeepsInv(s, after);
  }

  lemma EventStatusKeepsInv(s: State, e: nat, status: EventStatus)
    requires Inv(s) && e < |s.rows.events|
    ensures Inv(WithRows(s, SetEventStatus(s.rows, e, status)))
  {
    AppendKeepsInv(s, SetEventStatus(s.rows, e, status));
  }

  lemma IngestKeepsInv(s: State, thread: Thread, event: nat, external: nat, body: Option<string>)
    requires Inv(s)
    ensures Inv(WithRows(s, PersistInbound(s.rows, thread, event, external, body).0))
  {
    IngestKeepsRows(s.rows, thread, event, external, body, s.nextToken, s.clock);
    AppendKeepsInv(s, PersistInbound(s.rows, thread, event, external, body).0);
  }

  lemma PostKeepsInv(s: State, message: Message)
    requires Inv(s)
    ensures Inv(WithRows(s, PostMessage(s.rows, message)))
  {
    if !(message.key.Some? && FindKey(s.rows.messages, message.key.value).Some?) {
      AppendMessageKeepsRows(s.rows, message, s.nextToken, s.clock);
    }
    AppendKeepsInv(s, PostMessage(s.rows, message));
  }

  lemma SameRowsKeepsInv(s: State)
    requires Inv(s)
    ensures Inv(WithRows(s, s.rows))
  {
    AppendKeepsInv(s, s.rows);
  }

  lemma EnvironmentKeepsInv(s: State, event: Environment)
    requires Inv(s)
    ensures Inv(ApplyEnvironment(s, event))
  {
    hide Inv, WithRows, PersistInbound, PostMessage;
    SameRowsKeepsInv(s);
    match event
    case Tick(elapsed) => TickKeepsInv(s, elapsed);
    case Ingest(thread, external, message, body) => IngestKeepsInv(s, thread, external, message, body);
    case EventEnqueued(e) => if e < |s.rows.events| { EventStatusKeepsInv(s, e, Enqueued); }
    case EventIgnored(e) => if e < |s.rows.events| { EventStatusKeepsInv(s, e, Ignored); }
    case EventProcessed(e, account, media) =>
      if e < |s.rows.events| {
        EventStatusKeepsInv(s, e, Processed);
        EventStatusKeepsInv(s, e, Ignored);
      }
    case Post(message) => PostKeepsInv(s, message);
  }

  /** An operator's change of one active handoff that stays open. */
  lemma HandoffUpdateKeepsInv(s: State, h: nat, handoff: Handoff)
    requires Inv(s) && h < |s.rows.handoffs| && IsActive(s.rows.handoffs[h])
    requires handoff.conversation == s.rows.handoffs[h].conversation && HandoffOk(handoff, s.clock)
    ensures HandoffsOk(s.rows.(handoffs := s.rows.handoffs[h := handoff]), s.clock)
    ensures Inv(WithRows(s, s.rows.(handoffs := s.rows.handoffs[h := handoff])))
  {
    var after := s.rows.(handoffs := s.rows.handoffs[h := handoff]);
    forall i | 0 <= i < |after.handoffs| ensures HandoffOk(after.handoffs[i], s.clock) {
      assert HandoffOk(s.rows.handoffs[i], s.clock);
    }
    WithRowsKeepsInv(s, after);
  }

  lemma HandlingKeepsInv(s: State, c: Thread, operation: Operation)
    requires Inv(s) && (operation.ClaimIt? || operation.ReleaseIt?)
    ensures Inv(ApplyOperation(s, c, operation))
  {
    hide Inv, HandoffsOk;
    SameRowsKeepsInv(s);
    match ActiveHandoff(s.rows.handoffs, c)
    case None =>
    case Some(h) =>
      var handoff := s.rows.handoffs[h];
      HandoffOfState(s, h);
      HandoffUpdateKeepsInv(s, h, if operation.ClaimIt? then handoff.(status := Claimed, claimant := Some(operation.actor))
                                  else handoff.(status := Queued, claimant := None));
  }

  lemma ResumeRunKeepsRows(rows: Rows, c: Thread, h: nat, nextToken: nat)
    requires RunsOk(rows, nextToken) && h < |rows.handoffs|
    ensures RunsOk(ResumeRun(rows, c, h).0, nextToken)
    ensures ResumeRun(rows, c, h).0 == rows.(runs := ResumeRun(rows, c, h).0.runs)
    ensures |ResumeRun(rows, c, h).0.runs| == |rows.runs|
    ensures forall r :: 0 <= r < |rows.runs| ==>
              || ResumeRun(rows, c, h).0.runs[r] == rows.runs[r]
              || ResumeRun(rows, c, h).0.runs[r] == ClearLease(rows.runs[r]).(status := Pending, text := None)
  {
    if rows.handoffs[h].source.Some? && rows.handoffs[h].source.value < |rows.runs| {
      assert RunOk(rows.runs[rows.handoffs[h].source.value], |rows.messages|, nextToken);
    }
  }

  lemma ResumeKeepsInv(s: State, c: Thread, h: nat)
    requires Inv(s) && h < |s.rows.handoffs|
    ensures Inv(WithRows(s, ResumeRun(s.rows, c, h).0))
  {
    ResumeRunKeepsRows(s.rows, c, h, s.nextToken);
    WithRowsKeepsInv(s, ResumeRun(s.rows, c, h).0);
  }

  lemma HandoffOfState(s: State, h: nat)
    requires Inv(s) && h < |s.rows.handoffs|
    ensures HandoffOk(s.rows.handoffs[h], s.clock)
  {
  }

  lemma ResolveHandoffKeepsInv(s: State, c: Thread, operation: Operation)
    requires Inv(s) && operation.ResolveIt?
    ensures Inv(ApplyOperation(s, c, operation))
  {
    hide Inv, ResumeRun, LatestResolved, HandoffsOk;
    SameRowsKeepsInv(s);
    match ActiveHandoff(s.rows.handoffs, c)
    case None =>
      var latest := LatestResolved(s.rows.handoffs, c);
      if latest.Some? && operation.resume { ResumeKeepsInv(s, c, latest.value); }
    case Some(h) =>
      HandoffOfState(s, h);
      var closed := s.rows.handoffs[h].(status := if operation.cancel then Cancelled else Resolved, closedAt := Some(s.clock));
      var changed := s.rows.(handoffs := s.rows.handoffs[h := closed]);
      HandoffUpdateKeepsInv(s, h, closed);
      if operation.resume {
        ResumeKeepsInv(WithRows(s, changed), c, h);
        WithRowsTwice(s, changed, ResumeRun(changed, c, h).0);
      }
  }

  lemma OperationKeepsInv(s: State, c: Thread, operation: Operation)
    requires Inv(s)
    ensures Inv(ApplyOperation(s, c, operation))
  {
    match operation
    case RequestIt(source) =>
      RequestHandoffKeepsRows(s.rows, c, source, s.clock);
      if c !in s.locks { WithRowsKeepsInv(s, RequestHandoff(s.rows, c, source).0); }
    case ClaimIt(_) => HandlingKeepsInv(s, c, operation);
    case ReleaseIt(_, _) => HandlingKeepsInv(s, c, operation);
    case ResolveIt(_, _, _, _) => ResolveHandoffKeepsInv(s, c, operation);
  }

  /** Two row changes in one transaction, the first of which leaves the runs alone. */
  lemma WithRowsTwice(s: State, first: Rows, second: Rows)
    requires Inv(s) && first.runs == s.rows.runs
    ensures WithRows(WithRows(s, first), second) == WithRows(s, second)
  {
    assert WithRows(s, first).trails == s.trails by {
      forall r | 0 <= r < |s.trails| ensures SyncTrail(s.trails[r], s.rows.runs[r]) == s.trails[r] { assert TrailOk(s, r); }
    }
  }

  // ---------------------------------------------------------------- every run

  lemma ActionKeepsInv(s: State, w: nat, action: Action)
    requires Inv(s)
    ensures Inv(ApplyAction(s, w, action))
  {
    hide Inv, StartStep, ResolveStep, InsertStep, ClaimStep, LoadStep, RenewStep, ToolPauseStep, ProduceStep, FailWorkStep,
         PersistStep, GuardStep, SendStep, CommitStep, CompleteStep, ReleaseStep, FaultStep, CrashStep;
    match action
    case Start(e) => StartKeepsInv(s, w, e);
    case Resolve(routed) => ResolveKeepsInv(s, w, routed);
    case Insert(channel, prompt) => InsertKeepsInv(s, w, channel, prompt);
    case Claim(now) => ClaimKeepsInv(s, w, now);
    case Load(usable) => LoadKeepsInv(s, w, usable);
    case Renew(now) => RenewKeepsInv(s, w, now);
    case ToolPause(enabled) => ToolPauseKeepsInv(s, w, enabled);
    case Produce(text) => ProduceKeepsInv(s, w, text);
    case FailWork(terminal, again) => FailWorkKeepsInv(s, w, terminal, again);
    case Persist => PersistKeepsInv(s, w);
    case Guard => GuardKeepsInv(s, w);
    case Send(delivered, refusal) => SendKeepsInv(s, w, delivered, refusal);
    case Commit(ok) => CommitKeepsInv(s, w, ok);
    case Complete => CompleteKeepsInv(s, w);
    case Release => ReleaseKeepsInv(s, w);
    case Fault => FaultKeepsInv(s, w);
    case Crash => CrashKeepsInv(s, w);
  }

  lemma ApplyKeepsInv(s: State, step: Step)
    requires Inv(s)
    ensures Inv(Apply(s, step))
  {
    hide Inv, ApplyEnvironment, ApplyOperation, ApplyAction;
    match step
    case Env(event) => EnvironmentKeepsInv(s, event);
    case Operator(conversation, operation) => OperationKeepsInv(s, conversation, operation);
    case Work(w, action) => ActionKeepsInv(s, w, action);
  }

  lemma {:induction false} ExecKeepsInv(s: State, steps: seq<Step>)
    requires Inv(s)
    ensures Inv(Exec(s, steps))
  {
    if steps != [] {
      ExecKeepsInv(s, steps[..|steps| - 1]);
      ApplyKeepsInv(Exec(s, steps[..|steps| - 1]), steps[|steps| - 1]);
    }
  }
}
