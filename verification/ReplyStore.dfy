/** The row store in place: each method is one transaction of the source, assigning the columns it assigns,
    and is proved to commit exactly the rows the run-level theorems are about. */
module ReplyStore {
  import opened Outcomes
  import opened Whitespace
  import opened ReplyRows

  class Store {
    var events: seq<Event>
    var messages: seq<Message>
    var runs: seq<Run>
    var handoffs: seq<Handoff>

    function Contents(): Rows
      reads this
    {
      Rows(events, messages, runs, handoffs)
    }

    constructor ()
      ensures Contents() == Rows([], [], [], [])
    {
      events, messages, runs, handoffs := [], [], [], [];
    }

    // -------------------------------------------------------------- channel_runtime.py

    method PersistInboundEvent(thread: Thread, event: nat, external: nat, text: Option<string>) returns (r: Result<nat>)
      modifies this`events, this`messages
      ensures (Contents(), r) == PersistInbound(old(Contents()), thread, event, external, text)
    {
      var found := FindEvent(events, thread.account, event);
      if found.Some? { return Ok(found.value); }
      if text.None? {
        events := events + [Event(thread.account, event, Ignored, None)];
        return Ok(|events| - 1);
      }
      var existing := FindKey(messages, InboundKey(thread, external));
      var m: nat;
      if existing.Some? {
        m := existing.value;
        if messages[m].conversation != thread { return Err("channel_message_idempotency_conflict"); }
      } else {
        m := |messages|;
        messages := messages + [Message(Some(InboundKey(thread, external)), thread, true, Customer, text.value, None)];
      }
      events := events + [Event(thread.account, event, Received, Some(m))];
      return Ok(|events| - 1);
    }

    method MarkEventEnqueued(e: nat) returns (r: Result<bool>)
      modifies this`events
      ensures Contents() == MarkEnqueued(old(Contents()), e)
      ensures r == if e < |old(events)| then Ok(old(events)[e].status.Received?) else Err("channel_event_missing")
    {
      if e >= |events| { return Err("channel_event_missing"); }
      if !events[e].status.Received? { return Ok(false); }
      events := events[e := events[e].(status := Enqueued)];
      return Ok(true);
    }

    method MarkEventIgnored(e: nat)
      modifies this`events
      ensures Contents() == MarkIgnored(old(Contents()), e)
    {
      if e >= |events| || events[e].status.Processed? { return; }
      events := events[e := events[e].(status := Ignored)];
    }

    /** process_channel_event; `media` is the error of the voice step, if the message needs it and it fails. */
    method ProcessChannelEvent(e: nat, account: Account, media: Option<string>) returns (r: Result<EventStatus>)
      modifies this`events
      ensures (Contents(), r) == ProcessEvent(old(Contents()), e, account, media)
    {
      if e >= |events| { return Err("channel_event_missing"); }
      if events[e].status.Processed? || events[e].status.Ignored? { return Ok(events[e].status); }
      if account.Absent? { return Err("channel_account_missing"); }
      if account.Inactive? || events[e].message.None? {
        events := events[e := events[e].(status := Ignored)];
        return Ok(Ignored);
      }
      if events[e].message.value >= |messages| { return Err("channel_message_missing"); }
      if media.Some? { return Err(media.value); }
      events := events[e := events[e].(status := Processed)];
      return Ok(Processed);
    }

    /** The commit of dispatch_text: insert unless the key is taken, then compare. */
    method CommitOutbound(run: Run, r: nat, text: string) returns (o: DispatchOutcome)
      modifies this`messages
      ensures (Contents(), o) == CommitReply(old(Contents()), run, r, text)
    {
      var existing := FindKey(messages, ReplyKey(r));
      if existing.None? {
        messages := messages + [Message(Some(ReplyKey(r)), run.conversation, false, AI, Strip(text), Some(run.account))];
        return Fresh;
      }
      if OutboundMatches(messages[existing.value], run.conversation, run.account, Strip(text), AI) { return Replayed(existing.value); }
      return Conflict;
    }

    // -------------------------------------------------------------- agent_runtime.py

    method InsertRunRow(message: nat, channel: Channel, prompt: nat) returns (r: nat)
      requires message < |messages|
      modifies this`runs
      ensures (Contents(), r) == InsertRun(old(Contents()), message, channel, prompt)
    {
      var existing := FindRun(runs, message);
      if existing.Some? { return existing.value; }
      r := |runs|;
      var thread := messages[message].conversation;
      runs := runs + [Run(message, thread, thread.account, channel, prompt, Pending, None, None, None, None)];
    }

    method ClaimLease(r: nat, token: nat, now: int) returns (outcome: ClaimOutcome)
      modifies this`runs
      ensures (Contents(), outcome) == ClaimRun(old(Contents()), r, token, now)
    {
      if r >= |runs| { return Missing; }
      if IsOpen(runs[r]) && (runs[r].until.None? || runs[r].until.value < now) {
        runs := runs[r := runs[r].(token := Some(token), until := Some(now + LEASE_SECONDS))];
        return ClaimedRun;
      }
      if IsTerminal(runs[r]) { return AlreadyDone; }
      return Busy;
    }

    method Renew(r: nat, token: nat, now: int) returns (kept: bool)
      modifies this`runs
      ensures (Contents(), kept) == RenewLease(old(Contents()), r, token, now)
    {
      kept := r < |runs| && runs[r].token == Some(token) && IsOpen(runs[r]);
      if kept { runs := runs[r := runs[r].(until := Some(now + LEASE_SECONDS))]; }
    }

    method PersistGenerated(r: nat, token: nat, text: string) returns (kept: bool)
      modifies this`runs
      ensures (Contents(), kept) == PersistText(old(Contents()), r, token, text)
    {
      kept := r < |runs| && runs[r].token == Some(token) && runs[r].status.Pending?;
      if kept { runs := runs[r := runs[r].(status := Generated, text := Some(text))]; }
    }

    method Complete(r: nat, token: nat, outbound: nat) returns (kept: bool)
      modifies this`runs
      ensures (Contents(), kept) == CompleteRun(old(Contents()), r, token, outbound)
    {
      kept := r < |runs| && runs[r].token == Some(token);
      if kept {
        runs := runs[r := runs[r].(status := Succeeded, outbound := Some(outbound), text := None, token := None, until := None)];
      }
    }

    method ReleaseError(r: nat, token: nat, terminal: bool)
      modifies this`runs
      ensures Contents() == ReleaseRun(old(Contents()), r, token, terminal)
    {
      if r < |runs| && runs[r].token == Some(token) {
        runs := runs[r := runs[r].(token := None, until := None)];
        if terminal { runs := runs[r := runs[r].(status := Failed, text := None)]; }
      }
    }

    // -------------------------------------------------------------- handoff_runtime.py

    method Guard(conversation: Thread, r: nat, token: nat) returns (outcome: GuardOutcome)
      modifies this`runs, this`handoffs
      ensures (Contents(), outcome) == GuardDispatch(old(Contents()), conversation, r, token)
    {
      var active := ActiveHandoff(handoffs, conversation);
      if active.None? { return MayDispatch; }
      if r >= |runs| || runs[r].token != Some(token) || !IsOpen(runs[r]) { return LeaseLost; }
      runs := runs[r := runs[r].(status := Paused, text := None, token := None, until := None)];
      handoffs := handoffs[active.value := SetSource(handoffs[active.value], r)];
      return PausedForHandoff;
    }

    method Request(conversation: Thread, source: Option<nat>) returns (h: nat)
      modifies this`handoffs
      ensures (Contents(), h) == RequestHandoff(old(Contents()), conversation, source)
    {
      var active := ActiveHandoff(handoffs, conversation);
      if active.None? {
        h := |handoffs|;
        handoffs := handoffs + [Handoff(conversation, Queued, None, None, source)];
      } else {
        h := active.value;
        if source.Some? && handoffs[h].source.None? {
          handoffs := handoffs[h := handoffs[h].(source := source)];
        }
        assert handoffs[h := handoffs[h]] == handoffs;
      }
    }

    method PauseForToolApproval(conversation: Thread, r: nat)
      modifies this`runs, this`handoffs
      ensures Contents() == PauseForApproval(old(Contents()), conversation, r)
    {
      if r >= |runs| || runs[r].conversation != conversation { return; }
      var h := Request(conversation, Some(r));
      runs := runs[r := runs[r].(status := Paused, text := None, token := None, until := None)];
    }

    method Claim(conversation: Thread, actor: nat) returns (result: Result<nat>)
      modifies this`handoffs
      ensures (Contents(), result) == ClaimHandoff(old(Contents()), conversation, actor)
    {
      var active := ActiveHandoff(handoffs, conversation);
      if active.None? { return Err("handoff_active_missing"); }
      var h := active.value;
      if handoffs[h].status.Claimed? {
        if handoffs[h].claimant == Some(actor) { return Ok(h); }
        return Err("handoff_already_claimed");
      }
      handoffs := handoffs[h := handoffs[h].(status := Claimed, claimant := Some(actor))];
      return Ok(h);
    }

    method Release(conversation: Thread, actor: nat, allowOverride: bool) returns (result: Result<nat>)
      modifies this`handoffs
      ensures (Contents(), result) == ReleaseHandoff(old(Contents()), conversation, actor, allowOverride)
    {
      var active := ActiveHandoff(handoffs, conversation);
      if active.None? { return Err("handoff_active_missing"); }
      var h := active.value;
      if !handoffs[h].status.Claimed? { return Err("handoff_not_claimed"); }
      if handoffs[h].claimant != Some(actor) && !allowOverride { return Err("handoff_not_owner"); }
      handoffs := handoffs[h := handoffs[h].(status := Queued, claimant := None)];
      return Ok(h);
    }

    method Resolve(conversation: Thread, actor: nat, allowOverride: bool, resume: bool, cancel: bool, now: int)
      returns (result: Result<Resolution>)
      modifies this`runs, this`handoffs
      ensures (Contents(), result) == ResolveHandoff(old(Contents()), conversation, actor, allowOverride, resume, cancel, now)
    {
      var active := ActiveHandoff(handoffs, conversation);
      var h: nat;
      if active.None? {
        var latest := LatestResolved(handoffs, conversation);
        if latest.None? || !resume { return Err("handoff_active_missing"); }
        h := latest.value;
      } else {
        h := active.value;
        if handoffs[h].status.Claimed? && handoffs[h].claimant != Some(actor) && !allowOverride { return Err("handoff_not_owner"); }
        handoffs := handoffs[h := handoffs[h].(status := if cancel then Cancelled else Resolved, closedAt := Some(now))];
      }
      var event: Option<nat> := None;
      if resume && handoffs[h].source.Some? {
        var r := handoffs[h].source.value;
        if r < |runs| && runs[r].conversation == conversation && (runs[r].status.Paused? || runs[r].status.Pending?) {
          runs := runs[r := runs[r].(status := Pending, text := None, token := None, until := None)];
          event := LatestEvent(events, runs[r].message);
        }
      }
      return Ok(Resolution(h, event));
    }
  }
}
