/** The shared rows of the AI reply protocol and the database transactions that change them.
    Every function below is one transaction: it maps the rows it reads to the rows it commits. */
module ReplyRows {
  import opened Outcomes
  import opened Whitespace

  const LEASE_SECONDS := 180
  const TEXT_LIMIT := 4096

  /** A conversation is identified with the channel thread it is bound to. */
  datatype Thread = Thread(account: nat, external: nat)

  datatype Channel = Telegram | Website

  /** The shapes an idempotency key can take. The unique constraint is on the whole key. */
  datatype Key = InboundKey(thread: Thread, external: nat) | ReplyKey(run: nat) | ClientKey(value: nat)

  datatype Author = Customer | Human | AI | System

  datatype Message = Message(
    key: Option<Key>, conversation: Thread, inbound: bool, author: Author, text: string,
    account: Option<nat>)

  datatype EventStatus = Received | Enqueued | Processed | Ignored

  datatype Event = Event(account: nat, external: nat, status: EventStatus, message: Option<nat>)

  datatype RunStatus = Pending | Generated | Paused | Succeeded | Failed

  datatype Run = Run(
    message: nat, conversation: Thread, account: nat, channel: Channel, prompt: nat,
    status: RunStatus, text: Option<string>, token: Option<nat>, until: Option<int>,
    outbound: Option<nat>)

  datatype HandoffStatus = Queued | Claimed | Resolved | Cancelled

  datatype Handoff = Handoff(
    conversation: Thread, status: HandoffStatus, claimant: Option<nat>, closedAt: Option<int>,
    source: Option<nat>)

  /** Rows are only ever appended or updated in place, so a row's id is its index. */
  datatype Rows = Rows(
    events: seq<Event>, messages: seq<Message>, runs: seq<Run>, handoffs: seq<Handoff>)

  // ---------------------------------------------------------------- queries

  predicate IsActive(h: Handoff) {
    h.status.Queued? || h.status.Claimed?
  }

  function ActiveHandoff(handoffs: seq<Handoff>, conversation: Thread): (r: Option<nat>)
    ensures r.Some? ==> r.value < |handoffs| && IsActive(handoffs[r.value]) && handoffs[r.value].conversation == conversation
    ensures r.None? ==> forall h :: 0 <= h < |handoffs| && IsActive(handoffs[h]) ==> handoffs[h].conversation != conversation
  {
    if handoffs == [] then None
    else
      var last := |handoffs| - 1;
      if IsActive(handoffs[last]) && handoffs[last].conversation == conversation then Some(last)
      else ActiveHandoff(handoffs[..last], conversation)
  }

  function FindKey(messages: seq<Message>, key: Key): (r: Option<nat>)
    ensures r.Some? ==> r.value < |messages| && messages[r.value].key == Some(key)
    ensures r.None? ==> forall m :: 0 <= m < |messages| ==> messages[m].key != Some(key)
  {
    if messages == [] then None
    else if messages[|messages| - 1].key == Some(key) then Some(|messages| - 1)
    else FindKey(messages[..|messages| - 1], key)
  }

  function FindRun(runs: seq<Run>, message: nat): (r: Option<nat>)
    ensures r.Some? ==> r.value < |runs| && runs[r.value].message == message
    ensures r.None? ==> forall i :: 0 <= i < |runs| ==> runs[i].message != message
  {
    if runs == [] then None
    else if runs[|runs| - 1].message == message then Some(|runs| - 1)
    else FindRun(runs[..|runs| - 1], message)
  }

  function FindEvent(events: seq<Event>, account: nat, external: nat): (r: Option<nat>)
    ensures r.Some? ==> r.value < |events| && events[r.value].account == account && events[r.value].external == external
    ensures r.None? ==> forall e :: 0 <= e < |events| ==> events[e].account != account || events[e].external != external
  {
    if events == [] then None
    else
      var last := |events| - 1;
      if events[last].account == account && events[last].external == external then Some(last)
      else FindEvent(events[..last], account, external)
  }

  /** The newest event of a message: ids are handed out in creation order. */
  function LatestEvent(events: seq<Event>, message: nat): (r: Option<nat>)
    ensures r.Some? ==> r.value < |events| && events[r.value].message == Some(message)
                        && forall e :: r.value < e < |events| ==> events[e].message != Some(message)
    ensures r.None? ==> forall e :: 0 <= e < |events| ==> events[e].message != Some(message)
  {
    if events == [] then None
    else if events[|events| - 1].message == Some(message) then Some(|events| - 1)
    else LatestEvent(events[..|events| - 1], message)
  }

  /** The resolved handoff of a conversation with the greatest (closed_at, id). */
  function LatestResolved(handoffs: seq<Handoff>, conversation: Thread): (r: Option<nat>)
    ensures r.Some? ==>
      && r.value < |handoffs|
      && handoffs[r.value].conversation == conversation && handoffs[r.value].status == Resolved
      && forall h :: 0 <= h < |handoffs| && handoffs[h].conversation == conversation && handoffs[h].status == Resolved
                 ==> h == r.value || Later(handoffs, r.value, h)
    ensures r.None? ==> forall h :: 0 <= h < |handoffs| && handoffs[h].conversation == conversation
                                    ==> handoffs[h].status != Resolved
  {
    if handoffs == [] then None
    else
      var last := |handoffs| - 1;
      var earlier := LatestResolved(handoffs[..last], conversation);
      if handoffs[last].conversation != conversation || handoffs[last].status != Resolved then earlier
      else if earlier.Some? && ClosedAt(handoffs[earlier.value]) > ClosedAt(handoffs[last]) then earlier
      else Some(last)
  }

  function ClosedAt(h: Handoff): int {
    if h.closedAt.Some? then h.closedAt.value else 0
  }

  predicate Later(handoffs: seq<Handoff>, a: nat, b: nat)
    requires a < |handoffs| && b < |handoffs|
  {
    || ClosedAt(handoffs[a]) > ClosedAt(handoffs[b])
    || (ClosedAt(handoffs[a]) == ClosedAt(handoffs[b]) && a > b)
  }

  // ---------------------------------------------------------------- ingestion

  /** `text` is None for an update without a canonical message or with a disabled capability. */
  function PersistInbound(rows: Rows, thread: Thread, event: nat, external: nat, text: Option<string>): (Rows, Result<nat>) {
    var found := FindEvent(rows.events, thread.account, event);
    if found.Some? then (rows, Ok(found.value))
    else if text.None? then
      (rows.(events := rows.events + [Event(thread.account, event, Ignored, None)]), Ok(|rows.events|))
    else
      var key := InboundKey(thread, external);
      match FindKey(rows.messages, key)
      case None =>
        var message := Message(Some(key), thread, true, Customer, text.value, None);
        (rows.(messages := rows.messages + [message],
               events := rows.events + [Event(thread.account, event, Received, Some(|rows.messages|))]),
         Ok(|rows.events|))
      case Some(m) =>
        if rows.messages[m].conversation != thread then (rows, Err("channel_message_idempotency_conflict"))
        else (rows.(events := rows.events + [Event(thread.account, event, Received, Some(m))]), Ok(|rows.events|))
  }

  function SetEventStatus(rows: Rows, e: nat, status: EventStatus): Rows
    requires e < |rows.events|
  {
    rows.(events := rows.events[e := rows.events[e].(status := status)])
  }

  function MarkEnqueued(rows: Rows, e: nat): Rows {
    if e < |rows.events| && rows.events[e].status == Received then SetEventStatus(rows, e, Enqueued) else rows
  }

  function MarkIgnored(rows: Rows, e: nat): Rows {
    if e < |rows.events| && rows.events[e].status != Processed then SetEventStatus(rows, e, Ignored) else rows
  }

  function MarkProcessed(rows: Rows, e: nat): Rows {
    if e < |rows.events| && (rows.events[e].status.Received? || rows.events[e].status.Enqueued?)
    then SetEventStatus(rows, e, Processed) else rows
  }

  datatype Account = Absent | Inactive | Active

  /** process_channel_event: an event is processed at most once, and ignored without an active account or a message;
      an error leaves it as it is, to be tried again. */
  function ProcessEvent(rows: Rows, e: nat, account: Account, media: Option<string>): (Rows, Result<EventStatus>) {
    if e >= |rows.events| then (rows, Err("channel_event_missing"))
    else if rows.events[e].status.Processed? || rows.events[e].status.Ignored? then (rows, Ok(rows.events[e].status))
    else if account.Absent? then (rows, Err("channel_account_missing"))
    else if account.Inactive? || rows.events[e].message.None? then (MarkIgnored(rows, e), Ok(Ignored))
    else if rows.events[e].message.value >= |rows.messages| then (rows, Err("channel_message_missing"))
    else if media.Some? then (rows, Err(media.value))
    else (MarkProcessed(rows, e), Ok(Processed))
  }

  /** A message stored by another route (operator reply, client API): any author, any key. */
  function PostMessage(rows: Rows, message: Message): Rows {
    if message.key.Some? && FindKey(rows.messages, message.key.value).Some? then rows
    else rows.(messages := rows.messages + [message])
  }

  // ---------------------------------------------------------------- agent run

  /** The customer message an event asks the agent to answer, if it asks at all. */
  function AnswerableMessage(rows: Rows, e: nat): (r: Option<nat>)
    ensures r.Some? ==> r.value < |rows.messages|
  {
    if e >= |rows.events| || rows.events[e].message.None? then None
    else
      var m := rows.events[e].message.value;
      if m < |rows.messages| && rows.messages[m].inbound && rows.messages[m].author == Customer
         && Strip(rows.messages[m].text) != []
      then Some(m) else None
  }

  /** The insert of a run: the unique constraint turns a lost race into the existing run. */
  function InsertRun(rows: Rows, message: nat, channel: Channel, prompt: nat): (Rows, nat)
    requires message < |rows.messages|
  {
    match FindRun(rows.runs, message)
    case Some(r) => (rows, r)
    case None =>
      var thread := rows.messages[message].conversation;
      (rows.(runs := rows.runs + [Run(message, thread, thread.account, channel, prompt, Pending, None, None, None, None)]),
       |rows.runs|)
  }

  predicate IsOpen(run: Run) {
    run.status.Pending? || run.status.Generated?
  }

  predicate IsTerminal(run: Run) {
    run.status.Succeeded? || run.status.Failed?
  }

  predicate Holds(rows: Rows, r: nat, token: nat) {
    r < |rows.runs| && rows.runs[r].token == Some(token)
  }

  function SetRun(rows: Rows, r: nat, run: Run): Rows
    requires r < |rows.runs|
  {
    rows.(runs := rows.runs[r := run])
  }

  function ClearLease(run: Run): Run {
    run.(token := None, until := None)
  }

  datatype ClaimOutcome = ClaimedRun | AlreadyDone | Busy | Missing

  function ClaimRun(rows: Rows, r: nat, token: nat, now: int): (Rows, ClaimOutcome) {
    if r >= |rows.runs| then (rows, Missing)
    else
      var run := rows.runs[r];
      if IsOpen(run) && (run.until.None? || run.until.value < now) then
        (SetRun(rows, r, run.(token := Some(token), until := Some(now + LEASE_SECONDS))), ClaimedRun)
      else if IsTerminal(run) then (rows, AlreadyDone)
      else (rows, Busy)
  }

  function RenewLease(rows: Rows, r: nat, token: nat, now: int): (Rows, bool) {
    if Holds(rows, r, token) && IsOpen(rows.runs[r]) then
      (SetRun(rows, r, rows.runs[r].(until := Some(now + LEASE_SECONDS))), true)
    else (rows, false)
  }

  function PersistText(rows: Rows, r: nat, token: nat, text: string): (Rows, bool) {
    if Holds(rows, r, token) && rows.runs[r].status == Pending then
      (SetRun(rows, r, rows.runs[r].(status := Generated, text := Some(text))), true)
    else (rows, false)
  }

  function CompleteRun(rows: Rows, r: nat, token: nat, outbound: nat): (Rows, bool) {
    if Holds(rows, r, token) then
      (SetRun(rows, r, ClearLease(rows.runs[r]).(status := Succeeded, outbound := Some(outbound), text := None)), true)
    else (rows, false)
  }

  function ReleaseRun(rows: Rows, r: nat, token: nat, terminal: bool): Rows {
    if Holds(rows, r, token) then
      var run := ClearLease(rows.runs[r]);
      SetRun(rows, r, if terminal then run.(status := Failed, text := None) else run)
    else rows
  }

  /** validate_customer_response: what a generated text must look like to be delivered. */
  function ValidateResponse(text: string): Result<string> {
    var normalized := Strip(text);
    if normalized == [] then Err("agent_empty_output")
    else if '\0' in normalized then Err("agent_nul_output")
    else if |normalized| > TEXT_LIMIT then Err("agent_output_too_long")
    else Ok(normalized)
  }

  predicate IsDeliverable(text: string) {
    ValidateResponse(text) == Ok(text)
  }

  /** A validated text passes every later validation and the outbound strip unchanged. */
  lemma ValidatedIsDeliverable(text: string)
    requires ValidateResponse(text).Ok?
    ensures IsDeliverable(ValidateResponse(text).value)
    ensures Strip(ValidateResponse(text).value) == ValidateResponse(text).value
  {
    StripTwice(text);
  }

  /** A text is delivered as it is exactly when it has between one and 4096 characters, none of them NUL, and no white
      space at its ends; any other is cut down to such a text or refused. */
  lemma DeliverableExactly(text: string)
    ensures IsDeliverable(text) <==> text != [] && IsStripped(text) && '\0' !in text && |text| <= 4096
    ensures ValidateResponse(text).Ok? <==> IsDeliverable(Strip(text))
    ensures ValidateResponse(text).Ok? ==> ValidateResponse(text).value == Strip(text)
  {
    hide Strip;
    var from, to := StripIsMiddle(text);
    StripTwice(text);
    if IsStripped(text) { StripFixesStripped(text); }
  }

  // ---------------------------------------------------------------- guard and dispatch

  datatype GuardOutcome = MayDispatch | PausedForHandoff | LeaseLost

  function SetSource(h: Handoff, r: nat): Handoff {
    if h.source.None? then h.(source := Some(r)) else h
  }

  /** guard_ai_dispatch: without an active handoff the lease is not looked at. */
  function GuardDispatch(rows: Rows, conversation: Thread, r: nat, token: nat): (Rows, GuardOutcome) {
    match ActiveHandoff(rows.handoffs, conversation)
    case None => (rows, MayDispatch)
    case Some(h) =>
      if !Holds(rows, r, token) || !IsOpen(rows.runs[r]) then (rows, LeaseLost)
      else
        var paused := ClearLease(rows.runs[r]).(status := Paused, text := None);
        (SetRun(rows, r, paused).(handoffs := rows.handoffs[h := SetSource(rows.handoffs[h], r)]), PausedForHandoff)
  }

  predicate OutboundMatches(message: Message, conversation: Thread, account: nat, text: string, author: Author) {
    && message.conversation == conversation && !message.inbound && message.author == author
    && message.text == text && message.account == Some(account)
  }

  datatype DispatchOutcome = Fresh | Replayed(message: nat) | Conflict

  /** dispatch_text before the send: an earlier message under the key is returned or refused. */
  function LookupReply(rows: Rows, run: Run, r: nat, text: string): (o: DispatchOutcome)
    ensures o.Replayed? ==> o.message < |rows.messages| && rows.messages[o.message].key == Some(ReplyKey(r))
                            && OutboundMatches(rows.messages[o.message], run.conversation, run.account, Strip(text), AI)
    ensures o.Fresh? <==> forall m :: 0 <= m < |rows.messages| ==> rows.messages[m].key != Some(ReplyKey(r))
  {
    match FindKey(rows.messages, ReplyKey(r))
    case None => Fresh
    case Some(m) =>
      if OutboundMatches(rows.messages[m], run.conversation, run.account, Strip(text), AI) then Replayed(m) else Conflict
  }

  function ReplyMessage(run: Run, r: nat, text: string): Message {
    Message(Some(ReplyKey(r)), run.conversation, false, AI, Strip(text), Some(run.account))
  }

  /** dispatch_text after the send: the commit fails when the key is already taken. */
  function CommitReply(rows: Rows, run: Run, r: nat, text: string): (Rows, DispatchOutcome) {
    var found := LookupReply(rows, run, r, text);
    if found.Fresh? then (rows.(messages := rows.messages + [ReplyMessage(run, r, text)]), Fresh) else (rows, found)
  }

  // ---------------------------------------------------------------- handoffs

  function RequestHandoff(rows: Rows, conversation: Thread, source: Option<nat>): (Rows, nat) {
    match ActiveHandoff(rows.handoffs, conversation)
    case Some(h) =>
      var kept := if source.Some? then SetSource(rows.handoffs[h], source.value) else rows.handoffs[h];
      (rows.(handoffs := rows.handoffs[h := kept]), h)
    case None =>
      (rows.(handoffs := rows.handoffs + [Handoff(conversation, Queued, None, None, source)]), |rows.handoffs|)
  }

  /** pause_for_tool_approval under an enabled policy: neither lease token nor status is checked. */
  function PauseForApproval(rows: Rows, conversation: Thread, r: nat): Rows {
    if r >= |rows.runs| || rows.runs[r].conversation != conversation then rows
    else
      var requested := RequestHandoff(rows, conversation, Some(r)).0;
      SetRun(requested, r, ClearLease(rows.runs[r]).(status := Paused, text := None))
  }

  function ClaimHandoff(rows: Rows, conversation: Thread, actor: nat): (Rows, Result<nat>) {
    match ActiveHandoff(rows.handoffs, conversation)
    case None => (rows, Err("handoff_active_missing"))
    case Some(h) =>
      var handoff := rows.handoffs[h];
      if handoff.status == Claimed then
        (rows, if handoff.claimant == Some(actor) then Ok(h) else Err("handoff_already_claimed"))
      else (rows.(handoffs := rows.handoffs[h := handoff.(status := Claimed, claimant := Some(actor))]), Ok(h))
  }

  function ReleaseHandoff(rows: Rows, conversation: Thread, actor: nat, allowOverride: bool): (Rows, Result<nat>) {
    match ActiveHandoff(rows.handoffs, conversation)
    case None => (rows, Err("handoff_active_missing"))
    case Some(h) =>
      var handoff := rows.handoffs[h];
      if handoff.status != Claimed then (rows, Err("handoff_not_claimed"))
      else if handoff.claimant != Some(actor) && !allowOverride then (rows, Err("handoff_not_owner"))
      else (rows.(handoffs := rows.handoffs[h := handoff.(status := Queued, claimant := None)]), Ok(h))
  }

  datatype Resolution = Resolution(handoff: nat, resume: Option<nat>)

  /** The resume half of resolve_handoff: only a paused or pending source run is reset. */
  function ResumeRun(rows: Rows, conversation: Thread, h: nat): (Rows, Option<nat>)
    requires h < |rows.handoffs|
  {
    if rows.handoffs[h].source.None? then (rows, None)
    else
      var r := rows.handoffs[h].source.value;
      if r >= |rows.runs| || rows.runs[r].conversation != conversation then (rows, None)
      else if !(rows.runs[r].status.Paused? || rows.runs[r].status.Pending?) then (rows, None)
      else (SetRun(rows, r, ClearLease(rows.runs[r]).(status := Pending, text := None)),
            LatestEvent(rows.events, rows.runs[r].message))
  }

  function ResolveHandoff(rows: Rows, conversation: Thread, actor: nat, allowOverride: bool, resume: bool,
                          cancel: bool, now: int)
    : (Rows, Result<Resolution>)
  {
    match ActiveHandoff(rows.handoffs, conversation)
    case None =>
      var latest := LatestResolved(rows.handoffs, conversation);
      if latest.None? || !resume then (rows, Err("handoff_active_missing"))
      else
        var (resumed, event) := ResumeRun(rows, conversation, latest.value);
        (resumed, Ok(Resolution(latest.value, event)))
    case Some(h) =>
      var handoff := rows.handoffs[h];
      if handoff.status == Claimed && handoff.claimant != Some(actor) && !allowOverride then (rows, Err("handoff_not_owner"))
      else
        var closed := handoff.(status := if cancel then Cancelled else Resolved, closedAt := Some(now));
        var changed := rows.(handoffs := rows.handoffs[h := closed]);
        if !resume then (changed, Ok(Resolution(h, None)))
        else
          var (resumed, event) := ResumeRun(changed, conversation, h);
          (resumed, Ok(Resolution(h, event)))
  }
}
