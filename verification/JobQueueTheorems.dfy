/** Every history of the queue: delivery budget, attempt numbers, and where every entry ends up. */
module JobQueueTheorems {
  import opened Outcomes
  import opened JobQueue

  datatype Step = Add(fields: Fields) | Read(count: nat) | Claim(idle: set<Id>, count: nat) | Ack(id: Id)

  function Apply(q: Queue, step: Step, budget: nat): Queue {
    match step
    case Add(fields) => Enqueue(q, fields)
    case Read(count) => Consume(q, count, budget).0
    case Claim(idle, count) => Reclaim(q, idle, count, budget).0
    case Ack(id) => Acknowledge(q, id)
  }

  function History(steps: seq<Step>, budget: nat): Queue {
    if steps == [] then EMPTY else Apply(History(steps[..|steps| - 1], budget), steps[|steps| - 1], budget)
  }

  // ---------------------------------------------------------------- the invariant

  /** How often an entry was handed out. */
  function HandOuts(handed: seq<Job>, id: Id): nat {
    if handed == [] then 0
    else HandOuts(handed[..|handed| - 1], id) + if handed[|handed| - 1].id == id then 1 else 0
  }

  predicate IsDead(dead: seq<DeadLetter>, id: Id) {
    if dead == [] then false else dead[|dead| - 1].source == id || IsDead(dead[..|dead| - 1], id)
  }

  /** A live entry below the cursor has been handed out as often as its counter says; above it, never. */
  predicate LiveOk(q: Queue, budget: nat, id: Id)
    requires id in q.stream && id in q.attempts
  {
    if id >= q.cursor then q.attempts[id] == 1 && HandOuts(q.handed, id) == 0
    else q.attempts[id] == HandOuts(q.handed, id) && IsWellFormed(q.stream[id])
  }

  ghost predicate Inv(q: Queue, budget: nat) {
    && q.cursor <= q.nextId && q.attempts.Keys == q.stream.Keys
    && (forall id: Id :: id in q.stream ==> LiveOk(q, budget, id))
    && (forall id: Id :: HandOuts(q.handed, id) <= budget)
    && (forall id: Id :: (if id in q.stream then 1 else 0) + (if id in q.acknowledged then 1 else 0)
                         + (if IsDead(q.dead, id) then 1 else 0) == if id < q.nextId then 1 else 0)
    && (forall k :: 0 <= k < |q.handed| ==> q.handed[k].id < q.nextId
                                            && q.handed[k].attempt == HandOuts(q.handed[..k], q.handed[k].id) + 1)
    && (forall d :: 0 <= d < |q.dead| ==> LetterOk(q, budget, q.dead[d]))
  }

  /** A letter for exhausted attempts was handed out exactly as often as the budget allows; a malformed entry never. */
  predicate LetterOk(q: Queue, budget: nat, letter: DeadLetter) {
    if letter.reason == "delivery_attempts_exhausted"
    then letter.attempts == budget + 1 && HandOuts(q.handed, letter.source) == budget
    else letter.attempts == 1 && HandOuts(q.handed, letter.source) == 0
  }

  lemma EmptyQueue(budget: nat)
    ensures Inv(EMPTY, budget)
  {
  }

  lemma HandOneMore(handed: seq<Job>, job: Job)
    ensures forall id: Id :: HandOuts(handed + [job], id) == HandOuts(handed, id) + if id == job.id then 1 else 0
  {
    assert (handed + [job])[..|handed|] == handed;
  }

  lemma BuryOneMore(dead: seq<DeadLetter>, letter: DeadLetter)
    ensures forall id: Id :: IsDead(dead + [letter], id) <==> IsDead(dead, id) || id == letter.source
  {
    assert (dead + [letter])[..|dead|] == dead;
  }

  lemma {:induction false} DeadIs(dead: seq<DeadLetter>, id: Id)
    ensures IsDead(dead, id) <==> exists d :: 0 <= d < |dead| && dead[d].source == id
  {
    if dead != [] { DeadIs(dead[..|dead| - 1], id); }
  }

  // ---------------------------------------------------------------- one delivery

  /** Handing out a live entry for the next time. */
  lemma HandOutKeeps(q: Queue, budget: nat, id: Id, job: Job, next: Queue)
    requires Inv(q, budget) && id in q.stream && IsWellFormed(q.stream[id])
    requires forall k: Id :: k in q.stream && q.cursor <= k < id ==> false
    requires job.id == id && job.attempt == HandOuts(q.handed, id) + 1 <= budget
    requires next == q.(cursor := if id < q.cursor then q.cursor else id + 1, attempts := q.attempts[id := job.attempt],
                        handed := q.handed + [job])
    ensures Inv(next, budget)
  {
    hide HandOuts, IsDead, IsWellFormed;
    HandOneMore(q.handed, job);
    assert id < q.nextId;
    forall k | 0 <= k < |next.handed|
      ensures next.handed[k].id < next.nextId
              && next.handed[k].attempt == HandOuts(next.handed[..k], next.handed[k].id) + 1 {
      if k < |q.handed| { assert next.handed[..k] == q.handed[..k]; } else { assert next.handed[..k] == q.handed; }
    }
    forall d | 0 <= d < |next.dead| ensures LetterOk(next, budget, next.dead[d]) {
      assert LetterOk(q, budget, q.dead[d]);
      DeadIs(q.dead, q.dead[d].source);
      assert q.dead[d].source != id;
    }
    forall k: Id | k in next.stream ensures LiveOk(next, budget, k) {
      assert LiveOk(q, budget, k);
    }
  }

  /** Burying a live entry: out of attempts, or malformed and never handed out. */
  lemma BuryKeeps(q: Queue, budget: nat, id: Id, letter: DeadLetter, next: Queue)
    requires Inv(q, budget) && id in q.stream
    requires forall k: Id :: k in q.stream && q.cursor <= k < id ==> false
    requires letter.source == id && LetterOk(q, budget, letter)
    requires next == q.(cursor := if id < q.cursor then q.cursor else id + 1, stream := q.stream - {id},
                        attempts := q.attempts - {id}, dead := q.dead + [letter])
    ensures Inv(next, budget)
  {
    BuryOneMore(q.dead, letter);
    assert id < q.nextId;
    forall d | 0 <= d < |next.dead| ensures LetterOk(next, budget, next.dead[d]) {
      if d < |q.dead| { assert LetterOk(q, budget, q.dead[d]); }
    }
    forall k: Id | k in next.stream ensures LiveOk(next, budget, k) {
      assert LiveOk(q, budget, k);
    }
  }

  /** The queue after decoding one entry, with the cursor moved past it when it is new. */
  function Delivered(q: Queue, id: Id, reclaimed: bool, budget: nat): Queue
    requires id in q.stream
  {
    var next := DecodeOne(q, Entry(id, q.stream[id]), reclaimed, budget).0;
    next.(cursor := if id < q.cursor then q.cursor else id + 1)
  }

  lemma DeliverKeeps(q: Queue, budget: nat, id: Id, reclaimed: bool)
    requires Inv(q, budget) && id in q.stream && budget >= 1
    requires reclaimed <==> id < q.cursor
    requires forall k: Id :: k in q.stream && q.cursor <= k < id ==> false
    ensures Inv(Delivered(q, id, reclaimed, budget), budget)
  {
    var next := Delivered(q, id, reclaimed, budget);
    assert LiveOk(q, budget, id);
    var attempt := NextAttempt(q.attempts, id, reclaimed);
    assert attempt == HandOuts(q.handed, id) + 1;
    assert q.attempts[id := attempt] - {id} == q.attempts - {id};
    Reasons();
    if IsWellFormed(q.stream[id]) && attempt <= budget {
      HandOutKeeps(q, budget, id, Job(id, q.stream[id].event.value, attempt), next);
    } else {
      BuryKeeps(q, budget, id, next.dead[|q.dead|], next);
    }
  }

  lemma Reasons()
    ensures "malformed_job_type" != "delivery_attempts_exhausted"
    ensures "malformed_event_id" != "delivery_attempts_exhausted"
  {
    assert "malformed_job_type"[0] != "delivery_attempts_exhausted"[0];
    assert "malformed_event_id"[0] != "delivery_attempts_exhausted"[0];
  }

  // ---------------------------------------------------------------- reading and claiming, entry by entry

  lemma {:induction false} DecodeFirst(q: Queue, e: Entry, rest: seq<Entry>, reclaimed: bool, budget: nat)
    ensures Decode(q, [e] + rest, reclaimed, budget).0 == Decode(DecodeOne(q, e, reclaimed, budget).0, rest, reclaimed, budget).0
  {
    hide DecodeOne;
    var all := [e] + rest;
    if rest == [] {
      assert all[..0] == [] && all == [e];
      assert Decode(q, [], reclaimed, budget).0 == q;
    } else {
      assert all[..|all| - 1] == [e] + rest[..|rest| - 1];
      DecodeFirst(q, e, rest[..|rest| - 1], reclaimed, budget);
    }
  }

  /** Decoding neither reads nor moves the cursor. */
  lemma {:induction false} DecodeIgnoresCursor(q: Queue, c: Id, entries: seq<Entry>, reclaimed: bool, budget: nat)
    ensures Decode(q.(cursor := c), entries, reclaimed, budget).0 == Decode(q, entries, reclaimed, budget).0.(cursor := c)
  {
    if entries != [] {
      var n := |entries| - 1;
      DecodeIgnoresCursor(q, c, entries[..n], reclaimed, budget);
      OneIgnoresCursor(Decode(q, entries[..n], reclaimed, budget).0, c, entries[n], reclaimed, budget);
    }
  }

  lemma OneIgnoresCursor(q: Queue, c: Id, e: Entry, reclaimed: bool, budget: nat)
    ensures DecodeOne(q.(cursor := c), e, reclaimed, budget).0 == DecodeOne(q, e, reclaimed, budget).0.(cursor := c)
  {
  }

  lemma {:induction false} FreshSame(s: map<Id, Fields>, t: map<Id, Fields>, from: Id, end: Id, count: nat)
    requires forall id: Id :: id >= from ==> (id in s <==> id in t) && (id in s ==> s[id] == t[id])
    ensures Fresh(s, from, end, count) == Fresh(t, from, end, count)
    decreases end - from
  {
    if from < end && count > 0 {
      FreshSame(s, t, from + 1, end, if from in s then count - 1 else count);
    }
  }

  lemma {:induction false} StaleSame(s: map<Id, Fields>, t: map<Id, Fields>, from: Id, end: Id, idle: set<Id>, count: nat)
    requires forall id: Id :: id >= from ==> (id in s <==> id in t) && (id in s ==> s[id] == t[id])
    ensures Stale(s, from, end, idle, count) == Stale(t, from, end, idle, count)
    decreases end - from
  {
    if from < end && count > 0 {
      StaleSame(s, t, from + 1, end, idle, if from in s && from in idle then count - 1 else count);
    }
  }

  /** Decoding an entry touches no other entry of the stream. */
  lemma DeliveredStream(q: Queue, id: Id, reclaimed: bool, budget: nat)
    requires id in q.stream
    ensures var next := Delivered(q, id, reclaimed, budget);
            && next.nextId == q.nextId
            && forall k: Id :: k != id ==> (k in next.stream <==> k in q.stream)
                                           && (k in q.stream ==> next.stream[k] == q.stream[k])
  {
  }

  lemma {:induction false} ReadKeeps(q: Queue, budget: nat, from: Id, count: nat)
    requires Inv(q, budget) && budget >= 1 && q.cursor <= from <= q.nextId
    requires forall k: Id :: k in q.stream ==> !(q.cursor <= k < from)
    ensures var entries := Fresh(q.stream, from, q.nextId, count);
            Inv(Decode(q, entries, false, budget).0.(cursor := CursorAfter(q.cursor, entries)), budget)
    decreases q.nextId - from
  {
    hide Inv, Decode, DecodeOne;
    var entries := Fresh(q.stream, from, q.nextId, count);
    if from >= q.nextId || count == 0 {
      DecodeNothing(q, false, budget);
    } else if from !in q.stream {
      ReadKeeps(q, budget, from + 1, count);
    } else {
      var e := Entry(from, q.stream[from]);
      var next := Delivered(q, from, false, budget);
      DeliverKeeps(q, budget, from, false);
      DeliveredStream(q, from, false, budget);
      ReadKeeps(next, budget, from + 1, count - 1);
      FreshSame(q.stream, next.stream, from + 1, q.nextId, count - 1);
      var rest := Fresh(q.stream, from + 1, q.nextId, count - 1);
      DecodeFirst(q, e, rest, false, budget);
      DecodeIgnoresCursor(DecodeOne(q, e, false, budget).0, from + 1, rest, false, budget);
    }
  }

  lemma DecodeNothing(q: Queue, reclaimed: bool, budget: nat)
    ensures Decode(q, [], reclaimed, budget) == (q, [])
  {
  }

  lemma {:induction false} ClaimKeeps(q: Queue, budget: nat, from: Id, idle: set<Id>, count: nat)
    requires Inv(q, budget) && budget >= 1
    ensures Inv(Decode(q, Stale(q.stream, from, q.cursor, idle, count), true, budget).0, budget)
    decreases q.cursor - from
  {
    hide Inv, Decode, DecodeOne;
    if from >= q.cursor || count == 0 {
      DecodeNothing(q, true, budget);
    } else if !(from in q.stream && from in idle) {
      ClaimKeeps(q, budget, from + 1, idle, count);
    } else {
      var e := Entry(from, q.stream[from]);
      var next := Delivered(q, from, true, budget);
      DeliverKeeps(q, budget, from, true);
      DeliveredStream(q, from, true, budget);
      ClaimKeeps(next, budget, from + 1, idle, count - 1);
      StaleSame(q.stream, next.stream, from + 1, q.cursor, idle, count - 1);
      var rest := Stale(q.stream, from + 1, q.cursor, idle, count - 1);
      DecodeFirst(q, e, rest, true, budget);
      OneIgnoresCursor(q, q.cursor, e, true, budget);
    }
  }

  // ---------------------------------------------------------------- whole histories

  lemma {:induction false} NotHanded(handed: seq<Job>, id: Id)
    requires forall k :: 0 <= k < |handed| ==> handed[k].id != id
    ensures HandOuts(handed, id) == 0
  {
    if handed != [] { NotHanded(handed[..|handed| - 1], id); }
  }

  lemma AddKeeps(q: Queue, budget: nat, fields: Fields)
    requires Inv(q, budget)
    ensures Inv(Enqueue(q, fields), budget)
  {
    var next := Enqueue(q, fields);
    NotHanded(q.handed, q.nextId);
    forall id: Id | id in next.stream ensures LiveOk(next, budget, id) {
      if id != q.nextId { assert LiveOk(q, budget, id); }
    }
    forall d | 0 <= d < |next.dead| ensures LetterOk(next, budget, next.dead[d]) {
      assert LetterOk(q, budget, q.dead[d]);
    }
  }

  lemma AckKeeps(q: Queue, budget: nat, id: Id)
    requires Inv(q, budget)
    ensures Inv(Acknowledge(q, id), budget)
  {
    var next := Acknowledge(q, id);
    forall k: Id | k in next.stream ensures LiveOk(next, budget, k) {
      assert LiveOk(q, budget, k);
    }
    forall d | 0 <= d < |next.dead| ensures LetterOk(next, budget, next.dead[d]) {
      assert LetterOk(q, budget, q.dead[d]);
    }
  }

  lemma {:induction false} HistoryKeeps(steps: seq<Step>, budget: nat)
    requires budget >= 1
    ensures Inv(History(steps, budget), budget)
  {
    hide Inv;
    if steps == [] {
      EmptyQueue(budget);
    } else {
      var before := History(steps[..|steps| - 1], budget);
      HistoryKeeps(steps[..|steps| - 1], budget);
      match steps[|steps| - 1] {
        case Add(fields) => AddKeeps(before, budget, fields);
        case Read(count) =>
          CursorInside(before, budget);
          ReadKeeps(before, budget, before.cursor, count);
          var entries := Fresh(before.stream, before.cursor, before.nextId, count);
          DecodeIgnoresCursor(before, CursorAfter(before.cursor, entries), entries, false, budget);
        case Claim(idle, count) => ClaimKeeps(before, budget, 0, idle, count);
        case Ack(id) => AckKeeps(before, budget, id);
      }
    }
  }

  lemma CursorInside(q: Queue, budget: nat)
    requires Inv(q, budget)
    ensures q.cursor <= q.nextId
  {
  }

  /** Every enqueued entry is in exactly one place: live, acknowledged or dead-lettered. */
  lemma EntriesPartitioned(steps: seq<Step>, budget: nat, id: Id)
    requires budget >= 1 && id < History(steps, budget).nextId
    ensures var q := History(steps, budget);
            && (id in q.stream || id in q.acknowledged || IsDead(q.dead, id))
            && !(id in q.stream && id in q.acknowledged) && !(id in q.stream && IsDead(q.dead, id))
            && !(id in q.acknowledged && IsDead(q.dead, id))
  {
    HistoryKeeps(steps, budget);
    var q := History(steps, budget);
    assert (if id in q.stream then 1 else 0) + (if id in q.acknowledged then 1 else 0)
           + (if IsDead(q.dead, id) then 1 else 0) == 1;
  }

  /** The attempt number of a hand-out is one more than the number of earlier hand-outs of the same entry: 1, 2, 3
      and so on, never past the budget. */
  lemma AttemptsCountUp(steps: seq<Step>, budget: nat, k: nat)
    requires budget >= 1 && k < |History(steps, budget).handed|
    ensures var handed := History(steps, budget).handed;
            handed[k].attempt == HandOuts(handed[..k], handed[k].id) + 1 <= budget
  {
    HistoryKeeps(steps, budget);
    var handed := History(steps, budget).handed;
    HandOutsGrow(handed, k + 1, handed[k].id);
    assert handed[..k + 1][..k] == handed[..k];
  }

  lemma {:induction false} HandOutsGrow(handed: seq<Job>, k: nat, id: Id)
    requires k <= |handed|
    ensures HandOuts(handed[..k], id) <= HandOuts(handed, id)
  {
    if k < |handed| {
      HandOutsGrow(handed[..|handed| - 1], k, id);
      assert handed[..|handed| - 1][..k] == handed[..k];
    } else {
      assert handed[..k] == handed;
    }
  }

  /** A pending entry that has used its budget is not handed out again: claiming it buries it. */
  lemma SpentEntryIsBuried(steps: seq<Step>, budget: nat, id: Id)
    requires budget >= 1
    requires var q := History(steps, budget); id in q.stream && HandOuts(q.handed, id) == budget
    ensures var q := History(steps, budget);
            var next := DecodeOne(q, Entry(id, q.stream[id]), true, budget);
            next.1 == [] && id !in next.0.stream && IsDead(next.0.dead, id) && next.0.handed == q.handed
  {
    HistoryKeeps(steps, budget);
    var q := History(steps, budget);
    assert LiveOk(q, budget, id);
    BuryOneMore(q.dead, DecodeOne(q, Entry(id, q.stream[id]), true, budget).0.dead[|q.dead|]);
  }

  /** Only an entry that used its whole budget is buried as exhausted. */
  lemma ExhaustedMeansSpent(steps: seq<Step>, budget: nat, d: nat)
    requires budget >= 1 && d < |History(steps, budget).dead|
    ensures var q := History(steps, budget);
            LetterOk(q, budget, q.dead[d])
  {
    HistoryKeeps(steps, budget);
  }

  function TotalOver(handed: seq<Job>, n: nat): nat {
    if n == 0 then 0 else TotalOver(handed, n - 1) + HandOuts(handed, n - 1)
  }

  lemma {:induction false} TotalOfMore(handed: seq<Job>, job: Job, n: nat)
    ensures TotalOver(handed + [job], n) == TotalOver(handed, n) + if job.id < n then 1 else 0
  {
    HandOneMore(handed, job);
    if n > 0 { TotalOfMore(handed, job, n - 1); }
  }

  lemma {:induction false} TotalIsLength(handed: seq<Job>, n: nat)
    requires forall k :: 0 <= k < |handed| ==> handed[k].id < n
    ensures TotalOver(handed, n) == |handed|
  {
    if handed == [] {
      NothingHanded(n);
    } else {
      var init := handed[..|handed| - 1];
      TotalIsLength(init, n);
      TotalOfMore(init, handed[|handed| - 1], n);
      assert handed == init + [handed[|handed| - 1]];
    }
  }

  lemma {:induction false} NothingHanded(n: nat)
    ensures TotalOver([], n) == 0
  {
    if n > 0 { NothingHanded(n - 1); }
  }

  lemma {:induction false} TotalBound(handed: seq<Job>, n: nat, budget: nat)
    requires forall id: Id :: HandOuts(handed, id) <= budget
    ensures TotalOver(handed, n) <= n * budget
  {
    if n > 0 {
      TotalBound(handed, n - 1, budget);
      assert n * budget == (n - 1) * budget + budget;
    }
  }

  /** However often workers read and claim, the hand-outs are at most the enqueued entries times the budget. */
  lemma HandOutsBounded(steps: seq<Step>, budget: nat)
    requires budget >= 1
    ensures |History(steps, budget).handed| <= History(steps, budget).nextId * budget
  {
    HistoryKeeps(steps, budget);
    var q := History(steps, budget);
    TotalIsLength(q.handed, q.nextId);
    TotalBound(q.handed, q.nextId, budget);
  }

  // ---------------------------------------------------------------- what a job and a dead letter say

  /** What was enqueued, in order: entry number id is the id-th of them. */
  function Added(steps: seq<Step>): seq<Fields> {
    if steps == [] then []
    else Added(steps[..|steps| - 1]) + if steps[|steps| - 1].Add? then [steps[|steps| - 1].fields] else []
  }

  /** The job names the event that was enqueued under its entry. */
  predicate JobTells(added: seq<Fields>, job: Job) {
    job.id < |added| && added[job.id].jobType == "channel.inbound" && added[job.id].event == Some(job.event)
  }

  /** A letter says what is wrong with its entry, and names its event, or the start of what was written instead of one. */
  predicate LetterTells(added: seq<Fields>, letter: DeadLetter) {
    && letter.source < |added|
    && var fields := added[letter.source];
       if fields.jobType != "channel.inbound" then
         letter.reason == "malformed_job_type" && letter.entity == Raw(Start(fields.rawEvent))
       else if fields.event.None? then
         letter.reason == "malformed_event_id" && letter.entity == Raw(Start(fields.rawEvent))
       else letter.reason == "delivery_attempts_exhausted" && letter.entity == Event(fields.event.value)
  }

  function Start(text: string): string {
    if |text| > 64 then text[..64] else text
  }

  ghost predicate Tells(q: Queue, added: seq<Fields>) {
    && q.nextId == |added|
    && (forall id: Id :: id in q.stream ==> id < |added| && q.stream[id] == added[id])
    && (forall k :: 0 <= k < |q.handed| ==> JobTells(added, q.handed[k]))
    && (forall d :: 0 <= d < |q.dead| ==> LetterTells(added, q.dead[d]))
  }

  ghost predicate AreOf(entries: seq<Entry>, added: seq<Fields>) {
    forall k :: 0 <= k < |entries| ==> entries[k].id < |added| && entries[k].fields == added[entries[k].id]
  }

  lemma DecodeOneTells(q: Queue, e: Entry, reclaimed: bool, budget: nat, added: seq<Fields>)
    requires Tells(q, added) && e.id < |added| && e.fields == added[e.id]
    ensures Tells(DecodeOne(q, e, reclaimed, budget).0, added)
    ensures forall k :: 0 <= k < |DecodeOne(q, e, reclaimed, budget).1| ==> JobTells(added, DecodeOne(q, e, reclaimed, budget).1[k])
  {
    hide NextAttempt, Counted;
  }

  lemma {:induction false} DecodeTells(q: Queue, entries: seq<Entry>, reclaimed: bool, budget: nat, added: seq<Fields>)
    requires Tells(q, added) && AreOf(entries, added)
    ensures Tells(Decode(q, entries, reclaimed, budget).0, added)
    ensures forall k :: 0 <= k < |Decode(q, entries, reclaimed, budget).1|
                        ==> JobTells(added, Decode(q, entries, reclaimed, budget).1[k])
  {
    hide DecodeOne, Tells, JobTells;
    if entries != [] {
      var n := |entries| - 1;
      DecodeTells(q, entries[..n], reclaimed, budget, added);
      DecodeOneTells(Decode(q, entries[..n], reclaimed, budget).0, entries[n], reclaimed, budget, added);
    }
  }

  /** The oldest `count` of the entries of a range that are eligible: in order, and left out only when there is no room. */
  ghost predicate AreOldest(stream: map<Id, Fields>, from: Id, end: Id, eligible: set<Id>, count: nat, entries: seq<Entry>) {
    && |entries| <= count
    && (forall i :: 0 <= i < |entries| ==> IsEligible(stream, from, end, eligible, entries[i].id)
                                           && entries[i].fields == stream[entries[i].id])
    && (forall i, j :: 0 <= i < j < |entries| ==> entries[i].id < entries[j].id)
    && (forall id: Id :: IsEligible(stream, from, end, eligible, id) ==>
          (exists i :: 0 <= i < |entries| && entries[i].id == id)
          || (|entries| == count && forall i :: 0 <= i < |entries| ==> entries[i].id < id))
  }

  predicate IsEligible(stream: map<Id, Fields>, from: Id, end: Id, eligible: set<Id>, id: Id) {
    from <= id < end && id in stream && id in eligible
  }

  lemma NoneOldest(stream: map<Id, Fields>, from: Id, end: Id, eligible: set<Id>, count: nat)
    requires from >= end || count == 0
    ensures AreOldest(stream, from, end, eligible, count, [])
  {
  }

  lemma OldestWithout(stream: map<Id, Fields>, from: Id, end: Id, eligible: set<Id>, count: nat, rest: seq<Entry>)
    requires !IsEligible(stream, from, end, eligible, from)
    requires AreOldest(stream, from + 1, end, eligible, count, rest)
    ensures AreOldest(stream, from, end, eligible, count, rest)
  {
    forall id: Id | IsEligible(stream, from, end, eligible, id) ensures IsEligible(stream, from + 1, end, eligible, id) {}
  }

  lemma OldestWith(stream: map<Id, Fields>, from: Id, end: Id, eligible: set<Id>, count: nat, rest: seq<Entry>)
    requires IsEligible(stream, from, end, eligible, from) && count > 0
    requires AreOldest(stream, from + 1, end, eligible, count - 1, rest)
    ensures AreOldest(stream, from, end, eligible, count, [Entry(from, stream[from])] + rest)
  {
    var entries := [Entry(from, stream[from])] + rest;
    forall i | 0 <= i < |entries|
      ensures IsEligible(stream, from, end, eligible, entries[i].id) && entries[i].fields == stream[entries[i].id] {
      if i > 0 { assert IsEligible(stream, from + 1, end, eligible, rest[i - 1].id); }
    }
    forall id: Id | IsEligible(stream, from, end, eligible, id)
      ensures (exists i :: 0 <= i < |entries| && entries[i].id == id)
              || (|entries| == count && forall i :: 0 <= i < |entries| ==> entries[i].id < id) {
      if id == from {
        assert entries[0].id == id;
      } else {
        assert IsEligible(stream, from + 1, end, eligible, id);
        if i :| 0 <= i < |rest| && rest[i].id == id { assert entries[i + 1].id == id; }
      }
    }
  }

  /** Reading takes the oldest entries never delivered. */
  lemma {:induction false} FreshAreOldest(stream: map<Id, Fields>, from: Id, end: Id, count: nat)
    ensures AreOldest(stream, from, end, stream.Keys, count, Fresh(stream, from, end, count))
    decreases end - from
  {
    hide AreOldest;
    if from >= end || count == 0 {
      NoneOldest(stream, from, end, stream.Keys, count);
    } else if from in stream {
      FreshAreOldest(stream, from + 1, end, count - 1);
      OldestWith(stream, from, end, stream.Keys, count, Fresh(stream, from + 1, end, count - 1));
    } else {
      FreshAreOldest(stream, from + 1, end, count);
      OldestWithout(stream, from, end, stream.Keys, count, Fresh(stream, from + 1, end, count));
    }
  }

  /** Claiming takes the oldest pending entries that are idle, and no others. */
  lemma {:induction false} StaleAreOldest(stream: map<Id, Fields>, from: Id, end: Id, idle: set<Id>, count: nat)
    ensures AreOldest(stream, from, end, idle, count, Stale(stream, from, end, idle, count))
    decreases end - from
  {
    hide AreOldest;
    if from >= end || count == 0 {
      NoneOldest(stream, from, end, idle, count);
    } else if from in stream && from in idle {
      StaleAreOldest(stream, from + 1, end, idle, count - 1);
      OldestWith(stream, from, end, idle, count, Stale(stream, from + 1, end, idle, count - 1));
    } else {
      StaleAreOldest(stream, from + 1, end, idle, count);
      OldestWithout(stream, from, end, idle, count, Stale(stream, from + 1, end, idle, count));
    }
  }

  lemma OldestAreAdded(q: Queue, from: Id, end: Id, eligible: set<Id>, count: nat, entries: seq<Entry>, added: seq<Fields>)
    requires Tells(q, added) && AreOldest(q.stream, from, end, eligible, count, entries)
    ensures AreOf(entries, added)
  {
    forall k | 0 <= k < |entries| ensures entries[k].id < |added| && entries[k].fields == added[entries[k].id] {
      assert IsEligible(q.stream, from, end, eligible, entries[k].id);
    }
  }

  lemma StepTells(q: Queue, step: Step, budget: nat, added: seq<Fields>)
    requires Tells(q, added)
    ensures Tells(Apply(q, step, budget), added + if step.Add? then [step.fields] else [])
  {
    hide Decode, Fresh, Stale, AreOldest;
    assert added + [] == added;
    match step
    case Add(fields) =>
    case Read(count) =>
      var entries := Fresh(q.stream, q.cursor, q.nextId, count);
      FreshAreOldest(q.stream, q.cursor, q.nextId, count);
      OldestAreAdded(q, q.cursor, q.nextId, q.stream.Keys, count, entries, added);
      DecodeTells(q.(cursor := CursorAfter(q.cursor, entries)), entries, false, budget, added);
    case Claim(idle, count) =>
      StaleAreOldest(q.stream, 0, q.cursor, idle, count);
      OldestAreAdded(q, 0, q.cursor, idle, count, Stale(q.stream, 0, q.cursor, idle, count), added);
      DecodeTells(q, Stale(q.stream, 0, q.cursor, idle, count), true, budget, added);
    case Ack(id) =>
  }

  lemma {:induction false} HistoryTells(steps: seq<Step>, budget: nat)
    ensures Tells(History(steps, budget), Added(steps))
  {
    hide Apply, Tells;
    if steps == [] {
      NothingTold();
    } else {
      HistoryTells(steps[..|steps| - 1], budget);
      StepTells(History(steps[..|steps| - 1], budget), steps[|steps| - 1], budget, Added(steps[..|steps| - 1]));
    }
  }

  lemma NothingTold()
    ensures Tells(EMPTY, [])
  {
  }

  /** Every job that was ever handed out names the event enqueued under its entry; every dead letter says what is wrong
      with what was enqueued and names it. */
  lemma JobsCarryTheirEvents(steps: seq<Step>, budget: nat, k: nat, d: nat)
    ensures var q := History(steps, budget);
            && (k < |q.handed| ==> JobTells(Added(steps), q.handed[k]))
            && (d < |q.dead| ==> LetterTells(Added(steps), q.dead[d]))
  {
    HistoryTells(steps, budget);
  }
}
