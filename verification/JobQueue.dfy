/** The channel job queue: a stream with a consumer group, an attempt counter for each entry, and dead letters.
    The knowledge queue is built the same way. Each operation is one step. */
module JobQueue {
  import opened Outcomes

  type Id = nat
  const JOB_TYPE := "channel.inbound"

  /** `event` is the event id when the raw text is a valid one. */
  datatype Fields = Fields(jobType: string, rawEvent: string, event: Option<Id>)
  datatype Entry = Entry(id: Id, fields: Fields)
  datatype Job = Job(id: Id, event: Id, attempt: nat)
  datatype Entity = Raw(text: string) | Event(id: Id)
  datatype DeadLetter = DeadLetter(source: Id, entity: Entity, attempts: nat, reason: string)

  /** Entries are numbered as they are added; those below the cursor have been delivered to the group and stay pending
      until they are acknowledged. `handed` records every job handed out, in order. */
  datatype Queue = Queue(stream: map<Id, Fields>, nextId: Id, cursor: Id, attempts: map<Id, nat>, dead: seq<DeadLetter>,
                         acknowledged: set<Id>, handed: seq<Job>)

  const EMPTY := Queue(map[], 0, 0, map[], [], {}, [])

  // ---------------------------------------------------------------- the operations

  function Enqueue(q: Queue, fields: Fields): Queue {
    q.(stream := q.stream[q.nextId := fields], nextId := q.nextId + 1, attempts := q.attempts[q.nextId := 1])
  }

  function Remove(q: Queue, id: Id): Queue {
    q.(stream := q.stream - {id}, attempts := q.attempts - {id})
  }

  function Acknowledge(q: Queue, id: Id): Queue {
    if id in q.stream then Remove(q, id).(acknowledged := q.acknowledged + {id}) else Remove(q, id)
  }

  function Bury(q: Queue, id: Id, entity: Entity, attempt: nat, reason: string): Queue {
    Remove(q, id).(dead := q.dead + [DeadLetter(id, entity, if attempt < 1 then 1 else attempt, reason)])
  }

  /** _attempt: the number of this delivery. */
  function NextAttempt(attempts: map<Id, nat>, id: Id, reclaimed: bool): nat {
    var count := if id in attempts then attempts[id] else 1;
    if reclaimed then count + 1 else if count < 1 then 1 else count
  }

  function Counted(attempts: map<Id, nat>, id: Id, reclaimed: bool): map<Id, nat> {
    var count := if id in attempts then attempts[id] else 1;
    attempts[id := if reclaimed then count + 1 else count]
  }

  function Cut(text: string): string {
    if |text| <= 64 then text else text[..64]
  }

  predicate IsWellFormed(fields: Fields) {
    fields.jobType == JOB_TYPE && fields.event.Some?
  }

  /** One entry of _decode_entries: a job, or a dead letter. */
  function DecodeOne(q: Queue, entry: Entry, reclaimed: bool, budget: nat): (Queue, seq<Job>) {
    var attempt := NextAttempt(q.attempts, entry.id, reclaimed);
    var counted := q.(attempts := Counted(q.attempts, entry.id, reclaimed));
    if entry.fields.jobType != JOB_TYPE then
      (Bury(counted, entry.id, Raw(Cut(entry.fields.rawEvent)), attempt, "malformed_job_type"), [])
    else if entry.fields.event.None? then
      (Bury(counted, entry.id, Raw(Cut(entry.fields.rawEvent)), attempt, "malformed_event_id"), [])
    else if attempt > budget then
      (Bury(counted, entry.id, Event(entry.fields.event.value), attempt, "delivery_attempts_exhausted"), [])
    else
      var job := Job(entry.id, entry.fields.event.value, attempt);
      (counted.(handed := counted.handed + [job]), [job])
  }

  function Decode(q: Queue, entries: seq<Entry>, reclaimed: bool, budget: nat): (Queue, seq<Job>) {
    if entries == [] then (q, [])
    else
      var n := |entries| - 1;
      var (before, jobs) := Decode(q, entries[..n], reclaimed, budget);
      var (after, more) := DecodeOne(before, entries[n], reclaimed, budget);
      (after, jobs + more)
  }

  /** xreadgroup with ">": the next entries never delivered to the group. */
  function Fresh(stream: map<Id, Fields>, from: Id, end: Id, count: nat): seq<Entry>
    decreases end - from
  {
    if from >= end || count == 0 then []
    else if from in stream then [Entry(from, stream[from])] + Fresh(stream, from + 1, end, count - 1)
    else Fresh(stream, from + 1, end, count)
  }

  /** xautoclaim: pending entries idle for long enough, oldest first. */
  function Stale(stream: map<Id, Fields>, from: Id, end: Id, idle: set<Id>, count: nat): seq<Entry>
    decreases end - from
  {
    if from >= end || count == 0 then []
    else if from in stream && from in idle then [Entry(from, stream[from])] + Stale(stream, from + 1, end, idle, count - 1)
    else Stale(stream, from + 1, end, idle, count)
  }

  function CursorAfter(cursor: Id, entries: seq<Entry>): Id {
    if entries == [] then cursor else entries[|entries| - 1].id + 1
  }

  function Consume(q: Queue, count: nat, budget: nat): (Queue, seq<Job>) {
    var entries := Fresh(q.stream, q.cursor, q.nextId, count);
    Decode(q.(cursor := CursorAfter(q.cursor, entries)), entries, false, budget)
  }

  function Reclaim(q: Queue, idle: set<Id>, count: nat, budget: nat): (Queue, seq<Job>) {
    Decode(q, Stale(q.stream, 0, q.cursor, idle, count), true, budget)
  }

  /** ChannelJobQueue over its Redis keys. */
  class ChannelJobQueue {
    const maxDeliveryAttempts: nat
    var stream: map<Id, Fields>
    var nextId: Id
    var cursor: Id
    var attempts: map<Id, nat>
    var dead: seq<DeadLetter>
    ghost var acknowledged: set<Id>
    ghost var handed: seq<Job>

    constructor (budget: nat)
      requires budget >= 1
      ensures Contents() == EMPTY && maxDeliveryAttempts == budget
    {
      maxDeliveryAttempts := budget;
      stream, nextId, cursor, attempts, dead, acknowledged, handed := map[], 0, 0, map[], [], {}, [];
    }

    ghost function Contents(): Queue
      reads this
    {
      Queue(stream, nextId, cursor, attempts, dead, acknowledged, handed)
    }

    method EnqueueEvent(fields: Fields) returns (id: Id)
      modifies this
      ensures Contents() == Enqueue(old(Contents()), fields) && id == old(nextId)
    {
      id := nextId;
      stream := stream[id := fields];
      nextId := nextId + 1;
      attempts := attempts[id := 1];
    }

    method AcknowledgeEntry(id: Id)
      modifies this
      ensures Contents() == Acknowledge(old(Contents()), id)
    {
      if id in stream { acknowledged := acknowledged + {id}; }
      stream := stream - {id};
      attempts := attempts - {id};
    }

    /** The dead letter is added before the entry is removed. */
    method DeadLetterEntry(id: Id, entity: Entity, attempt: nat, reason: string)
      modifies this
      ensures Contents() == Bury(old(Contents()), id, entity, attempt, reason)
    {
      dead := dead + [DeadLetter(id, entity, if attempt < 1 then 1 else attempt, reason)];
      stream := stream - {id};
      attempts := attempts - {id};
    }

    method CountAttempt(id: Id, reclaimed: bool) returns (attempt: nat)
      modifies `attempts
      ensures attempts == Counted(old(attempts), id, reclaimed) && attempt == NextAttempt(old(attempts), id, reclaimed)
    {
      if id !in attempts { attempts := attempts[id := 1]; }
      if reclaimed {
        attempts := attempts[id := attempts[id] + 1];
        return attempts[id];
      }
      return if attempts[id] < 1 then 1 else attempts[id];
    }

    method DecodeEntries(entries: seq<Entry>, reclaimed: bool) returns (jobs: seq<Job>)
      modifies this
      ensures (Contents(), jobs) == Decode(old(Contents()), entries, reclaimed, maxDeliveryAttempts)
    {
      hide Counted, NextAttempt, Bury;
      jobs := [];
      for k := 0 to |entries|
        invariant (Contents(), jobs) == Decode(old(Contents()), entries[..k], reclaimed, maxDeliveryAttempts)
      {
        assert entries[..k + 1][..k] == entries[..k];
        var entry := entries[k];
        assert jobs + [] == jobs;
        var attempt := CountAttempt(entry.id, reclaimed);
        if entry.fields.jobType != JOB_TYPE {
          DeadLetterEntry(entry.id, Raw(Cut(entry.fields.rawEvent)), attempt, "malformed_job_type");
          continue;
        }
        if entry.fields.event.None? {
          DeadLetterEntry(entry.id, Raw(Cut(entry.fields.rawEvent)), attempt, "malformed_event_id");
          continue;
        }
        if attempt > maxDeliveryAttempts {
          DeadLetterEntry(entry.id, Event(entry.fields.event.value), attempt, "delivery_attempts_exhausted");
          continue;
        }
        var job := Job(entry.id, entry.fields.event.value, attempt);
        jobs := jobs + [job];
        handed := handed + [job];
      }
      assert entries[..|entries|] == entries;
    }

    method ConsumeJobs(count: nat) returns (jobs: seq<Job>)
      modifies this
      ensures (Contents(), jobs) == Consume(old(Contents()), count, maxDeliveryAttempts)
    {
      var entries := Fresh(stream, cursor, nextId, count);
      cursor := CursorAfter(cursor, entries);
      jobs := DecodeEntries(entries, false);
    }

    method ReclaimJobs(idle: set<Id>, count: nat) returns (jobs: seq<Job>)
      modifies this
      ensures (Contents(), jobs) == Reclaim(old(Contents()), idle, count, maxDeliveryAttempts)
    {
      jobs := DecodeEntries(Stale(stream, 0, cursor, idle, count), true);
    }
  }
}
