/** Several workers and the reindex route on one knowledge source: what every reachable state satisfies, and exactly
    when a published index stays published. */
module IndexRuns {
  import opened Outcomes
  import opened KnowledgeIndex

  /** Where a worker stands inside process_knowledge_source. Embedding covers the download and the parser too. */
  datatype Pc = Idle | Embedding | Publishing(signature: Signature, embedded: seq<Embedded>) | GivingUp(why: Failure)

  datatype State = State(index: SourceIndex, clock: int, workers: seq<Pc>)

  datatype Step =
    | Wait(elapsed: nat)
    | Take(w: nat)
    | Embed(w: nat, outcome: EmbedOutcome)
    | Publish(w: nat)
    | GiveUp(w: nat)
    | Die(w: nat)
    | AskReindex

  function Initial(workers: nat): State {
    State(NEW, 0, seq(workers, _ => Idle))
  }

  function PcAt(s: State, w: nat): Pc {
    if w < |s.workers| then s.workers[w] else Idle
  }

  function Go(s: State, w: nat, pc: Pc): State {
    if w < |s.workers| then s.(workers := s.workers[w := pc]) else s
  }

  function TakeStep(s: State, w: nat): State {
    if w >= |s.workers| || !s.workers[w].Idle? then s
    else
      var (index, r) := Claim(s.index, s.clock);
      if r == Ok(true) then Go(s.(index := index), w, Embedding) else s
  }

  /** Embedding ends with something that may be published, or with a failure. */
  function EmbedStep(s: State, w: nat, outcome: EmbedOutcome): State {
    if !PcAt(s, w).Embedding? then s
    else
      match outcome
      case Rejected(why) => Go(s, w, GivingUp(why))
      case Indexed(signature, embedded) =>
        if IsPublishable(signature, embedded) then Go(s, w, Publishing(signature, embedded)) else s
  }

  function PublishStep(s: State, w: nat): State {
    var pc := PcAt(s, w);
    if !pc.Publishing? then s
    else
      var (index, refused) := Persist(s.index, pc.signature, pc.embedded);
      Go(s.(index := index), w, if refused.Some? then GivingUp(refused.value) else Idle)
  }

  function GiveUpStep(s: State, w: nat): State {
    var pc := PcAt(s, w);
    if pc.GivingUp? then Go(s.(index := Abandon(s.index, pc.why)), w, Idle) else s
  }

  function Apply(s: State, step: Step): State {
    match step
    case Wait(elapsed) => s.(clock := s.clock + elapsed)
    case Take(w) => TakeStep(s, w)
    case Embed(w, outcome) => EmbedStep(s, w, outcome)
    case Publish(w) => PublishStep(s, w)
    case GiveUp(w) => GiveUpStep(s, w)
    case Die(w) => Go(s, w, Idle)
    case AskReindex => s.(index := Reindex(s.index).0)
  }

  function Exec(s: State, steps: seq<Step>): State {
    if steps == [] then s else Apply(Exec(s, steps[..|steps| - 1]), steps[|steps| - 1])
  }

  // ---------------------------------------------------------------- every reachable state

  /** A published index: the count is the number of rows, ordinals are 1..n in order, every row carries the source's
      signature and a vector of its dimension. */
  ghost predicate IsConsistent(s: SourceIndex) {
    && |s.rows| == s.source.chunkCount
    && (forall i :: 0 <= i < |s.rows| ==> s.rows[i].ordinal == i + 1 && |s.rows[i].vector| == s.rows[i].signature.dimension)
    && (s.source.status.Ready? ==> s.rows != [] && s.source.signature.Some?)
    && (s.source.signature.Some? ==> forall i :: 0 <= i < |s.rows| ==> s.rows[i].signature == s.source.signature.value)
  }

  ghost predicate HoldsPublishable(s: State) {
    forall w :: 0 <= w < |s.workers| && s.workers[w].Publishing?
                ==> IsPublishable(s.workers[w].signature, s.workers[w].embedded)
  }

  lemma PersistIsConsistent(s: SourceIndex, signature: Signature, embedded: seq<Embedded>)
    requires IsConsistent(s) && IsPublishable(signature, embedded)
    ensures IsConsistent(Persist(s, signature, embedded).0)
  {
    RowsAre(signature, embedded);
  }

  lemma ApplyIsConsistent(s: State, step: Step)
    requires IsConsistent(s.index) && HoldsPublishable(s)
    ensures IsConsistent(Apply(s, step).index) && HoldsPublishable(Apply(s, step))
  {
    hide Persist, IsPublishable;
    if step.Publish? && PcAt(s, step.w).Publishing? {
      PersistIsConsistent(s.index, PcAt(s, step.w).signature, PcAt(s, step.w).embedded);
    }
  }

  /** In every reachable state the index of a ready source is complete, numbered and of one signature. */
  lemma {:induction false} HistoryIsConsistent(workers: nat, steps: seq<Step>)
    ensures IsConsistent(Exec(Initial(workers), steps).index) && HoldsPublishable(Exec(Initial(workers), steps))
  {
    hide IsConsistent, HoldsPublishable, Apply;
    if steps == [] {
      assert IsConsistent(NEW) && HoldsPublishable(Initial(workers)) by { InitialIsConsistent(workers); }
    } else {
      HistoryIsConsistent(workers, steps[..|steps| - 1]);
      ApplyIsConsistent(Exec(Initial(workers), steps[..|steps| - 1]), steps[|steps| - 1]);
    }
  }

  lemma InitialIsConsistent(workers: nat)
    ensures IsConsistent(NEW) && HoldsPublishable(Initial(workers))
  {
  }

  // ---------------------------------------------------------------- when a published index stays published

  predicate IsReady(s: State) {
    s.index.source.status.Ready?
  }

  /** A reindex, or a worker that finishes: once the source is ready it can only finish by giving up. */
  predicate Withdraws(s: State, step: Step) {
    step.AskReindex? || (step.GiveUp? && PcAt(s, step.w).GivingUp?)
  }

  /** A step changes the index of a ready source exactly when it is one of those. */
  lemma ReadyStep(s: State, step: Step)
    requires IsReady(s)
    ensures Apply(s, step).index != s.index <==> Withdraws(s, step)
    ensures Withdraws(s, step) ==> !IsReady(Apply(s, step))
  {
  }

  /** Published from beginning to end: every state of the run shows the same index. */
  ghost predicate StaysPublished(s: State, steps: seq<Step>) {
    forall k :: 0 <= k <= |steps| ==> Exec(s, steps[..k]).index == s.index
  }

  ghost predicate NeverWithdrawn(s: State, steps: seq<Step>) {
    forall k :: 0 <= k < |steps| ==> !Withdraws(Exec(s, steps[..k]), steps[k])
  }

  lemma ExecNext(s: State, steps: seq<Step>, k: nat)
    requires k < |steps|
    ensures Exec(s, steps[..k + 1]) == Apply(Exec(s, steps[..k]), steps[k])
  {
    assert steps[..k + 1][..k] == steps[..k];
  }

  lemma {:induction false} StaysUpTo(s: State, steps: seq<Step>, k: nat)
    requires IsReady(s) && k <= |steps| && NeverWithdrawn(s, steps)
    ensures Exec(s, steps[..k]).index == s.index
  {
    hide Apply;
    if k > 0 {
      StaysUpTo(s, steps, k - 1);
      ExecNext(s, steps, k - 1);
      ReadyStep(Exec(s, steps[..k - 1]), steps[k - 1]);
    }
  }

  /** Over a whole run a published index stays published exactly when nobody reindexes and no worker finishes. */
  lemma PublishedStaysExactly(s: State, steps: seq<Step>)
    requires IsReady(s)
    ensures StaysPublished(s, steps) <==> NeverWithdrawn(s, steps)
  {
    hide Apply, Exec, Withdraws;
    if StaysPublished(s, steps) {
      forall k | 0 <= k < |steps| ensures !Withdraws(Exec(s, steps[..k]), steps[k]) {
        ExecNext(s, steps, k);
        assert Exec(s, steps[..k]).index == s.index && Exec(s, steps[..k + 1]).index == s.index;
        ReadyStep(Exec(s, steps[..k]), steps[k]);
      }
    }
    if NeverWithdrawn(s, steps) {
      forall k | 0 <= k <= |steps| ensures Exec(s, steps[..k]).index == s.index { StaysUpTo(s, steps, k); }
    }
  }

  lemma ReadyAdmitsNoClaim(s: State, step: Step, w: nat)
    requires IsReady(s) && PcAt(s, w).Idle?
    ensures PcAt(Apply(s, step), w).Idle?
  {
  }

  /** A worker that finishes after the publication claimed before it: while the source is ready nobody starts. */
  lemma {:induction false} FinisherClaimedBefore(s: State, steps: seq<Step>, k: nat, w: nat)
    requires IsReady(s) && k <= |steps| && NeverWithdrawn(s, steps) && PcAt(s, w).Idle?
    ensures PcAt(Exec(s, steps[..k]), w).Idle?
  {
    hide Apply, PcAt;
    if k > 0 {
      FinisherClaimedBefore(s, steps, k - 1, w);
      StaysUpTo(s, steps, k - 1);
      ExecNext(s, steps, k - 1);
      ReadyAdmitsNoClaim(Exec(s, steps[..k - 1]), steps[k - 1], w);
    }
  }

  predicate NoReindex(steps: seq<Step>) {
    forall k :: 0 <= k < |steps| ==> !steps[k].AskReindex?
  }

  ghost predicate AllIdle(s: State) {
    forall w :: 0 <= w < |s.workers| ==> s.workers[w].Idle?
  }

  lemma {:induction false} QuietStays(s: State, steps: seq<Step>)
    requires IsReady(s) && AllIdle(s) && NoReindex(steps)
    ensures Exec(s, steps).index == s.index && AllIdle(Exec(s, steps))
  {
    if steps != [] {
      QuietStays(s, steps[..|steps| - 1]);
    }
  }

  lemma ExecTwo(s: State, a: Step, b: Step)
    ensures Exec(s, [a]) == Apply(s, a) && Exec(s, [a, b]) == Apply(Apply(s, a), b)
  {
    assert [a][..0] == [] && [a, b][..1] == [a];
  }

  /** The overtaken worker: its publication is refused and its error handler takes the published index back to the
      queue, without signature, its rows left behind. */
  lemma OvertakenWorkerUnpublishes(s: State, w: nat)
    requires IsReady(s) && PcAt(s, w).Publishing?
    ensures var t := Exec(s, [Publish(w), GiveUp(w)]);
            && t.index == Abandon(s.index, STATE_CHANGED)
            && t.index.source.status.Queued? && t.index.source.signature.None? && t.index.rows == s.index.rows
  {
    ExecTwo(s, Publish(w), GiveUp(w));
  }

  lemma ActiveWithdraws(s: State, w: nat) returns (steps: seq<Step>)
    requires IsReady(s) && w < |s.workers| && !s.workers[w].Idle?
    ensures NoReindex(steps) && !IsReady(Exec(s, steps))
  {
    match s.workers[w]
    case Embedding =>
      var why := Failure("knowledge_object_integrity_mismatch", false);
      steps := [Embed(w, Rejected(why)), GiveUp(w)];
      ExecTwo(s, Embed(w, Rejected(why)), GiveUp(w));
    case Publishing(_, _) =>
      steps := [Publish(w), GiveUp(w)];
      OvertakenWorkerUnpublishes(s, w);
    case GivingUp(_) =>
      steps := [GiveUp(w)];
      ExecTwo(s, GiveUp(w), Wait(0));
  }

  /** Publication is final, short of a reindex, exactly when no other worker is still at the source. */
  lemma PublicationIsFinalExactly(s: State)
    requires IsReady(s)
    ensures (forall steps :: NoReindex(steps) ==> Exec(s, steps).index == s.index) <==> AllIdle(s)
  {
    hide Exec, Apply;
    if AllIdle(s) {
      forall steps | NoReindex(steps) ensures Exec(s, steps).index == s.index { QuietStays(s, steps); }
    }
    if w :| 0 <= w < |s.workers| && !s.workers[w].Idle? {
      var steps := ActiveWithdraws(s, w);
    }
  }

  // ---------------------------------------------------------------- a run that unpublishes

  lemma TakeoverOfStale(s: State, w: nat)
    requires w < |s.workers| && s.workers[w].Idle? && s.index.source.status.Processing? && s.index.source.error.None?
    requires s.index.source.updatedAt < s.clock - STALE_AFTER
    ensures TakeStep(s, w) == Go(s, w, Embedding)
  {
  }

  lemma {:induction false} ExecConcat(s: State, a: seq<Step>, b: seq<Step>)
    ensures Exec(s, a + b) == Exec(Exec(s, a), b)
  {
    hide Apply;
    if b == [] {
      assert a + b == a;
    } else {
      ExecConcat(s, a, b[..|b| - 1]);
      assert (a + b)[..|a + b| - 1] == a + b[..|b| - 1];
    }
  }

  /** Two workers are embedding: the second took over after the first went stale. */
  lemma BothEmbedding() returns (steps: seq<Step>, s: State)
    ensures s == Exec(Initial(2), steps) && NoReindex(steps)
    ensures s.workers == [Embedding, Embedding] && s.index.source.status.Processing?
  {
    var first, second := [Take(0), Wait(STALE_AFTER + 1)], [Take(1)];
    ExecTwo(Initial(2), Take(0), Wait(STALE_AFTER + 1));
    var t := Apply(Apply(Initial(2), Take(0)), Wait(STALE_AFTER + 1));
    assert t.workers == [Embedding, Idle];
    ExecConcat(Initial(2), first, second);
    ExecTwo(t, Take(1), Wait(0));
    TakeoverOfStale(t, 1);
    steps, s := first + second, Go(t, 1, Embedding);
  }

  /** A run without a reindex in which the second worker publishes and the first, which claimed before, finishes after
      it: the source is ready and then queued again, for the reason the first worker's own publication was refused. */
  lemma ReadyThenQueued(signature: Signature, embedded: seq<Embedded>) returns (before: seq<Step>, after: seq<Step>)
    requires IsPublishable(signature, embedded)
    ensures NoReindex(before + after)
    ensures var s := Exec(Initial(2), before); IsReady(s) && s.index.rows == Rows(signature, embedded)
    ensures var t := Exec(Initial(2), before + after);
            t.index.source.status.Queued? && t.index.source.error == Some(STATE_CHANGED.code)
  {
    hide Exec, Rows;
    var start, a := BothEmbedding();
    var result := Indexed(signature, embedded);
    ExecTwo(a, Embed(0, result), Embed(1, result));
    var b := Apply(Apply(a, Embed(0, result)), Embed(1, result));
    assert b.index == a.index && b.workers == [Publishing(signature, embedded), Publishing(signature, embedded)];
    ExecTwo(b, Publish(1), Wait(0));
    var c := Apply(b, Publish(1));
    assert IsReady(c) && c.workers[0] == Publishing(signature, embedded);
    ExecConcat(Initial(2), start, [Embed(0, result), Embed(1, result)]);
    before := start + [Embed(0, result), Embed(1, result)] + [Publish(1)];
    ExecConcat(Initial(2), start + [Embed(0, result), Embed(1, result)], [Publish(1)]);
    OvertakenWorkerUnpublishes(c, 0);
    after := [Publish(0), GiveUp(0)];
    ExecConcat(Initial(2), before, after);
  }

  // ---------------------------------------------------------------- one worker at a time

  /** Somebody claimed the source, the claim is fresh, and every other claim is refused until it goes stale. */
  ghost predicate IsFresh(s: State) {
    s.index.source.status.Processing? && s.clock <= s.index.source.updatedAt + 900
  }

  /** A claim of a queued source makes it fresh. */
  lemma ClaimIsFresh(s: State, w: nat)
    requires w < |s.workers| && s.workers[w].Idle? && s.index.source.status.Queued?
    ensures var t := Apply(s, Take(w));
            PcAt(t, w).Embedding? && IsFresh(t) && t.index.source.updatedAt == s.clock
  {
  }

  /** While a claim is fresh, no idle worker starts. */
  lemma FreshClaimExcludes(s: State, w: nat)
    requires IsFresh(s) && w < |s.workers| && s.workers[w].Idle?
    ensures Apply(s, Take(w)) == s
    ensures Claim(s.index, s.clock) == (s.index, Err("knowledge_source_busy"))
  {
  }

  /** A worker starts exactly when the source is queued, or has been processing for more than fifteen minutes. */
  lemma StartsExactly(s: State, w: nat)
    requires w < |s.workers| && s.workers[w].Idle?
    ensures PcAt(Apply(s, Take(w)), w).Embedding?
            <==> s.index.source.status.Queued?
                 || (s.index.source.status.Processing? && s.clock > s.index.source.updatedAt + 900)
  {
  }

  function TimeSpent(steps: seq<Step>): nat {
    if steps == [] then 0
    else TimeSpent(steps[..|steps| - 1]) + if steps[|steps| - 1].Wait? then steps[|steps| - 1].elapsed else 0
  }

  /** Nobody publishes or gives up. */
  predicate NobodyFinishes(steps: seq<Step>) {
    forall k :: 0 <= k < |steps| ==> !steps[k].Publish? && !steps[k].GiveUp?
  }

  /** From a claim on, for fifteen minutes and as long as nobody finishes, the claimant has the source to itself: whoever
      was idle stays idle, whatever is asked and whoever dies, and a reindex is refused. */
  lemma {:induction false} ClaimExcludes(s: State, steps: seq<Step>, w: nat)
    requires IsFresh(s) && PcAt(s, w).Idle? && NobodyFinishes(steps)
    requires s.clock + TimeSpent(steps) <= s.index.source.updatedAt + 900
    ensures var t := Exec(s, steps);
            PcAt(t, w).Idle? && t.index == s.index && t.clock == s.clock + TimeSpent(steps)
  {
    hide Apply;
    if steps != [] {
      var init := steps[..|steps| - 1];
      ClaimExcludes(s, init, w);
      FreshStep(Exec(s, init), steps[|steps| - 1], w);
    }
  }

  lemma FreshStep(s: State, step: Step, w: nat)
    requires IsFresh(s) && PcAt(s, w).Idle? && !step.Publish? && !step.GiveUp?
    ensures var t := Apply(s, step);
            PcAt(t, w).Idle? && t.index == s.index && t.clock == s.clock + if step.Wait? then step.elapsed else 0
  {
  }

  /** A reindex is refused while a worker is at it; otherwise the source is queued again with its rows, their count and
      their signature. */
  lemma ReindexKeepsRows(s: State)
    ensures var t := Apply(s, AskReindex);
            && t.workers == s.workers && t.clock == s.clock && t.index.rows == s.index.rows
            && t.index.source.chunkCount == s.index.source.chunkCount && t.index.source.signature == s.index.source.signature
            && (s.index.source.status.Processing? ==> t == s)
            && (!s.index.source.status.Processing? ==> t.index.source.status.Queued? && t.index.source.error.None?)
  {
  }

  /** A worker that gives up leaves its reason: the source waits for another try exactly when the failure may be retried,
      and it has no signature any more. */
  lemma GiveUpTells(s: State, w: nat)
    requires PcAt(s, w).GivingUp?
    ensures var t := Apply(s, GiveUp(w));
            && PcAt(t, w).Idle? && t.index.source.error == Some(PcAt(s, w).why.code) && t.index.source.signature.None?
            && t.index.rows == s.index.rows
            && t.index.source.status == if PcAt(s, w).why.retryable then Queued else Failed
  {
  }
}
