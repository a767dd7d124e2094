/** The versions of one prompt: drafted, published, archived. Every change is made under the prompt's lock. */
module PromptHistory {
  import opened Outcomes

  datatype Status = Draft | Published | Archived
  datatype Version = Version(version: nat, status: Status, content: string, publishedAt: Option<int>)

  // ---------------------------------------------------------------- the operations

  /** The row of a status: the queries for the draft and for the published version. */
  function Find(versions: seq<Version>, status: Status): (at: Option<nat>)
    ensures at.Some? ==> at.value < |versions| && versions[at.value].status == status
  {
    if versions == [] then None
    else if versions[|versions| - 1].status == status then Some(|versions| - 1)
    else Find(versions[..|versions| - 1], status)
  }

  function MaxVersion(versions: seq<Version>): nat {
    if versions == [] then 0
    else
      var before := MaxVersion(versions[..|versions| - 1]);
      var last := versions[|versions| - 1].version;
      if last > before then last else before
  }

  function Create(content: string): seq<Version> {
    [Version(1, Draft, content, None)]
  }

  /** put_prompt_draft. */
  function PutDraft(versions: seq<Version>, content: string): seq<Version> {
    var draft := Find(versions, Draft);
    if draft.None? then versions + [Version(MaxVersion(versions) + 1, Draft, content, None)]
    else versions[draft.value := versions[draft.value].(content := content)]
  }

  /** publish_prompt: refused without a draft. */
  function Publish(versions: seq<Version>, now: int): Result<seq<Version>> {
    var draft := Find(versions, Draft);
    if draft.None? then Err("Prompt has no draft")
    else
      var published := Find(versions, Published);
      var archived := if published.None? then versions
                      else versions[published.value := versions[published.value].(status := Archived)];
      Ok(archived[draft.value := archived[draft.value].(status := Published, publishedAt := Some(now))])
  }

  class PromptTable {
    var versions: seq<Version>

    constructor (content: string)
      ensures versions == Create(content)
    {
      versions := [Version(1, Draft, content, None)];
    }

    method PutPromptDraft(content: string)
      modifies this
      ensures versions == PutDraft(old(versions), content)
    {
      var draft := Find(versions, Draft);
      if draft.None? {
        var maxVersion := MaxVersion(versions);
        versions := versions + [Version(maxVersion + 1, Draft, content, None)];
      } else {
        versions := versions[draft.value := versions[draft.value].(content := content)];
      }
    }

    method PublishPrompt(now: int) returns (ok: bool)
      modifies this
      ensures ok == Publish(old(versions), now).Ok?
      ensures versions == if ok then Publish(old(versions), now).value else old(versions)
    {
      var draft := Find(versions, Draft);
      if draft.None? { return false; }
      var published := Find(versions, Published);
      if published.Some? {
        versions := versions[published.value := versions[published.value].(status := Archived)];
      }
      versions := versions[draft.value := versions[draft.value].(status := Published, publishedAt := Some(now))];
      return true;
    }
  }

  // ---------------------------------------------------------------- histories

  datatype Step = Edit(content: string) | Release(now: int)

  function Apply(versions: seq<Version>, step: Step): seq<Version> {
    match step
    case Edit(content) => PutDraft(versions, content)
    case Release(now) => if Publish(versions, now).Ok? then Publish(versions, now).value else versions
  }

  function History(versions: seq<Version>, steps: seq<Step>): seq<Version> {
    if steps == [] then versions else Apply(History(versions, steps[..|steps| - 1]), steps[|steps| - 1])
  }

  /** Versions are 1..n in order; all but the last two are archived; the last one, or the one before a final draft, is
      published. */
  ghost predicate Inv(versions: seq<Version>) {
    && versions != []
    && (forall i :: 0 <= i < |versions| ==> versions[i].version == i + 1)
    && (forall i :: 0 <= i < |versions| ==> (versions[i].status.Draft? <==> versions[i].publishedAt.None?))
    && var n := |versions| - 1;
       && (forall i :: 0 <= i < n - 1 ==> versions[i].status.Archived?)
       && (if versions[n].status.Draft? then n > 0 ==> versions[n - 1].status.Published?
           else versions[n].status.Published? && (n > 0 ==> versions[n - 1].status.Archived?))
  }

  /** What was published once keeps its content and date, and is never a draft again. */
  predicate IsFrozen(a: Version, b: Version) {
    && a.version == b.version
    && (!a.status.Draft? ==> b.content == a.content && b.publishedAt == a.publishedAt && !b.status.Draft?)
    && (a.status.Archived? ==> b.status.Archived?)
  }

  ghost predicate Preserves(before: seq<Version>, after: seq<Version>) {
    |before| <= |after| && forall i :: 0 <= i < |before| ==> IsFrozen(before[i], after[i])
  }

  lemma {:induction false} FindIs(versions: seq<Version>, status: Status)
    ensures Find(versions, status).None? ==> forall i :: 0 <= i < |versions| ==> versions[i].status != status
    ensures Find(versions, status).Some?
            ==> forall i :: Find(versions, status).value < i < |versions| ==> versions[i].status != status
  {
    if versions != [] { FindIs(versions[..|versions| - 1], status); }
  }

  lemma {:induction false} MaxIs(versions: seq<Version>)
    requires forall i :: 0 <= i < |versions| ==> versions[i].version == i + 1
    ensures MaxVersion(versions) == |versions|
  {
    if versions != [] { MaxIs(versions[..|versions| - 1]); }
  }

  lemma ApplyKeeps(versions: seq<Version>, step: Step)
    requires Inv(versions)
    ensures Inv(Apply(versions, step)) && Preserves(versions, Apply(versions, step))
  {
    hide Find, MaxVersion;
    FindIs(versions, Draft);
    FindIs(versions, Published);
    MaxIs(versions);
  }

  lemma {:induction false} HistoryKeeps(versions: seq<Version>, steps: seq<Step>)
    requires Inv(versions)
    ensures Inv(History(versions, steps)) && Preserves(versions, History(versions, steps))
  {
    hide Apply;
    if steps != [] {
      var before := History(versions, steps[..|steps| - 1]);
      HistoryKeeps(versions, steps[..|steps| - 1]);
      ApplyKeeps(before, steps[|steps| - 1]);
      forall i | 0 <= i < |versions| ensures IsFrozen(versions[i], History(versions, steps)[i]) {
        assert IsFrozen(versions[i], before[i]) && IsFrozen(before[i], History(versions, steps)[i]);
      }
    }
  }

  /** Of every prompt: versions 1..n; at most one draft, and it is n; at most one published version, and it is the
      largest that is not a draft. */
  lemma PromptShape(content: string, steps: seq<Step>, i: nat)
    requires i < |History(Create(content), steps)|
    ensures var versions := History(Create(content), steps);
            && versions[i].version == i + 1
            && (versions[i].status.Draft? ==> i + 1 == |versions|)
            && (versions[i].status.Published?
                <==> !versions[i].status.Draft? && forall j :: i < j < |versions| ==> versions[j].status.Draft?)
  {
    HistoryKeeps(Create(content), steps);
  }

  /** A run pins the version that is published when it is created, and reads that same text at every later load. */
  lemma PinnedPromptStays(content: string, steps: seq<Step>, later: seq<Step>, pinned: nat)
    requires var versions := History(Create(content), steps);
             pinned < |versions| && versions[pinned].status.Published?
    ensures var versions := History(Create(content), steps);
            var after := History(versions, later);
            pinned < |after| && after[pinned].content == versions[pinned].content && !after[pinned].status.Draft?
  {
    HistoryKeeps(Create(content), steps);
    HistoryKeeps(History(Create(content), steps), later);
    assert IsFrozen(History(Create(content), steps)[pinned], History(History(Create(content), steps), later)[pinned]);
  }

  lemma PublishIs(versions: seq<Version>, now: int)
    requires Inv(versions) && Publish(versions, now).Ok?
    ensures var after := Publish(versions, now).value;
            var n := |versions| - 1;
            && versions[n].status.Draft? && |after| == |versions|
            && after[n] == versions[n].(status := Published, publishedAt := Some(now))
            && forall i :: 0 <= i < n ==> after[i].status.Archived? && after[i].content == versions[i].content
  {
    hide Find;
    FindIs(versions, Draft);
    FindIs(versions, Published);
  }

  /** Publishing makes the draft's text the only published one; every earlier version is archived with its text. */
  lemma PublishReplaces(content: string, steps: seq<Step>, now: int)
    requires Publish(History(Create(content), steps), now).Ok?
    ensures var versions := History(Create(content), steps);
            var after := Publish(versions, now).value;
            var n := |versions| - 1;
            && versions[n].status.Draft? && |after| == |versions| && after[n].content == versions[n].content
            && Find(after, Published) == Some(n) && Find(after, Draft) == None
            && forall i :: 0 <= i < n ==> after[i].status.Archived? && after[i].content == versions[i].content
  {
    hide Find, Inv, History, Publish;
    var versions := History(Create(content), steps);
    assert Inv(Create(content)) by { CreateIsInv(content); }
    HistoryKeeps(Create(content), steps);
    PublishIs(versions, now);
    var after := Publish(versions, now).value;
    FindIs(after, Published);
    FindIs(after, Draft);
  }

  lemma CreateIsInv(content: string)
    ensures Inv(Create(content))
  {
  }

  /** An edit leaves one draft, the last version, with the text it was given: the draft that was there, or a new version
      with the next number. Every other version stays as it is. */
  lemma EditIs(content: string, steps: seq<Step>, text: string)
    ensures var before := History(Create(content), steps);
            var after := History(Create(content), steps + [Edit(text)]);
            var n := if before != [] && before[|before| - 1].status.Draft? then |before| - 1 else |before|;
            && before != [] && |after| == n + 1 && after[n] == Version(n + 1, Draft, text, None)
            && forall i :: 0 <= i < n ==> after[i] == before[i]
  {
    hide Find, MaxVersion, Inv;
    var before := History(Create(content), steps);
    assert (steps + [Edit(text)])[..|steps|] == steps;
    CreateIsInv(content);
    HistoryKeeps(Create(content), steps);
    InvShape(before);
    FindIs(before, Draft);
    MaxIs(before);
  }

  lemma InvShape(versions: seq<Version>)
    requires Inv(versions)
    ensures versions != [] && forall i :: 0 <= i < |versions| ==> versions[i].version == i + 1
    ensures forall i :: 0 <= i < |versions| - 1 ==> !versions[i].status.Draft?
    ensures forall i :: 0 <= i < |versions| ==> (versions[i].status.Draft? <==> versions[i].publishedAt.None?)
  {
  }

  /** What is published is the text edited last: an edit and a release, whatever came before. */
  lemma LastEditIsPublished(content: string, steps: seq<Step>, text: string, now: int)
    ensures var after := History(Create(content), steps + [Edit(text)] + [Release(now)]);
            && after != [] && after[|after| - 1] == Version(|after|, Published, text, Some(now))
            && forall i :: 0 <= i < |after| - 1 ==> after[i].status.Archived?
  {
    hide Find, MaxVersion, Inv, Publish;
    var edited := steps + [Edit(text)];
    assert (edited + [Release(now)])[..|edited|] == edited;
    EditIs(content, steps, text);
    CreateIsInv(content);
    HistoryKeeps(Create(content), edited);
    DraftIsPublished(History(Create(content), edited), now);
    PublishIs(History(Create(content), edited), now);
  }

  lemma DraftIsPublished(versions: seq<Version>, now: int)
    requires versions != [] && versions[|versions| - 1].status.Draft?
    ensures Publish(versions, now).Ok?
  {
    FindIs(versions, Draft);
  }
}
