/** Which facts share a place in a customer's memory, which live side by side, and where each of them comes from. */
module MemoryKeys {
  import opened Outcomes
  import opened MemoryMerge

  // ---------------------------------------------------------------- one place, or one for each value

  /** Of these a contact has one at a time; of the others one for each value, up to case. */
  predicate IsOnePerContact(category: Category) {
    category == PreferredLanguage || category == DetailLevel || category == LifecycleStatus
  }

  /** The active items are stored under the place their category and value ask for. */
  ghost predicate KeysFit(items: seq<Item>) {
    forall i :: 0 <= i < |items| && !items[i].isDeleted ==>
      items[i].key.dedupe == if IsOnePerContact(items[i].key.category) then Singleton else OfValue(items[i].content.folded)
  }

  /** Active items of one contact and category: never two of a category there is one of, and otherwise of different
      values. */
  ghost predicate NoneTwice(items: seq<Item>) {
    forall i, j :: 0 <= i < j < |items| && !items[i].isDeleted && !items[j].isDeleted
                   && items[i].key.contact == items[j].key.contact && items[i].key.category == items[j].key.category
                   ==> !IsOnePerContact(items[i].key.category) && items[i].content.folded != items[j].content.folded
  }

  lemma MergeOneKeepsFit(items: seq<Item>, m: Message, c: Candidate)
    requires KeysFit(items)
    ensures KeysFit(MergeOne(items, m, c).0)
  {
  }

  lemma {:induction false} MergeAllKeepsFit(items: seq<Item>, m: Message, candidates: seq<Candidate>)
    requires KeysFit(items)
    ensures KeysFit(MergeAll(items, m, candidates).0)
  {
    hide MergeOne, KeysFit;
    if candidates != [] {
      var n := |candidates| - 1;
      MergeAllKeepsFit(items, m, candidates[..n]);
      MergeOneKeepsFit(MergeAll(items, m, candidates[..n]).0, m, candidates[n]);
    }
  }

  lemma {:induction false} RunKeepsFit(s: State, messages: seq<Message>)
    requires KeysFit(s.items)
    ensures KeysFit(Run(s, messages).items)
  {
    hide KeysFit, MergeAll;
    if messages != [] {
      var n := |messages| - 1;
      RunKeepsFit(s, messages[..n]);
      MergeAllKeepsFit(Run(s, messages[..n]).items, messages[n], messages[n].candidates);
    }
  }

  lemma FitsOnce(items: seq<Item>)
    requires OneActive(items) && KeysFit(items)
    ensures NoneTwice(items)
  {
  }

  /** Over any run a contact has at most one language, one level of detail and one stage at a time, and never two active
      items of another category with the same value. */
  lemma RunKeepsNoneTwice(s: State, messages: seq<Message>)
    requires OneActive(s.items) && KeysFit(s.items)
    ensures NoneTwice(Run(s, messages).items)
  {
    RunKeepsOneActive(s, messages);
    RunKeepsFit(s, messages);
    FitsOnce(Run(s, messages).items);
  }

  // ---------------------------------------------------------------- everything said is remembered

  /** Some active item of the contact and category; of a category with many, one of this value. */
  ghost predicate Remembers(items: seq<Item>, contact: Id, category: Category, folded: string) {
    exists i :: 0 <= i < |items| && RemembersAt(items[i], contact, category, folded)
  }

  predicate RemembersAt(item: Item, contact: Id, category: Category, folded: string) {
    && !item.isDeleted && item.key.contact == contact && item.key.category == category
    && (!IsOnePerContact(category) ==> item.content.folded == folded)
  }

  lemma MergeOneRemembers(items: seq<Item>, m: Message, c: Candidate)
    requires KeysFit(items)
    ensures Remembers(MergeOne(items, m, c).0, m.contact, c.category, c.folded)
  {
    var after := MergeOne(items, m, c).0;
    var found := Find(items, KeyOf(m, c));
    var at := if found.Some? then found.value else |items|;
    assert RemembersAt(after[at], m.contact, c.category, c.folded);
  }

  lemma MergeOneStillRemembers(items: seq<Item>, m: Message, c: Candidate, contact: Id, category: Category, folded: string)
    requires KeysFit(items) && Remembers(items, contact, category, folded)
    ensures Remembers(MergeOne(items, m, c).0, contact, category, folded)
  {
    var after := MergeOne(items, m, c).0;
    var i :| 0 <= i < |items| && RemembersAt(items[i], contact, category, folded);
    assert RemembersAt(after[i], contact, category, folded);
  }

  lemma {:induction false} MergeAllStillRemembers(items: seq<Item>, m: Message, candidates: seq<Candidate>, contact: Id,
                                                  category: Category, folded: string)
    requires KeysFit(items) && Remembers(items, contact, category, folded)
    ensures Remembers(MergeAll(items, m, candidates).0, contact, category, folded)
  {
    hide MergeOne, KeysFit, Remembers;
    if candidates != [] {
      var n := |candidates| - 1;
      MergeAllKeepsFit(items, m, candidates[..n]);
      MergeAllStillRemembers(items, m, candidates[..n], contact, category, folded);
      MergeOneStillRemembers(MergeAll(items, m, candidates[..n]).0, m, candidates[n], contact, category, folded);
    }
  }

  lemma {:induction false} MergeAllRemembers(items: seq<Item>, m: Message, candidates: seq<Candidate>, k: nat)
    requires KeysFit(items) && k < |candidates|
    ensures Remembers(MergeAll(items, m, candidates).0, m.contact, candidates[k].category, candidates[k].folded)
  {
    hide MergeOne, KeysFit, Remembers;
    var n := |candidates| - 1;
    var before := MergeAll(items, m, candidates[..n]).0;
    MergeAllKeepsFit(items, m, candidates[..n]);
    if k < n {
      MergeAllRemembers(items, m, candidates[..n], k);
      MergeOneStillRemembers(before, m, candidates[n], m.contact, candidates[k].category, candidates[k].folded);
    } else {
      MergeOneRemembers(before, m, candidates[n]);
    }
  }

  /** Whatever a message of a run says is in memory at the end: an active item of its category, and of that very value
      where a contact may have several. Nothing said later pushes it out. */
  lemma {:induction false} RunRemembers(s: State, messages: seq<Message>, i: nat, k: nat)
    requires KeysFit(s.items) && i < |messages| && messages[i].id !in s.extracted && k < |messages[i].candidates|
    requires forall j :: 0 <= j < i ==> messages[j].id != messages[i].id
    ensures var c := messages[i].candidates[k];
            Remembers(Run(s, messages).items, messages[i].contact, c.category, c.folded)
  {
    hide MergeAll, KeysFit, Remembers;
    var n := |messages| - 1;
    var c := messages[i].candidates[k];
    RunKeepsFit(s, messages[..n]);
    if i < n {
      RunRemembers(s, messages[..n], i, k);
      MergeAllStillRemembers(Run(s, messages[..n]).items, messages[n], messages[n].candidates, messages[i].contact,
                             c.category, c.folded);
    } else {
      RunExtracted(s, messages[..n], messages[n].id);
      MergeAllRemembers(Run(s, messages[..n]).items, messages[n], messages[n].candidates, k);
    }
  }

  // ---------------------------------------------------------------- where an item comes from

  function Lifetime(category: Category): nat {
    if category == ProductInterest then 90
    else if category == LifecycleStatus then 30
    else if category == Resolution then 365
    else 180
  }

  /** The item repeats what a candidate of the message says, from the time of the message until its days are over. */
  ghost predicate SaidIn(m: Message, item: Item) {
    && item.key.contact == m.contact
    && item.content.source == FromMessage(m.id, m.conversation) && item.content.observedAt == m.occurredAt
    && item.content.expiresAt == m.occurredAt + Lifetime(item.key.category) * 86_400
    && exists k :: 0 <= k < |m.candidates| && Says(m.candidates[k], item)
  }

  predicate Says(c: Candidate, item: Item) {
    && c.category == item.key.category && c.value == item.content.value && c.folded == item.content.folded
    && c.kind == item.content.kind && c.confidence == item.content.confidence
  }

  ghost predicate IsOld(before: seq<Item>, after: seq<Item>, i: nat)
    requires i < |after|
  {
    i < |before| && after[i] == before[i]
  }

  ghost predicate AllOldOrSaid(before: seq<Item>, after: seq<Item>, m: Message) {
    forall i :: 0 <= i < |after| ==> IsOld(before, after, i) || SaidIn(m, after[i])
  }

  lemma MergeOneSays(items: seq<Item>, m: Message, c: Candidate, k: nat, i: nat)
    requires k < |m.candidates| && m.candidates[k] == c && i < |MergeOne(items, m, c).0|
    ensures IsOld(items, MergeOne(items, m, c).0, i) || SaidIn(m, MergeOne(items, m, c).0[i])
  {
    var after := MergeOne(items, m, c).0;
    if !IsOld(items, after, i) { assert Says(m.candidates[k], after[i]); }
  }

  lemma {:induction false} MergeAllSays(items: seq<Item>, m: Message, n: nat)
    requires n <= |m.candidates|
    ensures AllOldOrSaid(items, MergeAll(items, m, m.candidates[..n]).0, m)
  {
    hide MergeOne, SaidIn;
    if n > 0 {
      MergeAllSays(items, m, n - 1);
      var before := MergeAll(items, m, m.candidates[..n - 1]).0;
      var after := MergeAll(items, m, m.candidates[..n]).0;
      assert m.candidates[..n][..n - 1] == m.candidates[..n - 1];
      forall i | 0 <= i < |after| ensures IsOld(items, after, i) || SaidIn(m, after[i]) {
        MergeOneSays(before, m, m.candidates[n - 1], n - 1, i);
        if IsOld(before, after, i) { assert IsOld(items, before, i) || SaidIn(m, before[i]); }
      }
    }
  }

  /** An item at the end of a run was there from the start, or a message of the run says it: value, evidence, confidence,
      source, time and expiry are those of the message. */
  lemma {:induction false} ItemWasSaid(s: State, messages: seq<Message>, i: nat)
    requires i < |Run(s, messages).items|
    ensures IsOld(s.items, Run(s, messages).items, i)
            || exists n :: 0 <= n < |messages| && messages[n].id !in s.extracted && SaidIn(messages[n], Run(s, messages).items[i])
  {
    hide MergeAll, SaidIn;
    if messages != [] {
      var n := |messages| - 1;
      var before := Run(s, messages[..n]);
      var m := messages[n];
      assert m.candidates[..|m.candidates|] == m.candidates;
      MergeAllSays(before.items, m, |m.candidates|);
      RunExtracted(s, messages[..n], m.id);
      if IsOld(before.items, Run(s, messages).items, i) {
        ItemWasSaid(s, messages[..n], i);
        if !IsOld(s.items, before.items, i) {
          var k :| 0 <= k < n && messages[..n][k].id !in s.extracted && SaidIn(messages[..n][k], before.items[i]);
          assert messages[k].id !in s.extracted && SaidIn(messages[k], Run(s, messages).items[i]);
        }
      }
    }
  }

  // ---------------------------------------------------------------- how many were written

  /** The candidates whose place is free: no item there, or one that is neither a person's nor newer. */
  function FreeFor(items: seq<Item>, m: Message, candidates: seq<Candidate>): nat {
    if candidates == [] then 0
    else
      FreeFor(items, m, candidates[..|candidates| - 1])
      + if Yields(Lookup(items, KeyOf(m, candidates[|candidates| - 1])), m) then 1 else 0
  }

  /** An extraction writes every candidate whose place was free before the message: candidates of one message never stand
      in each other's way. A message already extracted writes none. */
  lemma {:induction false} WritesFree(items: seq<Item>, m: Message, candidates: seq<Candidate>)
    ensures MergeAll(items, m, candidates).1 == FreeFor(items, m, candidates)
  {
    hide Lookup, KeyOf;
    if candidates != [] {
      var n := |candidates| - 1;
      var before := MergeAll(items, m, candidates[..n]).0;
      var key := KeyOf(m, candidates[n]);
      WritesFree(items, m, candidates[..n]);
      MergeAllLookup(items, m, candidates[..n], key);
      LastForIsOfMessage(m, candidates[..n], key);
      OneIsWritten(before, m, candidates[n]);
    }
  }

  lemma OneIsWritten(items: seq<Item>, m: Message, c: Candidate)
    ensures MergeOne(items, m, c).1 == if Yields(Lookup(items, KeyOf(m, c)), m) then 1 else 0
  {
  }

  /** Writing a candidate keeps an item verified exactly when it was verified and says the same, up to case, with the same
      kind of evidence. */
  lemma VerifiedExactly(items: seq<Item>, m: Message, c: Candidate, i: nat)
    requires i < |items|
    ensures var after := MergeOne(items, m, c).0;
            i < |after|
            && (after[i].isVerified <==> items[i].isVerified && after[i].content.folded == items[i].content.folded
                                         && after[i].content.kind == items[i].content.kind)
  {
  }
}
