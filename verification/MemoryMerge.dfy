/** Customer memory: merging what a message says into the active items of its contact. */
module MemoryMerge {
  import opened Outcomes

  type Id = nat
  const DAY := 86_400

  datatype Category = PreferredLanguage | DetailLevel | ProductInterest | LifecycleStatus | Issue | Resolution
  datatype Kind = Fact | Inference
  datatype Source = Manual | FromMessage(message: Id, conversation: Id)

  /** `folded` is the case-folded value, whose digest is the dedupe key of a category that is not a singleton. */
  datatype Candidate = Candidate(category: Category, value: string, folded: string, kind: Kind, confidence: real)
  datatype DedupeKey = Singleton | OfValue(folded: string)
  datatype Key = Key(contact: Id, category: Category, dedupe: DedupeKey)
  datatype Content = Content(value: string, folded: string, kind: Kind, confidence: real, source: Source,
                             observedAt: int, expiresAt: int)
  datatype Item = Item(key: Key, content: Content, isVerified: bool, isDeleted: bool)
  datatype Message = Message(id: Id, contact: Id, conversation: Id, occurredAt: int, candidates: seq<Candidate>)

  predicate IsSingleton(category: Category) {
    category.PreferredLanguage? || category.DetailLevel? || category.LifecycleStatus?
  }

  function TtlDays(category: Category): nat {
    match category
    case PreferredLanguage | DetailLevel | Issue => 180
    case ProductInterest => 90
    case LifecycleStatus => 30
    case Resolution => 365
  }

  /** memory_dedupe_key. */
  function DedupeKeyOf(category: Category, folded: string): DedupeKey {
    if IsSingleton(category) then Singleton else OfValue(folded)
  }

  function KeyOf(m: Message, c: Candidate): Key {
    Key(m.contact, c.category, DedupeKeyOf(c.category, c.folded))
  }

  function ContentOf(m: Message, c: Candidate): Content {
    Content(c.value, c.folded, c.kind, c.confidence, FromMessage(m.id, m.conversation), m.occurredAt,
            m.occurredAt + TtlDays(c.category) * DAY)
  }

  // ---------------------------------------------------------------- the merge

  predicate IsActive(item: Item, key: Key) {
    item.key == key && !item.isDeleted
  }

  /** The active item of a key: the query of the merge loop. */
  function Find(items: seq<Item>, key: Key): (at: Option<nat>)
    ensures at.Some? ==> at.value < |items| && IsActive(items[at.value], key)
  {
    if items == [] then None
    else if IsActive(items[|items| - 1], key) then Some(|items| - 1)
    else Find(items[..|items| - 1], key)
  }

  function Overwrite(existing: Item, m: Message, c: Candidate): Item {
    var keeps := existing.content.folded == c.folded && existing.content.kind == c.kind;
    existing.(content := ContentOf(m, c), isVerified := existing.isVerified && keeps)
  }

  function MergeOne(items: seq<Item>, m: Message, c: Candidate): (seq<Item>, nat) {
    var found := Find(items, KeyOf(m, c));
    if found.None? then (items + [Item(KeyOf(m, c), ContentOf(m, c), false, false)], 1)
    else
      var existing := items[found.value];
      if existing.content.source.Manual? || existing.content.observedAt > m.occurredAt then (items, 0)
      else (items[found.value := Overwrite(existing, m, c)], 1)
  }

  /** The candidates in order; how many were written. */
  function MergeAll(items: seq<Item>, m: Message, candidates: seq<Candidate>): (seq<Item>, nat) {
    if candidates == [] then (items, 0)
    else
      var n := |candidates| - 1;
      var (before, written) := MergeAll(items, m, candidates[..n]);
      var (after, more) := MergeOne(before, m, candidates[n]);
      (after, written + more)
  }

  /** The memory tables: the items, and the messages already extracted. */
  datatype State = State(items: seq<Item>, extracted: set<Id>)

  function Extract(s: State, m: Message): (State, nat) {
    if m.id in s.extracted then (s, 0)
    else
      var (items, written) := MergeAll(s.items, m, m.candidates);
      (State(items, s.extracted + {m.id}), written)
  }

  function Run(s: State, messages: seq<Message>): State {
    if messages == [] then s else Extract(Run(s, messages[..|messages| - 1]), messages[|messages| - 1]).0
  }

  /** extract_customer_memory_from_event, after the model has answered. */
  class MemoryStore {
    var items: seq<Item>
    var extracted: set<Id>

    ghost function Contents(): State
      reads this
    {
      State(items, extracted)
    }

    method ExtractMessage(m: Message) returns (written: nat)
      modifies this
      ensures (Contents(), written) == Extract(old(Contents()), m)
    {
      hide Find, Overwrite, KeyOf, ContentOf;
      written := 0;
      if m.id in extracted { return; }
      ghost var start := items;
      for k := 0 to |m.candidates|
        invariant (items, written) == MergeAll(start, m, m.candidates[..k])
        invariant extracted == old(extracted)
      {
        assert m.candidates[..k + 1][..k] == m.candidates[..k];
        var c := m.candidates[k];
        var found := Find(items, KeyOf(m, c));
        if found.Some? {
          var existing := items[found.value];
          if existing.content.source.Manual? { continue; }
          if existing.content.observedAt > m.occurredAt { continue; }
          items := items[found.value := Overwrite(existing, m, c)];
        } else {
          items := items + [Item(KeyOf(m, c), ContentOf(m, c), false, false)];
        }
        written := written + 1;
      }
      assert m.candidates[..|m.candidates|] == m.candidates;
      extracted := extracted + {m.id};
    }
  }

  // ---------------------------------------------------------------- one active item for a key

  ghost predicate OneActive(items: seq<Item>) {
    forall i, j :: 0 <= i < j < |items| && !items[i].isDeleted && !items[j].isDeleted ==> items[i].key != items[j].key
  }

  lemma {:induction false} FindsAny(items: seq<Item>, key: Key)
    ensures Find(items, key).None? ==> forall i :: 0 <= i < |items| ==> !IsActive(items[i], key)
  {
    if items != [] && !IsActive(items[|items| - 1], key) {
      FindsAny(items[..|items| - 1], key);
    }
  }

  lemma MergeOneKeeps(items: seq<Item>, m: Message, c: Candidate)
    requires OneActive(items)
    ensures OneActive(MergeOne(items, m, c).0)
  {
    FindsAny(items, KeyOf(m, c));
  }

  lemma {:induction false} MergeAllKeeps(items: seq<Item>, m: Message, candidates: seq<Candidate>)
    requires OneActive(items)
    ensures OneActive(MergeAll(items, m, candidates).0)
  {
    hide MergeOne;
    if candidates != [] {
      var n := |candidates| - 1;
      MergeAllKeeps(items, m, candidates[..n]);
      MergeOneKeeps(MergeAll(items, m, candidates[..n]).0, m, candidates[n]);
    }
  }

  /** Extraction never makes a second active item for a contact, category and dedupe key. */
  lemma {:induction false} RunKeepsOneActive(s: State, messages: seq<Message>)
    requires OneActive(s.items)
    ensures OneActive(Run(s, messages).items)
  {
    if messages != [] {
      var n := |messages| - 1;
      RunKeepsOneActive(s, messages[..n]);
      MergeAllKeeps(Run(s, messages[..n]).items, messages[n], messages[n].candidates);
    }
  }

  // ---------------------------------------------------------------- manual items, verification

  /** Rows stay where they are; manual and deleted rows are untouched; an item is verified only if it was before
      and says the same, up to case, with the same kind of evidence. */
  ghost predicate Respects(before: seq<Item>, after: seq<Item>) {
    && |before| <= |after|
    && (forall i :: 0 <= i < |before| ==> RowRespected(before[i], after[i]))
    && (forall i :: |before| <= i < |after| ==> !after[i].isVerified && !after[i].content.source.Manual?)
  }

  ghost predicate RowRespected(before: Item, after: Item) {
    && after.key == before.key
    && (before.content.source.Manual? || before.isDeleted ==> after == before)
    && (!before.content.source.Manual? ==> !after.content.source.Manual?)
    && after.content.observedAt >= before.content.observedAt
    && (after.isVerified ==> before.isVerified && after.content.folded == before.content.folded
                             && after.content.kind == before.content.kind)
  }

  lemma {:induction false} MergeAllRespects(items: seq<Item>, m: Message, candidates: seq<Candidate>)
    ensures Respects(items, MergeAll(items, m, candidates).0)
  {
    if candidates != [] {
      MergeAllRespects(items, m, candidates[..|candidates| - 1]);
    }
  }

  /** Over a whole run manual items are never overwritten, and nothing becomes verified. */
  lemma {:induction false} RunRespects(s: State, messages: seq<Message>)
    ensures Respects(s.items, Run(s, messages).items)
  {
    if messages != [] {
      var n := |messages| - 1;
      RunRespects(s, messages[..n]);
      MergeAllRespects(Run(s, messages[..n]).items, messages[n], messages[n].candidates);
    }
  }

  // ---------------------------------------------------------------- one key seen as a register

  /** What the active item of a key says. */
  function Lookup(items: seq<Item>, key: Key): Option<Content> {
    var found := Find(items, key);
    if found.None? then None else Some(items[found.value].content)
  }

  /** A later or equally old message may replace the content, unless a person wrote it. */
  predicate Yields(existing: Option<Content>, m: Message) {
    existing.None? || (!existing.value.source.Manual? && existing.value.observedAt <= m.occurredAt)
  }

  lemma {:induction false} FindAfterUpdate(items: seq<Item>, at: nat, item: Item, key: Key)
    requires at < |items| && item.key == items[at].key && item.isDeleted == items[at].isDeleted
    ensures Find(items[at := item], key) == Find(items, key)
  {
    var n := |items| - 1;
    if !IsActive(items[n], key) {
      if at < n {
        FindAfterUpdate(items[..n], at, item, key);
        assert items[at := item][..n] == items[..n][at := item];
      } else {
        assert items[at := item][..n] == items[..n];
      }
    }
  }

  lemma MergeOneLookup(items: seq<Item>, m: Message, c: Candidate, key: Key)
    ensures Lookup(MergeOne(items, m, c).0, key)
         == if key == KeyOf(m, c) && Yields(Lookup(items, key), m) then Some(ContentOf(m, c)) else Lookup(items, key)
  {
    var found := Find(items, KeyOf(m, c));
    if found.Some? {
      FindAfterUpdate(items, found.value, Overwrite(items[found.value], m, c), key);
    } else {
      var more := items + [Item(KeyOf(m, c), ContentOf(m, c), false, false)];
      assert more[..|items|] == items;
    }
  }

  /** The last candidate of a message for a key. */
  function LastFor(m: Message, candidates: seq<Candidate>, key: Key): Option<Content> {
    if candidates == [] then None
    else if KeyOf(m, candidates[|candidates| - 1]) == key then Some(ContentOf(m, candidates[|candidates| - 1]))
    else LastFor(m, candidates[..|candidates| - 1], key)
  }

  lemma {:induction false} LastForIsOfMessage(m: Message, candidates: seq<Candidate>, key: Key)
    ensures var last := LastFor(m, candidates, key);
            last.Some? ==> last.value.observedAt == m.occurredAt && !last.value.source.Manual?
  {
    if candidates != [] { LastForIsOfMessage(m, candidates[..|candidates| - 1], key); }
  }

  /** A message acts on each key separately: its last candidate for the key replaces the content, or nothing does. */
  lemma {:induction false} MergeAllLookup(items: seq<Item>, m: Message, candidates: seq<Candidate>, key: Key)
    ensures Lookup(MergeAll(items, m, candidates).0, key)
         == if LastFor(m, candidates, key).Some? && Yields(Lookup(items, key), m) then LastFor(m, candidates, key)
            else Lookup(items, key)
  {
    hide MergeOne, Lookup, ContentOf, KeyOf;
    if candidates != [] {
      var n := |candidates| - 1;
      MergeAllLookup(items, m, candidates[..n], key);
      LastForIsOfMessage(m, candidates[..n], key);
      MergeOneLookup(MergeAll(items, m, candidates[..n]).0, m, candidates[n], key);
    }
  }

  // ---------------------------------------------------------------- confluence

  /** A message that says something about the key and was not extracted before the run. */
  predicate Speaks(s: State, m: Message, key: Key) {
    m.id !in s.extracted && LastFor(m, m.candidates, key).Some?
  }

  /** `result` is what the messages leave under the key, whatever their order: the newest one that speaks, if it is
      at least as new as the item already there and that is not manual; otherwise what was there. */
  ghost predicate IsOutcome(s: State, messages: seq<Message>, key: Key, result: Option<Content>) {
    var start := Lookup(s.items, key);
    || (result == start && forall i :: 0 <= i < |messages| && Speaks(s, messages[i], key) ==> !Yields(start, messages[i]))
    || (exists w :: 0 <= w < |messages| && IsWinner(s, messages, key, w)
                    && result == LastFor(messages[w], messages[w].candidates, key))
  }

  ghost predicate IsWinner(s: State, messages: seq<Message>, key: Key, w: nat)
    requires w < |messages|
  {
    && Speaks(s, messages[w], key) && Yields(Lookup(s.items, key), messages[w])
    && forall i :: 0 <= i < |messages| && Speaks(s, messages[i], key) ==> messages[i].occurredAt <= messages[w].occurredAt
  }

  /** A message is determined by its id. */
  ghost predicate IdsDetermine(messages: seq<Message>) {
    forall i, j :: 0 <= i < |messages| && 0 <= j < |messages| && messages[i].id == messages[j].id
                   ==> messages[i] == messages[j]
  }

  /** All the newest messages that may set the key say the same under it. */
  ghost predicate WinnersAgree(s: State, messages: seq<Message>, key: Key) {
    forall v, w :: 0 <= v < |messages| && 0 <= w < |messages|
                   && IsWinner(s, messages, key, v) && IsWinner(s, messages, key, w)
                   ==> LastFor(messages[v], messages[v].candidates, key) == LastFor(messages[w], messages[w].candidates, key)
  }

  lemma {:induction false} RunExtracted(s: State, messages: seq<Message>, id: Id)
    ensures id in Run(s, messages).extracted
            <==> id in s.extracted || exists i :: 0 <= i < |messages| && messages[i].id == id
  {
    if messages != [] {
      var n := |messages| - 1;
      RunExtracted(s, messages[..n], id);
      if id in Run(s, messages).extracted && id !in s.extracted {
        if messages[n].id != id {
          var i :| 0 <= i < n && messages[..n][i].id == id;
          assert messages[i].id == id;
        }
      }
      if i :| 0 <= i < |messages| && messages[i].id == id {
        if i < n { assert messages[..n][i].id == id; }
      }
    }
  }

  /** One more message, new to the run. */
  lemma OutcomeStep(s: State, messages: seq<Message>, key: Key, before: Option<Content>)
    requires messages != []
    requires IsOutcome(s, messages[..|messages| - 1], key, before)
    ensures var m := messages[|messages| - 1];
            var last := LastFor(m, m.candidates, key);
            m.id !in s.extracted ==>
              IsOutcome(s, messages, key, if last.Some? && Yields(before, m) then last else before)
  {
    hide Lookup, LastFor;
    var n := |messages| - 1;
    var init, m := messages[..n], messages[n];
    var start := Lookup(s.items, key);
    LastForIsOfMessage(m, m.candidates, key);
    if w :| 0 <= w < n && IsWinner(s, init, key, w) && before == LastFor(init[w], init[w].candidates, key) {
      LastForIsOfMessage(init[w], init[w].candidates, key);
      if m.id !in s.extracted {
        if Speaks(s, m, key) && Yields(before, m) {
          assert IsWinner(s, messages, key, n);
        } else {
          assert IsWinner(s, messages, key, w);
        }
      }
    } else if m.id !in s.extracted {
      if Speaks(s, m, key) && Yields(before, m) {
        assert before == start;
        forall i | 0 <= i < n && Speaks(s, messages[i], key) ensures messages[i].occurredAt <= m.occurredAt {
          assert init[i] == messages[i];
        }
        assert IsWinner(s, messages, key, n);
      } else {
        forall i | 0 <= i < |messages| && Speaks(s, messages[i], key) ensures !Yields(start, messages[i]) {
          if i < n { assert init[i] == messages[i]; }
        }
      }
    }
  }

  /** A repeated message, or one extracted before the run, changes neither the store nor the outcome. */
  lemma OutcomeRepeat(s: State, messages: seq<Message>, key: Key, before: Option<Content>)
    requires messages != [] && IdsDetermine(messages)
    requires IsOutcome(s, messages[..|messages| - 1], key, before)
    requires var m := messages[|messages| - 1];
             m.id in s.extracted || exists i :: 0 <= i < |messages| - 1 && messages[i].id == m.id
    ensures IsOutcome(s, messages, key, before)
  {
    hide Lookup, LastFor;
    var n := |messages| - 1;
    var init := messages[..n];
    forall i | 0 <= i < |messages| && Speaks(s, messages[i], key)
      ensures exists j :: 0 <= j < n && init[j] == messages[i] {
      if i == n {
        var j :| 0 <= j < n && messages[j].id == messages[n].id;
        assert init[j] == messages[i];
      } else {
        assert init[i] == messages[i];
      }
    }
    if w :| 0 <= w < n && IsWinner(s, init, key, w) && before == LastFor(init[w], init[w].candidates, key) {
      assert IsWinner(s, messages, key, w);
    }
  }

  lemma {:induction false} RunOutcome(s: State, messages: seq<Message>, key: Key)
    requires IdsDetermine(messages)
    ensures IsOutcome(s, messages, key, Lookup(Run(s, messages).items, key))
  {
    hide Lookup, LastFor, IsOutcome;
    if messages == [] {
      NoOutcome(s, key);
    } else {
      var n := |messages| - 1;
      var init, m := messages[..n], messages[n];
      RunOutcome(s, init, key);
      RunExtracted(s, init, m.id);
      var before := Lookup(Run(s, init).items, key);
      MergeAllLookup(Run(s, init).items, m, m.candidates, key);
      if m.id in Run(s, init).extracted {
        if i :| 0 <= i < n && init[i].id == m.id { assert messages[i].id == m.id; }
        OutcomeRepeat(s, messages, key, before);
      } else {
        OutcomeStep(s, messages, key, before);
      }
    }
  }

  lemma NoOutcome(s: State, key: Key)
    ensures IsOutcome(s, [], key, Lookup(s.items, key))
  {
  }

  ghost predicate SameMessages(a: seq<Message>, b: seq<Message>) {
    && (forall i :: 0 <= i < |a| ==> a[i] in b)
    && (forall i :: 0 <= i < |b| ==> b[i] in a)
  }

  /** Of the same messages, the winners are the same ones. */
  lemma SameWinners(s: State, a: seq<Message>, b: seq<Message>, key: Key, v: nat, i: nat)
    requires SameMessages(a, b) && v < |b| && IsWinner(s, b, key, v) && i < |a| && a[i] == b[v]
    ensures IsWinner(s, a, key, i)
  {
    hide Lookup, LastFor;
    forall j | 0 <= j < |a| && Speaks(s, a[j], key) ensures a[j].occurredAt <= a[i].occurredAt {
      var k :| 0 <= k < |b| && b[k] == a[j];
    }
  }

  /** The outcome is a function of which messages were extracted. */
  lemma OutcomeIsUnique(s: State, a: seq<Message>, b: seq<Message>, key: Key, x: Option<Content>, y: Option<Content>)
    requires WinnersAgree(s, a, key) && SameMessages(a, b)
    requires IsOutcome(s, a, key, x) && IsOutcome(s, b, key, y)
    ensures x == y
  {
    hide Lookup, LastFor;
    if w :| 0 <= w < |a| && IsWinner(s, a, key, w) && x == LastFor(a[w], a[w].candidates, key) {
      var j :| 0 <= j < |b| && b[j] == a[w];
      assert Speaks(s, b[j], key);
      var v :| 0 <= v < |b| && IsWinner(s, b, key, v) && y == LastFor(b[v], b[v].candidates, key);
      var i :| 0 <= i < |a| && a[i] == b[v];
      SameWinners(s, a, b, key, v, i);
    }
  }

  /** Confluence: when the winners of a key agree, the same messages, in any order and with any repeats, leave the same
      active content under it (verification and the position of rows aside). */
  lemma RunsConverge(s: State, a: seq<Message>, b: seq<Message>, key: Key)
    requires IdsDetermine(a) && WinnersAgree(s, a, key) && SameMessages(a, b)
    ensures Lookup(Run(s, a).items, key) == Lookup(Run(s, b).items, key)
  {
    SameIds(a, b);
    RunOutcome(s, a, key);
    RunOutcome(s, b, key);
    OutcomeIsUnique(s, a, b, key, Lookup(Run(s, a).items, key), Lookup(Run(s, b).items, key));
  }

  lemma SameIds(a: seq<Message>, b: seq<Message>)
    requires IdsDetermine(a) && SameMessages(a, b)
    ensures IdsDetermine(b)
  {
    forall i, j | 0 <= i < |b| && 0 <= j < |b| && b[i].id == b[j].id ensures b[i] == b[j] {
      var k :| 0 <= k < |a| && a[k] == b[i];
      var l :| 0 <= l < |a| && a[l] == b[j];
    }
  }

  // ---------------------------------------------------------------- exactly when order does not matter

  function Except(messages: seq<Message>, id: Id): seq<Message> {
    if messages == [] then []
    else Except(messages[..|messages| - 1], id)
         + if messages[|messages| - 1].id == id then [] else [messages[|messages| - 1]]
  }

  lemma {:induction false} ExceptIs(messages: seq<Message>, id: Id, m: Message)
    ensures m in Except(messages, id) <==> m in messages && m.id != id
  {
    if messages != [] { ExceptIs(messages[..|messages| - 1], id, m); }
  }

  /** The messages in an order that ends with number w. */
  function Last(messages: seq<Message>, w: nat): seq<Message>
    requires w < |messages|
  {
    Except(messages, messages[w].id) + [messages[w]]
  }

  lemma LastIsSame(messages: seq<Message>, w: nat)
    requires IdsDetermine(messages) && w < |messages|
    ensures SameMessages(messages, Last(messages, w))
  {
    var order := Last(messages, w);
    forall i | 0 <= i < |messages| ensures messages[i] in order {
      ExceptIs(messages, messages[w].id, messages[i]);
    }
    forall i | 0 <= i < |order| ensures order[i] in messages {
      if i < |order| - 1 { ExceptIs(messages, messages[w].id, order[i]); }
    }
  }

  /** A winner extracted last sets the key. */
  lemma WinnerLastWins(s: State, messages: seq<Message>, key: Key, w: nat)
    requires IdsDetermine(messages) && w < |messages| && IsWinner(s, messages, key, w)
    ensures Lookup(Run(s, Last(messages, w)).items, key) == LastFor(messages[w], messages[w].candidates, key)
  {
    hide Lookup, LastFor, MergeAll, Except;
    var order, m := Last(messages, w), messages[w];
    var rest := order[..|order| - 1];
    assert rest == Except(messages, m.id);
    LastIsSame(messages, w);
    SameIds(messages, order);
    assert IdsDetermine(rest);
    RunExtracted(s, rest, m.id);
    if i :| 0 <= i < |rest| && rest[i].id == m.id { ExceptIs(messages, m.id, rest[i]); }
    var before := Lookup(Run(s, rest).items, key);
    RunOutcome(s, rest, key);
    if v :| 0 <= v < |rest| && IsWinner(s, rest, key, v) && before == LastFor(rest[v], rest[v].candidates, key) {
      LastForIsOfMessage(rest[v], rest[v].candidates, key);
      ExceptIs(messages, m.id, rest[v]);
      var i :| 0 <= i < |messages| && messages[i] == rest[v];
      assert Speaks(s, messages[i], key);
    }
    MergeAllLookup(Run(s, rest).items, m, m.candidates, key);
  }

  /** Every order of the messages, with any repeats, leaves the same content under the key. */
  ghost predicate OrderIsIrrelevant(s: State, messages: seq<Message>, key: Key) {
    forall order :: SameMessages(messages, order)
                    ==> Lookup(Run(s, order).items, key) == Lookup(Run(s, messages).items, key)
  }

  /** The order of extraction is irrelevant for a key exactly when all winners agree, in particular when one message
      alone is the newest to speak about it. */
  lemma OrderIrrelevantExactly(s: State, messages: seq<Message>, key: Key)
    requires IdsDetermine(messages)
    ensures OrderIsIrrelevant(s, messages, key) <==> WinnersAgree(s, messages, key)
  {
    hide Lookup, LastFor, Run, IsWinner, IdsDetermine, Last;
    if WinnersAgree(s, messages, key) {
      forall order | SameMessages(messages, order)
        ensures Lookup(Run(s, order).items, key) == Lookup(Run(s, messages).items, key) {
        RunsConverge(s, messages, order, key);
      }
    }
    if OrderIsIrrelevant(s, messages, key) {
      forall v, w | 0 <= v < |messages| && 0 <= w < |messages|
                    && IsWinner(s, messages, key, v) && IsWinner(s, messages, key, w)
        ensures LastFor(messages[v], messages[v].candidates, key) == LastFor(messages[w], messages[w].candidates, key) {
        LastIsSame(messages, v);
        LastIsSame(messages, w);
        WinnerLastWins(s, messages, key, v);
        WinnerLastWins(s, messages, key, w);
      }
    }
  }

  ghost predicate TimesDiffer(s: State, messages: seq<Message>, key: Key) {
    forall i, j :: 0 <= i < |messages| && 0 <= j < |messages| && messages[i] != messages[j]
                   && Speaks(s, messages[i], key) && Speaks(s, messages[j], key)
                   ==> messages[i].occurredAt != messages[j].occurredAt
  }

  /** Messages about the key at distinct times: their order is irrelevant. Messages about other keys may share a time. */
  lemma DistinctTimesConverge(s: State, a: seq<Message>, b: seq<Message>, key: Key)
    requires IdsDetermine(a) && SameMessages(a, b)
    requires TimesDiffer(s, a, key)
    ensures Lookup(Run(s, a).items, key) == Lookup(Run(s, b).items, key)
  {
    hide Lookup, LastFor;
    forall v, w | 0 <= v < |a| && 0 <= w < |a| && IsWinner(s, a, key, v) && IsWinner(s, a, key, w)
      ensures LastFor(a[v], a[v].candidates, key) == LastFor(a[w], a[w].candidates, key) {
      assert a[v].occurredAt == a[w].occurredAt;
    }
    RunsConverge(s, a, b, key);
  }

  lemma RunTwo(s: State, a: Message, b: Message)
    ensures Run(s, [a, b]) == Extract(Extract(s, a).0, b).0
  {
    hide Extract;
    assert [a, b][..1] == [a] && [a][..0] == [];
    assert Run(s, [a]) == Extract(Run(s, []), a).0;
  }

  lemma OneCandidate(m: Message, c: Candidate, key: Key)
    requires m.candidates == [c] && key == KeyOf(m, c)
    ensures LastFor(m, m.candidates, key) == Some(ContentOf(m, c))
  {
  }

  /** Distinct times are needed: of two messages of the same second about the same key, the one extracted last wins. */
  lemma SameTimeOrderMatters(a: Message, b: Message, ca: Candidate, cb: Candidate)
    requires a.id != b.id && a.candidates == [ca] && b.candidates == [cb]
    requires KeyOf(a, ca) == KeyOf(b, cb) && a.occurredAt == b.occurredAt
    ensures Lookup(Run(State([], {}), [a, b]).items, KeyOf(a, ca))
         != Lookup(Run(State([], {}), [b, a]).items, KeyOf(a, ca))
  {
    hide Lookup, LastFor, MergeAll;
    var s, key := State([], {}), KeyOf(a, ca);
    assert Lookup([], key) == None by { NothingStored(key); }
    OneCandidate(a, ca, key);
    OneCandidate(b, cb, key);
    RunTwo(s, a, b);
    RunTwo(s, b, a);
    MergeAllLookup([], a, a.candidates, key);
    MergeAllLookup([], b, b.candidates, key);
    MergeAllLookup(Extract(s, a).0.items, b, b.candidates, key);
    MergeAllLookup(Extract(s, b).0.items, a, a.candidates, key);
  }

  lemma NothingStored(key: Key)
    ensures Lookup([], key) == None
  {
  }
}
