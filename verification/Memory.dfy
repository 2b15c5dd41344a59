/** Memory entries (src/adapters/memory-tools.ts): the reducer that keeps a stream's entries newest first, and the
    tables that commit, forget and access records write through, which a rebuild from the streams must reproduce
    (src/db/projectors.ts:792-850). */
module Memory {
  import opened Basics
  import opened Jobs

  datatype Entry = Entry(id: string, scope: string, text: string, tags: Option<seq<string>>, meta: Option<Fields>,
                         ts: int)

  datatype Access = Access(id: string, scope: string, details: Fields, ts: int)

  datatype MemoryEvent =
    | Committed(scope: string, entry: Entry)
    | Forgotten(scope: string, entryId: string)
    | Accessed(scope: string, access: Access)

  datatype State = State(entries: seq<Entry>, accesses: seq<Access>)

  // ---------------------------------------------------------------------------------------------------------------
  // The reducer

  /** Before the first item that is not newer. */
  function InsertNewestFirst<T>(item: T, items: seq<T>, ts: T -> int): seq<T> {
    if items == [] || ts(item) >= ts(items[0]) then [item] + items
    else [items[0]] + InsertNewestFirst(item, items[1..], ts)
  }

  function Remove(entries: seq<Entry>, id: string): seq<Entry> {
    if entries == [] then []
    else (if entries[0].id != id then [entries[0]] else []) + Remove(entries[1..], id)
  }

  function ReduceMemory(state: State, event: MemoryEvent): State {
    match event
    case Committed(_, entry) => state.(entries := InsertNewestFirst(entry, state.entries, (e: Entry) => e.ts))
    case Forgotten(_, id) => state.(entries := Remove(state.entries, id))
    case Accessed(_, access) => state.(accesses := InsertNewestFirst(access, state.accesses, (a: Access) => a.ts))
  }

  function FoldMemory(events: seq<MemoryEvent>): State {
    if events == [] then State([], [])
    else ReduceMemory(FoldMemory(events[..|events| - 1]), events[|events| - 1])
  }

  lemma {:induction false} InsertMembers<T>(item: T, items: seq<T>, ts: T -> int)
    ensures forall x :: x in InsertNewestFirst(item, items, ts) <==> x == item || x in items
  {
    if items != [] && ts(item) < ts(items[0]) {
      InsertMembers(item, items[1..], ts);
      assert items == [items[0]] + items[1..];
    }
  }

  lemma {:induction false} RemoveMembers(entries: seq<Entry>, id: string)
    ensures forall e :: e in Remove(entries, id) <==> e in entries && e.id != id
  {
    if entries != [] {
      RemoveMembers(entries[1..], id);
      assert entries == [entries[0]] + entries[1..];
    }
  }

  // ---------------------------------------------------------------------------------------------------------------
  // The order of the folded list

  /** An entry with the position of the event that committed it. */
  datatype Placed = Placed(at: nat, entry: Entry)

  function RemovePlaced(placed: seq<Placed>, id: string): seq<Placed> {
    if placed == [] then []
    else (if placed[0].entry.id != id then [placed[0]] else []) + RemovePlaced(placed[1..], id)
  }

  /** The fold with positions. */
  function FoldPlaced(events: seq<MemoryEvent>): seq<Placed> {
    if events == [] then []
    else
      var n := |events| - 1;
      var before := FoldPlaced(events[..n]);
      match events[n]
      case Committed(_, entry) => InsertNewestFirst(Placed(n, entry), before, (p: Placed) => p.entry.ts)
      case Forgotten(_, id) => RemovePlaced(before, id)
      case Accessed(_, _) => before
  }

  function EntriesOf(placed: seq<Placed>): seq<Entry> {
    seq(|placed|, i requires 0 <= i < |placed| => placed[i].entry)
  }

  lemma {:induction false} InsertPlaced(item: Placed, items: seq<Placed>)
    ensures EntriesOf(InsertNewestFirst(item, items, (p: Placed) => p.entry.ts))
      == InsertNewestFirst(item.entry, EntriesOf(items), (e: Entry) => e.ts)
  {
    if items != [] && item.entry.ts < items[0].entry.ts {
      InsertPlaced(item, items[1..]);
      assert EntriesOf(items)[1..] == EntriesOf(items[1..]);
    }
  }

  lemma {:induction false} RemovePlacedMembers(placed: seq<Placed>, id: string)
    ensures forall p :: p in RemovePlaced(placed, id) <==> p in placed && p.entry.id != id
  {
    if placed != [] {
      RemovePlacedMembers(placed[1..], id);
      assert placed == [placed[0]] + placed[1..];
    }
  }

  lemma EntriesOfFirst(placed: seq<Placed>)
    requires placed != []
    ensures EntriesOf(placed) == [placed[0].entry] + EntriesOf(placed[1..])
  {
  }

  lemma {:induction false} RemovePlacedEntries(placed: seq<Placed>, id: string)
    ensures EntriesOf(RemovePlaced(placed, id)) == Remove(EntriesOf(placed), id)
  {
    hide EntriesOf;
    if placed == [] {
      NoEntries();
    } else {
      RemovePlacedEntries(placed[1..], id);
      EntriesOfFirst(placed);
      assert EntriesOf(placed)[1..] == EntriesOf(placed[1..]);
      if placed[0].entry.id != id {
        EntriesOfFirst(RemovePlaced(placed, id));
        assert RemovePlaced(placed, id)[1..] == RemovePlaced(placed[1..], id);
      } else {
        assert RemovePlaced(placed, id) == RemovePlaced(placed[1..], id);
      }
    }
  }

  lemma NoEntries()
    ensures EntriesOf([]) == []
  {
  }

  lemma {:induction false} RemoveOrdered(placed: seq<Placed>, id: string)
    requires Ordered(placed)
    ensures Ordered(RemovePlaced(placed, id))
  {
    if placed != [] {
      var rest := RemovePlaced(placed[1..], id);
      RemoveOrdered(placed[1..], id);
      RemovePlacedMembers(placed[1..], id);
      forall j | 0 <= j < |rest| ensures Precedes(placed[0], rest[j]) {
        assert rest[j] in placed[1..];
      }
    }
  }

  predicate Precedes(a: Placed, b: Placed) {
    a.entry.ts > b.entry.ts || (a.entry.ts == b.entry.ts && a.at > b.at)
  }

  /** Newest first, and of two entries with the same time the one committed later first. */
  ghost predicate Ordered(placed: seq<Placed>) {
    forall i, j :: 0 <= i < j < |placed| ==> Precedes(placed[i], placed[j])
  }

  lemma {:induction false} InsertOrdered(item: Placed, items: seq<Placed>)
    requires Ordered(items) && forall p :: p in items ==> p.at < item.at
    ensures Ordered(InsertNewestFirst(item, items, (p: Placed) => p.entry.ts))
  {
    var ts := (p: Placed) => p.entry.ts;
    if items != [] && item.entry.ts < items[0].entry.ts {
      InsertOrdered(item, items[1..]);
      InsertMembers(item, items[1..], ts);
      var rest := InsertNewestFirst(item, items[1..], ts);
      forall j | 0 <= j < |rest| ensures Precedes(items[0], rest[j]) {
        assert rest[j] in rest;
      }
    }
  }

  /** The event at position i commits an entry that no later event forgets. */
  ghost predicate Survives(events: seq<MemoryEvent>, i: nat) {
    && i < |events| && events[i].Committed?
    && forall j :: i < j < |events| && events[j].Forgotten? ==> events[j].entryId != events[i].entry.id
  }

  /** The folded list is exactly the surviving entries, newest first with later commits ahead on ties. */
  lemma {:induction false} FoldedNewestFirst(events: seq<MemoryEvent>)
    ensures FoldMemory(events).entries == EntriesOf(FoldPlaced(events))
    ensures Ordered(FoldPlaced(events))
    ensures forall p :: p in FoldPlaced(events) <==> Survives(events, p.at) && events[p.at].entry == p.entry
  {
    hide EntriesOf, Ordered, Survives, InsertNewestFirst, RemovePlaced, Remove;
    if events == [] {
      NoEntries();
      NoneSurvive();
    } else {
      var n := |events| - 1;
      var before := FoldPlaced(events[..n]);
      FoldedNewestFirst(events[..n]);
      SurvivesNext(events);
      match events[n]
      case Committed(_, entry) =>
        InsertPlaced(Placed(n, entry), before);
        InsertMembers(Placed(n, entry), before, (p: Placed) => p.entry.ts);
        InsertOrdered(Placed(n, entry), before);
      case Forgotten(_, id) =>
        RemovePlacedMembers(before, id);
        RemovePlacedEntries(before, id);
        RemoveOrdered(before, id);
      case Accessed(_, _) =>
    }
  }

  function AccessesIn(events: seq<MemoryEvent>): seq<Access> {
    if events == [] then []
    else
      var n := |events| - 1;
      if events[n].Accessed? then AccessesIn(events[..n]) + [events[n].access] else AccessesIn(events[..n])
  }

  predicate Descends(accesses: seq<Access>) {
    forall i, j :: 0 <= i < j < |accesses| ==> accesses[i].ts >= accesses[j].ts
  }

  lemma {:induction false} InsertKeepsAll<T>(item: T, items: seq<T>, ts: T -> int)
    ensures multiset(InsertNewestFirst(item, items, ts)) == multiset(items) + multiset{item}
  {
    if items != [] && ts(item) < ts(items[0]) {
      InsertKeepsAll(item, items[1..], ts);
      assert items == [items[0]] + items[1..];
    }
  }

  lemma {:induction false} InsertDescends(item: Access, items: seq<Access>)
    requires Descends(items)
    ensures Descends(InsertNewestFirst(item, items, (a: Access) => a.ts))
  {
    if items != [] && item.ts < items[0].ts {
      var ts := (a: Access) => a.ts;
      var rest := InsertNewestFirst(item, items[1..], ts);
      InsertDescends(item, items[1..]);
      InsertMembers(item, items[1..], ts);
      forall j | 0 <= j < |rest| ensures items[0].ts >= rest[j].ts {
        assert rest[j] in rest;
      }
    }
  }

  lemma AppendKeepsAll<T>(items: seq<T>, item: T)
    ensures multiset(items + [item]) == multiset(items) + multiset{item} && items + [] == items
  {
  }

  /** All of the recorded accesses, newest first. */
  predicate AreRecorded(accesses: seq<Access>, recorded: seq<Access>) {
    multiset(accesses) == multiset(recorded) && Descends(accesses)
  }

  lemma AccessFolded(state: State, recorded: seq<Access>, event: MemoryEvent)
    requires AreRecorded(state.accesses, recorded)
    ensures AreRecorded(ReduceMemory(state, event).accesses,
                        if event.Accessed? then recorded + [event.access] else recorded)
  {
    hide InsertNewestFirst, Descends;
    if event.Accessed? {
      AppendKeepsAll(recorded, event.access);
      InsertKeepsAll(event.access, state.accesses, (a: Access) => a.ts);
      InsertDescends(event.access, state.accesses);
    }
  }

  /** The folded accesses are the recorded ones, newest first. */
  lemma {:induction false} AccessesNewestFirst(events: seq<MemoryEvent>)
    ensures AreRecorded(FoldMemory(events).accesses, AccessesIn(events))
  {
    if events != [] {
      hide AreRecorded, ReduceMemory;
      var n := |events| - 1;
      AccessesNewestFirst(events[..n]);
      AccessFolded(FoldMemory(events[..n]), AccessesIn(events[..n]), events[n]);
    }
  }

  lemma NoneSurvive()
    ensures Ordered([]) && forall i: nat :: !Survives([], i)
  {
  }

  lemma SurvivesNext(events: seq<MemoryEvent>)
    requires events != []
    ensures var n := |events| - 1;
      && (forall i: nat :: Survives(events[..n], i) ==> i < n && events[i].Committed?)
      && forall i: nat :: Survives(events, i) <==>
           || (i == n && events[n].Committed?)
           || (Survives(events[..n], i) && (events[n].Forgotten? ==> events[n].entryId != events[i].entry.id))
  {
  }

  // ---------------------------------------------------------------------------------------------------------------
  // Streams

  function Lower(c: char): char {
    if 'A' <= c <= 'Z' then c - 'A' + 'a' else c
  }

  /** The pattern keeps letters, digits, underscore and the range from full stop to slash; a hyphen is not in it. */
  predicate Kept(c: char) {
    'a' <= c <= 'z' || '0' <= c <= '9' || c == '_' || '.' <= c <= '/'
  }

  function SafeChars(scope: string): string {
    seq(|scope|, i requires 0 <= i < |scope| => if Kept(Lower(scope[i])) then Lower(scope[i]) else '_')
  }

  function SafeScope(scope: string): string {
    SafeChars(if scope == "" then "default" else scope)
  }

  const PREFIX := "memory/"

  function DefaultStream(scope: string): string {
    PREFIX + SafeScope(scope)
  }

  /** The streams a rebuild reads: memory/ followed by something. */
  predicate IsRebuilt(stream: string) {
    PREFIX < stream
  }

  /** A scope's default stream is one a rebuild reads; scopes share it exactly when they are the same once lower-cased
      and cleaned. */
  lemma DefaultStreams(a: string, b: string)
    ensures IsRebuilt(DefaultStream(a)) && '-' !in SafeScope(a)
    ensures SafeScope(SafeScope(a)) == SafeScope(a)
    ensures DefaultStream(a) == DefaultStream(b) <==> SafeScope(a) == SafeScope(b)
  {
    SafeIsClean(a);
    assert DefaultStream(a)[|PREFIX|..] == SafeScope(a) && DefaultStream(b)[|PREFIX|..] == SafeScope(b);
  }

  lemma SafeIsClean(scope: string)
    ensures SafeScope(scope) != "" && SafeScope(SafeScope(scope)) == SafeScope(scope)
    ensures '-' !in SafeScope(scope)
  {
    var safe := SafeScope(scope);
    assert forall c :: c in safe ==> Kept(c) && Lower(c) == c;
    assert SafeChars(safe) == safe;
  }

  /** What cleaning a scope does to it, character by character. */
  lemma SafeScopeIs(scope: string)
    ensures scope == "" ==> SafeScope(scope) == "default"
    ensures scope != "" ==>
      && |SafeScope(scope)| == |scope|
      && forall i :: 0 <= i < |scope| ==>
           SafeScope(scope)[i]
           == var c := scope[i];
              if 'a' <= c <= 'z' || '0' <= c <= '9' || c in {'_', '.', '/'} then c
              else if 'A' <= c <= 'Z' then c - 'A' + 'a' else '_'
    ensures DefaultStream(scope) == "memory/" + SafeScope(scope)
    ensures forall stream :: IsRebuilt(stream) <==> |stream| > 7 && stream[..7] == "memory/"
  {
    if scope == "" {
      assert SafeChars("default") == "default";
    }
  }

  type Streams = map<string, seq<MemoryEvent>>

  type Table = map<string, Entry>

  function EventsAt(streams: Streams, stream: string): seq<MemoryEvent> {
    if stream in streams then streams[stream] else []
  }

  predicate CommitsAt(streams: Streams, stream: string, i: nat) {
    stream in streams && i < |streams[stream]| && streams[stream][i].Committed?
  }

  function CommittedAt(streams: Streams, stream: string, i: nat): Entry
    requires CommitsAt(streams, stream, i)
  {
    streams[stream][i].entry
  }

  /** Entries are committed to their scope's stream, each under an id of its own. */
  ghost predicate WellKept(streams: Streams, streamForScope: string -> string) {
    && (forall s, i: nat :: CommitsAt(streams, s, i) ==> streamForScope(CommittedAt(streams, s, i).scope) == s)
    && (forall s, i: nat, t, j: nat :: CommitsAt(streams, s, i) && CommitsAt(streams, t, j) && (s != t || i != j) ==>
          CommittedAt(streams, s, i).id != CommittedAt(streams, t, j).id)
  }

  predicate InFold(streams: Streams, stream: string, entry: Entry) {
    stream in streams && entry in FoldMemory(streams[stream]).entries
  }

  ghost predicate InRebuild(streams: Streams, entry: Entry) {
    exists stream :: IsRebuilt(stream) && InFold(streams, stream, entry)
  }

  /** The table has exactly the entries a rebuild finds. */
  ghost predicate Matches(streams: Streams, table: Table) {
    && (forall id :: id in table ==> table[id].id == id)
    && (forall entry :: InRebuild(streams, entry) <==> entry.id in table && table[entry.id] == entry)
  }

  /** At most one table matches. */
  lemma MatchIsUnique(streams: Streams, a: Table, b: Table)
    requires Matches(streams, a) && Matches(streams, b)
    ensures a == b
  {
    forall id | id in a ensures id in b && b[id] == a[id] {
      assert InRebuild(streams, a[id]);
    }
    forall id | id in b ensures id in a {
      assert InRebuild(streams, b[id]);
    }
  }

  /** What a fold holds was committed to that stream. */
  lemma FoldedIsCommitted(streams: Streams, stream: string, entry: Entry) returns (i: nat)
    requires InFold(streams, stream, entry)
    ensures CommitsAt(streams, stream, i) && CommittedAt(streams, stream, i) == entry
  {
    var events := streams[stream];
    FoldedNewestFirst(events);
    var placed := FoldPlaced(events);
    var k :| 0 <= k < |placed| && EntriesOf(placed)[k] == entry;
    assert placed[k] in placed;
    i := placed[k].at;
  }

  /** With ids of their own, no two folded entries share an id. */
  lemma FoldedIdsUnique(streams: Streams, streamForScope: string -> string, s: string, a: Entry, t: string, b: Entry)
    requires WellKept(streams, streamForScope) && InFold(streams, s, a) && InFold(streams, t, b) && a.id == b.id
    ensures s == t && a == b
  {
    var i := FoldedIsCommitted(streams, s, a);
    var j := FoldedIsCommitted(streams, t, b);
  }

  lemma FoldNext(streams: Streams, stream: string, event: MemoryEvent)
    ensures FoldMemory(EventsAt(streams, stream) + [event])
      == ReduceMemory(FoldMemory(EventsAt(streams, stream)), event)
  {
    assert (EventsAt(streams, stream) + [event])[..|EventsAt(streams, stream)|] == EventsAt(streams, stream);
  }

  function Emitted(streams: Streams, stream: string, event: MemoryEvent): Streams {
    streams[stream := EventsAt(streams, stream) + [event]]
  }

  /** An event other than a commit commits nothing. */
  lemma EmittedWellKept(streams: Streams, streamForScope: string -> string, stream: string, event: MemoryEvent)
    requires WellKept(streams, streamForScope)
    requires event.Committed? ==>
      && stream == streamForScope(event.entry.scope)
      && forall s, i: nat :: CommitsAt(streams, s, i) ==> CommittedAt(streams, s, i).id != event.entry.id
    ensures WellKept(Emitted(streams, stream, event), streamForScope)
  {
    var after := Emitted(streams, stream, event);
    var n := |EventsAt(streams, stream)|;
    forall s, i: nat | CommitsAt(after, s, i)
      ensures (s == stream && i == n && event.Committed? && CommittedAt(after, s, i) == event.entry)
        || (CommitsAt(streams, s, i) && CommittedAt(after, s, i) == CommittedAt(streams, s, i))
    {
    }
  }

  lemma CommitMatches(streams: Streams, streamForScope: string -> string, table: Table, entry: Entry)
    requires WellKept(streams, streamForScope) && Matches(streams, table)
    requires forall s, i: nat :: CommitsAt(streams, s, i) ==> CommittedAt(streams, s, i).id != entry.id
    ensures var stream := streamForScope(entry.scope);
      Matches(Emitted(streams, stream, Committed(entry.scope, entry)), table[entry.id := entry]) <==> IsRebuilt(stream)
  {
    hide FoldMemory, InFold, Emitted, WellKept;
    var stream := streamForScope(entry.scope);
    var after := Emitted(streams, stream, Committed(entry.scope, entry));
    CommittedFolds(streams, stream, entry);
    assert IsRebuilt(stream) ==> InFold(after, stream, entry);
    forall e ensures InRebuild(after, e) <==> InRebuild(streams, e) || (IsRebuilt(stream) && e == entry) {
      if s :| IsRebuilt(s) && InFold(streams, s, e) {
        assert InFold(after, s, e);
      }
    }
    NotInTable(streams, table, entry.id);
  }

  lemma CommittedFolds(streams: Streams, stream: string, entry: Entry)
    ensures var after := Emitted(streams, stream, Committed(entry.scope, entry));
      forall s, e :: InFold(after, s, e) <==> InFold(streams, s, e) || (s == stream && e == entry)
  {
    hide FoldMemory, InFold, Emitted, InsertNewestFirst;
    EmittedFolds(streams, stream, Committed(entry.scope, entry));
    InsertMembers(entry, FoldMemory(EventsAt(streams, stream)).entries, (e: Entry) => e.ts);
  }

  /** An event changes what its own stream folds to, by one reducer step. */
  lemma EmittedFolds(streams: Streams, stream: string, event: MemoryEvent)
    ensures forall s, e :: InFold(Emitted(streams, stream, event), s, e) <==>
      if s == stream then e in ReduceMemory(FoldMemory(EventsAt(streams, stream)), event).entries
      else InFold(streams, s, e)
    ensures forall e :: InFold(streams, stream, e) <==> e in FoldMemory(EventsAt(streams, stream)).entries
  {
    hide ReduceMemory;
    FoldNext(streams, stream, event);
  }

  lemma NotInTable(streams: Streams, table: Table, id: string)
    requires Matches(streams, table)
    requires forall s, i: nat :: CommitsAt(streams, s, i) ==> CommittedAt(streams, s, i).id != id
    ensures id !in table
  {
    if id in table {
      assert InRebuild(streams, table[id]);
      var s :| IsRebuilt(s) && InFold(streams, s, table[id]);
      var i := FoldedIsCommitted(streams, s, table[id]);
    }
  }

  /** Forgetting an entry keeps the table a rebuild finds exactly when the entry was committed to the default stream,
      the one the forgetting is recorded in. */
  lemma ForgetMatches(streams: Streams, streamForScope: string -> string, table: Table, id: string)
    requires WellKept(streams, streamForScope) && Matches(streams, table) && id in table
    ensures var stream := DefaultStream(table[id].scope);
      Matches(Emitted(streams, stream, Forgotten(table[id].scope, id)), table - {id})
      <==> streamForScope(table[id].scope) == stream
  {
    hide DefaultStream, FoldMemory, InFold, Emitted;
    var row := table[id];
    var stream := DefaultStream(row.scope);
    var after := Emitted(streams, stream, Forgotten(row.scope, id));
    ForgottenFolds(streams, stream, row.scope, id);
    assert InRebuild(streams, row);
    var home :| IsRebuilt(home) && InFold(streams, home, row);
    var i := FoldedIsCommitted(streams, home, row);
    if home == stream {
      forall e ensures InRebuild(after, e) <==> InRebuild(streams, e) && e.id != id {
        if s :| IsRebuilt(s) && InFold(streams, s, e) {
          if e.id == id {
            FoldedIdsUnique(streams, streamForScope, s, e, home, row);
          } else {
            assert InFold(after, s, e);
          }
        }
        ForgottenEntry(streams, streamForScope, after, home, row, e);
      }
    } else {
      assert InFold(after, home, row);
    }
  }

  /** Where the entry is folded in no stream but the one that forgets it, the rebuild no longer finds it. */
  lemma ForgottenEntry(streams: Streams, streamForScope: string -> string, after: Streams, home: string, row: Entry,
                       e: Entry)
    requires WellKept(streams, streamForScope) && InFold(streams, home, row)
    requires forall s, e :: InFold(after, s, e) <==> InFold(streams, s, e) && !(s == home && e.id == row.id)
    ensures InRebuild(after, e) ==> InRebuild(streams, e) && e.id != row.id
  {
    if s :| IsRebuilt(s) && InFold(after, s, e) {
      assert InFold(streams, s, e);
      if e.id == row.id {
        FoldedIdsUnique(streams, streamForScope, s, e, home, row);
      }
    }
  }

  lemma ForgottenFolds(streams: Streams, stream: string, scope: string, id: string)
    ensures var after := Emitted(streams, stream, Forgotten(scope, id));
      forall s, e :: InFold(after, s, e) <==> InFold(streams, s, e) && !(s == stream && e.id == id)
  {
    hide FoldMemory, InFold, Emitted, Remove;
    EmittedFolds(streams, stream, Forgotten(scope, id));
    RemoveMembers(FoldMemory(EventsAt(streams, stream)).entries, id);
  }

  // ---------------------------------------------------------------------------------------------------------------
  // The tables

  function CleanTags(tags: seq<string>): seq<string> {
    if tags == [] then []
    else
      var n := |tags| - 1;
      if Trim(tags[n]) != "" then CleanTags(tags[..n]) + [tags[n]] else CleanTags(tags[..n])
  }

  predicate NotBlank(tag: string) {
    Trim(tag) != ""
  }

  /** The tags kept are those that are not blank, in order. */
  ghost predicate Cleaned(tags: Option<seq<string>>, kept: Option<seq<string>>) {
    if tags == None then kept == None
    else kept.Some? && Picks(tags.value, kept.value, NotBlank)
  }

  lemma {:induction false} CleanTagsPicks(tags: seq<string>)
    ensures Picks(tags, CleanTags(tags), NotBlank)
  {
    hide Picks, Trim;
    if tags == [] {
      PicksNone(NotBlank);
    } else {
      var n := |tags| - 1;
      CleanTagsPicks(tags[..n]);
      PicksNext(tags[..n], CleanTags(tags[..n]), NotBlank, tags[n]);
      assert tags[..n] + [tags[n]] == tags;
    }
  }

  ghost predicate Distinct(entries: seq<Entry>) {
    forall i, j :: 0 <= i < j < |entries| ==> entries[i].id != entries[j].id
  }

  lemma FoldedListDistinct(streams: Streams, streamForScope: string -> string, stream: string)
    requires WellKept(streams, streamForScope) && stream in streams
    ensures Distinct(FoldMemory(streams[stream]).entries)
  {
    var placed := FoldPlaced(streams[stream]);
    FoldedNewestFirst(streams[stream]);
    forall i, j | 0 <= i < j < |placed| ensures placed[i].entry.id != placed[j].entry.id {
      assert placed[i] in placed && placed[j] in placed && Precedes(placed[i], placed[j]);
      assert CommitsAt(streams, stream, placed[i].at) && CommitsAt(streams, stream, placed[j].at);
    }
  }

  /** The table has exactly the entries folded in the streams of `done`. */
  ghost predicate Holds(streams: Streams, done: set<string>, table: Table) {
    && (forall id :: id in table ==> table[id].id == id)
    && (forall entry :: (exists s :: s in done && IsRebuilt(s) && InFold(streams, s, entry))
          <==> entry.id in table && table[entry.id] == entry)
  }

  ghost predicate Adds(before: Table, list: seq<Entry>, after: Table) {
    && (forall id :: id in after <==> id in before || exists k :: 0 <= k < |list| && list[k].id == id)
    && (forall id :: id in before ==> after[id] == before[id])
    && (forall k :: 0 <= k < |list| ==> after[list[k].id] == list[k])
  }

  lemma AddsNothing(table: Table)
    ensures Adds(table, [], table)
  {
  }

  lemma AddsNext(before: Table, list: seq<Entry>, k: nat, after: Table)
    requires k < |list| && Adds(before, list[..k], after) && Distinct(list) && list[k].id !in before
    ensures list[k].id !in after && Adds(before, list[..k + 1], after[list[k].id := list[k]])
  {
  }

  lemma HoldsNext(streams: Streams, streamForScope: string -> string, done: set<string>, before: Table, stream: string,
                  after: Table)
    requires WellKept(streams, streamForScope) && Holds(streams, done, before) && stream in streams && stream !in done
    requires if IsRebuilt(stream) then Adds(before, FoldMemory(streams[stream]).entries, after) else after == before
    ensures Holds(streams, done + {stream}, after)
  {
    hide FoldMemory;
    var list := FoldMemory(streams[stream]).entries;
    if IsRebuilt(stream) {
      forall id | id in after && id !in before ensures after[id].id == id && after[id] in list {
        var k :| 0 <= k < |list| && list[k].id == id;
      }
      forall entry | entry in list ensures entry.id in after && after[entry.id] == entry {
        var k :| 0 <= k < |list| && list[k] == entry;
      }
    }
  }

  /** No entry of a stream not yet read is in the table. */
  lemma NewIds(streams: Streams, streamForScope: string -> string, done: set<string>, table: Table, stream: string,
               entry: Entry)
    requires WellKept(streams, streamForScope) && Holds(streams, done, table) && stream !in done
    requires InFold(streams, stream, entry)
    ensures entry.id !in table
  {
    if entry.id in table {
      var s :| s in done && IsRebuilt(s) && InFold(streams, s, table[entry.id]);
      FoldedIdsUnique(streams, streamForScope, s, table[entry.id], stream, entry);
    }
  }

  // ---------------------------------------------------------------------------------------------------------------
  // Whole runs

  datatype MemoryOp = Put(entry: Entry) | Drop(id: string, scope: Option<string>) | Note(access: Access)

  datatype Tables = Tables(streams: Streams, entries: Table)

  /** The entry a forget request applies to. */
  predicate Finds(table: Table, id: string, scope: Option<string>) {
    id in table && (scope in {None, Some("")} || scope == Some(table[id].scope))
  }

  function Next(tables: Tables, streamForScope: string -> string, op: MemoryOp): Tables {
    match op
    case Put(entry) =>
      Tables(Emitted(tables.streams, streamForScope(entry.scope), Committed(entry.scope, entry)),
             tables.entries[entry.id := entry])
    case Drop(id, scope) =>
      if !Finds(tables.entries, id, scope) then tables
      else
        var home := tables.entries[id].scope;
        Tables(Emitted(tables.streams, DefaultStream(home), Forgotten(home, id)), tables.entries - {id})
    case Note(access) =>
      tables.(streams := Emitted(tables.streams, streamForScope(access.scope), Accessed(access.scope, access)))
  }

  function RunTables(ops: seq<MemoryOp>): Tables {
    if ops == [] then Tables(map[], map[])
    else Next(RunTables(ops[..|ops| - 1]), DefaultStream, ops[|ops| - 1])
  }

  /** Generated entry ids are never reused. */
  ghost predicate FreshIds(ops: seq<MemoryOp>) {
    forall i, j :: 0 <= i < j < |ops| && ops[i].Put? && ops[j].Put? ==> ops[i].entry.id != ops[j].entry.id
  }

  ghost predicate PutBy(ops: seq<MemoryOp>, id: string) {
    exists k :: 0 <= k < |ops| && ops[k].Put? && ops[k].entry.id == id
  }

  /** After any run of commits, forgets and access records with the default streams, the entry table is exactly what a
      rebuild from the streams produces. */
  lemma {:induction false} RunEqualsRebuild(ops: seq<MemoryOp>)
    requires FreshIds(ops)
    ensures WellKept(RunTables(ops).streams, DefaultStream)
    ensures Matches(RunTables(ops).streams, RunTables(ops).entries)
    ensures forall s, i: nat :: CommitsAt(RunTables(ops).streams, s, i) ==>
      PutBy(ops, CommittedAt(RunTables(ops).streams, s, i).id)
  {
    hide WellKept, Matches, FoldMemory, DefaultStream;
    if ops == [] {
      EmptyMatches();
    } else {
      var n := |ops| - 1;
      RunEqualsRebuild(ops[..n]);
      assert forall id :: PutBy(ops, id) <==> PutBy(ops[..n], id) || (ops[n].Put? && ops[n].entry.id == id) by {
        assert ops == ops[..n] + [ops[n]];
      }
      NextKeepsMatching(RunTables(ops[..n]), DefaultStream, ops[n]);
      if ops[n].Put? {
        DefaultStreams(ops[n].entry.scope, "");
      }
    }
  }

  lemma EmptyMatches()
    ensures WellKept(map[], DefaultStream) && Matches(map[], map[])
  {
  }

  /** One operation keeps the tables matching, with two exceptions when scopes are kept in streams of the caller's
      choice: a commit to a stream that no rebuild reads, and a forget of an entry kept outside its default stream. */
  lemma NextKeepsMatching(tables: Tables, streamForScope: string -> string, op: MemoryOp)
    requires WellKept(tables.streams, streamForScope) && Matches(tables.streams, tables.entries)
    requires op.Put? ==> forall s, i: nat :: CommitsAt(tables.streams, s, i) ==>
      CommittedAt(tables.streams, s, i).id != op.entry.id
    ensures var after := Next(tables, streamForScope, op);
      && WellKept(after.streams, streamForScope)
      && (Matches(after.streams, after.entries) <==>
            && (op.Put? ==> IsRebuilt(streamForScope(op.entry.scope)))
            && (op.Drop? && Finds(tables.entries, op.id, op.scope) ==>
                  streamForScope(tables.entries[op.id].scope) == DefaultStream(tables.entries[op.id].scope)))
      && (forall s, i: nat :: CommitsAt(after.streams, s, i) ==>
            || (op.Put? && CommittedAt(after.streams, s, i) == op.entry)
            || (CommitsAt(tables.streams, s, i)
              && CommittedAt(after.streams, s, i) == CommittedAt(tables.streams, s, i)))
  {
    hide WellKept, Matches, FoldMemory, DefaultStream;
    match op
    case Put(entry) =>
      EmittedWellKept(tables.streams, streamForScope, streamForScope(entry.scope), Committed(entry.scope, entry));
      CommitMatches(tables.streams, streamForScope, tables.entries, entry);
    case Drop(id, scope) =>
      if Finds(tables.entries, id, scope) {
        var home := tables.entries[id].scope;
        EmittedWellKept(tables.streams, streamForScope, DefaultStream(home), Forgotten(home, id));
        ForgetMatches(tables.streams, streamForScope, tables.entries, id);
      }
    case Note(access) =>
      EmittedWellKept(tables.streams, streamForScope, streamForScope(access.scope), Accessed(access.scope, access));
      NoteMatches(tables.streams, tables.entries, streamForScope(access.scope), access);
  }

  lemma NoteMatches(streams: Streams, table: Table, stream: string, access: Access)
    ensures var after := Emitted(streams, stream, Accessed(access.scope, access));
      Matches(streams, table) <==> Matches(after, table)
  {
    var after := Emitted(streams, stream, Accessed(access.scope, access));
    NoteFolds(streams, stream, access);
    forall e ensures InRebuild(after, e) <==> InRebuild(streams, e) {
      hide InFold, Emitted;
    }
  }

  lemma NoteFolds(streams: Streams, stream: string, access: Access)
    ensures var after := Emitted(streams, stream, Accessed(access.scope, access));
      forall s, e :: InFold(after, s, e) <==> InFold(streams, s, e)
  {
    hide FoldMemory, InFold, Emitted;
    EmittedFolds(streams, stream, Accessed(access.scope, access));
  }

  /** The entry id is the primary key. */
  ghost predicate KeyedById(table: Table) {
    forall id :: id in table ==> table[id].id == id
  }

  class MemoryTables {
    const streamForScope: string -> string
    var streams: Streams
    var entries: Table

    constructor (streamForScope: string -> string)
      ensures this.streamForScope == streamForScope && Valid() && Consistent() && streams == map[]
    {
      this.streamForScope := streamForScope;
      streams, entries := map[], map[];
    }

    ghost predicate Valid()
      reads this
    {
      WellKept(streams, streamForScope) && KeyedById(entries)
    }

    /** The entry table is the one a rebuild produces. */
    ghost predicate Consistent()
      reads this
    {
      Matches(streams, entries)
    }

    function Both(): Tables
      reads this
    {
      Tables(streams, entries)
    }

    /** commit: empty text is refused; a new entry goes to its scope's stream and into the table. */
    method Commit(scope: string, text: string, tags: Option<seq<string>>, meta: Option<Fields>, id: string, ts: int)
      returns (entry: Option<Entry>)
      requires Valid() && forall s, i: nat :: CommitsAt(streams, s, i) ==> CommittedAt(streams, s, i).id != id
      modifies this
      ensures Valid()
      ensures entry.None? <==> Trim(text) == ""
      ensures entry.None? ==> unchanged(this)
      ensures entry.Some? ==>
        && entry.value.id == id && entry.value.scope == scope && entry.value.text == Trim(text) && entry.value.ts == ts
        && entry.value.meta == meta && Cleaned(tags, entry.value.tags)
        && Both() == Next(old(Both()), streamForScope, Put(entry.value))
        && (old(Consistent()) ==> (Consistent() <==> IsRebuilt(streamForScope(scope))))
    {
      hide WellKept, Matches, Picks;
      var trimmed := Trim(text);
      if trimmed == "" {
        return None;
      }
      var clean := if tags.Some? then Some(CleanTags(tags.value)) else None;
      if tags.Some? {
        CleanTagsPicks(tags.value);
      }
      var made := Entry(id, scope, trimmed, clean, meta, ts);
      EmittedWellKept(streams, streamForScope, streamForScope(scope), Committed(scope, made));
      if Consistent() {
        NextKeepsMatching(Both(), streamForScope, Put(made));
      }
      streams := Emitted(streams, streamForScope(scope), Committed(scope, made));
      entries := entries[id := made];
      entry := Some(made);
    }

    /** forgetMemoryEntry: an unknown entry, or one of another scope than asked, is left alone. */
    method Forget(id: string, scope: Option<string>) returns (found: bool)
      requires Valid()
      modifies this
      ensures Valid()
      ensures found <==> Finds(old(entries), id, scope)
      ensures Both() == Next(old(Both()), streamForScope, Drop(id, scope))
      ensures found && old(Consistent()) ==>
        (Consistent() <==> streamForScope(old(entries)[id].scope) == DefaultStream(old(entries)[id].scope))
    {
      hide DefaultStream, WellKept, Matches;
      if id !in entries {
        return false;
      }
      var row := entries[id];
      if scope.Some? && scope.value != "" && row.scope != scope.value {
        return false;
      }
      EmittedWellKept(streams, streamForScope, DefaultStream(row.scope), Forgotten(row.scope, id));
      if Consistent() {
        NextKeepsMatching(Both(), streamForScope, Drop(id, scope));
      }
      streams := Emitted(streams, DefaultStream(row.scope), Forgotten(row.scope, id));
      entries := entries - {id};
      found := true;
    }

    /** emitAccess: the record goes to the scope's stream; no entry is touched. */
    method RecordAccess(access: Access)
      requires Valid()
      modifies `streams
      ensures Valid()
      ensures Both() == Next(old(Both()), streamForScope, Note(access))
      ensures old(Consistent()) ==> Consistent()
    {
      hide WellKept, Matches;
      var stream := streamForScope(access.scope);
      EmittedWellKept(streams, streamForScope, stream, Accessed(access.scope, access));
      NoteMatches(streams, entries, stream, access);
      streams := Emitted(streams, stream, Accessed(access.scope, access));
    }

    /** The entry table emptied and filled again from the streams; a repeated id would make an insertion fail. */
    method Rebuild() returns (ok: bool)
      requires Valid()
      modifies `entries
      ensures ok && Valid() && Consistent()
      ensures old(Consistent()) ==> entries == old(entries)
    {
      hide FoldMemory, InFold, WellKept;
      ghost var before := entries;
      entries := map[];
      var todo := streams.Keys;
      while todo != {}
        invariant todo <= streams.Keys && Holds(streams, streams.Keys - todo, entries)
        decreases todo
      {
        var stream :| stream in todo;
        ghost var filled := entries;
        if IsRebuilt(stream) {
          ok := InsertAll(stream, streams.Keys - todo);
        }
        HoldsNext(streams, streamForScope, streams.Keys - todo, filled, stream, entries);
        assert streams.Keys - (todo - {stream}) == streams.Keys - todo + {stream};
        todo := todo - {stream};
      }
      HoldsAll(streams, entries);
      if Matches(streams, before) {
        MatchIsUnique(streams, before, entries);
      }
      ok := true;
    }

    method InsertAll(stream: string, ghost done: set<string>) returns (ok: bool)
      requires WellKept(streams, streamForScope) && Holds(streams, done, entries) && stream in streams
        && stream !in done
      modifies `entries
      ensures ok && Adds(old(entries), FoldMemory(streams[stream]).entries, entries)
    {
      hide FoldMemory, WellKept, Holds, Distinct, Adds;
      var list := FoldMemory(streams[stream]).entries;
      FoldedListDistinct(streams, streamForScope, stream);
      AddsNothing(entries);
      assert list[..0] == [];
      for k := 0 to |list|
        invariant Adds(old(entries), list[..k], entries)
      {
        InListInFold(streams, stream, k);
        NewIds(streams, streamForScope, done, old(entries), stream, list[k]);
        AddsNext(old(entries), list, k, entries);
        if list[k].id in entries {
          return false;
        }
        entries := entries[list[k].id := list[k]];
      }
      assert list[..|list|] == list;
      ok := true;
    }

    /** The table's entries of a scope, newest first; those are the ones a rebuild finds while the table matches it. */
    method ReadEntries(scope: string) returns (list: seq<Entry>)
      requires Valid()
      ensures forall entry ::
        entry in list <==> entry.id in entries && entries[entry.id] == entry && entry.scope == scope
      ensures Consistent() ==> forall entry :: entry in list <==> InRebuild(streams, entry) && entry.scope == scope
      ensures forall i, j :: 0 <= i < j < |list| ==> list[i].ts >= list[j].ts && list[i].id != list[j].id
    {
      hide InRebuild, InsertNewestFirst, WellKept;
      list := [];
      var todo := entries.Keys;
      while todo != {}
        invariant todo <= entries.Keys
        invariant forall entry :: entry in list <==>
          entry.id in entries && entry.id !in todo && entries[entry.id] == entry && entry.scope == scope
        invariant NewestFirst(list)
        decreases todo
      {
        var id :| id in todo;
        todo := todo - {id};
        if entries[id].scope == scope {
          InsertMembers(entries[id], list, (e: Entry) => e.ts);
          InsertKeepsNewest(entries[id], list);
          list := InsertNewestFirst(entries[id], list, (e: Entry) => e.ts);
        }
      }
    }
  }

  ghost predicate NewestFirst(list: seq<Entry>) {
    forall i, j :: 0 <= i < j < |list| ==> list[i].ts >= list[j].ts && list[i].id != list[j].id
  }

  lemma {:induction false} InsertKeepsNewest(item: Entry, list: seq<Entry>)
    requires NewestFirst(list) && forall e :: e in list ==> e.id != item.id
    ensures NewestFirst(InsertNewestFirst(item, list, (e: Entry) => e.ts))
  {
    if list != [] && item.ts < list[0].ts {
      var rest := InsertNewestFirst(item, list[1..], (e: Entry) => e.ts);
      InsertKeepsNewest(item, list[1..]);
      InsertMembers(item, list[1..], (e: Entry) => e.ts);
      forall j | 0 <= j < |rest| ensures list[0].ts >= rest[j].ts && list[0].id != rest[j].id {
        assert rest[j] in rest;
      }
    }
  }

  lemma InListInFold(streams: Streams, stream: string, k: nat)
    requires stream in streams && k < |FoldMemory(streams[stream]).entries|
    ensures InFold(streams, stream, FoldMemory(streams[stream]).entries[k])
  {
  }

  lemma HoldsAll(streams: Streams, table: Table)
    requires Holds(streams, streams.Keys, table)
    ensures Matches(streams, table)
  {
    forall entry ensures InRebuild(streams, entry) <==> entry.id in table && table[entry.id] == entry {
      if s :| IsRebuilt(s) && InFold(streams, s, entry) {
        assert s in streams.Keys;
      }
    }
  }
}
