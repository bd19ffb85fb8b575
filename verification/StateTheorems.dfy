/** Both stores are the same fold of the deltas that came in. */
module StateTheorems {
  import opened StateStore
  import opened Wrappers

  // ---------------------------------------------------------------- deltas compose

  const NOTHING := Delta("", None, [], map[])

  /** What two texts told together: the later one wins, part by part and slot by slot. */
  function Compose(d: Delta, e: Delta): Delta {
    Delta(if e.location != "" then e.location else d.location,
          if e.prompt.Some? then e.prompt else d.prompt,
          if |e.statusTags| > 0 then e.statusTags else d.statusTags,
          d.equipment + e.equipment)
  }

  function Content(s: Snapshot): Delta { Delta(s.location, s.prompt, s.statusTags, s.equipment) }

  lemma MapsAssociate(a: map<string, string>, b: map<string, string>, c: map<string, string>)
    ensures a + b + c == a + (b + c) && map[] + a == a && a + map[] == a
  {
  }

  lemma ComposeAssociates(d: Delta, e: Delta, f: Delta)
    ensures Compose(Compose(d, e), f) == Compose(d, Compose(e, f))
  {
    MapsAssociate(d.equipment, e.equipment, f.equipment);
  }

  /** The delta that says nothing is the only empty one, and the unit of composition. */
  lemma ComposeUnit(d: Delta)
    ensures Compose(NOTHING, d) == d && Compose(d, NOTHING) == d
    ensures d.Empty() <==> d == NOTHING
  {
    MapsAssociate(d.equipment, d.equipment, d.equipment);
    assert |d.equipment| == 0 <==> d.equipment == map[];
  }

  /** Merging is the action of composition on snapshots: two merges are one merge of the composition. */
  lemma MergeActs(s: Snapshot, d: Delta, e: Delta)
    ensures Merged(Merged(s, d), e) == Merged(s, Compose(d, e))
    ensures Merged(s, NOTHING) == s
    ensures Content(Merged(s, d)) == Compose(Content(s), d)
    ensures Merged(s, d).sessionId == s.sessionId && Merged(s, d).updatedAt == s.updatedAt
  {
    MapsAssociate(s.equipment, d.equipment, e.equipment);
  }

  /** The fold. */
  function Composed(deltas: seq<Delta>): Delta {
    if deltas == [] then NOTHING else Compose(Composed(deltas[..|deltas| - 1]), deltas[|deltas| - 1])
  }

  lemma ComposedSnoc(deltas: seq<Delta>, d: Delta)
    ensures Composed(deltas + [d]) == Compose(Composed(deltas), d)
  {
    assert (deltas + [d])[..|deltas|] == deltas;
  }

  /** A list of deltas may be composed in pieces, and merged in one piece. */
  lemma {:induction false} ComposedConcat(a: seq<Delta>, b: seq<Delta>)
    ensures Composed(a + b) == Compose(Composed(a), Composed(b))
    decreases |b|
  {
    if b == [] {
      assert a + b == a;
      ComposeUnit(Composed(a));
    } else {
      var init, last := b[..|b| - 1], b[|b| - 1];
      ComposedConcat(a, init);
      ComposedSnoc(a + init, last);
      assert a + b == a + init + [last];
      ComposeAssociates(Composed(a), Composed(init), last);
    }
  }

  // ---------------------------------------------------------------- calls

  datatype Call = Call(sessionId: string, delta: Delta, now: string)

  /** The tables after a list of UpsertDelta calls on a new store. */
  function Stored(calls: seq<Call>): Tables {
    if calls == [] then Tables(map[], map[])
    else
      var c := calls[|calls| - 1];
      Upserted(Stored(calls[..|calls| - 1]), c.sessionId, c.delta, c.now)
  }

  /** The store in memory after the same calls. */
  function Kept(calls: seq<Call>): Memory {
    if calls == [] then Memory(Blank(""), false)
    else
      var c := calls[|calls| - 1];
      Remembered(Kept(calls[..|calls| - 1]), c.sessionId, c.delta)
  }

  function Heard(c: Call, sessionId: string): seq<Delta> {
    if c.sessionId == sessionId && !c.delta.Empty() then [c.delta] else []
  }

  /** The deltas that told something about one session. */
  function DeltasFor(calls: seq<Call>, sessionId: string): seq<Delta> {
    if calls == [] then []
    else
      DeltasFor(calls[..|calls| - 1], sessionId) + Heard(calls[|calls| - 1], sessionId)
  }

  function Deltas(calls: seq<Call>): seq<Delta> {
    if calls == [] then [] else Deltas(calls[..|calls| - 1]) + [calls[|calls| - 1].delta]
  }

  // ---------------------------------------------------------------- the tables

  /** Each equipment row belongs to a snapshot row and carries its time. */
  predicate Stamped(t: Tables) {
    forall k | k in t.equipment ::
      k.0 in t.snapshots && t.equipment[k].updatedAt == t.snapshots[k.0].updatedAt
  }

  /** A row gives back the snapshot it was made from: NULL columns, JSON null and all. */
  lemma RowRoundTrip(s: Snapshot)
    ensures PromptOf(ToRow(s)) == s.prompt
    ensures Unmarshal(ToRow(s).statusTags) == s.statusTags
    ensures ToRow(s).location == s.location && ToRow(s).updatedAt == s.updatedAt
  {
  }

  lemma OtherEquipmentStays(
    table: EquipmentTable, sessionId: string, equipment: map<string, string>, now: string, other: string)
    requires other != sessionId
    ensures EquipmentOf(WithEquipment(table, sessionId, equipment, now), other) == EquipmentOf(table, other)
  {
    var a, b := EquipmentOf(WithEquipment(table, sessionId, equipment, now), other), EquipmentOf(table, other);
    assert a.Keys == b.Keys;
  }

  lemma OtherSessionStays(t: Tables, sessionId: string, delta: Delta, now: string, other: string)
    requires other != sessionId
    ensures Loaded(Upserted(t, sessionId, delta, now), other) == Loaded(t, other)
  {
    if sessionId != "" && !delta.Empty() {
      var current := if Loaded(t, sessionId).Some? then Loaded(t, sessionId).value else Blank(sessionId);
      OtherEquipmentStays(t.equipment, sessionId, Merged(current, delta).equipment, now, other);
    }
  }

  /** What is read back is what was merged, although equipment rows are never deleted. */
  lemma UpsertIsRead(t: Tables, sessionId: string, delta: Delta, now: string)
    requires Stamped(t) && sessionId != "" && !delta.Empty()
    ensures var current := if Loaded(t, sessionId).Some? then Loaded(t, sessionId).value else Blank(sessionId);
            Loaded(Upserted(t, sessionId, delta, now), sessionId) ==
              Some(Merged(current, delta).(sessionId := sessionId, updatedAt := now))
  {
    var current := if Loaded(t, sessionId).Some? then Loaded(t, sessionId).value else Blank(sessionId);
    var merged := Merged(current, delta).(sessionId := sessionId, updatedAt := now);
    RowRoundTrip(merged);
    forall slot | (sessionId, slot) in t.equipment
      ensures slot in merged.equipment
    {
      assert slot in EquipmentOf(t.equipment, sessionId);
    }
    EquipmentIsRead(t.equipment, sessionId, merged.equipment, now);
  }

  lemma EquipmentIsRead(table: EquipmentTable, sessionId: string, equipment: map<string, string>, now: string)
    requires forall slot | (sessionId, slot) in table :: slot in equipment
    ensures EquipmentOf(WithEquipment(table, sessionId, equipment, now), sessionId) == equipment
  {
    assert EquipmentOf(WithEquipment(table, sessionId, equipment, now), sessionId).Keys == equipment.Keys;
  }

  lemma UpsertStamps(t: Tables, sessionId: string, delta: Delta, now: string)
    requires Stamped(t)
    ensures Stamped(Upserted(t, sessionId, delta, now))
  {
    if sessionId != "" && !delta.Empty() {
      var t' := Upserted(t, sessionId, delta, now);
      forall k | k in t'.equipment
        ensures k.0 in t'.snapshots && t'.equipment[k].updatedAt == t'.snapshots[k.0].updatedAt
      {
        if k.0 == sessionId && k in t.equipment {
          assert k.1 in EquipmentOf(t.equipment, sessionId);
        }
      }
    }
  }

  /** All equipment rows of a session carry the time of its snapshot row, and none is an orphan. */
  lemma {:induction false} RowsAreStamped(calls: seq<Call>)
    ensures Stamped(Stored(calls))
  {
    if calls != [] {
      var c := calls[|calls| - 1];
      RowsAreStamped(calls[..|calls| - 1]);
      UpsertStamps(Stored(calls[..|calls| - 1]), c.sessionId, c.delta, c.now);
    }
  }

  /** For one session the tables hold the fold of these deltas; they hold nothing for the unnamed one. */
  predicate HoldsFold(t: Tables, sessionId: string, deltas: seq<Delta>) {
    var r := Loaded(t, sessionId);
    && (r.Some? <==> sessionId != "" && deltas != [])
    && (r.Some? ==> r.value.sessionId == sessionId && Content(r.value) == Composed(deltas))
  }

  lemma UpsertFolds(t: Tables, sessionId: string, delta: Delta, now: string, deltas: seq<Delta>)
    requires Stamped(t) && HoldsFold(t, sessionId, deltas) && sessionId != "" && !delta.Empty()
    ensures HoldsFold(Upserted(t, sessionId, delta, now), sessionId, deltas + [delta])
  {
    var current := if Loaded(t, sessionId).Some? then Loaded(t, sessionId).value else Blank(sessionId);
    UpsertIsRead(t, sessionId, delta, now);
    ComposedSnoc(deltas, delta);
    MergeActs(current, delta, NOTHING);
    assert Content(current) == Composed(deltas);
  }

  lemma CallFolds(t: Tables, c: Call, sessionId: string, deltas: seq<Delta>)
    requires Stamped(t) && HoldsFold(t, sessionId, deltas)
    ensures HoldsFold(Upserted(t, c.sessionId, c.delta, c.now), sessionId, deltas + Heard(c, sessionId))
  {
    if c.sessionId == sessionId && sessionId != "" && !c.delta.Empty() {
      UpsertFolds(t, sessionId, c.delta, c.now, deltas);
    } else {
      CallTellsNothing(t, c, sessionId);
      if sessionId != "" {
        assert deltas + Heard(c, sessionId) == deltas;
      }
    }
  }

  lemma CallTellsNothing(t: Tables, c: Call, sessionId: string)
    requires c.sessionId != sessionId || sessionId == "" || c.delta.Empty()
    ensures Loaded(Upserted(t, c.sessionId, c.delta, c.now), sessionId) == Loaded(t, sessionId)
  {
    if c.sessionId != sessionId {
      OtherSessionStays(t, c.sessionId, c.delta, c.now, sessionId);
    }
  }

  /** The two tables hold, for each session, the fold of the deltas about it; the unnamed session is never stored. */
  lemma {:induction false} TablesAreFold(calls: seq<Call>, sessionId: string)
    ensures HoldsFold(Stored(calls), sessionId, DeltasFor(calls, sessionId))
  {
    if calls != [] {
      var before, c := calls[..|calls| - 1], calls[|calls| - 1];
      TablesAreFold(before, sessionId);
      RowsAreStamped(before);
      CallFolds(Stored(before), c, sessionId, DeltasFor(before, sessionId));
    }
  }

  // ---------------------------------------------------------------- the store in memory

  /** The session that GetLatest names: the last one that had a name. */
  function LastNamed(calls: seq<Call>): string {
    if calls == [] then ""
    else if calls[|calls| - 1].sessionId != "" then calls[|calls| - 1].sessionId
    else LastNamed(calls[..|calls| - 1])
  }

  /** The store in memory holds the fold of all deltas of all sessions. */
  lemma {:induction false} MemoryIsFold(calls: seq<Call>)
    ensures Kept(calls).found <==> calls != []
    ensures Content(Kept(calls).snapshot) == Composed(Deltas(calls))
    ensures Kept(calls).snapshot.sessionId == LastNamed(calls)
  {
    if calls != [] {
      var before, c := calls[..|calls| - 1], calls[|calls| - 1];
      MemoryIsFold(before);
      ComposedSnoc(Deltas(before), c.delta);
      MergeActs(if Kept(before).found then Kept(before).snapshot else Blank(c.sessionId), c.delta, NOTHING);
    }
  }

  // ---------------------------------------------------------------- agreement

  /** What Ingest lets through: deltas that are not empty; and all for one session. */
  predicate OneSession(calls: seq<Call>, sessionId: string) {
    forall i | 0 <= i < |calls| :: calls[i].sessionId == sessionId && !calls[i].delta.Empty()
  }

  lemma {:induction false} OneSessionDeltas(calls: seq<Call>, sessionId: string)
    requires OneSession(calls, sessionId)
    ensures DeltasFor(calls, sessionId) == Deltas(calls)
    ensures |Deltas(calls)| == |calls| && (calls != [] ==> LastNamed(calls) == sessionId)
  {
    if calls != [] {
      var before := calls[..|calls| - 1];
      OneSessionDeltas(before, sessionId);
      assert sessionId == "" && before == [] ==> LastNamed(before) == "";
    }
  }

  /** For one named session the two stores answer alike, and both are the fold. */
  lemma StoresAgree(calls: seq<Call>, sessionId: string)
    requires sessionId != "" && OneSession(calls, sessionId)
    ensures var sql, memory := Loaded(Stored(calls), sessionId), Kept(calls);
            && (sql.Some? <==> memory.found)
            && (sql.Some? ==>
                  && sql.value.sessionId == memory.snapshot.sessionId == sessionId
                  && Content(sql.value) == Content(memory.snapshot) == Composed(Deltas(calls)))
  {
    TablesAreFold(calls, sessionId);
    MemoryIsFold(calls);
    OneSessionDeltas(calls, sessionId);
  }

  /** A text with the time of the store's clock when it was ingested. */
  datatype Arrival = Arrival(text: string, now: string)

  /** The calls that Ingest makes for the texts of one session: it drops a delta that is empty. */
  function Ingested(parse: string -> Delta, sessionId: string, texts: seq<Arrival>): seq<Call> {
    if texts == [] then []
    else
      var last := texts[|texts| - 1];
      Ingested(parse, sessionId, texts[..|texts| - 1])
      + if parse(last.text).Empty() then [] else [Call(sessionId, parse(last.text), last.now)]
  }

  function Told(parse: string -> Delta, texts: seq<Arrival>): Delta {
    if texts == [] then NOTHING
    else Compose(Told(parse, texts[..|texts| - 1]), parse(texts[|texts| - 1].text))
  }

  lemma {:induction false} IngestTells(parse: string -> Delta, sessionId: string, texts: seq<Arrival>)
    ensures OneSession(Ingested(parse, sessionId, texts), sessionId)
    ensures Composed(Deltas(Ingested(parse, sessionId, texts))) == Told(parse, texts)
  {
    if texts != [] {
      var before, last := texts[..|texts| - 1], texts[|texts| - 1];
      IngestTells(parse, sessionId, before);
      var calls, d := Ingested(parse, sessionId, before), parse(last.text);
      if d.Empty() {
        ComposeUnit(d);
        ComposeUnit(Told(parse, before));
        assert Ingested(parse, sessionId, texts) == calls;
      } else {
        assert (calls + [Call(sessionId, d, last.now)])[..|calls|] == calls;
        ComposedSnoc(Deltas(calls), d);
      }
    }
  }

  /** Whatever the parser is, either store answers with everything the session's texts told, the later text winning. */
  lemma IngestIsFold(parse: string -> Delta, sessionId: string, texts: seq<Arrival>)
    requires sessionId != ""
    ensures var calls := Ingested(parse, sessionId, texts);
            var sql, memory := Loaded(Stored(calls), sessionId), Kept(calls);
            && (sql.Some? <==> memory.found) && (memory.found <==> !Told(parse, texts).Empty())
            && (sql.Some? ==> Content(sql.value) == Content(memory.snapshot) == Told(parse, texts))
  {
    var calls := Ingested(parse, sessionId, texts);
    IngestTells(parse, sessionId, texts);
    StoresAgree(calls, sessionId);
    MemoryIsFold(calls);
    if calls != [] {
      ComposedNotEmpty(Deltas(calls[..|calls| - 1]), calls[|calls| - 1].delta);
    }
  }

  /** What was told is never taken back. */
  lemma ComposedNotEmpty(deltas: seq<Delta>, d: Delta)
    requires !d.Empty()
    ensures !Composed(deltas + [d]).Empty()
  {
    ComposedSnoc(deltas, d);
    ComposeUnit(d);
    ComposeUnit(Compose(Composed(deltas), d));
    assert d.equipment.Keys <= Compose(Composed(deltas), d).equipment.Keys;
  }

  /** They do not for the unnamed session: memory keeps what the tables refuse. */
  lemma UnnamedSessionDiffers(calls: seq<Call>)
    requires calls != [] && OneSession(calls, "")
    ensures Kept(calls).found && Content(Kept(calls).snapshot) == Composed(Deltas(calls))
    ensures forall sessionId :: Loaded(Stored(calls), sessionId) == None
  {
    MemoryIsFold(calls);
    forall sessionId
      ensures Loaded(Stored(calls), sessionId) == None
    {
      TablesAreFold(calls, sessionId);
      if sessionId != "" {
        NoDeltasForOther(calls, "", sessionId);
      }
    }
  }

  // ---------------------------------------------------------------- part by part

  /** What the last delta that tells this part tells. */
  function LastTold<T>(deltas: seq<Delta>, tell: Delta -> Option<T>): Option<T> {
    if deltas == [] then None
    else
      var last := tell(deltas[|deltas| - 1]);
      if last.Some? then last else LastTold(deltas[..|deltas| - 1], tell)
  }

  function TellLocation(d: Delta): Option<string> { if d.location != "" then Some(d.location) else None }

  function TellPrompt(d: Delta): Option<Prompt> { d.prompt }

  function TellTags(d: Delta): Option<seq<string>> { if |d.statusTags| > 0 then Some(d.statusTags) else None }

  function TellItem(slot: string): Delta -> Option<string> {
    (d: Delta) => if slot in d.equipment then Some(d.equipment[slot]) else None
  }

  /** The fold keeps of each part what was told of it last. */
  lemma {:induction false} FoldIsLastTold(deltas: seq<Delta>, slot: string)
    ensures TellLocation(Composed(deltas)) == LastTold(deltas, TellLocation)
    ensures TellPrompt(Composed(deltas)) == LastTold(deltas, TellPrompt)
    ensures TellTags(Composed(deltas)) == LastTold(deltas, TellTags)
    ensures TellItem(slot)(Composed(deltas)) == LastTold(deltas, TellItem(slot))
  {
    if deltas != [] {
      FoldIsLastTold(deltas[..|deltas| - 1], slot);
    }
  }

  /** Two contents are equal exactly if they tell the same of every part. */
  lemma SameParts(a: Delta, b: Delta)
    ensures a == b <==>
            && TellLocation(a) == TellLocation(b) && TellPrompt(a) == TellPrompt(b) && TellTags(a) == TellTags(b)
            && forall slot :: TellItem(slot)(a) == TellItem(slot)(b)
  {
    if forall slot :: TellItem(slot)(a) == TellItem(slot)(b) {
      forall slot
        ensures slot in a.equipment <==> slot in b.equipment
        ensures slot in a.equipment ==> a.equipment[slot] == b.equipment[slot]
      {
        assert TellItem(slot)(a) == TellItem(slot)(b);
      }
      assert a.equipment == b.equipment;
    }
  }

  /** The last that was told of this part by anybody is the last that was told of it about this session. */
  predicate SameLast<T(==)>(calls: seq<Call>, sessionId: string, tell: Delta -> Option<T>) {
    LastTold(Deltas(calls), tell) == LastTold(DeltasFor(calls, sessionId), tell)
  }

  /** Whatever the calls, the store in memory and the tables agree on a named session that was told about, if and
      only if, part by part and slot by slot, nobody told something else after the session's own last word. */
  lemma StoresAgreeExactly(calls: seq<Call>, sessionId: string)
    requires sessionId != "" && DeltasFor(calls, sessionId) != []
    ensures Loaded(Stored(calls), sessionId).Some?
    ensures Content(Kept(calls).snapshot) == Content(Loaded(Stored(calls), sessionId).value) <==>
            && SameLast(calls, sessionId, TellLocation) && SameLast(calls, sessionId, TellPrompt)
            && SameLast(calls, sessionId, TellTags) && forall slot :: SameLast(calls, sessionId, TellItem(slot))
  {
    TablesAreFold(calls, sessionId);
    MemoryIsFold(calls);
    var a, b := Composed(Deltas(calls)), Composed(DeltasFor(calls, sessionId));
    SameParts(a, b);
    FoldIsLastTold(Deltas(calls), "");
    FoldIsLastTold(DeltasFor(calls, sessionId), "");
    forall slot
      ensures TellItem(slot)(a) == TellItem(slot)(b) <==> SameLast(calls, sessionId, TellItem(slot))
    {
      FoldIsLastTold(Deltas(calls), slot);
      FoldIsLastTold(DeltasFor(calls, sessionId), slot);
    }
  }

  /** The session whose call told this part last. */
  function LastTeller<T>(calls: seq<Call>, tell: Delta -> Option<T>): Option<string> {
    if calls == [] then None
    else
      var c := calls[|calls| - 1];
      if tell(c.delta).Some? then Some(c.sessionId) else LastTeller(calls[..|calls| - 1], tell)
  }

  /** Where nobody told the part, or the session itself told it last, its last word stands. */
  lemma {:induction false} OwnLastWordStands<T>(calls: seq<Call>, sessionId: string, tell: Delta -> Option<T>)
    requires forall d: Delta | d.Empty() :: tell(d) == None
    requires LastTeller(calls, tell) in {None, Some(sessionId)}
    ensures SameLast(calls, sessionId, tell)
  {
    if calls != [] {
      var before, c := calls[..|calls| - 1], calls[|calls| - 1];
      var deltas, own := DeltasFor(before, sessionId), DeltasFor(calls, sessionId);
      if tell(c.delta).Some? {
        assert own == deltas + [c.delta];
      } else {
        OwnLastWordStands(before, sessionId, tell);
        assert own == deltas || own == deltas + [c.delta];
        if own == deltas + [c.delta] {
          assert own[..|own| - 1] == deltas;
        }
      }
    }
  }

  /** Nor for two sessions: memory answers with what was told about either, the tables keep them apart. */
  lemma TwoSessionsDiffer(before: seq<Call>, a: string, b: string, slot: string, e: Delta, now: string)
    requires a != "" && b != "" && a != b && before != [] && OneSession(before, a)
    requires slot in Composed(Deltas(before)).equipment && slot !in e.equipment && !e.Empty()
    ensures var calls := before + [Call(b, e, now)];
            && Loaded(Stored(calls), b).Some? && slot !in Loaded(Stored(calls), b).value.equipment
            && slot in Kept(calls).snapshot.equipment && Kept(calls).snapshot.sessionId == b
  {
    var calls := before + [Call(b, e, now)];
    assert calls[..|calls| - 1] == before;
    TablesAreFold(calls, b);
    MemoryIsFold(calls);
    ComposedSnoc(Deltas(before), e);
    NoDeltasForOther(before, a, b);
    assert DeltasFor(calls, b) == [e];
    ComposedSnoc([], e);
    ComposeUnit(e);
    assert [] + [e] == [e];
  }

  lemma {:induction false} NoDeltasForOther(calls: seq<Call>, sessionId: string, other: string)
    requires other != sessionId && OneSession(calls, sessionId)
    ensures DeltasFor(calls, other) == []
  {
    if calls != [] {
      NoDeltasForOther(calls[..|calls| - 1], sessionId, other);
    }
  }
}
