/**
  * The parsed game state and its two stores (state/parser.go, state/store.go, state/service.go).
  * A nil slice and an empty one are one value here, and so are a nil map and an empty one.
  */
module StateStore {
  import opened Wrappers

  datatype Prompt = Prompt(hpCurrent: int, hpMax: int, maCurrent: int, maMax: int, mvCurrent: int, mvMax: int, exp: int)

  /** What one text told about the state; absent parts are empty. */
  datatype Delta = Delta(
    location: string, prompt: Option<Prompt>, statusTags: seq<string>, equipment: map<string, string>)
  {
    predicate Empty() { location == "" && prompt == None && |statusTags| == 0 && |equipment| == 0 }
  }

  datatype Snapshot = Snapshot(
    sessionId: string, location: string, prompt: Option<Prompt>, statusTags: seq<string>,
    equipment: map<string, string>, updatedAt: string)

  function Blank(sessionId: string): Snapshot { Snapshot(sessionId, "", None, [], map[], "") }

  /** mergeSnapshot. */
  function Merged(s: Snapshot, d: Delta): Snapshot {
    s.(location := if d.location != "" then d.location else s.location,
       prompt := if d.prompt.Some? then d.prompt else s.prompt,
       statusTags := if |d.statusTags| > 0 then d.statusTags else s.statusTags,
       equipment := s.equipment + d.equipment)
  }

  method MergeSnapshot(snapshot: Snapshot, delta: Delta) returns (merged: Snapshot)
    ensures merged == Merged(snapshot, delta)
  {
    merged := snapshot;
    if delta.location != "" {
      merged := merged.(location := delta.location);
    }
    if delta.prompt.Some? {
      merged := merged.(prompt := delta.prompt);
    }
    if |delta.statusTags| > 0 {
      merged := merged.(statusTags := delta.statusTags);
    }
    if |delta.equipment| > 0 {
      var equipment := CopyInto(merged.equipment, delta.equipment);
      merged := merged.(equipment := equipment);
    } else {
      assert snapshot.equipment + delta.equipment == snapshot.equipment;
    }
  }

  /** for key, value := range entries { into[key] = value }, in any order of the keys. */
  method CopyInto(into: map<string, string>, entries: map<string, string>) returns (r: map<string, string>)
    ensures r == into + entries
  {
    r := into;
    var todo := entries.Keys;
    while todo != {}
      invariant todo <= entries.Keys
      invariant r == into + (entries - todo)
      decreases todo
    {
      var key :| key in todo;
      ghost var before := todo;
      r := r[key := entries[key]];
      todo := todo - {key};
      assert entries - todo == (entries - before)[key := entries[key]];
    }
    assert entries - {} == entries;
  }

  // ---------------------------------------------------------------- the two tables

  /** status_tags_json: a nil slice is written as null. */
  datatype TagsJson = Null | Array(tags: seq<string>)

  function Marshal(tags: seq<string>): TagsJson { if |tags| == 0 then Null else Array(tags) }

  function Unmarshal(json: TagsJson): seq<string> { if json.Null? then [] else json.tags }

  /** A row of state_snapshot; the seven prompt columns may be NULL. */
  datatype SnapshotRow = SnapshotRow(
    location: string,
    hpCurrent: Option<int>, hpMax: Option<int>, maCurrent: Option<int>, maMax: Option<int>,
    mvCurrent: Option<int>, mvMax: Option<int>, exp: Option<int>,
    statusTags: TagsJson, updatedAt: string)

  /** A row of state_equipment, found by session and slot. */
  datatype EquipmentRow = EquipmentRow(item: string, updatedAt: string)

  type EquipmentTable = map<(string, string), EquipmentRow>

  datatype Tables = Tables(snapshots: map<string, SnapshotRow>, equipment: EquipmentTable)

  function ToRow(s: Snapshot): SnapshotRow {
    if s.prompt.Some? then
      var p := s.prompt.value;
      SnapshotRow(s.location, Some(p.hpCurrent), Some(p.hpMax), Some(p.maCurrent), Some(p.maMax),
                  Some(p.mvCurrent), Some(p.mvMax), Some(p.exp), Marshal(s.statusTags), s.updatedAt)
    else
      SnapshotRow(s.location, None, None, None, None, None, None, None, Marshal(s.statusTags), s.updatedAt)
  }

  /** The prompt columns make a prompt only together. */
  function PromptOf(r: SnapshotRow): Option<Prompt> {
    if r.hpCurrent.Some? && r.hpMax.Some? && r.maCurrent.Some? && r.maMax.Some?
       && r.mvCurrent.Some? && r.mvMax.Some? && r.exp.Some? then
      Some(Prompt(r.hpCurrent.value, r.hpMax.value, r.maCurrent.value, r.maMax.value,
                  r.mvCurrent.value, r.mvMax.value, r.exp.value))
    else None
  }

  /** The items that the equipment rows of one session hold, by slot. */
  function EquipmentOf(table: EquipmentTable, sessionId: string): (r: map<string, string>)
    ensures forall slot :: slot in r <==> (sessionId, slot) in table
    ensures forall slot | slot in r :: r[slot] == table[(sessionId, slot)].item
  {
    var r := map k | k in table && k.0 == sessionId :: k.1 := table[k].item;
    assert forall slot | (sessionId, slot) in table :: (sessionId, slot).1 in r;
    r
  }

  function Loaded(t: Tables, sessionId: string): Option<Snapshot> {
    if sessionId !in t.snapshots then None
    else
      var row := t.snapshots[sessionId];
      Some(Snapshot(sessionId, row.location, PromptOf(row), Unmarshal(row.statusTags),
                    EquipmentOf(t.equipment, sessionId), row.updatedAt))
  }

  /** after is the equipment table before with one row written for each slot of equipment. */
  ghost predicate Upserts(
    after: EquipmentTable, before: EquipmentTable, sessionId: string, equipment: map<string, string>, updatedAt: string)
  {
    && (forall k :: k in after <==> k in before || (k.0 == sessionId && k.1 in equipment))
    && (forall k | k in after ::
          after[k] ==
            if k.0 == sessionId && k.1 in equipment then EquipmentRow(equipment[k.1], updatedAt) else before[k])
  }

  function WithEquipment(before: EquipmentTable, sessionId: string, equipment: map<string, string>, updatedAt: string)
    : (after: EquipmentTable)
    ensures Upserts(after, before, sessionId, equipment, updatedAt)
  {
    var rows := map slot | slot in equipment :: (sessionId, slot) := EquipmentRow(equipment[slot], updatedAt);
    assert forall slot | slot in equipment :: (sessionId, slot) in rows;
    before + rows
  }

  lemma UpsertsOneTable(
    after: EquipmentTable, before: EquipmentTable, sessionId: string, equipment: map<string, string>, updatedAt: string)
    requires Upserts(after, before, sessionId, equipment, updatedAt)
    ensures after == WithEquipment(before, sessionId, equipment, updatedAt)
  {
    var other := WithEquipment(before, sessionId, equipment, updatedAt);
    assert after.Keys == other.Keys;
  }

  lemma UpsertsOneMore(
    after: EquipmentTable, before: EquipmentTable, sessionId: string, equipment: map<string, string>, updatedAt: string,
    slot: string, item: string)
    requires Upserts(after, before, sessionId, equipment, updatedAt)
    ensures Upserts(after[(sessionId, slot) := EquipmentRow(item, updatedAt)],
                    before, sessionId, equipment[slot := item], updatedAt)
  {
    forall k: (string, string)
      ensures k == (sessionId, slot) <==> k.0 == sessionId && k.1 == slot
    {
    }
  }

  /** What UpsertDelta makes of the tables. */
  function Upserted(t: Tables, sessionId: string, delta: Delta, now: string): Tables {
    if sessionId == "" || delta.Empty() then t
    else
      var found := Loaded(t, sessionId);
      var current := if found.Some? then found.value else Blank(sessionId);
      var merged := Merged(current, delta).(sessionId := sessionId, updatedAt := now);
      Tables(t.snapshots[sessionId := ToRow(merged)], WithEquipment(t.equipment, sessionId, merged.equipment, now))
  }

  class SQLiteStore {
    var snapshots: map<string, SnapshotRow>
    var equipment: EquipmentTable

    ghost function Value(): Tables
      reads this
    {
      Tables(snapshots, equipment)
    }

    constructor ()
      ensures Value() == Tables(map[], map[])
    {
      snapshots, equipment := map[], map[];
    }

    method UpsertDelta(sessionId: string, delta: Delta, now: string)
      modifies this
      ensures Value() == Upserted(old(Value()), sessionId, delta, now)
    {
      if sessionId == "" || delta.Empty() {
        return;
      }
      var found := GetBySession(sessionId);
      var current := if found.Some? then found.value else Blank(sessionId);
      current := MergeSnapshot(current, delta);
      current := current.(sessionId := sessionId, updatedAt := now);
      UpsertSnapshot(current);
      UpsertEquipment(current.sessionId, current.equipment, current.updatedAt);
    }

    method UpsertSnapshot(s: Snapshot)
      modifies `snapshots
      ensures snapshots == old(snapshots)[s.sessionId := ToRow(s)]
    {
      var hpCurrent, hpMax, maCurrent, maMax, mvCurrent, mvMax, exp :=
        None, None, None, None, None, None, None;
      if s.prompt.Some? {
        var p := s.prompt.value;
        hpCurrent, hpMax, maCurrent, maMax := Some(p.hpCurrent), Some(p.hpMax), Some(p.maCurrent), Some(p.maMax);
        mvCurrent, mvMax, exp := Some(p.mvCurrent), Some(p.mvMax), Some(p.exp);
      }
      var row := SnapshotRow(s.location, hpCurrent, hpMax, maCurrent, maMax, mvCurrent, mvMax, exp,
                             Marshal(s.statusTags), s.updatedAt);
      snapshots := snapshots[s.sessionId := row];
    }

    method UpsertEquipment(sessionId: string, items: map<string, string>, updatedAt: string)
      modifies `equipment
      ensures equipment == WithEquipment(old(equipment), sessionId, items, updatedAt)
    {
      UpsertsOneTable(equipment, equipment, sessionId, map[], updatedAt);
      if |items| == 0 {
        return;
      }
      var todo := items.Keys;
      ghost var upserted: map<string, string> := map[];
      while todo != {}
        invariant todo <= items.Keys && upserted.Keys == items.Keys - todo
        invariant forall slot | slot in upserted :: upserted[slot] == items[slot]
        invariant Upserts(equipment, old(equipment), sessionId, upserted, updatedAt)
        decreases todo
      {
        var slot :| slot in todo;
        UpsertsOneMore(equipment, old(equipment), sessionId, upserted, updatedAt, slot, items[slot]);
        equipment := equipment[(sessionId, slot) := EquipmentRow(items[slot], updatedAt)];
        upserted := upserted[slot := items[slot]];
        todo := todo - {slot};
      }
      assert upserted == items;
      UpsertsOneTable(equipment, old(equipment), sessionId, items, updatedAt);
    }

    method GetBySession(sessionId: string) returns (r: Option<Snapshot>)
      ensures r == Loaded(Value(), sessionId)
    {
      if sessionId !in snapshots {
        return None;
      }
      var row := snapshots[sessionId];
      var prompt: Option<Prompt> := None;
      if row.hpCurrent.Some? && row.hpMax.Some? && row.maCurrent.Some? && row.maMax.Some?
         && row.mvCurrent.Some? && row.mvMax.Some? && row.exp.Some? {
        prompt := Some(Prompt(row.hpCurrent.value, row.hpMax.value, row.maCurrent.value, row.maMax.value,
                              row.mvCurrent.value, row.mvMax.value, row.exp.value));
      }
      var items := LoadEquipment(sessionId);
      return Some(Snapshot(sessionId, row.location, prompt, Unmarshal(row.statusTags), items, row.updatedAt));
    }

    /** The order in which rows come and in which the map is rebuilt does not matter to the map. */
    method LoadEquipment(sessionId: string) returns (items: map<string, string>)
      ensures items == EquipmentOf(equipment, sessionId)
    {
      items := map[];
      var rows := set k | k in equipment && k.0 == sessionId;
      ghost var all := rows;
      while rows != {}
        invariant rows <= all
        invariant forall slot :: slot in items <==> (sessionId, slot) in all - rows
        invariant forall slot | slot in items :: items[slot] == equipment[(sessionId, slot)].item
        decreases rows
      {
        var k :| k in rows;
        assert k == (sessionId, k.1);
        items := items[k.1 := equipment[k].item];
        rows := rows - {k};
      }
      assert items == EquipmentOf(equipment, sessionId);
      if |items| == 0 {
        return map[];
      }
      assert map[] + items == items;
      items := CopyInto(map[], items);
    }
  }

  // ---------------------------------------------------------------- the store in memory

  datatype Memory = Memory(snapshot: Snapshot, found: bool)

  function Remembered(m: Memory, sessionId: string, delta: Delta): Memory {
    var merged := Merged(if m.found then m.snapshot else Blank(sessionId), delta);
    Memory(if sessionId != "" then merged.(sessionId := sessionId) else merged, true)
  }

  class MemoryStore {
    var snapshot: Snapshot
    var found: bool

    ghost function Value(): Memory
      reads this
    {
      Memory(snapshot, found)
    }

    constructor ()
      ensures Value() == Memory(Blank(""), false)
    {
      snapshot, found := Blank(""), false;
    }

    method UpsertDelta(sessionId: string, delta: Delta)
      modifies this
      ensures Value() == Remembered(old(Value()), sessionId, delta)
    {
      if !found {
        snapshot := Blank(sessionId);
        found := true;
      }
      snapshot := MergeSnapshot(snapshot, delta);
      if sessionId != "" {
        snapshot := snapshot.(sessionId := sessionId);
      }
    }

    method GetLatest() returns (r: Option<Snapshot>)
      ensures r == if Value().found then Some(Value().snapshot) else None
    {
      if !found {
        return None;
      }
      var copy := snapshot;
      if |snapshot.equipment| > 0 {
        var equipment := CopyInto(map[], snapshot.equipment);
        assert map[] + snapshot.equipment == snapshot.equipment;
        copy := copy.(equipment := equipment);
      }
      return Some(copy);
    }
  }
}
