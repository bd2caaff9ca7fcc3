/**
 * The in-memory session store (backend/services/session_manager.py): one
 * record per session id and, per session, the list of conversation
 * snapshots taken so far.  The JSON files the store mirrors itself to are
 * not modelled, and the clock is a parameter of every operation that reads
 * it.
 */
module SessionManager {
  import opened Wrappers
  import opened Values

  /** A session record: the keys of the Python dict and their values. */
  type Record = Dict

  datatype Snapshot = Snapshot(timestamp: string, state: Record, files: map<string, Value>, description: string)

  /** The file name under which a snapshot keeps the session's current content. */
  const BidFile: string := "投标文件.md"

  /** The record `get_session` creates for an unknown id, with `now` read from the clock. */
  function NewRecord(id: string, now: string): (r: Record)
    ensures r.Keys == {"session_id", "created_at", "last_activity", "conversation_history", "metadata"}
    ensures r["session_id"] == Str(id) && r["conversation_history"] == Items([]) && r["metadata"] == Obj(map[])
    ensures r["created_at"] == Str(now) && r["last_activity"] == Str(now)
  {
    map["session_id" := Str(id), "created_at" := Str(now), "last_activity" := Str(now),
        "conversation_history" := Items([]), "metadata" := Obj(map[])]
  }

  /** `record.update(data)` followed by stamping `last_activity`. */
  function Updated(rec: Record, data: Record, now: string): (r: Record)
    ensures r.Keys == rec.Keys + data.Keys + {"last_activity"}
    ensures r["last_activity"] == Str(now)
    ensures forall k :: k in data && k != "last_activity" ==> r[k] == data[k]
    ensures forall k :: k in rec && k !in data && k != "last_activity" ==> r[k] == rec[k]
  {
    (rec + data)["last_activity" := Str(now)]
  }

  /** The files a snapshot of `rec` carries: the bid document iff `current_content` is truthy. */
  function SnapshotFiles(rec: Record): (f: map<string, Value>)
    ensures BidFile in f <==> "current_content" in rec && Truthy(rec["current_content"])
    ensures f.Keys <= {BidFile}
    ensures BidFile in f ==> f[BidFile] == rec["current_content"]
  {
    if "current_content" in rec && Truthy(rec["current_content"]) then map[BidFile := rec["current_content"]]
    else map[]
  }

  /**
   * The keys of `WorkflowState` (backend/workflow/state.py:6-22), the type of
   * a snapshot's `state` field.
   */
  const WorkflowStateKeys: set<string> := {
    "user_input", "uploaded_files", "file_summaries", "research_results", "plan",
    "plan_confirmed", "current_content", "selected_text", "surrounding_context",
    "optimization_goal", "conversation_history", "session_id", "current_action",
    "current_stage", "files_to_create", "metadata"}

  /**
   * Validating a record as a `WorkflowState` when a snapshot is built: a
   * record that lacks one of the sixteen keys is rejected (None), and the
   * keys outside them are dropped.
   */
  function AsWorkflowState(rec: Record): (r: Option<Record>)
    ensures r.Some? <==> WorkflowStateKeys <= rec.Keys
    ensures r.Some? ==> r.value.Keys == WorkflowStateKeys
    ensures r.Some? ==> forall k :: k in r.value ==> r.value[k] == rec[k]
  {
    if WorkflowStateKeys <= rec.Keys then Some(map k | k in WorkflowStateKeys :: rec[k]) else None
  }

  /** A record `get_session` has just created cannot be snapshotted: it lacks `user_input`, among others. */
  lemma FreshRecordRejected(id: string, now: string)
    ensures AsWorkflowState(NewRecord(id, now)) == None
  {
    assert "user_input" in WorkflowStateKeys;
    assert "user_input" !in NewRecord(id, now);
  }

  /** Index of the first snapshot taken at `ts`, or -1. */
  function FirstAt(snaps: seq<Snapshot>, ts: string): (r: int)
    ensures -1 <= r < |snaps|
    ensures r >= 0 ==> snaps[r].timestamp == ts
    ensures r == -1 ==> forall j :: 0 <= j < |snaps| ==> snaps[j].timestamp != ts
    ensures r >= 0 ==> forall j :: 0 <= j < r ==> snaps[j].timestamp != ts
  {
    if snaps == [] then -1
    else if snaps[0].timestamp == ts then 0
    else
      var k := FirstAt(snaps[1..], ts);
      if k == -1 then -1 else k + 1
  }

  /** A snapshot appended after the others is found by its timestamp when no older one shares it. */
  lemma {:induction false} FindsAppended(snaps: seq<Snapshot>, s: Snapshot)
    requires forall j :: 0 <= j < |snaps| ==> snaps[j].timestamp != s.timestamp
    ensures FirstAt(snaps + [s], s.timestamp) == |snaps|
  {
    if snaps != [] {
      assert (snaps + [s])[1..] == snaps[1..] + [s];
      FindsAppended(snaps[1..], s);
    }
  }

  /** Appending never changes which older snapshot is found first. */
  lemma {:induction false} AppendKeepsFirst(snaps: seq<Snapshot>, s: Snapshot, ts: string)
    requires FirstAt(snaps, ts) >= 0
    ensures FirstAt(snaps + [s], ts) == FirstAt(snaps, ts)
  {
    if snaps[0].timestamp != ts {
      assert (snaps + [s])[1..] == snaps[1..] + [s];
      AppendKeepsFirst(snaps[1..], s, ts);
    }
  }

  class SessionManager {
    var sessions: map<string, Record>
    var snapshots: map<string, seq<Snapshot>>

    /**
     * Every snapshot list belongs to a known session and is non-empty: a
     * list is only created by `create_snapshot`, which first makes sure the
     * session exists, and only `delete_session` removes either.  Every
     * snapshot's state holds exactly the keys of a `WorkflowState`.
     */
    predicate Valid()
      reads this
    {
      && snapshots.Keys <= sessions.Keys
      && (forall id :: id in snapshots ==> snapshots[id] != [])
      && (forall id, j :: id in snapshots && 0 <= j < |snapshots[id]| ==> snapshots[id][j].state.Keys == WorkflowStateKeys)
    }

    /** A store without sessions; loading the files of an earlier run is not modelled. */
    constructor ()
      ensures Valid()
      ensures sessions == map[] && snapshots == map[]
    {
      sessions := map[];
      snapshots := map[];
    }

    /** `get_session`: the existing record, or a fresh one that is stored first. */
    method GetSession(id: string, now: string) returns (r: Record)
      requires Valid()
      modifies this
      ensures Valid()
      ensures id in old(sessions) ==> r == old(sessions)[id] && sessions == old(sessions)
      ensures id !in old(sessions) ==> r == NewRecord(id, now) && sessions == old(sessions)[id := r]
      ensures snapshots == old(snapshots)
    {
      if id !in sessions {
        sessions := sessions[id := NewRecord(id, now)];
      }
      r := sessions[id];
    }

    /** `update_session`: merge `data` into the record (creating it empty first) and stamp it. */
    method UpdateSession(id: string, data: Record, now: string)
      requires Valid()
      modifies this
      ensures Valid()
      ensures sessions == old(sessions)[id := Updated(if id in old(sessions) then old(sessions)[id] else map[], data, now)]
      ensures snapshots == old(snapshots)
    {
      var rec: Record := if id in sessions then sessions[id] else map[];
      sessions := sessions[id := Updated(rec, data, now)];
    }

    /** `delete_session`: forget the session and its snapshots; an unknown id is not an error. */
    method DeleteSession(id: string)
      requires Valid()
      modifies this
      ensures Valid()
      ensures sessions == old(sessions) - {id}
      ensures snapshots == old(snapshots) - {id}
    {
      if id in sessions {
        sessions := sessions - {id};
      }
      if id in snapshots {
        snapshots := snapshots - {id};
      }
    }

    /** `list_sessions`: every stored record, by id. */
    function ListSessions(): (r: map<string, Record>)
      reads this
      ensures r.Keys == sessions.Keys
      ensures forall id :: id in r ==> r[id] == sessions[id]
    {
      sessions
    }

    /** `get_snapshots`: the session's snapshots in the order they were taken, [] for an unknown id. */
    function GetSnapshots(id: string): (r: seq<Snapshot>)
      reads this
      ensures id !in snapshots ==> r == []
      ensures id in snapshots ==> r == snapshots[id]
      ensures Valid() && id !in sessions ==> r == []
    {
      if id in snapshots then snapshots[id] else []
    }

    /**
     * `create_snapshot`: the (possibly new) record is validated as a
     * `WorkflowState`; a record that fails raises (None) and no snapshot is
     * taken, otherwise the snapshot of the validated state and the record's
     * files is appended to the session's list.
     */
    method CreateSnapshot(id: string, description: string, now: string) returns (snap: Option<Snapshot>)
      requires Valid()
      modifies this
      ensures Valid()
      ensures sessions == old(if id in sessions then sessions else sessions[id := NewRecord(id, now)])
      ensures snap.None? <==> AsWorkflowState(sessions[id]).None?
      ensures snap.None? ==> snapshots == old(snapshots)
      ensures snap.Some? ==> snap.value == Snapshot(now, AsWorkflowState(sessions[id]).value, SnapshotFiles(sessions[id]), description)
      ensures snap.Some? ==> snapshots == old(snapshots)[id := old(GetSnapshots(id)) + [snap.value]]
    {
      var rec := GetSession(id, now);
      var state := AsWorkflowState(rec);
      if state.None? {
        return None;
      }
      var s := Snapshot(now, state.value, SnapshotFiles(rec), description);
      var list := if id in snapshots then snapshots[id] else [];
      snapshots := snapshots[id := list + [s]];
      snap := Some(s);
    }

    /**
     * `restore_snapshot`: the session becomes the state of the first snapshot
     * taken at `ts`; without one, the error `Snapshot not found: <ts>` is
     * returned and nothing changes.
     */
    method RestoreSnapshot(id: string, ts: string) returns (err: Option<string>)
      requires Valid()
      modifies this
      ensures Valid()
      ensures snapshots == old(snapshots)
      ensures err.Some? <==> FirstAt(GetSnapshots(id), ts) == -1
      ensures err.Some? ==> err.value == "Snapshot not found: " + ts && sessions == old(sessions)
      ensures err.None? ==> sessions == old(sessions)[id := GetSnapshots(id)[FirstAt(GetSnapshots(id), ts)].state]
      ensures err.None? ==> sessions[id].Keys == WorkflowStateKeys
    {
      var snaps := GetSnapshots(id);
      var i := 0;
      while i < |snaps|
        invariant 0 <= i <= |snaps|
        invariant forall j :: 0 <= j < i ==> snaps[j].timestamp != ts
      {
        if snaps[i].timestamp == ts {
          sessions := sessions[id := snaps[i].state];
          return None;
        }
        i := i + 1;
      }
      return Some("Snapshot not found: " + ts);
    }
  }
}
