/** The `final_answer` table (server_modules/models.py): one row per session
    id holding when the session started, when it ended and its final answer.

    The table is a map from session id to row, so the primary key holds by
    construction. The database's `now()` is the parameter `now`; engines,
    connections and commits are not modelled. */
module SessionStore {

  import opened Results
  import opened JsonValues

  type Timestamp = int

  /** A `FinalAnswerModel` row without its key; `None` is SQL NULL. */
  datatype Record = Record(startTime: Timestamp, endTime: Option<Timestamp>, finalAnswer: Option<Json>)

  /** The `ValueError` raised when finalizing a session that has no row. */
  datatype NotFound = NoRecordFound(sessionId: string)

  /** The table after `add_new_record(id)`: a new session gets a row that
      only has its start time; a known one is reset to a fresh start with an
      empty answer, even after it was finalized. */
  function AddNewRecordTable(table: map<string, Record>, id: string, now: Timestamp): (t: map<string, Record>)
    ensures t.Keys == table.Keys + {id}
    ensures t[id].startTime == now && t[id].endTime == None
    ensures id !in table ==> t[id].finalAnswer == None
    ensures id in table ==> t[id].finalAnswer == Some(EmptyObject)
    ensures forall other :: other in table && other != id ==> t[other] == table[other]
  {
    if id !in table then table[id := Record(now, None, None)]
    else table[id := Record(now, None, Some(EmptyObject))]
  }

  /** The table after `update_record_with_final_answer(id, answer)`: an
      unknown session raises and nothing is written; a known session keeps
      its start time and gets the answer and an end time. */
  function FinalAnswerTable(table: map<string, Record>, id: string, answer: Json, now: Timestamp)
    : (r: Result<map<string, Record>, NotFound>)
    ensures r.Err? <==> id !in table
    ensures r.Err? ==> r.error == NoRecordFound(id)
    ensures r.Ok? ==> && r.value.Keys == table.Keys
                      && r.value[id].startTime == table[id].startTime
                      && r.value[id].finalAnswer == Some(answer)
                      && r.value[id].endTime == Some(now)
                      && forall other :: other in table && other != id ==> r.value[other] == table[other]
  {
    if id !in table then Err(NoRecordFound(id))
    else Ok(table[id := table[id].(finalAnswer := Some(answer), endTime := Some(now))])
  }

  /** Restarting a finalized session forgets the finalization: the table is
      the one restarting would have given without it. */
  lemma RestartErasesFinalAnswer(table: map<string, Record>, id: string, answer: Json, t1: Timestamp, t2: Timestamp)
    requires id in table
    ensures FinalAnswerTable(table, id, answer, t1).Ok?
    ensures AddNewRecordTable(FinalAnswerTable(table, id, answer, t1).value, id, t2)
         == AddNewRecordTable(table, id, t2)
  {
  }

  /** Start, finalize, start again: the row is back to a fresh start with an
      empty answer and no end time. */
  lemma StartFinalizeRestart(table: map<string, Record>, id: string, answer: Json, t1: Timestamp, t2: Timestamp, t3: Timestamp)
    ensures var started := AddNewRecordTable(table, id, t1);
            var finalized := FinalAnswerTable(started, id, answer, t2);
            && finalized.Ok?
            && finalized.value[id] == Record(t1, Some(t2), Some(answer))
            && AddNewRecordTable(finalized.value, id, t3)[id] == Record(t3, None, Some(EmptyObject))
  {
    var started := AddNewRecordTable(table, id, t1);
    var finalized := FinalAnswerTable(started, id, answer, t2);
    assert finalized.value[id] == Record(t1, Some(t2), Some(answer));
  }

  /** Finalizing twice with the same answer at the same time is finalizing once. */
  lemma FinalizeIdempotent(table: map<string, Record>, id: string, answer: Json, now: Timestamp)
    requires id in table
    ensures var once := FinalAnswerTable(table, id, answer, now);
            once.Ok? && FinalAnswerTable(once.value, id, answer, now) == once
  {
    var t := FinalAnswerTable(table, id, answer, now).value;
    assert t[id].(finalAnswer := Some(answer), endTime := Some(now)) == t[id];
    assert t[id := t[id]] == t;
  }

  /** The persistent table, updated in place by the two operations. */
  class FinalAnswerStore {
    var rows: map<string, Record>

    constructor ()
      ensures rows == map[]
    {
      rows := map[];
    }

    /** `add_new_record`: select the session's row, then insert or reset it. */
    method AddNewRecord(newSessionId: string, now: Timestamp)
      modifies this
      ensures rows == AddNewRecordTable(old(rows), newSessionId, now)
    {
      var found := newSessionId in rows;
      if !found {
        rows := rows[newSessionId := Record(now, None, None)];
      } else {
        rows := rows[newSessionId := Record(now, None, Some(EmptyObject))];
      }
    }

    /** `update_record_with_final_answer`: select the session's row, raise if
        there is none, otherwise record the answer and the end time. */
    method UpdateRecordWithFinalAnswer(sessionId: string, finalAnswer: Json, now: Timestamp)
      returns (err: Option<NotFound>)
      modifies this
      ensures err.Some? <==> sessionId !in old(rows)
      ensures err.Some? ==> err.value == NoRecordFound(sessionId) && rows == old(rows)
      ensures err.None? ==> rows == FinalAnswerTable(old(rows), sessionId, finalAnswer, now).value
    {
      if sessionId !in rows {
        return Some(NoRecordFound(sessionId));
      }
      var record := rows[sessionId];
      rows := rows[sessionId := Record(record.startTime, Some(now), Some(finalAnswer))];
      return None;
    }
  }
}
