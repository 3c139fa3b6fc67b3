/** The joblock table: one row per held lock, unique by job id and by name. */
module Joblock {
  import opened Common

  type JobId = n: int | 0 < n witness 1
  type Rows = map<JobId, string>

  datatype LockError = IntegrityError | JoblockError | ValueError

  predicate NameTaken(rows: Rows, name: string) {
    exists j :: j in rows && rows[j] == name
  }

  ghost predicate UniqueNames(rows: Rows) {
    forall j, k :: j in rows && k in rows && rows[j] == rows[k] ==> j == k
  }

  class JoblockTable {
    var rows: Rows

    constructor ()
      ensures rows == map[]
    {
      rows := map[];
    }

    /** Query by name, then insert; a second row for the same job violates the primary key. */
    method AcquireLock(name: string, jobId: JobId) returns (r: Result<bool, LockError>)
      requires UniqueNames(rows)
      modifies this
      ensures UniqueNames(rows)
      ensures r == Ok(false) <==> NameTaken(old(rows), name)
      ensures r == Ok(true) <==> !NameTaken(old(rows), name) && jobId !in old(rows)
      ensures r == Err(IntegrityError) <==> !NameTaken(old(rows), name) && jobId in old(rows)
      ensures rows == if r == Ok(true) then old(rows)[jobId := name] else old(rows)
    {
      if NameTaken(rows, name) {
        return Ok(false);
      }
      if jobId in rows {
        return Err(IntegrityError);
      }
      rows := rows[jobId := name];
      return Ok(true);
    }

    /** A job id takes precedence over a name; job id 0 counts as absent. */
    method ReleaseLock(name: Option<string>, jobId: Option<int>) returns (r: Result<bool, LockError>)
      requires UniqueNames(rows)
      modifies this
      ensures UniqueNames(rows)
      ensures r.Ok? ==> r.value
      ensures jobId.Some? && jobId.value > 0 ==>
                rows == old(rows) - {jobId.value} && (r.Ok? <==> jobId.value in old(rows))
      ensures (jobId == None || jobId == Some(0)) && name.Some? && name.value != "" ==>
                && (r.Ok? <==> NameTaken(old(rows), name.value))
                && !NameTaken(rows, name.value)
                && (forall j :: j in rows <==> j in old(rows) && old(rows)[j] != name.value)
                && (forall j :: j in rows ==> rows[j] == old(rows)[j])
      ensures r.Err? ==> rows == old(rows)
      ensures r == Err(ValueError) <==> (jobId == None || jobId == Some(0)) && (name == None || name == Some(""))
      ensures r.Err? ==> r.error in {ValueError, JoblockError}
      ensures jobId.Some? && jobId.value < 0 ==> r == Err(JoblockError)
    {
      if jobId.Some? && jobId.value != 0 {
        if jobId.value < 0 || jobId.value !in rows {
          return Err(JoblockError);
        }
        rows := rows - {jobId.value};
        return Ok(true);
      }
      if name == None || name == Some("") {
        return Err(ValueError);
      }
      if !NameTaken(rows, name.value) {
        return Err(JoblockError);
      }
      var j: JobId :| j in rows && rows[j] == name.value;
      rows := rows - {j};
      return Ok(true);
    }
  }
}
