/**
 What the database means (db/db.c:233-253, 440-456, 637-746): a map from keys to data, and
 the calls as functions on it.
 */
module DbSpec {
  import opened DbFormat

  const DB_INSERT := 1
  const DB_REPLACE := 2
  const DB_STORE := 3

  datatype Op = FetchOp(key: string) | DeleteOp(key: string) | StoreOp(key: string, data: string, flag: int)
  datatype Answer = Text(text: string) | NoText | Code(value: int)

  /** The arguments of a store are C strings. */
  predicate WellFormed(op: Op) {
    op.StoreOp? ==> NUL !in op.key && NUL !in op.data
  }

  /** A store that goes through although the key has a separator, which no reader accepts. */
  predicate Jams(op: Op) {
    && op.StoreOp? && SEP in op.key
    && (op.flag == DB_INSERT || op.flag == DB_STORE)
    && DATLEN_MIN <= |op.data| + 1 <= DATLEN_MAX
  }

  /** What a call does to a map from keys to data, and answers. */
  function Apply(m: map<string, string>, op: Op): (map<string, string>, Answer) {
    match op
    case FetchOp(key) => (m, if key in m then Text(m[key]) else NoText)
    case DeleteOp(key) => (m - {key}, Code(if key in m then 0 else -1))
    case StoreOp(key, data, flag) =>
      if flag != DB_INSERT && flag != DB_REPLACE && flag != DB_STORE then (m, Code(-1))
      else if key in m && flag == DB_INSERT then (m, Code(1))
      else if key !in m && flag == DB_REPLACE then (m, Code(-1))
      else (m[key := data], Code(0))
  }

  function MapAfter(m: map<string, string>, ops: seq<Op>): map<string, string> {
    if ops == [] then m
    else Apply(MapAfter(m, ops[..|ops| - 1]), ops[|ops| - 1]).0
  }

  function Answers(m: map<string, string>, ops: seq<Op>): seq<Answer> {
    if ops == [] then []
    else Answers(m, ops[..|ops| - 1]) + [Apply(MapAfter(m, ops[..|ops| - 1]), ops[|ops| - 1]).1]
  }
}
