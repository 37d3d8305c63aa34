/** The session's op log (api/session.py): a bounded tail of the batches accepted
    since the model was loaded. */
module Session {
  import opened Model
  import opened ModelOps

  /** The log holds the ops of every content family; only model ops concern a model. */
  datatype LoggedOp = OnModel(op: ModelOp) | OffModel(kind: string)

  datatype AppliedBatch = AppliedBatch(ops: seq<LoggedOp>, inverse: seq<LoggedOp>)

  const OP_LOG_MAX: nat := 1000

  /** The model ops of a mixed batch, in order. */
  function ModelOpsOf(ops: seq<LoggedOp>): seq<ModelOp> {
    if ops == [] then [] else
    var rest := ModelOpsOf(ops[..|ops| - 1]);
    if ops[|ops| - 1].OnModel? then rest + [ops[|ops| - 1].op] else rest
  }

  class Session {
    var opLog: seq<AppliedBatch>
    var opLogDropped: nat
    var modelRev: nat
    /** Every batch accepted since the model was last replaced. */
    ghost var history: seq<AppliedBatch>

    /** The log is exactly the history without its first `opLogDropped` batches. */
    ghost predicate Valid()
      reads this
    {
      && opLogDropped <= |history|
      && opLog == history[opLogDropped..]
      && |opLog| <= OP_LOG_MAX
    }

    constructor ()
      ensures Valid() && history == [] && modelRev == 0
    {
      opLog, opLogDropped, modelRev := [], 0, 0;
      history := [];
    }

    /** A batch is only ever dropped to make room in a full log. */
    method RecordBatch(batch: AppliedBatch)
      requires Valid()
      modifies this
      ensures Valid()
      ensures history == old(history) + [batch] && modelRev == old(modelRev)
      ensures opLogDropped == old(opLogDropped) + if |old(opLog)| == OP_LOG_MAX then 1 else 0
      ensures opLogDropped > old(opLogDropped) ==> |opLog| == OP_LOG_MAX
    {
      history := history + [batch];
      opLog := opLog + [batch];
      if |opLog| > OP_LOG_MAX {
        opLog := opLog[1..];
        opLogDropped := opLogDropped + 1;
      }
    }

    /** Undo takes the newest batch, and a failed commit the one it just recorded; what
        was dropped to make room does not come back. */
    method PopBatch() returns (batch: AppliedBatch)
      requires Valid() && opLog != []
      modifies this
      ensures Valid() && opLogDropped == old(opLogDropped) && modelRev == old(modelRev)
      ensures old(history) == history + [batch] && old(opLog) == opLog + [batch]
    {
      batch := opLog[|opLog| - 1];
      opLog := opLog[..|opLog| - 1];
      history := history[..|history| - 1];
    }

    /** A refused undo puts its batch back. */
    method PushBack(batch: AppliedBatch)
      requires Valid() && |opLog| < OP_LOG_MAX
      modifies this
      ensures Valid() && opLogDropped == old(opLogDropped) && modelRev == old(modelRev)
      ensures history == old(history) + [batch] && opLog == old(opLog) + [batch]
    {
      history := history + [batch];
      opLog := opLog + [batch];
    }

    /** Model replacement and out-of-protocol mutation both forget the log: recorded
        inverses no longer apply. */
    method ResetLog()
      modifies this
      ensures Valid() && history == [] && opLog == [] && opLogDropped == 0
      ensures modelRev == old(modelRev) + 1
    {
      modelRev := modelRev + 1;
      opLog, opLogDropped := [], 0;
      history := [];
    }
  }
}
