/** Machine fault against communication fault, over the life of one binding: whatever
    polls, failed connects, kept reconnects, commands and link failures follow it. */
module FaultHistory {
  import opened AdapterContract
  import opened Domain

  datatype Op =
    | DoPoll(reply: PollReply)
    | DoRefuse(error: string)
    | DoReuse
    | DoCommand(did: CommandReply)
    | DoFail(reason: string)

  function AfterOp(v: AdapterView, op: Op): (v': AdapterView)
    ensures |v'.bound| == |v.bound|
  {
    match op
    case DoPoll(r) => AfterPoll(v, r)
    case DoRefuse(e) => AfterConnect(v, Refuse(e))
    case DoReuse => AfterConnect(v, Reuse)
    case DoCommand(did) => AfterCommand(v, did)
    case DoFail(reason) => AfterLinkFailure(v, reason)
  }

  function AfterOps(v: AdapterView, ops: seq<Op>): (v': AdapterView)
    ensures |v'.bound| == |v.bound|
  {
    if ops == [] then v else AfterOp(AfterOps(v, ops[..|ops| - 1]), ops[|ops| - 1])
  }

  /** The fault value this operation reads for item i: only a poll from Connected reads. */
  function ReadBy(v: AdapterView, op: Op, i: nat): Option<bool> {
    if op.DoPoll? && v.state == Connected && i < |op.reply.updates| then op.reply.updates[i].faultRead else None
  }

  function LastRead(v: AdapterView, ops: seq<Op>, i: nat): Option<bool> {
    if ops == [] then None else
      var before := ops[..|ops| - 1];
      var r := ReadBy(AfterOps(v, before), ops[|ops| - 1], i);
      if r.Some? then r else LastRead(v, before, i)
  }

  lemma OpChangesFaultOnlyByReading(v: AdapterView, op: Op, i: nat)
    requires i < |v.bound|
    ensures AfterOp(v, op).bound[i].id == v.bound[i].id
    ensures AfterOp(v, op).bound[i].fault == if ReadBy(v, op, i).Some? then ReadBy(v, op, i).value else v.bound[i].fault
  {
  }

  /** The machine fault is the last fault value successfully read since the equipment was
      bound, and false if none was: nothing that happens to the link changes it. Equipment
      bound by a connect that then failed is no exception. */
  lemma {:induction false} FaultIsLastRead(v: AdapterView, r: ConnectReply, ops: seq<Op>, i: nat)
    requires v.state != Connected && (r.Bind? || r.RefuseBound?) && i < |r.mapped|
    ensures var v0 := AfterConnect(v, r);
      && |AfterOps(v0, ops).bound| == |r.mapped|
      && AfterOps(v0, ops).bound[i].id == r.mapped[i].id
      && AfterOps(v0, ops).bound[i].fault == (LastRead(v0, ops, i) == Some(true))
  {
    if ops != [] {
      var v0 := AfterConnect(v, r);
      FaultIsLastRead(v, r, ops[..|ops| - 1], i);
      OpChangesFaultOnlyByReading(AfterOps(v0, ops[..|ops| - 1]), ops[|ops| - 1], i);
    }
  }
}
