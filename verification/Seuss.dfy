/** The records that travel through the system (src/Seuss.h, src/openwhisk/msg.h) and two
    stock wrappers. Strings stand for byte strings; `size_t` values are unbounded naturals. */
module Seuss {
  datatype Option<+T> = None | Some(value: T)

  datatype Result<+T> = Ok(value: T) | Halted

  type Tid = nat   // transaction id: hash of the OpenWhisk transaction name
  type Fid = nat   // function id: hash of the action revision
  type Id = nat    // UM instance id, 0 is the null id
  type Snap = nat  // a captured snapshot (a heap address in the source)

  datatype ExecStats = ExecStats(runTime: nat, initTime: nat, status: bool)

  datatype InvocationStats = InvocationStats(
    transactionId: Tid,
    functionId: Fid,
    argsSize: nat,
    activationId: string,
    exec: ExecStats)

  /** What a session reported for a transaction; the times are in milliseconds. */
  datatype Report = Report(tid: Tid, result: string, runTime: nat, initTime: nat)

  datatype Invocation = Invocation(info: InvocationStats, code: string, args: string)

  datatype ActivationMessage = ActivationMessage(
    transid: string,
    activationId: string,
    revision: string,
    content: string,
    actionName: string,
    actionVersion: string,
    namespaceName: string,
    subject: string)
}
