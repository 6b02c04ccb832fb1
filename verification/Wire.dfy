/** The channel between controller and invoker: a request carries arguments and code in one
    payload, split again by the argument size in the header; a reply carries the result. */
module Wire {
  import opened Seuss

  datatype Kind = Ping | Request | Reply

  datatype Header = Header(kind: Kind, len: nat, record: InvocationStats)

  datatype Message = Message(header: Header, payload: string)

  /** What a received message makes the node do. */
  datatype Delivery =
    | Pinged
    | Queue(inv: Invocation)
    | Resolve(stats: InvocationStats, result: string)
    | Aborted

  function EncodeRequest(stats: InvocationStats, args: string, code: string): Message {
    Message(Header(Request, |args| + |code|, stats), args + code)
  }

  function EncodeReply(stats: InvocationStats, result: string): Message {
    Message(Header(Reply, |result|, stats.(argsSize := |result|)), result)
  }

  /** The payload is split at the argument size; a payload shorter than that stops the node. */
  function Decode(m: Message): Result<Invocation>
    requires m.header.len <= |m.payload|
  {
    var n := m.header.record.argsSize;
    if m.header.len == 0 then Ok(Invocation(m.header.record, "", ""))
    else if m.header.len < n then Halted
    else Ok(Invocation(m.header.record, m.payload[n..m.header.len], m.payload[..n]))
  }

  /** Dispatch on the invoker (native) and on the controller (hosted). */
  function Deliver(native: bool, m: Message): Delivery
    requires m.header.len <= |m.payload|
  {
    match Decode(m)
    case Halted => Aborted
    case Ok(inv) =>
      match m.header.kind
      case Ping => Pinged
      case Request => if native then Queue(inv) else Aborted
      case Reply => if native then Aborted else Resolve(m.header.record, inv.args)
  }

  /** A request arrives as it was sent exactly when its header gives the true argument size (which
      does not matter when there is no payload at all). */
  lemma RequestArrives(stats: InvocationStats, args: string, code: string)
    ensures Deliver(true, EncodeRequest(stats, args, code)) == Queue(Invocation(stats, code, args))
      <==> stats.argsSize == |args| || (args == "" && code == "")
  {
    var payload := args + code;
    assert payload[|args|..] == code && payload[..|args|] == args;
    if stats.argsSize <= |payload| && payload != "" {
      assert |payload[..stats.argsSize]| == stats.argsSize;
    }
  }

  /** A reply always arrives: the sender overwrites the argument size with that of the result. */
  lemma ReplyArrives(stats: InvocationStats, result: string)
    ensures Deliver(false, EncodeReply(stats, result)) == Resolve(stats.(argsSize := |result|), result)
  {
    assert result[..|result|] == result;
  }

  /** Whatever the transport did to the payload, a message that is taken in at all is cut without
      loss or overlap. */
  lemma DecodePartitions(m: Message)
    requires m.header.len <= |m.payload| && Decode(m).Ok?
    ensures Decode(m).value.args + Decode(m).value.code == m.payload[..m.header.len]
    ensures m.header.len > 0 ==> |Decode(m).value.args| == m.header.record.argsSize
  {
  }

  class SeussChannel {
    var ioCore: nat

    constructor ()
      ensures ioCore == 0
    {
      ioCore := 0;
    }

    method SendRequest(stats: InvocationStats, args: string, code: string) returns (m: Message)
      ensures m == EncodeRequest(stats, args, code)
      ensures m.header == Header(Request, |args| + |code|, stats) && m.payload == args + code
    {
      var buf := new char[|args| + |code|];
      var header := Header(Request, |args| + |code|, stats);
      var at := 0;
      if |args| > 0 {
        forall i | 0 <= i < |args| { buf[at + i] := args[i]; }
        at := at + |args|;
      }
      if |code| > 0 {
        forall i | 0 <= i < |code| { buf[at + i] := code[i]; }
        at := at + |code|;
      }
      m := Message(header, buf[..]);
      assert buf[..] == args + code;
    }

    /** Off the I/O core the reply is handed to that core; `None` says so. */
    method SendReply(core: nat, stats: InvocationStats, result: string) returns (m: Option<Message>)
      ensures m == if core != ioCore then None else Some(EncodeReply(stats, result))
      ensures core == ioCore ==>
        m == Some(Message(Header(Reply, |result|, stats.(argsSize := |result|)), result))
    {
      if core != ioCore {
        return None;
      }
      var buf := new char[|result|];
      var header := Header(Reply, 0, stats);
      header := header.(record := header.record.(argsSize := |result|));
      header := header.(len := |result|);
      if |result| > 0 {
        forall i | 0 <= i < |result| { buf[i] := result[i]; }
      }
      assert buf[..] == result;
      return Some(Message(header, buf[..]));
    }

    method ReceiveMessage(native: bool, core: nat, m: Message) returns (d: Delivery)
      requires m.header.len <= |m.payload|
      modifies this
      ensures ioCore == core
      ensures d == Deliver(native, m)
      ensures var h := m.header; var n := h.record.argsSize;
        && (0 < h.len < n ==> d == Aborted)
        && (!(0 < h.len < n) ==>
              && (h.kind.Ping? ==> d == Pinged)
              && (h.kind.Request? != native && !h.kind.Ping? ==> d == Aborted)
              && (h.kind.Request? && native ==> d == Queue(Invocation(h.record,
                    if h.len == 0 then "" else m.payload[n..h.len], if h.len == 0 then "" else m.payload[..n])))
              && (h.kind.Reply? && !native ==>
                    d == Resolve(h.record, if h.len == 0 then "" else m.payload[..n])))
    {
      var inv := Invocation(m.header.record, "", "");
      if core != ioCore {
        ioCore := core;
      }
      if m.header.len > 0 {
        var n := m.header.record.argsSize;
        if m.header.len < n {
          return Aborted;
        }
        if n > 0 {
          inv := inv.(args := m.payload[..n]);
        }
        if m.header.len > n {
          inv := inv.(code := m.payload[n..m.header.len]);
        }
      }
      match m.header.kind
      case Ping => d := Pinged;
      case Request => d := if native then Queue(inv) else Aborted;
      case Reply => d := if native then Aborted else Resolve(m.header.record, inv.args);
    }
  }
}
