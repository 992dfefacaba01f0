/** One end of a connection, as the loops that use it see it. */
module Streams {
  import opened Wrappers
  import opened Protocol

  /** What is still to be read, and what was written. */
  class Stream {
    var inbox: seq<Message>
    var sent: seq<Message>

    constructor (incoming: seq<Message>)
      ensures inbox == incoming && sent == []
    {
      inbox, sent := incoming, [];
    }

    method Send(m: Message)
      modifies this
      ensures sent == old(sent) + [m] && inbox == old(inbox)
    {
      sent := sent + [m];
    }

    /** None at the end of the stream. */
    method Recv() returns (m: Option<Message>)
      modifies this
      ensures sent == old(sent)
      ensures if old(inbox) == [] then m.None? && inbox == [] else m == Some(old(inbox)[0]) && inbox == old(inbox)[1..]
    {
      if inbox == [] {
        return None;
      }
      m := Some(inbox[0]);
      inbox := inbox[1..];
    }
  }
}
