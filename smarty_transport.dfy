/** The outbound HTTP client as the engine observes it. The GET itself (URL
    building, headers, the network) is outside the model: every call yields the
    same abstract reply, and the query maps sent so far are recorded, so that the
    length of the record counts the calls made. */
module SmartyTransport {
  import opened AddressTypes

  class Transport {
    /** What every GET yields: a payload or a failure. */
    const reply: Reply
    /** The query maps sent, in order. */
    var sent: seq<map<string, string>>

    constructor (reply: Reply)
      ensures this.reply == reply && sent == []
    {
      this.reply := reply;
      sent := [];
    }

    /** The number of calls made so far. */
    function Calls(): nat
      reads this
    {
      |sent|
    }

    /** One GET with the given query parameters. */
    method Get(params: map<string, string>) returns (r: Reply)
      modifies this
      ensures sent == old(sent) + [params]
      ensures r == reply
    {
      sent := sent + [params];
      r := reply;
    }
  }
}
