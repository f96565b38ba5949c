/**
  Inbound text messages. A query is identified by the triple (phone number, time sent, body);
  the reply metadata that the poll loop stamps on it is not part of its identity.
 */
module Queries {
  import opened Wrappers

  /** The identity triple on which equality and hashing of a query are assumed to be defined. */
  datatype Identity = Identity(phoneNumber: string, timeSent: int, body: string)

  /** What one call of the message log's `record` stores: the query with its reply metadata. */
  datatype Record = Record(id: Identity, timeResponded: int, response: string)

  /**
    One inbound message as the gateway's parser hands it to the poll loop. `timeSent` is the
    sending time in milliseconds since the epoch; `timeResponded` and `response` stay unset
    until a reply has been sent.
   */
  class Query {
    const phoneNumber: string
    const timeSent: int
    const body: string
    var timeResponded: Option<int>
    var response: Option<string>

    constructor (phoneNumber: string, timeSent: int, body: string)
      ensures Id() == Identity(phoneNumber, timeSent, body)
      ensures timeResponded == None && response == None
    {
      this.phoneNumber := phoneNumber;
      this.timeSent := timeSent;
      this.body := body;
      timeResponded := None;
      response := None;
    }

    function Id(): Identity {
      Identity(phoneNumber, timeSent, body)
    }

    /** The reply metadata is either wholly set or wholly unset. */
    ghost predicate Consistent()
      reads this
    {
      timeResponded.Some? <==> response.Some?
    }
  }

  /** The identities of a snapshot, position by position. */
  function IdsOf(qs: seq<Query>): (ids: seq<Identity>)
    ensures |ids| == |qs|
    ensures forall j :: 0 <= j < |qs| ==> ids[j] == qs[j].Id()
  {
    seq(|qs|, j requires 0 <= j < |qs| => qs[j].Id())
  }

  /** No query object occurs twice in a snapshot, as if the parser built a fresh object per entry. */
  ghost predicate Distinct(qs: seq<Query>) {
    forall i, j :: 0 <= i < j < |qs| ==> qs[i] != qs[j]
  }
}
