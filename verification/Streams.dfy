/** What a reader hands out, read by read: a finite script of replies, after which the
    stream is at its end. */
module Streams {
  import opened Common

  datatype Reply = Interrupted | Data(bytes: Bytes) | Failed

  /** What a loop that reads to the end gets out of a script: the bytes before the reply
      that stopped it, and whether that reply was the end of the stream. */
  datatype Delivery = Delivery(bytes: Bytes, clean: bool)

  /** One reply is at most `limit` bytes long; a longer one is as good as an error. */
  function Deliver(replies: seq<Reply>, limit: nat): Delivery {
    if replies == [] then Delivery([], true)
    else match replies[0]
      case Interrupted => Deliver(replies[1..], limit)
      case Failed => Delivery([], false)
      case Data(bytes) =>
        if bytes == [] then Delivery([], true)
        else if |bytes| > limit then Delivery([], false)
        else var rest := Deliver(replies[1..], limit); Delivery(bytes + rest.bytes, rest.clean)
  }

  /** Of all there is to read, `done` has been read and the replies from the `i`-th on are to
      come. */
  ghost predicate Ahead(read: Delivery, done: Bytes, replies: seq<Reply>, i: nat, limit: nat)
    requires i <= |replies|
  {
    var rest := Deliver(replies[i..], limit);
    read == Delivery(done + rest.bytes, rest.clean)
  }

  lemma AheadStart(replies: seq<Reply>, limit: nat)
    ensures Ahead(Deliver(replies, limit), [], replies, 0, limit)
  {
    assert replies[0..] == replies;
    var read := Deliver(replies, limit);
    assert [] + read.bytes == read.bytes;
  }

  /** The next reply is read, or is where reading stops. */
  lemma AheadStep(read: Delivery, done: Bytes, replies: seq<Reply>, i: nat, limit: nat)
    requires i < |replies| && Ahead(read, done, replies, i, limit)
    ensures replies[i].Interrupted? ==> Ahead(read, done, replies, i + 1, limit)
    ensures replies[i].Failed? ==> read == Delivery(done, false)
    ensures replies[i].Data? ==>
      var bytes := replies[i].bytes;
      if bytes == [] then read == Delivery(done, true)
      else if |bytes| > limit then read == Delivery(done, false)
      else Ahead(read, done + bytes, replies, i + 1, limit)
  {
    assert replies[i..][1..] == replies[i + 1..];
    assert done + [] == done;
    if replies[i].Data? {
      var bytes, rest := replies[i].bytes, Deliver(replies[i + 1..], limit);
      assert done + (bytes + rest.bytes) == done + bytes + rest.bytes;
    }
  }

  lemma AheadEnd(read: Delivery, done: Bytes, replies: seq<Reply>, limit: nat)
    requires Ahead(read, done, replies, |replies|, limit)
    ensures read == Delivery(done, true)
  {
    assert replies[|replies|..] == [] && done + [] == done;
  }

  /** Nothing more than what there is to read has been. */
  lemma AheadBound(read: Delivery, done: Bytes, replies: seq<Reply>, i: nat, limit: nat)
    requires i <= |replies| && Ahead(read, done, replies, i, limit)
    ensures |done| <= |read.bytes|
  {
  }
}
