/** Telegram as the store sees it: a send returns fresh ids, a download returns the bytes sent, a delete takes them
    away. */
module Telegram {
  import opened ByteStrings
  import opened Strategy

  /** The documents that can be downloaded. One number stands for a document's file id and its message id; `next` is
      above every number handed out so far, so a deleted message's number never comes back. */
  datatype Cloud = Cloud(documents: map<int, ByteString>, next: int)
  {
    ghost predicate Valid() {
      forall id :: id in documents ==> id < next
    }

    /** After a deletion has been answered. */
    function Answered(id: int, answer: Deletion): Cloud {
      if answer.MessageGone() then this.(documents := documents - {id}) else this
    }

    /** Everything stored before is still there, and numbers only go up. */
    ghost predicate GrowsTo(later: Cloud) {
      && next <= later.next
      && forall id :: id in documents ==> id in later.documents && later.documents[id] == documents[id]
    }
  }

  /** How Telegram answers a deletion. */
  datatype Deletion = Deleted | AlreadyGone | TooOld | Refused
  {
    predicate MessageGone() {
      Deleted? || AlreadyGone?
    }
  }

  /** The bot client. Which sends succeed and report the size of what was kept, how deletions are answered, and what
      Telegram makes of a photo, video, audio file or animation are up to the network; calls are numbered. */
  class Client {
    var cloud: Cloud
    var calls: nat
    const accepts: nat -> bool
    const reports: nat -> bool
    const answers: nat -> Deletion
    const recode: (MediaType, ByteString) -> ByteString

    constructor (accepts: nat -> bool, reports: nat -> bool, answers: nat -> Deletion,
                 recode: (MediaType, ByteString) -> ByteString)
      ensures this.accepts == accepts && this.reports == reports && this.answers == answers && this.recode == recode
      ensures cloud == Cloud(map[], 0) && calls == 0 && cloud.Valid()
    {
      this.accepts, this.reports, this.answers, this.recode := accepts, reports, answers, recode;
      cloud, calls := Cloud(map[], 0), 0;
    }

    /** The next `n` sends from call `start` on are accepted. */
    ghost predicate AcceptsAll(start: nat, n: nat) {
      forall i :: start <= i < start + n ==> accepts(i)
    }

    /** What a download of an upload gives back: a document's own bytes, or what Telegram made of another type. */
    function Kept(t: MediaType, data: ByteString): ByteString {
      if t == Document then data else recode(t, data)
    }

    /** The file size in the answer to a call; 0 when Telegram reports none. */
    function ReportedSize(t: MediaType, data: ByteString, call: nat): (size: nat)
      ensures size == 0 || size == |Kept(t, data)|
    {
      if reports(call) then |Kept(t, data)| else 0
    }

    method Upload(t: MediaType, data: ByteString) returns (id: Option<int>, fileSize: nat)
      requires cloud.Valid()
      modifies this
      ensures cloud.Valid() && old(cloud).GrowsTo(cloud) && calls == old(calls) + 1
      ensures id.Some? <==> accepts(old(calls))
      ensures id.Some? ==>
        && old(cloud).next <= id.value < cloud.next
        && cloud.documents == old(cloud).documents[id.value := Kept(t, data)]
      ensures id.None? ==> cloud == old(cloud)
      ensures fileSize == ReportedSize(t, data, old(calls))
    {
      fileSize := ReportedSize(t, data, calls);
      calls := calls + 1;
      if !accepts(calls - 1) {
        return None, fileSize;
      }
      id := Some(cloud.next);
      cloud := Cloud(cloud.documents[cloud.next := Kept(t, data)], cloud.next + 1);
    }

    method DeleteMessage(id: int) returns (answer: Deletion)
      modifies this
      ensures calls == old(calls) + 1 && answer == answers(old(calls))
      ensures cloud == old(cloud).Answered(id, answer)
    {
      answer := answers(calls);
      calls := calls + 1;
      if answer == Deleted || answer == AlreadyGone {
        cloud := cloud.(documents := cloud.documents - {id});
      }
    }
  }
}
