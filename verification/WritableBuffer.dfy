/** The request list of lib/_stream_writable.js: heap nodes linked by `next`, with the pointers
    `bufferedRequest` and `lastBufferedRequest`. Its contents are the `queue` of WritableSpec. */
module WritableBuffer {
  import opened WritableSpec

  class WriteReq {
    const req: Req
    var next: WriteReq?

    constructor (req: Req)
      ensures this.req == req && next == null
    {
      this.req := req;
      next := null;
    }
  }

  function Reqs(nodes: seq<WriteReq>): (r: seq<Req>)
    ensures |r| == |nodes|
    ensures forall i :: 0 <= i < |nodes| ==> r[i] == nodes[i].req
  {
    seq(|nodes|, i requires 0 <= i < |nodes| => nodes[i].req)
  }

  /** How many hook calls in a row call back before returning; `sync` holds the hook's answers, in order. */
  function SyncRun(sync: seq<bool>): (n: nat)
    ensures n <= |sync| && (forall i :: 0 <= i < n ==> sync[i]) && (n < |sync| ==> !sync[n])
  {
    if sync == [] || !sync[0] then 0 else 1 + SyncRun(sync[1..])
  }

  class RequestList {
    var bufferedRequest: WriteReq?
    var lastBufferedRequest: WriteReq?
    ghost var nodes: seq<WriteReq>

    ghost predicate Valid()
      reads this, nodes
    {
      && (forall i, j :: 0 <= i < j < |nodes| ==> nodes[i] != nodes[j])
      && (forall i :: 0 <= i < |nodes| - 1 ==> nodes[i].next == nodes[i + 1])
      && (nodes != [] ==> nodes[|nodes| - 1].next == null)
      && bufferedRequest == (if nodes == [] then null else nodes[0])
      && lastBufferedRequest == (if nodes == [] then null else nodes[|nodes| - 1])
    }

    ghost function Contents(): seq<Req>
      reads this
    {
      Reqs(nodes)
    }

    constructor ()
      ensures Valid() && Contents() == []
    {
      bufferedRequest, lastBufferedRequest, nodes := null, null, [];
    }

    /** The buffering branch of `writeOrBuffer`. */
    method Append(req: Req)
      requires Valid()
      modifies this, nodes
      ensures Valid() && Contents() == old(Contents()) + [req]
      ensures fresh(set n | n in nodes && n !in old(nodes))
    {
      var last := lastBufferedRequest;
      lastBufferedRequest := new WriteReq(req);
      if last != null {
        last.next := lastBufferedRequest;
      } else {
        bufferedRequest := lastBufferedRequest;
      }
      nodes := nodes + [lastBufferedRequest];
    }

    /** `getBuffer`. */
    method GetBuffer() returns (out: seq<WriteReq>)
      requires Valid()
      ensures out == nodes
    {
      out := [];
      var current := bufferedRequest;
      while current != null
        invariant |out| <= |nodes| && out == nodes[..|out|]
        invariant current == if |out| < |nodes| then nodes[|out|] else null
        decreases |nodes| - |out|
      {
        out := out + [current];
        current := current.next;
      }
    }

    /** The batched branch of `clearBuffer`: every entry is collected and the list is left empty. */
    method TakeBatch() returns (reqs: seq<Req>)
      requires Valid()
      modifies this
      ensures Valid() && reqs == old(Contents()) && Contents() == []
    {
      var entry := bufferedRequest;
      reqs := [];
      while entry != null
        invariant |reqs| <= |nodes| && reqs == Reqs(nodes[..|reqs|])
        invariant entry == if |reqs| < |nodes| then nodes[|reqs|] else null
        decreases |nodes| - |reqs|
      {
        reqs := reqs + [entry.req];
        entry := entry.next;
      }
      assert nodes[..|nodes|] == nodes;
      lastBufferedRequest := null;
      bufferedRequest := entry;
      nodes := [];
    }

    /** The slow branch of `clearBuffer`: entries are handed on one by one until a hook leaves its write in
        flight; what was handed on followed by what is left is what was there. */
    method TakeInTurn(sync: seq<bool>) returns (reqs: seq<Req>)
      requires Valid()
      modifies this
      ensures Valid() && reqs + Contents() == old(Contents())
      ensures |reqs| == if SyncRun(sync) < |old(Contents())| then SyncRun(sync) + 1 else |old(Contents())|
      ensures |reqs| <= |old(nodes)| && nodes == old(nodes)[|reqs|..]
    {
      var entry := bufferedRequest;
      reqs := [];
      var writing := false;
      while entry != null && !writing
        invariant |reqs| <= |nodes| && reqs == Reqs(nodes)[..|reqs|]
        invariant entry == if |reqs| < |nodes| then nodes[|reqs|] else null
        invariant if writing then |reqs| == SyncRun(sync) + 1 else |reqs| <= SyncRun(sync)
        decreases |nodes| - |reqs|
      {
        writing := |reqs| >= |sync| || !sync[|reqs|];
        reqs := reqs + [entry.req];
        entry := entry.next;
      }
      if entry == null {
        lastBufferedRequest := null;
      }
      bufferedRequest := entry;
      nodes := nodes[|reqs|..];
    }
  }
}
