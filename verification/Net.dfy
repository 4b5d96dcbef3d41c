/**
 A stream socket as its reader sees it. What the network will do is fixed in advance
 by `script`, so that proofs hold for every chunking, stall and failure: each `recv`
 meets the next entry, and `sendall` meets the next entry of `sends`.
*/
module Net {
  import opened Bytes

  /** `Data([])` is the peer's orderly close, as in `socket.recv`. */
  datatype Event = Data(bytes: seq<byte>) | Stall | Fault

  function Payload(script: seq<Event>): seq<byte> {
    if script == [] then []
    else (if script[0].Data? then script[0].bytes else []) + Payload(script[1..])
  }

  /** The same script without its chunking: bytes, with a pause where a read times out and a cut
      where the connection fails or the peer closes it. */
  datatype Item = Byte(value: byte) | Pause | Cut

  function AsItems(bytes: seq<byte>): (items: seq<Item>)
    ensures |items| == |bytes|
  {
    seq(|bytes|, i requires 0 <= i < |bytes| => Byte(bytes[i]))
  }

  lemma {:induction false} NoItems()
    ensures AsItems([]) == []
  {
  }

  lemma {:induction false} AsItemsConcat(a: seq<byte>, b: seq<byte>)
    ensures AsItems(a + b) == AsItems(a) + AsItems(b)
  {
  }

  function EventItems(e: Event): seq<Item> {
    match e
    case Data(bytes) => if bytes == [] then [Cut] else AsItems(bytes)
    case Stall => [Pause]
    case Fault => [Cut]
  }

  /** One receive takes e from the front; a script that is over stalls for ever. */
  predicate Delivers(e: Event, before: seq<Item>, after: seq<Item>) {
    before == EventItems(e) + after || (e.Stall? && before == after == [])
  }

  function Items(script: seq<Event>): seq<Item> {
    if script == [] then [] else EventItems(script[0]) + Items(script[1..])
  }

  function ByteOf(item: Item): seq<byte> { if item.Byte? then [item.value] else [] }

  function BytesIn(items: seq<Item>): seq<byte> {
    if items == [] then [] else ByteOf(items[0]) + BytesIn(items[1..])
  }

  lemma {:induction false} BytesInConcat(a: seq<Item>, b: seq<Item>)
    ensures BytesIn(a + b) == BytesIn(a) + BytesIn(b)
  {
    if a == [] {
      assert a + b == b;
    } else {
      hide ByteOf;
      assert (a + b)[1..] == a[1..] + b;
      BytesInConcat(a[1..], b);
      Regroup(ByteOf(a[0]), BytesIn(a[1..]), BytesIn(b));
    }
  }

  lemma {:induction false} BytesInAsItems(bytes: seq<byte>)
    ensures BytesIn(AsItems(bytes)) == bytes
  {
    if bytes != [] {
      assert AsItems(bytes)[1..] == AsItems(bytes[1..]);
      BytesInAsItems(bytes[1..]);
    }
  }

  /** Chunking aside, the pending bytes are the items' bytes. */
  lemma {:induction false} BytesInScript(script: seq<Event>)
    ensures BytesIn(Items(script)) == Payload(script)
  {
    if script != [] {
      BytesInScript(script[1..]);
      BytesInConcat(EventItems(script[0]), Items(script[1..]));
      if script[0].Data? { BytesInAsItems(script[0].bytes); }
    }
  }

  /** Nothing but data: the items are the bytes, however they are cut. */
  lemma {:induction false} FlowingItems(script: seq<Event>)
    requires forall e :: e in script ==> e.Data? && e.bytes != []
    ensures Items(script) == AsItems(Payload(script))
  {
    hide AsItems;
    if script == [] {
      NoItems();
    } else {
      assert script[0] in script && forall e :: e in script[1..] ==> e in script;
      FlowingItems(script[1..]);
      AsItemsConcat(script[0].bytes, Payload(script[1..]));
    }
  }

  /** How a `sendall` ends: whole, or failed with the first bytes already on their way. */
  datatype Sending = Goes | FailsAfter(count: nat)

  function NextSend(sends: seq<Sending>): Sending { if sends == [] then Goes else sends[0] }

  /** What of `data` reaches the wire. */
  function Outgoing(sends: seq<Sending>, data: seq<byte>): seq<byte> {
    match NextSend(sends)
    case Goes => data
    case FailsAfter(count) => if count < |data| then data[..count] else data
  }

  class Socket {
    var script: seq<Event>
    var sends: seq<Sending>
    var sent: seq<byte>

    constructor (script: seq<Event>, sends: seq<Sending>)
      ensures this.script == script && this.sends == sends && sent == []
    {
      this.script, this.sends, this.sent := script, sends, [];
    }

    /** Bytes the peer sent and nobody has received yet. */
    function Pending(): seq<byte>
      reads this
    {
      Payload(script)
    }

    ghost function Coming(): seq<Item>
      reads this
    {
      Items(script)
    }

    /** Nothing but data is coming: no stall, fault or close. */
    ghost predicate Flowing()
      reads this
    {
      forall e :: e in script ==> e.Data? && e.bytes != []
    }

    ghost predicate SendsSucceed()
      reads this
    {
      forall s :: s in sends ==> s.Goes?
    }

    /** `recv(limit)` under a deadline: at most `limit` of the bytes that are there. */
    method Recv(limit: nat) returns (e: Event)
      requires limit > 0
      modifies this`script
      ensures e.Data? ==> |e.bytes| <= limit && e.bytes + Pending() == old(Pending())
      ensures !e.Data? ==> Pending() == old(Pending())
      ensures Delivers(e, old(Coming()), Coming())
      ensures old(Flowing()) ==> Flowing()
      ensures old(Flowing() && Pending() != []) ==> e.Data? && e.bytes != []
    {
      if script == [] {
        return Stall;
      }
      e := script[0];
      ghost var rest := script[1..];
      if e.Data? && |e.bytes| > limit {
        e := Data(script[0].bytes[..limit]);
        script := [Data(script[0].bytes[limit..])] + script[1..];
        assert script[1..] == rest;
        assert AsItems(e.bytes) + AsItems(script[0].bytes) == EventItems(old(script[0]));
      } else {
        script := script[1..];
      }
    }

    method SendAll(data: seq<byte>) returns (ok: bool)
      modifies this`sends, this`sent
      ensures ok <==> old(NextSend(sends)).Goes?
      ensures sent == old(sent) + Outgoing(old(sends), data)
      ensures sends == if old(sends) == [] then [] else old(sends)[1..]
      ensures old(SendsSucceed()) ==> ok && SendsSucceed()
    {
      ok := NextSend(sends).Goes?;
      sent := sent + Outgoing(sends, data);
      if sends != [] {
        sends := sends[1..];
      }
    }
  }
}
