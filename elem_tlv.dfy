/**
 * Type-Length-Value exchange with one element (`alsactl_card_write_elem_tlv`,
 * `alsactl_card_read_elem_tlv`, `alsactl_card_command_elem_tlv`). A packet is
 * the element's numid, the payload length in bytes and the payload quadlets.
 */
module ElemTlv {
  import opened CtlTypes

  /** `struct snd_ctl_tlv`. */
  datatype TlvPacket = TlvPacket(numid: nat, length: nat, tlv: seq<Int32>)

  /**
   * What a TLV ioctl hands back: its status and the packet as it left it.
   * The packet comes back on failure too, since read and command copy it out
   * whatever the status.
   */
  datatype TlvReply = TlvReply(err: Option<Errno>, packet: TlvPacket)

  type TlvIoctl = TlvPacket -> TlvReply

  /** A packet framing `payload` for element `id`: the length is counted in bytes. */
  function Frame(id: ElemId, payload: seq<Int32>): TlvPacket
  {
    TlvPacket(id.numid, 4 * |payload|, payload)
  }

  /** The payload of a freshly zero-allocated packet. */
  function Zeros(n: nat): (z: seq<Int32>)
    ensures |z| == n && forall k :: 0 <= k < n ==> z[k] == 0
  {
    seq(n, _ => 0)
  }

  /**
   * What read and command rely on from the driver: the reported length is a
   * whole number of quadlets, no more than the packet's capacity, and the
   * payload keeps its allocated size.
   */
  predicate ReplyFits(reply: TlvReply, capacity: nat)
  {
    reply.packet.length % 4 == 0 && reply.packet.length <= 4 * capacity &&
    |reply.packet.tlv| == capacity
  }

  /** What a TLV operation leaves behind: status, container count, container contents, and the packet it sent if any. */
  datatype TlvOutcome = TlvOutcome(err: Option<Errno>, count: nat, container: seq<Int32>,
                                   sent: Option<TlvPacket>)

  /** The container after the copy-back: the first `length` bytes of the returned payload over the old contents. */
  function CopyBack(container: seq<Int32>, packet: TlvPacket): seq<Int32>
    requires packet.length / 4 <= |packet.tlv| && packet.length / 4 <= |container|
  {
    packet.tlv[..packet.length / 4] + container[packet.length / 4..]
  }

  /** Both read and command refuse a missing container and one of fewer than two quadlets. */
  predicate Refused(container: Option<seq<Int32>>, count: nat)
  {
    container.None? || count < 2
  }

  /** Write: frame a copy of the container and pass it down; nothing comes back but the status. */
  function WriteSpec(ioctl: TlvIoctl, id: ElemId, container: Option<seq<Int32>>, count: nat): (o: TlvOutcome)
    requires container.Some? ==> count <= |container.value|
    ensures Refused(container, count) ==> o.err == Some(EINVAL) && o.sent.None?
    ensures !Refused(container, count) ==>
              o.sent.Some? && o.sent.value.numid == id.numid &&
              o.sent.value.length == 4 * count && o.sent.value.tlv == container.value[..count]
    ensures o.count == count && (container.Some? ==> o.container == container.value)
  {
    var current := if container.Some? then container.value else [];
    if Refused(container, count) then TlvOutcome(Some(EINVAL), count, current, None)
    else
      var packet := Frame(id, container.value[..count]);
      TlvOutcome(ioctl(packet).err, count, current, Some(packet))
  }

  /** The copy-back shared by read and command, after `request` went down. */
  function Exchange(ioctl: TlvIoctl, request: TlvPacket, container: seq<Int32>, count: nat): (o: TlvOutcome)
    requires count <= |container| && ReplyFits(ioctl(request), count)
    ensures o.sent == Some(request) && o.err == ioctl(request).err
    ensures o.count * 4 == ioctl(request).packet.length && o.count <= count
    ensures |o.container| == |container|
    ensures o.container[..o.count] == ioctl(request).packet.tlv[..o.count]
    ensures o.container[o.count..] == container[o.count..]
  {
    var reply := ioctl(request);
    TlvOutcome(reply.err, reply.packet.length / 4, CopyBack(container, reply.packet), Some(request))
  }

  /** Read: a zero-filled packet of the container's capacity goes down. */
  function ReadSpec(ioctl: TlvIoctl, id: ElemId, container: Option<seq<Int32>>, count: nat): (o: TlvOutcome)
    requires container.Some? ==> count <= |container.value|
    requires !Refused(container, count) ==> ReplyFits(ioctl(Frame(id, Zeros(count))), count)
    ensures Refused(container, count) ==> o.err == Some(EINVAL) && o.sent.None? && o.count == count
  {
    if Refused(container, count) then
      TlvOutcome(Some(EINVAL), count, if container.Some? then container.value else [], None)
    else Exchange(ioctl, Frame(id, Zeros(count)), container.value, count)
  }

  /** Command: like write on the way down, like read on the way back. */
  function CommandSpec(ioctl: TlvIoctl, id: ElemId, container: Option<seq<Int32>>, count: nat): (o: TlvOutcome)
    requires container.Some? ==> count <= |container.value|
    requires !Refused(container, count) ==> ReplyFits(ioctl(Frame(id, container.value[..count])), count)
    ensures Refused(container, count) ==> o.err == Some(EINVAL) && o.sent.None? && o.count == count
  {
    if Refused(container, count) then
      TlvOutcome(Some(EINVAL), count, if container.Some? then container.value else [], None)
    else Exchange(ioctl, Frame(id, container.value[..count]), container.value, count)
  }

  function Contents(container: array?<Int32>): Option<seq<Int32>>
    reads container
  {
    if container == null then None else Some(container[..])
  }

  /** `alsactl_card_write_elem_tlv`. The container is only read. */
  method WriteElemTlv(ioctl: TlvIoctl, id: ElemId, container: array?<Int32>, count: nat)
    returns (err: Option<Errno>, sent: Option<TlvPacket>)
    requires container != null ==> count <= container.Length
    ensures var o := WriteSpec(ioctl, id, Contents(container), count); err == o.err && sent == o.sent
  {
    if container == null || count < 2 {
      return Some(EINVAL), None;
    }
    var packet := Frame(id, container[..count]);
    var reply := ioctl(packet);
    err, sent := reply.err, Some(packet);
  }

  /** Copies the first `n` quadlets of the returned payload into the container (the `memcpy`). */
  method CopyOut(container: array<Int32>, tlv: seq<Int32>, n: nat)
    requires n <= |tlv| && n <= container.Length
    modifies container
    ensures container[..] == tlv[..n] + old(container[..])[n..]
  {
    forall k | 0 <= k < n {
      container[k] := tlv[k];
    }
  }

  /** `alsactl_card_read_elem_tlv`. The container and its count are overwritten in place. */
  method ReadElemTlv(ioctl: TlvIoctl, id: ElemId, container: array?<Int32>, count: nat)
    returns (newCount: nat, err: Option<Errno>, sent: Option<TlvPacket>)
    requires container != null ==> count <= container.Length
    requires container != null && count >= 2 ==> ReplyFits(ioctl(Frame(id, Zeros(count))), count)
    modifies container
    ensures var o := ReadSpec(ioctl, id, old(Contents(container)), count);
            err == o.err && sent == o.sent && newCount == o.count &&
            (container != null ==> container[..] == o.container)
  {
    if container == null || count < 2 {
      return count, Some(EINVAL), None;
    }
    var packet := Frame(id, Zeros(count));
    var reply := ioctl(packet);
    CopyOut(container, reply.packet.tlv, reply.packet.length / 4);
    newCount, err, sent := reply.packet.length / 4, reply.err, Some(packet);
  }

  /** `alsactl_card_command_elem_tlv`. The container and its count are overwritten in place. */
  method CommandElemTlv(ioctl: TlvIoctl, id: ElemId, container: array?<Int32>, count: nat)
    returns (newCount: nat, err: Option<Errno>, sent: Option<TlvPacket>)
    requires container != null ==> count <= container.Length
    requires container != null && count >= 2 ==>
               ReplyFits(ioctl(Frame(id, container[..count])), count)
    modifies container
    ensures var o := CommandSpec(ioctl, id, old(Contents(container)), count);
            err == o.err && sent == o.sent && newCount == o.count &&
            (container != null ==> container[..] == o.container)
  {
    if container == null || count < 2 {
      return count, Some(EINVAL), None;
    }
    var packet := Frame(id, container[..count]);
    var reply := ioctl(packet);
    CopyOut(container, reply.packet.tlv, reply.packet.length / 4);
    newCount, err, sent := reply.packet.length / 4, reply.err, Some(packet);
  }

  /**
   * A driver keeping one TLV blob: a read whose packet can hold the blob
   * gets it back with its byte length; a smaller packet is refused.
   */
  function StoringDriver(stored: seq<Int32>): TlvIoctl
  {
    (p: TlvPacket) =>
      if |stored| <= |p.tlv| then
        TlvReply(None, p.(length := 4 * |stored|, tlv := stored + p.tlv[|stored|..]))
      else TlvReply(Some(ENOMEM), p)
  }

  /**
   * Round trip: what a write sends down is what a later read of any
   * capacity that can hold it returns, with the count set to its length.
   */
  lemma WriteThenRead(ioctl: TlvIoctl, id: ElemId, payload: seq<Int32>, container: seq<Int32>, capacity: nat)
    requires 2 <= |payload| <= capacity <= |container|
    ensures var w := WriteSpec(ioctl, id, Some(payload), |payload|);
            w.sent.Some? &&
            ReplyFits(StoringDriver(w.sent.value.tlv)(Frame(id, Zeros(capacity))), capacity) &&
            var r := ReadSpec(StoringDriver(w.sent.value.tlv), id, Some(container), capacity);
            r.err == None && r.count == |payload| && r.container[..r.count] == payload &&
            r.container[r.count..] == container[|payload|..]
  {
    assert payload[..|payload|] == payload;
    var request := Frame(id, Zeros(capacity));
    var reply := StoringDriver(payload)(request);
    assert reply.packet.tlv[..|payload|] == payload;
  }

  /** The example exchange: writing [1, 4] and reading with room for 8 quadlets gives back [1, 4], 8 bytes long. */
  lemma WriteThenReadExample(ioctl: TlvIoctl, id: ElemId)
    ensures var w := WriteSpec(ioctl, id, Some([1, 4]), 2);
            var r := ReadSpec(StoringDriver(w.sent.value.tlv), id, Some(Zeros(8)), 8);
            r.err == None && r.count * 4 == 8 && r.container[..r.count] == [1, 4]
  {
    WriteThenRead(ioctl, id, [1, 4], Zeros(8), 8);
  }

  /** A one-quadlet container is refused by all three operations before any packet goes down. */
  lemma OneQuadletRefused(ioctl: TlvIoctl, id: ElemId, q: Int32)
    ensures WriteSpec(ioctl, id, Some([q]), 1) == TlvOutcome(Some(EINVAL), 1, [q], None)
    ensures ReadSpec(ioctl, id, Some([q]), 1) == TlvOutcome(Some(EINVAL), 1, [q], None)
    ensures CommandSpec(ioctl, id, Some([q]), 1) == TlvOutcome(Some(EINVAL), 1, [q], None)
  {
  }
}
