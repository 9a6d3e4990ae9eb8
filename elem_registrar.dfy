/**
 * Registration of user-defined elements (`add_or_replace_elems`): the
 * descriptor is completed (label blob for the enumerated type, element count
 * in the `owner` field), handed to ELEM_ADD or ELEM_REPLACE, and on success
 * the ids of all new elements are derived from the one the driver returns.
 */
module ElemRegistrar {
  import opened CtlTypes
  import opened ElemInfo
  import EnumNames

  /** The request handed to the driver: which opcode, and the completed descriptor. */
  datatype AddRequest = AddRequest(replace: bool, info: Descriptor)

  /** What ELEM_ADD / ELEM_REPLACE hand back: the status and the id as the driver rewrote it. */
  datatype AddReply = AddReply(err: Option<Errno>, id: ElemId)

  type AddIoctl = AddRequest -> AddReply

  /**
   * The outcome: status, the caller's id list afterwards, the descriptor the
   * caller's information object is left holding, and the request sent, if any.
   */
  datatype AddOutcome = AddOutcome(err: Option<Errno>, entries: seq<ElemId>, info: Descriptor,
                                   sent: Option<AddRequest>)

  /** The `(__kernel_pid_t)` cast of an unsigned element count. */
  function ToPid(n: nat): (p: int)
    requires IsU32(n)
    ensures -0x8000_0000 <= p < 0x8000_0000 && (p - n) % U32Limit == 0
  {
    if n < 0x8000_0000 then n else n - U32Limit
  }

  /** One step of the loop: `++numid; ++index` on unsigned fields. */
  function Next(id: ElemId): ElemId
  {
    id.(numid := (id.numid + 1) % U32Limit, index := (id.index + 1) % U32Limit)
  }

  /** The id after `i` steps from `base`. */
  function Step(base: ElemId, i: nat): ElemId
  {
    if i == 0 then base else Next(Step(base, i - 1))
  }

  /** The ids the loop appends: `base` and the next `n - 1` steps. */
  function Synthesize(base: ElemId, n: nat): (ids: seq<ElemId>)
    ensures |ids| == n
  {
    if n == 0 then [] else Synthesize(base, n - 1) + [Step(base, n - 1)]
  }

  /** The labels an information object exposes; only the enumerated kind has any. */
  function LabelsOf(info: ElemInfo): seq<CString>
  {
    if info.EnumInfo? then info.labels else []
  }

  /** The descriptor after the label blob, if any, is attached. */
  function WithNames(d: Descriptor, packed: EnumNames.Packed): Descriptor
  {
    d.(names := packed.blob, namesLength := packed.namesLength, items := packed.items)
  }

  /** What `add_or_replace_elems` does, as a function of the driver. */
  function AddSpec(ioctl: AddIoctl, elemId: ElemId, elemCount: nat, elemInfo: ElemInfo,
                   replace: bool, entries: seq<ElemId>): AddOutcome
    requires IsU32(elemCount)
  {
    var d := elemInfo.raw.(id := elemId);
    var packed := if d.kind == TypeEnumerated then EnumNames.PackSpec(LabelsOf(elemInfo))
                  else Ok(EnumNames.Packed([], 0, 0));
    if packed.Err? then AddOutcome(Some(packed.errno), entries, d, None)
    else
      var d' := (if d.kind == TypeEnumerated then WithNames(d, packed.value) else d)
                .(owner := ToPid(elemCount));
      var request := AddRequest(replace, d');
      var reply := ioctl(request);
      var d'' := d'.(id := reply.id);
      if reply.err.Some? then AddOutcome(reply.err, entries, d'', Some(request))
      else AddOutcome(None, entries + Synthesize(reply.id, elemCount),
                      d''.(id := Step(reply.id, elemCount)), Some(request))
  }

  /**
   * `add_or_replace_elems`, shared by `alsactl_card_add_elems` and
   * `alsactl_card_replace_elems`.
   */
  method AddOrReplaceElems(ioctl: AddIoctl, elemId: ElemId, elemCount: nat, elemInfo: ElemInfo,
                           replace: bool, entries: seq<ElemId>) returns (o: AddOutcome)
    requires IsU32(elemCount)
    ensures o == AddSpec(ioctl, elemId, elemCount, elemInfo, replace, entries)
  {
    var info := elemInfo.raw.(id := elemId);
    if info.kind == TypeEnumerated {
      var packed := EnumNames.PrepareEnumNames(LabelsOf(elemInfo));
      if packed.Err? {
        return AddOutcome(Some(packed.errno), entries, info, None);
      }
      info := WithNames(info, packed.value);
    }
    info := info.(owner := ToPid(elemCount));
    var request := AddRequest(replace, info);
    var reply := ioctl(request);
    info := info.(id := reply.id);
    if reply.err.Some? {
      return AddOutcome(reply.err, entries, info, Some(request));
    }
    var list := entries;
    var i := 0;
    while i < elemCount
      invariant i <= elemCount
      invariant list == entries + Synthesize(reply.id, i)
      invariant info.id == Step(reply.id, i)
      invariant info == request.info.(id := Step(reply.id, i))
    {
      list := list + [info.id];
      info := info.(id := Next(info.id));
      i := i + 1;
    }
    o := AddOutcome(None, list, info, Some(request));
  }

  /** After `i` steps, numid and index have each risen by `i`, modulo 2^32; nothing else changed. */
  lemma {:induction false} StepArithmetic(base: ElemId, i: nat)
    requires IsU32(base.numid) && IsU32(base.index)
    ensures Step(base, i).numid == (base.numid + i) % U32Limit
    ensures Step(base, i).index == (base.index + i) % U32Limit
    ensures Step(base, i).(numid := base.numid, index := base.index) == base
  {
    if i > 0 {
      StepArithmetic(base, i - 1);
      ModSucc(base.numid + i - 1);
      ModSucc(base.index + i - 1);
    }
  }

  lemma ModSucc(x: nat)
    ensures ((x % U32Limit) + 1) % U32Limit == (x + 1) % U32Limit
  {
    var q, r := x / U32Limit, x % U32Limit;
    assert x == q * U32Limit + r;
    if r + 1 < U32Limit {
      assert x + 1 == q * U32Limit + (r + 1);
    } else {
      assert x + 1 == (q + 1) * U32Limit;
    }
  }

  /** The i-th synthesized id is `base` advanced by `i`. */
  lemma {:induction false} SynthesizedAt(base: ElemId, n: nat, i: nat)
    requires i < n
    ensures Synthesize(base, n)[i] == Step(base, i)
  {
    if i < n - 1 {
      SynthesizedAt(base, n - 1, i);
    }
  }

  /**
   * A successful add appends exactly `elemCount` ids to the caller's list;
   * the i-th has numid and index raised by i from the id the driver returned.
   */
  lemma AddedIds(ioctl: AddIoctl, elemId: ElemId, elemCount: nat, elemInfo: ElemInfo,
                 replace: bool, entries: seq<ElemId>, i: nat)
    requires IsU32(elemCount)
    requires AddSpec(ioctl, elemId, elemCount, elemInfo, replace, entries).err.None?
    requires i < elemCount
    ensures var o := AddSpec(ioctl, elemId, elemCount, elemInfo, replace, entries);
            var base := ioctl(o.sent.value).id;
            |o.entries| == |entries| + elemCount && o.entries[..|entries|] == entries &&
            o.entries[|entries| + i] == Step(base, i) &&
            (IsU32(base.numid) && IsU32(base.index) ==>
               o.entries[|entries| + i].numid == (base.numid + i) % U32Limit &&
               o.entries[|entries| + i].index == (base.index + i) % U32Limit)
  {
    var o := AddSpec(ioctl, elemId, elemCount, elemInfo, replace, entries);
    var base := ioctl(o.sent.value).id;
    SynthesizedAt(base, elemCount, i);
    if IsU32(base.numid) && IsU32(base.index) {
      StepArithmetic(base, i);
    }
  }

  /** The element count travels in the `owner` field, and the id sent is the caller's. */
  lemma RequestCarriesCount(ioctl: AddIoctl, elemId: ElemId, elemCount: nat, elemInfo: ElemInfo,
                            replace: bool, entries: seq<ElemId>)
    requires IsU32(elemCount) && elemCount < 0x8000_0000
    requires AddSpec(ioctl, elemId, elemCount, elemInfo, replace, entries).sent.Some?
    ensures var r := AddSpec(ioctl, elemId, elemCount, elemInfo, replace, entries).sent.value;
            r.info.owner == elemCount && r.info.id == elemId && r.replace == replace
  {
  }

  /**
   * Labels the packer refuses abort the call before any request goes down,
   * leaving the list alone: ENOMEM when there is no label at all, EINVAL
   * otherwise.
   */
  lemma BadLabelsSendNothing(ioctl: AddIoctl, elemId: ElemId, elemCount: nat, elemInfo: ElemInfo,
                             replace: bool, entries: seq<ElemId>)
    requires IsU32(elemCount) && elemInfo.raw.kind == TypeEnumerated
    requires EnumNames.PackSpec(LabelsOf(elemInfo)).Err?
    ensures var o := AddSpec(ioctl, elemId, elemCount, elemInfo, replace, entries);
            o.sent.None? && o.entries == entries &&
            o.err == Some(if LabelsOf(elemInfo) == [] then ENOMEM else EINVAL)
  {
    EnumNames.RefusalErrno(LabelsOf(elemInfo));
  }

  /** An enumerated element without labels is refused with ENOMEM and nothing is sent. */
  lemma NoLabelsSendNothing(ioctl: AddIoctl, elemId: ElemId, elemCount: nat, elemInfo: ElemInfo,
                            replace: bool, entries: seq<ElemId>)
    requires IsU32(elemCount) && elemInfo.raw.kind == TypeEnumerated && LabelsOf(elemInfo) == []
    ensures var o := AddSpec(ioctl, elemId, elemCount, elemInfo, replace, entries);
            o.sent.None? && o.err == Some(ENOMEM) && o.entries == entries
  {
    EnumNames.RefusalErrno([]);
  }

  /** A failing ioctl appends nothing. */
  lemma FailedAddAppendsNothing(ioctl: AddIoctl, elemId: ElemId, elemCount: nat, elemInfo: ElemInfo,
                                replace: bool, entries: seq<ElemId>)
    requires IsU32(elemCount)
    requires AddSpec(ioctl, elemId, elemCount, elemInfo, replace, entries).err.Some?
    ensures AddSpec(ioctl, elemId, elemCount, elemInfo, replace, entries).entries == entries
  {
  }

  /** The enumerated request carries the packed labels, whose blob splits back into them. */
  lemma EnumRequestCarriesLabels(ioctl: AddIoctl, elemId: ElemId, elemCount: nat, elemInfo: ElemInfo,
                                 replace: bool, entries: seq<ElemId>)
    requires IsU32(elemCount) && elemInfo.raw.kind == TypeEnumerated
    requires AddSpec(ioctl, elemId, elemCount, elemInfo, replace, entries).sent.Some?
    ensures var r := AddSpec(ioctl, elemId, elemCount, elemInfo, replace, entries).sent.value;
            EnumNames.Split(r.info.names) == LabelsOf(elemInfo) &&
            r.info.items == |LabelsOf(elemInfo)| &&
            r.info.namesLength == |r.info.names| <= EnumNames.BlobLimit
  {
    EnumNames.SplitConcat(LabelsOf(elemInfo));
  }
}
