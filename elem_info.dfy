/**
 * Element-information decoding (`alsactl_card_get_elem_info`): one
 * ELEM_INFO call, then routing on the type tag; for the enumerated type the
 * call is reissued once per item index to collect the labels.
 */
module ElemInfo {
  import opened CtlTypes

  /** The decoded information, one variant per element type, each keeping the driver's descriptor. */
  datatype ElemInfo =
    | BoolInfo(raw: Descriptor)
    | IntInfo(raw: Descriptor)
    | BytesInfo(raw: Descriptor)
    | Iec60958Info(raw: Descriptor)
    | Int64Info(raw: Descriptor)
    | EnumInfo(raw: Descriptor, labels: seq<CString>)

  /** The type tag each variant stands for. */
  function TagOf(info: ElemInfo): int
  {
    match info
    case BoolInfo(_) => TypeBoolean
    case IntInfo(_) => TypeInteger
    case BytesInfo(_) => TypeBytes
    case Iec60958Info(_) => TypeIec958
    case Int64Info(_) => TypeInteger64
    case EnumInfo(_, _) => TypeEnumerated
  }

  /** What one ELEM_INFO ioctl hands back: the descriptor as the driver rewrote it, or an errno. */
  datatype InfoReply = InfoOk(info: Descriptor) | InfoFailed(errno: Errno)

  /** The ELEM_INFO ioctl, as a function of the descriptor passed in. */
  type InfoIoctl = Descriptor -> InfoReply

  /**
   * What the label walk relies on: a successful reply to a request on an
   * enumerated descriptor keeps its type and its item count (the label
   * array is sized by the first reply and the loop rereads the count).
   */
  ghost predicate KeepsItems(call: InfoIoctl)
  {
    forall d: Descriptor {:trigger call(d)} :: d.kind == TypeEnumerated && call(d).InfoOk? ==>
      call(d).info.kind == TypeEnumerated && call(d).info.items == d.items
  }

  /** The switch over the five tags that carry no labels; `None` for every other tag. */
  function FixedVariant(raw: Descriptor): (r: Option<ElemInfo>)
    ensures r.Some? <==> raw.kind in {TypeBoolean, TypeInteger, TypeBytes, TypeIec958, TypeInteger64}
    ensures r.Some? ==> r.value.raw == raw && TagOf(r.value) == raw.kind && !r.value.EnumInfo?
  {
    if raw.kind == TypeBoolean then Some(BoolInfo(raw))
    else if raw.kind == TypeInteger then Some(IntInfo(raw))
    else if raw.kind == TypeBytes then Some(BytesInfo(raw))
    else if raw.kind == TypeIec958 then Some(Iec60958Info(raw))
    else if raw.kind == TypeInteger64 then Some(Int64Info(raw))
    else None
  }

  /**
   * The label walk from item `i` to `n`: each call passes the previous
   * reply with `item` set to the index; the labels are the names returned,
   * in order, together with the last descriptor; the first failure
   * discards everything.
   */
  function WalkLabels(call: InfoIoctl, info: Descriptor, n: nat, i: nat): (r: Result<(seq<CString>, Descriptor)>)
    requires i <= n
    ensures r.Ok? ==> |r.value.0| == n - i
    decreases n - i
  {
    if i == n then Ok(([], info))
    else
      match call(info.(item := i))
      case InfoFailed(e) => Err(e)
      case InfoOk(next) =>
        match WalkLabels(call, next, n, i + 1)
        case Err(e) => Err(e)
        case Ok(rest) => Ok(([next.name] + rest.0, rest.1))
  }

  /** The whole decoding of the element named by `id`. */
  function ElemInfoOf(call: InfoIoctl, id: ElemId): (r: Result<ElemInfo>)
    ensures call(ZeroDescriptor.(id := id)).InfoFailed? ==>
              r == Err(call(ZeroDescriptor.(id := id)).errno)
    ensures call(ZeroDescriptor.(id := id)).InfoOk? ==>
              var info := call(ZeroDescriptor.(id := id)).info;
              (info.kind == TypeEnumerated ==>
                 (r.Ok? ==> r.value.EnumInfo? && |r.value.labels| == info.items)) &&
              (info.kind != TypeEnumerated ==>
                 && (r.Ok? <==> info.kind in {TypeBoolean, TypeInteger, TypeBytes, TypeIec958, TypeInteger64})
                 && (r.Ok? ==> r.value.raw == info && TagOf(r.value) == info.kind)
                 && (r.Err? ==> r.errno == ENXIO))
  {
    match call(ZeroDescriptor.(id := id))
    case InfoFailed(e) => Err(e)
    case InfoOk(info) =>
      if info.kind != TypeEnumerated then
        match FixedVariant(info)
        case None => Err(ENXIO)
        case Some(v) => Ok(v)
      else
        match WalkLabels(call, info, info.items, 0)
        case Err(e) => Err(e)
        case Ok(walk) => Ok(EnumInfo(walk.1, walk.0))
  }

  function LabelsBefore(p: seq<CString>, r: Result<(seq<CString>, Descriptor)>): Result<(seq<CString>, Descriptor)>
  {
    match r
    case Err(e) => Err(e)
    case Ok(walk) => Ok((p + walk.0, walk.1))
  }

  lemma LabelsBeforeNothing(r: Result<(seq<CString>, Descriptor)>)
    ensures LabelsBefore([], r) == r
  {
    if r.Ok? {
      assert [] + r.value.0 == r.value.0;
    }
  }

  lemma LabelsBeforeTwice(p: seq<CString>, q: seq<CString>, r: Result<(seq<CString>, Descriptor)>)
    ensures LabelsBefore(p, LabelsBefore(q, r)) == LabelsBefore(p + q, r)
  {
    if r.Ok? {
      assert p + (q + r.value.0) == (p + q) + r.value.0;
    }
  }

  /** `alsactl_card_get_elem_info`, with the label array filled in place. */
  method GetElemInfo(call: InfoIoctl, id: ElemId) returns (r: Result<ElemInfo>)
    requires KeepsItems(call)
    ensures r == ElemInfoOf(call, id)
  {
    var reply := call(ZeroDescriptor.(id := id));
    if reply.InfoFailed? {
      return Err(reply.errno);
    }
    var info := reply.info;
    if info.kind != TypeEnumerated {
      var v := FixedVariant(info);
      if v.None? {
        return Err(ENXIO);
      }
      return Ok(v.value);
    }
    ghost var first := info;
    var n := info.items;
    var labels := new CString[n];
    var i := 0;
    assert labels[..i] == [];
    LabelsBeforeNothing(WalkLabels(call, first, n, 0));
    while i < info.items
      invariant i <= n && info.items == n && info.kind == TypeEnumerated
      invariant WalkLabels(call, first, n, 0) == LabelsBefore(labels[..i], WalkLabels(call, info, n, i))
      decreases n - i
    {
      var step := call(info.(item := i));
      if step.InfoFailed? {
        return Err(step.errno);
      }
      assert step.info.items == n;
      ghost var done := labels[..i];
      labels[i] := step.info.name;
      assert labels[..i + 1] == done + [step.info.name];
      LabelsBeforeTwice(done, [step.info.name], WalkLabels(call, step.info, n, i + 1));
      info := step.info;
      i := i + 1;
    }
    assert labels[..i] == labels[..] && labels[..] + [] == labels[..];
    r := Ok(EnumInfo(info, labels[..]));
  }

  /** A driver that answers every enumerated lookup with `item < |table|` by naming `table[item]`. */
  ghost predicate ServesLabels(call: InfoIoctl, table: seq<CString>)
  {
    forall d: Descriptor {:trigger call(d)} ::
      d.kind == TypeEnumerated && d.items == |table| && d.item < |table| ==>
        call(d) == InfoOk(d.(name := table[d.item]))
  }

  lemma {:induction false} WalkOfServingDriver(call: InfoIoctl, table: seq<CString>, info: Descriptor, i: nat)
    requires ServesLabels(call, table)
    requires info.kind == TypeEnumerated && info.items == |table| && i <= |table|
    ensures WalkLabels(call, info, |table|, i).Ok?
    ensures WalkLabels(call, info, |table|, i).value.0 == table[i..]
    decreases |table| - i
  {
    if i < |table| {
      var next := info.(item := i).(name := table[i]);
      assert call(info.(item := i)) == InfoOk(next);
      WalkOfServingDriver(call, table, next, i + 1);
      assert table[i..] == [table[i]] + table[i + 1..];
    }
  }

  /**
   * Labels arrive in index order: against a driver naming `table[i]` for
   * item `i`, the decoded enumerated information carries exactly `table`.
   */
  lemma LabelsInIndexOrder(call: InfoIoctl, id: ElemId, table: seq<CString>)
    requires ServesLabels(call, table)
    requires call(ZeroDescriptor.(id := id)).InfoOk?
    requires call(ZeroDescriptor.(id := id)).info.kind == TypeEnumerated
    requires call(ZeroDescriptor.(id := id)).info.items == |table|
    ensures ElemInfoOf(call, id).Ok? && ElemInfoOf(call, id).value.EnumInfo?
    ensures ElemInfoOf(call, id).value.labels == table
  {
    WalkOfServingDriver(call, table, call(ZeroDescriptor.(id := id)).info, 0);
  }

  /** A driver that names items below `k` from `table` and fails the lookup of item `k` with `e`. */
  ghost predicate FailsAtItem(call: InfoIoctl, table: seq<CString>, k: nat, e: Errno)
  {
    forall d: Descriptor {:trigger call(d)} ::
      d.kind == TypeEnumerated && d.items == |table| && d.item <= k && k < |table| ==>
        call(d) == if d.item < k then InfoOk(d.(name := table[d.item])) else InfoFailed(e)
  }

  lemma {:induction false} WalkFailsAtItem(call: InfoIoctl, table: seq<CString>, k: nat, e: Errno,
                                           info: Descriptor, i: nat)
    requires FailsAtItem(call, table, k, e) && k < |table|
    requires info.kind == TypeEnumerated && info.items == |table| && i <= k
    ensures WalkLabels(call, info, |table|, i) == Err(e)
    decreases k - i
  {
    if i < k {
      var next := info.(item := i).(name := table[i]);
      assert call(info.(item := i)) == InfoOk(next);
      WalkFailsAtItem(call, table, k, e, next, i + 1);
    } else {
      assert call(info.(item := i)) == InfoFailed(e);
    }
  }

  /** All or nothing: one failing label lookup discards the labels gathered before it. */
  lemma FailingLookupDiscardsLabels(call: InfoIoctl, id: ElemId, table: seq<CString>, k: nat, e: Errno)
    requires FailsAtItem(call, table, k, e) && k < |table|
    requires call(ZeroDescriptor.(id := id)).InfoOk?
    requires call(ZeroDescriptor.(id := id)).info.kind == TypeEnumerated
    requires call(ZeroDescriptor.(id := id)).info.items == |table|
    ensures ElemInfoOf(call, id) == Err(e)
  {
    WalkFailsAtItem(call, table, k, e, call(ZeroDescriptor.(id := id)).info, 0);
  }
}
