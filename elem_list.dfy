/**
 * Paginated enumeration of the element ids of one control device
 * (`allocate_elem_ids`): a probe ELEM_LIST call learns the element count,
 * then chunked calls fill one buffer slice by slice.
 */
module ElemList {
  import opened CtlTypes

  /** The binding never asks the driver for more records than this in one call. */
  const ChunkCap: nat := 1000

  /** One ELEM_LIST request: where in the buffer the records go and how many are asked for. */
  datatype Request = Request(offset: nat, space: nat)

  /** What one ELEM_LIST ioctl hands back: the device's element count and the ids it copied, or an errno. */
  datatype ListReply = ListOk(count: nat, ids: seq<ElemId>) | ListFailed(errno: Errno)

  /** The ELEM_LIST ioctl, as a function of the request's offset and space. */
  type ListIoctl = (nat, nat) -> ListReply

  /** The probe: the list structure is zeroed, so offset and space are both 0. */
  const Probe := Request(0, 0)

  /**
   * What the loop relies on from the driver: every chunk request that lies
   * inside [0, count) and succeeds reports the same count and copies exactly
   * `space` ids.
   */
  ghost predicate ChunksFit(call: ListIoctl, count: nat)
  {
    forall o: nat, s: nat {:trigger call(o, s)} ::
      0 < s && o + s <= count && call(o, s).ListOk? ==>
        call(o, s).count == count && |call(o, s).ids| == s
  }

  ghost predicate StableDriver(call: ListIoctl)
  {
    call(0, 0).ListOk? ==> ChunksFit(call, call(0, 0).count)
  }

  /** The chunk requests issued for `count` elements from `offset` on, when none fails. */
  function Requests(count: nat, offset: nat, cap: nat): (rs: seq<Request>)
    requires offset <= count && cap > 0
    decreases count - offset
  {
    if offset == count then []
    else
      var space := Min(count - offset, cap);
      [Request(offset, space)] + Requests(count, offset + space, cap)
  }

  /** The ids gathered by the chunk calls from `offset` to `count`, or the first errno. */
  function Pages(call: ListIoctl, count: nat, offset: nat, cap: nat): Result<seq<ElemId>>
    requires offset <= count && cap > 0
    decreases count - offset
  {
    if offset == count then Ok([])
    else
      var space := Min(count - offset, cap);
      match call(offset, space)
      case ListFailed(e) => Err(e)
      case ListOk(_, ids) =>
        match Pages(call, count, offset + space, cap)
        case Err(e) => Err(e)
        case Ok(rest) => Ok(ids + rest)
  }

  /** The whole enumeration: probe, then every chunk, all or nothing. */
  function ListElems(call: ListIoctl, cap: nat): Result<seq<ElemId>>
    requires cap > 0
  {
    match call(0, 0)
    case ListFailed(e) => Err(e)
    case ListOk(count, _) => if count == 0 then Ok([]) else Pages(call, count, 0, cap)
  }

  function Prepend(p: seq<ElemId>, r: Result<seq<ElemId>>): Result<seq<ElemId>>
  {
    match r
    case Err(e) => Err(e)
    case Ok(q) => Ok(p + q)
  }

  lemma PrependNothing(r: Result<seq<ElemId>>)
    ensures Prepend([], r) == r
  {
    if r.Ok? {
      assert [] + r.value == r.value;
    }
  }

  lemma PrependTwice(p: seq<ElemId>, q: seq<ElemId>, r: Result<seq<ElemId>>)
    ensures Prepend(p, Prepend(q, r)) == Prepend(p + q, r)
  {
    if r.Ok? {
      assert p + (q + r.value) == (p + q) + r.value;
    }
  }

  /**
   * `allocate_elem_ids`. Returns the ids (an empty list, without any buffer,
   * when the probe reports no element) or the errno of the first failing
   * call, and the requests it issued in order.
   */
  method AllocateElemIds(call: ListIoctl) returns (r: Result<seq<ElemId>>, issued: seq<Request>)
    requires StableDriver(call)
    ensures r == ListElems(call, ChunkCap)
    ensures r.Ok? ==> call(0, 0).ListOk? && |r.value| == call(0, 0).count
    ensures |issued| >= 1 && issued[0] == Probe
    ensures call(0, 0).ListOk? && call(0, 0).count > 0 ==>
              issued[1..] <= Requests(call(0, 0).count, 0, ChunkCap)
    ensures r.Ok? && call(0, 0).count > 0 ==> issued[1..] == Requests(call(0, 0).count, 0, ChunkCap)
    ensures r.Ok? && call(0, 0).count == 0 ==> issued == [Probe]
  {
    var probe := call(0, 0);
    if probe.ListFailed? {
      return Err(probe.errno), [Probe];
    }
    var count := probe.count;
    if count == 0 {
      return Ok([]), [Probe];
    }
    var ids := new ElemId[count];
    var sent;
    r, sent := FetchPages(call, ids);
    issued := [Probe] + sent;
    assert issued[1..] == sent;
    if r.Ok? {
      ListElemsLength(call, ChunkCap);
    }
  }

  /**
   * The loop of `allocate_elem_ids`: chunk after chunk into the buffer
   * sized by the probe, stopping at the first failing call.
   */
  method FetchPages(call: ListIoctl, ids: array<ElemId>) returns (r: Result<seq<ElemId>>, sent: seq<Request>)
    requires ChunksFit(call, ids.Length)
    modifies ids
    ensures r == Pages(call, ids.Length, 0, ChunkCap)
    ensures sent <= Requests(ids.Length, 0, ChunkCap)
    ensures r.Ok? ==> sent == Requests(ids.Length, 0, ChunkCap)
  {
    var count := ids.Length;
    var offset := 0;
    sent := [];
    assert ids[..offset] == [];
    PrependNothing(Pages(call, count, 0, ChunkCap));
    while offset < count
      invariant offset <= count
      invariant Pages(call, count, 0, ChunkCap) == Prepend(ids[..offset], Pages(call, count, offset, ChunkCap))
      invariant sent + Requests(count, offset, ChunkCap) == Requests(count, 0, ChunkCap)
      decreases count - offset
    {
      var space := Min(count - offset, ChunkCap);
      SentStep(sent, count, offset, ChunkCap);
      sent := sent + [Request(offset, space)];
      var reply := call(offset, space);
      if reply.ListFailed? {
        assert Pages(call, count, offset, ChunkCap) == Err(reply.errno);
        return Err(reply.errno), sent;
      }
      var chunk := reply.ids;
      assert |chunk| == space;
      ghost var before := ids[..offset];
      StoreChunk(ids, offset, chunk);
      PrependTwice(before, chunk, Pages(call, count, offset + space, ChunkCap));
      offset := offset + space;
    }
    assert ids[..offset] == ids[..];
    assert ids[..] + [] == ids[..];
    r := Ok(ids[..]);
  }

  /** Issuing the next chunk request keeps the requests sent a prefix of the full plan. */
  lemma SentStep(sent: seq<Request>, count: nat, offset: nat, cap: nat)
    requires offset < count && cap > 0
    requires sent + Requests(count, offset, cap) == Requests(count, 0, cap)
    ensures var space := Min(count - offset, cap);
            var next := sent + [Request(offset, space)];
            next + Requests(count, offset + space, cap) == Requests(count, 0, cap) &&
            next <= Requests(count, 0, cap)
  {
    var space := Min(count - offset, cap);
    var rest := Requests(count, offset + space, cap);
    assert Requests(count, offset, cap) == [Request(offset, space)] + rest;
    assert (sent + [Request(offset, space)]) + rest == sent + ([Request(offset, space)] + rest);
  }

  /** The kernel's copy of one chunk of ids to `pids = ids + offset`; the ids before `offset` stay. */
  method StoreChunk(ids: array<ElemId>, offset: nat, chunk: seq<ElemId>)
    requires offset + |chunk| <= ids.Length
    modifies ids
    ensures ids[..offset + |chunk|] == old(ids[..offset]) + chunk
  {
    ghost var before := ids[..offset];
    forall k | 0 <= k < |chunk| {
      ids[offset + k] := chunk[k];
    }
    assert ids[..offset] == before;
    assert ids[offset..offset + |chunk|] == chunk;
    assert ids[..offset + |chunk|] == ids[..offset] + ids[offset..offset + |chunk|];
  }

  /** A successful run of chunk calls against a driver whose chunks fit gathers exactly `count - offset` ids. */
  lemma {:induction false} PagesLength(call: ListIoctl, count: nat, offset: nat, cap: nat)
    requires offset <= count && cap > 0 && ChunksFit(call, count)
    requires Pages(call, count, offset, cap).Ok?
    ensures |Pages(call, count, offset, cap).value| == count - offset
    decreases count - offset
  {
    if offset < count {
      var space := Min(count - offset, cap);
      assert call(offset, space).ListOk?;
      PagesLength(call, count, offset + space, cap);
    }
  }

  /** A successful enumeration holds exactly as many ids as the probe reported. */
  lemma ListElemsLength(call: ListIoctl, cap: nat)
    requires StableDriver(call) && cap > 0 && ListElems(call, cap).Ok?
    ensures call(0, 0).ListOk? && |ListElems(call, cap).value| == call(0, 0).count
  {
    if call(0, 0).count > 0 {
      PagesLength(call, call(0, 0).count, 0, cap);
    }
  }

  /** Every chunk request is non-empty, asks for at most `cap` records and stays inside [0, count). */
  lemma {:induction false} RequestsBounded(count: nat, offset: nat, cap: nat)
    requires offset <= count && cap > 0
    ensures forall q :: q in Requests(count, offset, cap) ==>
              0 < q.space <= cap && offset <= q.offset && q.offset + q.space <= count
    decreases count - offset
  {
    if offset < count {
      RequestsBounded(count, offset + Min(count - offset, cap), cap);
    }
  }

  /** The chunk requests tile [offset, count): each starts where the previous one ended. */
  lemma {:induction false} RequestsTile(count: nat, offset: nat, cap: nat)
    requires offset <= count && cap > 0
    ensures var rs := Requests(count, offset, cap);
            (rs == [] <==> offset == count) &&
            (rs != [] ==> rs[0].offset == offset &&
                          rs[|rs| - 1].offset + rs[|rs| - 1].space == count) &&
            (forall k :: 0 <= k < |rs| - 1 ==> rs[k + 1].offset == rs[k].offset + rs[k].space)
    decreases count - offset
  {
    if offset < count {
      var space := Min(count - offset, cap);
      var rest := Requests(count, offset + space, cap);
      RequestsTile(count, offset + space, cap);
      var rs := Requests(count, offset, cap);
      assert rs == [Request(offset, space)] + rest;
      forall k | 0 <= k < |rs| - 1
        ensures rs[k + 1].offset == rs[k].offset + rs[k].space
      {
        assert rs[k + 1] == rest[k];
        if k > 0 {
          assert rs[k] == rest[k - 1];
        }
      }
    }
  }

  /** Enumerating N elements takes ceil(N / 1000) chunk calls: no fewer would hold N records, one fewer would not. */
  lemma {:induction false} RequestCount(count: nat, offset: nat)
    requires offset <= count
    ensures var n := |Requests(count, offset, ChunkCap)|;
            count - offset <= n * 1000 && (n == 0 || (n - 1) * 1000 < count - offset)
    decreases count - offset
  {
    if offset < count {
      var space := Min(count - offset, ChunkCap);
      RequestCount(count, offset + space);
    }
  }

  lemma FifteenHundredTakesTwoCalls()
    ensures Requests(1500, 0, ChunkCap) == [Request(0, 1000), Request(1000, 500)]
  {
    assert Requests(1500, 1500, ChunkCap) == [];
    assert Requests(1500, 1000, ChunkCap) == [Request(1000, 500)];
  }

  /** A driver that serves the fixed element list `elems`. */
  ghost predicate Serves(call: ListIoctl, elems: seq<ElemId>)
  {
    && call(0, 0) == ListOk(|elems|, [])
    && forall o: nat, s: nat {:trigger call(o, s)} ::
         0 < s && o + s <= |elems| ==> call(o, s) == ListOk(|elems|, elems[o..o + s])
  }

  lemma {:induction false} PagesOfServingDriver(call: ListIoctl, elems: seq<ElemId>, offset: nat, cap: nat)
    requires Serves(call, elems) && offset <= |elems| && cap > 0
    ensures Pages(call, |elems|, offset, cap) == Ok(elems[offset..])
    decreases |elems| - offset
  {
    if offset < |elems| {
      var space := Min(|elems| - offset, cap);
      PagesOfServingDriver(call, elems, offset + space, cap);
      assert elems[offset..] == elems[offset..offset + space] + elems[offset + space..];
    } else {
      assert elems[offset..] == [];
    }
  }

  /**
   * Pagination transparency: against a driver serving `elems`, enumeration
   * yields exactly `elems`, in the driver's order, whatever the chunk cap.
   */
  lemma PaginationTransparent(call: ListIoctl, elems: seq<ElemId>, cap: nat)
    requires Serves(call, elems) && cap > 0
    ensures ListElems(call, cap) == Ok(elems)
    ensures ListElems(call, cap) == ListElems(call, 1)
  {
    PagesOfServingDriver(call, elems, 0, cap);
    PagesOfServingDriver(call, elems, 0, 1);
  }

  /** All or nothing: a chunk call that fails makes the whole enumeration fail. */
  lemma {:induction false} FailingChunkFailsAll(call: ListIoctl, count: nat, offset: nat, cap: nat, q: Request)
    requires offset <= count && cap > 0
    requires q in Requests(count, offset, cap) && call(q.offset, q.space).ListFailed?
    ensures Pages(call, count, offset, cap).Err?
    decreases count - offset
  {
    var space := Min(count - offset, cap);
    if call(offset, space).ListOk? {
      FailingChunkFailsAll(call, count, offset + space, cap, q);
    }
  }
}
