/**
 * The event source of a control card: a shared `subscribers` counter that
 * every source increments on creation and decrements when finalized, the
 * SUBSCRIBE_EVENTS requests that accompany it, and the poll callbacks that
 * read whole `struct snd_ctl_event` records out of the source's buffer.
 */
module CardSource {
  import opened CtlTypes

  /** `sizeof(struct snd_ctl_event)` on the kernel ABI. */
  const EventSize: nat := 72

  /** The timeout `prepare` asks for, in milliseconds. */
  const PollTimeout: nat := 500

  /** `G_IO_IN` and `G_IO_ERR` of a `GIOCondition`. */
  const IoIn: bv32 := 1
  const IoErr: bv32 := 8

  /**
   * The counter and the SUBSCRIBE_EVENTS requests issued so far on the
   * descriptor, oldest first: `true` asks for events, `false` stops them.
   */
  datatype Subscription = Subscription(subscribers: int, issued: seq<bool>)

  /** Whether the most recent request asked for events (none asked yet: no). */
  function LastRequest(issued: seq<bool>): bool
  {
    issued != [] && issued[|issued| - 1]
  }

  /**
   * The invariant the counter keeps with the descriptor: it never goes
   * negative, and the last request issued asks for events exactly while
   * some source is alive.
   */
  predicate Consistent(s: Subscription)
  {
    s.subscribers >= 0 && LastRequest(s.issued) == (s.subscribers > 0)
  }

  /** `ctl_card_finalize_src`: decrement and test; the request to stop goes down only on reaching 0. */
  function AfterFinalize(s: Subscription): (t: Subscription)
    ensures t.subscribers == s.subscribers - 1
    ensures t.issued == s.issued || (t.subscribers == 0 && t.issued == s.issued + [false])
    ensures s.subscribers == 1 ==> |t.issued| == |s.issued| + 1 && !LastRequest(t.issued)
    ensures s.subscribers > 1 ==> t.issued == s.issued
  {
    var n := s.subscribers - 1;
    Subscription(n, if n == 0 then s.issued + [false] else s.issued)
  }

  /**
   * `alsactl_card_create_source`, given whether the descriptor is open,
   * whether the buffer could be allocated and the status of the subscribe
   * request. A failed subscribe releases the new source, whose finalizer
   * runs at once.
   */
  function AfterCreate(s: Subscription, fdOpen: bool, bufferOk: bool, status: Option<Errno>)
    : (r: (Subscription, Option<Errno>))
    ensures !fdOpen ==> r == (s, Some(ENXIO))
    ensures fdOpen && !bufferOk ==> r == (s, Some(ENOMEM))
    ensures fdOpen && bufferOk ==> r.1 == status && |r.0.issued| > |s.issued| && r.0.issued[|s.issued|]
    ensures fdOpen && bufferOk && status.None? ==> r.0.subscribers == s.subscribers + 1
    ensures fdOpen && bufferOk && status.Some? ==> r.0.subscribers == s.subscribers
  {
    if !fdOpen then (s, Some(ENXIO))
    else if !bufferOk then (s, Some(ENOMEM))
    else
      var up := Subscription(s.subscribers + 1, s.issued + [true]);
      if status.Some? then (AfterFinalize(up), status) else (up, None)
  }

  /** Creation keeps the invariant, whatever the outcome. */
  lemma CreateKeepsConsistent(s: Subscription, fdOpen: bool, bufferOk: bool, status: Option<Errno>)
    requires Consistent(s)
    ensures Consistent(AfterCreate(s, fdOpen, bufferOk, status).0)
  {
  }

  /** Finalizing a live source keeps the invariant. */
  lemma FinalizeKeepsConsistent(s: Subscription)
    requires Consistent(s) && s.subscribers > 0
    ensures Consistent(AfterFinalize(s))
  {
  }

  /** One event a card's counter sees: a source created, or a live source finalized. */
  datatype Op = Create(fdOpen: bool, bufferOk: bool, status: Option<Errno>) | Finalize

  function Apply(s: Subscription, op: Op): Subscription
  {
    match op
    case Create(fdOpen, bufferOk, status) => AfterCreate(s, fdOpen, bufferOk, status).0
    case Finalize => AfterFinalize(s)
  }

  function Run(s: Subscription, ops: seq<Op>): Subscription
    decreases |ops|
  {
    if ops == [] then s else Run(Apply(s, ops[0]), ops[1..])
  }

  /** A creation that leaves a live source behind. */
  predicate Opens(op: Op)
  {
    op.Create? && op.fdOpen && op.bufferOk && op.status.None?
  }

  /** The number of live sources `ops` opens and closes. */
  function Opened(ops: seq<Op>): nat
  {
    if ops == [] then 0 else (if Opens(ops[0]) then 1 else 0) + Opened(ops[1..])
  }

  function Closed(ops: seq<Op>): nat
  {
    if ops == [] then 0 else (if ops[0].Finalize? then 1 else 0) + Closed(ops[1..])
  }

  /** Every finalize in `ops`, run from `s`, finds a live source. */
  predicate Feasible(s: Subscription, ops: seq<Op>)
    decreases |ops|
  {
    ops == [] || ((ops[0].Finalize? ==> s.subscribers > 0) && Feasible(Apply(s, ops[0]), ops[1..]))
  }

  /**
   * Over any history in which only live sources are finalized, the counter
   * equals the number of sources opened minus those closed, and the
   * invariant holds at the end.
   */
  lemma {:induction false} RunCounts(s: Subscription, ops: seq<Op>)
    requires Consistent(s) && Feasible(s, ops)
    ensures Run(s, ops).subscribers == s.subscribers + Opened(ops) - Closed(ops)
    ensures Consistent(Run(s, ops))
    decreases |ops|
  {
    if ops != [] {
      match ops[0] {
        case Create(fdOpen, bufferOk, status) =>
          CreateKeepsConsistent(s, fdOpen, bufferOk, status);
        case Finalize =>
          FinalizeKeepsConsistent(s);
      }
      RunCounts(Apply(s, ops[0]), ops[1..]);
    }
  }

  /**
   * Every creation subscribes, not only the first: two sources on a fresh
   * card send two subscribe requests, and finalizing both sends one
   * unsubscribe request.
   */
  lemma TwoSources()
    ensures var ok := Create(true, true, None);
            Run(Subscription(0, []), [ok, ok]) == Subscription(2, [true, true]) &&
            Run(Subscription(0, []), [ok, ok, Finalize, Finalize]) == Subscription(0, [true, true, false])
  {
    var ok := Create(true, true, None);
    var s0, s1, s2 := Subscription(0, []), Subscription(1, [true]), Subscription(2, [true, true]);
    var s3 := Subscription(1, [true, true]);
    assert Apply(s0, ok) == s1 && Apply(s1, ok) == s2;
    assert Apply(s2, Finalize) == s3 && Apply(s3, Finalize) == Subscription(0, [true, true, false]);
    assert [ok, ok][1..] == [ok] && [ok][1..] == [];
    assert [ok, ok, Finalize, Finalize][1..] == [ok, Finalize, Finalize];
    assert [ok, Finalize, Finalize][1..] == [Finalize, Finalize];
    assert [Finalize, Finalize][1..] == [Finalize] && [Finalize][1..] == [];
    assert Run(s2, []) == s2 && Run(s1, [ok]) == s2 && Run(s0, [ok, ok]) == s2;
    var s4 := Subscription(0, [true, true, false]);
    assert Run(s4, []) == s4 && Run(s3, [Finalize]) == s4 && Run(s2, [Finalize, Finalize]) == s4;
    assert Run(s1, [ok, Finalize, Finalize]) == s4;
  }

  /** The source: the card it holds a reference on and the length of its read buffer. */
  datatype EventSource = EventSource(card: Card, bufLen: nat)

  /** `struct _ALSACtlCardPrivate`, without the device node path. */
  class Card {
    var fd: int
    var subscribers: int
    ghost var issued: seq<bool>

    ghost function State(): Subscription
      reads this
    {
      Subscription(subscribers, issued)
    }

    /** `alsactl_card_init`: no descriptor, no subscriber. */
    constructor ()
      ensures fd == -1 && State() == Subscription(0, [])
      ensures Consistent(State())
    {
      fd := -1;
      subscribers := 0;
      issued := [];
    }

    /** The `subscribed` property. */
    function Subscribed(): (b: bool)
      reads this
      ensures b <==> subscribers > 0
      ensures Consistent(State()) ==> (b <==> LastRequest(issued))
    {
      subscribers > 0
    }

    /**
     * `alsactl_card_create_source`. `bufferOk` is whether the buffer of
     * `pageSize` bytes could be allocated and `status` is the outcome of
     * the subscribe request.
     */
    method CreateSource(pageSize: nat, bufferOk: bool, status: Option<Errno>)
      returns (src: Option<EventSource>, err: Option<Errno>)
      modifies this
      ensures fd == old(fd)
      ensures (State(), err) == AfterCreate(old(State()), old(fd) >= 0, bufferOk, status)
      ensures src.Some? <==> err.None?
      ensures src.Some? ==> src.value == EventSource(this, pageSize)
    {
      if fd < 0 {
        return None, Some(ENXIO);
      }
      if !bufferOk {
        return None, Some(ENOMEM);
      }
      var created := EventSource(this, pageSize);
      subscribers := subscribers + 1;
      issued := issued + [true];
      if status.Some? {
        FinalizeSource(created);
        return None, status;
      }
      return Some(created), None;
    }
  }

  /** `ctl_card_finalize_src`. */
  method FinalizeSource(src: EventSource)
    modifies src.card
    ensures src.card.fd == old(src.card.fd)
    ensures src.card.State() == AfterFinalize(old(src.card.State()))
  {
    var card := src.card;
    card.subscribers := card.subscribers - 1;
    if card.subscribers == 0 {
      card.issued := card.issued + [false];
    }
  }

  /** `ctl_card_prepare_src`: never ready before polling, and poll for at most 500 ms. */
  function Prepare(): (r: (bool, nat))
    ensures !r.0 && r.1 == PollTimeout
  {
    (false, PollTimeout)
  }

  /** `ctl_card_check_src`: dispatch when the descriptor is readable or in error. */
  function Check(condition: bv32): (ready: bool)
    ensures ready <==> (condition & IoIn != 0 || condition & IoErr != 0)
  {
    condition & (IoIn | IoErr) != 0
  }

  datatype Verdict = Continue | Remove

  /** What `read` hands back: the bytes read, or an errno. */
  datatype ReadResult = ReadOk(data: seq<bv8>) | ReadFailed(errno: Errno)

  /** The whole records at the head of `data`, in order; trailing bytes are ignored. */
  function Records(data: seq<bv8>): seq<seq<bv8>>
    decreases |data|
  {
    if |data| < EventSize then [] else [data[..EventSize]] + Records(data[EventSize..])
  }

  /**
   * `ctl_card_dispatch_src` as a function of whether the card's descriptor
   * is open, the polled condition and the read: the verdict and the records
   * visited.
   */
  function DispatchSpec(fdOpen: bool, condition: bv32, read: ReadResult): (r: (Verdict, seq<seq<bv8>>))
    ensures r.0 == Remove <==>
              !fdOpen || condition & IoErr != 0 || (read.ReadFailed? && read.errno != EAGAIN)
    ensures (!fdOpen || condition & IoErr != 0 || read.ReadFailed?) ==> r.1 == []
  {
    if !fdOpen || condition & IoErr != 0 then (Remove, [])
    else match read
      case ReadFailed(e) => (if e == EAGAIN then Continue else Remove, [])
      case ReadOk(data) => (Continue, Records(data))
  }

  /**
   * `ctl_card_dispatch_src`. The read is performed only when the descriptor
   * is open and no error is polled; `read` is its outcome, at most
   * `bufLen` bytes. The records are visited by a cursor that advances one
   * record at a time while at least a whole record remains.
   */
  method Dispatch(src: EventSource, condition: bv32, read: ReadResult)
    returns (verdict: Verdict, visited: seq<seq<bv8>>)
    requires read.ReadOk? ==> |read.data| <= src.bufLen
    ensures (verdict, visited) == DispatchSpec(src.card.fd >= 0, condition, read)
  {
    if src.card.fd < 0 {
      return Remove, [];
    }
    if condition & IoErr != 0 {
      return Remove, [];
    }
    if read.ReadFailed? {
      if read.errno == EAGAIN {
        return Continue, [];
      }
      return Remove, [];
    }
    var data := read.data;
    var len := |data|;
    var ev := 0;
    visited := [];
    assert data[ev..] == data;
    while len >= EventSize
      invariant 0 <= len && ev + len == |data|
      invariant visited + Records(data[ev..]) == Records(data)
      decreases len
    {
      assert data[ev..][..EventSize] == data[ev..ev + EventSize];
      assert data[ev..][EventSize..] == data[ev + EventSize..];
      visited := visited + [data[ev..ev + EventSize]];
      len := len - EventSize;
      ev := ev + EventSize;
    }
    assert visited + [] == visited;
    verdict := Continue;
  }

  /**
   * The records visited are exactly ⌊len / 72⌋ consecutive 72-byte slices of
   * the bytes read, the k-th starting at byte 72·k.
   */
  lemma {:induction false} RecordsShape(data: seq<bv8>)
    ensures |Records(data)| == |data| / EventSize
    ensures forall k :: 0 <= k < |Records(data)| ==>
              Records(data)[k] == data[k * EventSize..(k + 1) * EventSize]
    decreases |data|
  {
    if |data| >= EventSize {
      var rest := data[EventSize..];
      RecordsShape(rest);
      forall k | 0 <= k < |Records(data)|
        ensures Records(data)[k] == data[k * EventSize..(k + 1) * EventSize]
      {
        if k > 0 {
          assert Records(data)[k] == Records(rest)[k - 1];
          assert rest[(k - 1) * EventSize..k * EventSize] == data[k * EventSize..(k + 1) * EventSize];
        }
      }
    }
  }

  /** Reading fewer than 72 bytes visits nothing and keeps the source. */
  lemma ShortReadVisitsNothing(condition: bv32, data: seq<bv8>)
    requires |data| < EventSize && condition & IoErr == 0
    ensures DispatchSpec(true, condition, ReadOk(data)) == (Continue, [])
  {
  }
}
