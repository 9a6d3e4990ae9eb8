/**
 * Packing the labels of a user-defined enumerated element into one blob
 * (`prepare_enum_names`): every label is checked and measured first, then
 * copied behind a cursor, each followed by one NUL.
 */
module EnumNames {
  import opened CtlTypes

  /** A label must be shorter than this. */
  const LabelLimit: nat := 64

  /** The packed blob must not be longer than this. */
  const BlobLimit: nat := 64 * 1024

  /** The blob and the descriptor fields it fills: `names_length` and `items`. */
  datatype Packed = Packed(blob: seq<char>, namesLength: nat, items: nat)

  /** Σ (len + 1) over the labels: the bytes the blob needs. */
  function TotalLength(labels: seq<CString>): nat
  {
    if labels == [] then 0 else TotalLength(labels[..|labels| - 1]) + |labels[|labels| - 1]| + 1
  }

  /** The labels laid end to end, each followed by one NUL. */
  function Concat(labels: seq<CString>): (blob: seq<char>)
    ensures |blob| == TotalLength(labels)
  {
    if labels == [] then [] else Concat(labels[..|labels| - 1]) + labels[|labels| - 1] + ['\0']
  }

  predicate AllShort(labels: seq<CString>)
  {
    forall k :: 0 <= k < |labels| ==> |labels[k]| < LabelLimit
  }

  /**
   * The result `prepare_enum_names` is meant to produce. `g_malloc0(0)`
   * returns NULL, so a blob of 0 bytes (no label at all) is refused with
   * ENOMEM; for any other size `g_malloc0` does not return NULL.
   */
  function PackSpec(labels: seq<CString>): Result<Packed>
  {
    if !AllShort(labels) then Err(EINVAL)
    else if TotalLength(labels) > BlobLimit then Err(EINVAL)
    else if TotalLength(labels) == 0 then Err(ENOMEM)
    else Ok(Packed(Concat(labels), TotalLength(labels), |labels|))
  }

  /**
   * `prepare_enum_names`, with `length` starting from 0. Both limits are
   * checked before the blob is allocated, and a zero-byte allocation fails;
   * the blob is then filled behind the cursor `pos`.
   */
  method PrepareEnumNames(labels: seq<CString>) returns (r: Result<Packed>)
    ensures r == PackSpec(labels)
  {
    var count := 0;
    var length := 0;
    while count < |labels|
      invariant count <= |labels| && AllShort(labels[..count])
      invariant length == TotalLength(labels[..count])
    {
      var text := labels[count];
      if |text| >= LabelLimit {
        assert !AllShort(labels);
        return Err(EINVAL);
      }
      assert labels[..count + 1][..count] == labels[..count];
      length := length + |text| + 1;
      count := count + 1;
    }
    assert labels[..count] == labels;
    if length > BlobLimit {
      return Err(EINVAL);
    }
    if length == 0 {
      return Err(ENOMEM);
    }
    var blob := new char[length];
    var pos := 0;
    count := 0;
    while count < |labels|
      invariant count <= |labels|
      invariant pos == TotalLength(labels[..count]) <= length
      invariant blob[..pos] == Concat(labels[..count])
    {
      var text := labels[count];
      ConcatStep(labels, count);
      TotalLengthGrows(labels, count + 1);
      StrCopy(blob, pos, text);
      pos := pos + |text| + 1;
      count := count + 1;
    }
    assert labels[..count] == labels;
    assert blob[..pos] == blob[..];
    r := Ok(Packed(blob[..], length, count));
  }

  /**
   * `strcpy(pos, label)` followed by the explicit `pos[strlen(label)] = '\0'`:
   * the label's bytes and one NUL land at `pos`, the bytes before `pos` stay.
   */
  method StrCopy(blob: array<char>, pos: nat, text: CString)
    requires pos + |text| < blob.Length
    modifies blob
    ensures blob[..pos + |text| + 1] == old(blob[..pos]) + text + ['\0']
  {
    ghost var before := blob[..pos];
    forall k | 0 <= k < |text| {
      blob[pos + k] := text[k];
    }
    blob[pos + |text|] := '\0';
    assert blob[..pos] == before;
    assert blob[pos..pos + |text|] == text;
    assert blob[..pos + |text| + 1] == blob[..pos] + blob[pos..pos + |text|] + [blob[pos + |text|]];
  }

  /** One more label: its bytes and its NUL go behind the blob of the labels before it. */
  lemma ConcatStep(labels: seq<CString>, count: nat)
    requires count < |labels|
    ensures TotalLength(labels[..count + 1]) == TotalLength(labels[..count]) + |labels[count]| + 1
    ensures Concat(labels[..count + 1]) == Concat(labels[..count]) + labels[count] + ['\0']
  {
    assert labels[..count + 1][..count] == labels[..count];
  }

  /** The prefix of the labels never needs more bytes than all of them. */
  lemma {:induction false} TotalLengthGrows(labels: seq<CString>, n: nat)
    requires n <= |labels|
    ensures TotalLength(labels[..n]) <= TotalLength(labels)
    decreases |labels| - n
  {
    if n < |labels| {
      TotalLengthGrows(labels, n + 1);
      assert labels[..n + 1][..n] == labels[..n];
    } else {
      assert labels[..n] == labels;
    }
  }

  /** Unpacking: the NUL-terminated strings of a blob, in order. */
  function Split(blob: seq<char>): seq<string>
    decreases |blob|
  {
    if blob == [] then []
    else
      var k := FirstNul(blob);
      if k == |blob| then [blob]
      else [blob[..k]] + Split(blob[k + 1..])
  }

  /** The index of the first NUL, or the length when there is none. */
  function FirstNul(s: seq<char>): (k: nat)
    ensures k <= |s| && (k < |s| ==> s[k] == '\0')
    ensures forall j :: 0 <= j < k ==> s[j] != '\0'
  {
    if s == [] || s[0] == '\0' then 0 else 1 + FirstNul(s[1..])
  }

  /** The blob laid out from the front: the first label, its NUL, then the rest. */
  lemma {:induction false} ConcatFront(labels: seq<CString>)
    requires labels != []
    ensures Concat(labels) == labels[0] + ['\0'] + Concat(labels[1..])
    decreases |labels|
  {
    if |labels| > 1 {
      var init, last, tail := labels[..|labels| - 1], labels[|labels| - 1], labels[1..];
      ConcatFront(init);
      assert init[1..] == tail[..|tail| - 1];
      assert tail[|tail| - 1] == last;
      var head, middle := labels[0], Concat(init[1..]);
      assert init[0] == head;
      assert Concat(tail) == middle + last + ['\0'];
      assert Concat(labels) == (head + ['\0'] + middle) + last + ['\0'];
      assert (head + ['\0'] + middle) + last + ['\0'] == head + ['\0'] + (middle + last + ['\0']);
    } else {
      assert labels[1..] == [];
      assert labels[..0] == [];
      assert Concat(labels) == Concat([]) + labels[0] + ['\0'];
    }
  }

  /** Round trip: splitting a packed blob at its NULs gives back the labels. */
  lemma {:induction false} SplitConcat(labels: seq<CString>)
    ensures Split(Concat(labels)) == labels
    decreases |labels|
  {
    if labels != [] {
      ConcatFront(labels);
      var blob := Concat(labels);
      var l := labels[0];
      assert blob[..|l|] == l;
      assert blob[|l|] == '\0';
      assert '\0' !in l;
      FirstNulAt(blob, |l|);
      assert blob[|l| + 1..] == Concat(labels[1..]);
      SplitConcat(labels[1..]);
    }
  }

  lemma FirstNulAt(s: seq<char>, k: nat)
    requires k < |s| && s[k] == '\0' && forall j :: 0 <= j < k ==> s[j] != '\0'
    ensures FirstNul(s) == k
  {
  }

  /** A label of 64 or more bytes is refused. */
  lemma LongLabelRefused(labels: seq<CString>, k: nat)
    requires k < |labels| && |labels[k]| >= LabelLimit
    ensures PackSpec(labels) == Err(EINVAL)
  {
  }

  /** An empty label list is refused with ENOMEM; any other refusal is EINVAL. */
  lemma RefusalErrno(labels: seq<CString>)
    ensures PackSpec([]) == Err(ENOMEM)
    ensures labels != [] && PackSpec(labels).Err? ==> PackSpec(labels).errno == EINVAL
  {
    if labels != [] {
      assert TotalLength(labels) >= |labels[|labels| - 1]| + 1;
    }
  }

  /** Every label of an accepted list is shorter than 64, the list is not empty and the blob is at most 64 KiB. */
  lemma AcceptedBounds(labels: seq<CString>)
    requires PackSpec(labels).Ok?
    ensures labels != [] && forall k :: 0 <= k < |labels| ==> |labels[k]| < LabelLimit
    ensures |PackSpec(labels).value.blob| == PackSpec(labels).value.namesLength <= BlobLimit
    ensures TotalLength(labels) <= |labels| * LabelLimit
  {
    ShortLabelsTotal(labels);
  }

  /** Labels shorter than 64 bytes need at most 64 bytes each in the blob. */
  lemma {:induction false} ShortLabelsTotal(labels: seq<CString>)
    requires AllShort(labels)
    ensures TotalLength(labels) <= |labels| * LabelLimit
    decreases |labels|
  {
    if labels != [] {
      var init := labels[..|labels| - 1];
      assert forall k :: 0 <= k < |init| ==> init[k] == labels[k];
      assert AllShort(init);
      ShortLabelsTotal(init);
    }
  }

  // ---- The source as written: `length` is declared without an initial value.

  /**
   * `prepare_enum_names` as written: `length` starts from whatever the
   * stack held (`residue`) and wraps at 2^32 like the `unsigned int` it is.
   */
  function PackAsWritten(labels: seq<CString>, residue: nat): (r: Result<Packed>)
    requires IsU32(residue)
    ensures !AllShort(labels) ==> r == Err(EINVAL)
    ensures r.Ok? ==> AllShort(labels) && r.value.blob == Concat(labels) && r.value.items == |labels|
    ensures r.Ok? ==> r.value.namesLength <= BlobLimit
                      && (residue + TotalLength(labels) - r.value.namesLength) % U32Limit == 0
    ensures r.Ok? ==> r.value.namesLength > 0
    ensures r.Err? ==> r.errno == EINVAL || r.errno == ENOMEM
    ensures r == Err(ENOMEM) <==> AllShort(labels) && (residue + TotalLength(labels)) % U32Limit == 0
  {
    if !AllShort(labels) then Err(EINVAL)
    else
      var length := (residue + TotalLength(labels)) % U32Limit;
      if length > BlobLimit then Err(EINVAL)
      else if length == 0 then Err(ENOMEM)
      else Ok(Packed(Concat(labels), length, |labels|))
  }

  /** With residue 0 the source does what it is meant to. */
  lemma AsWrittenWithZeroResidue(labels: seq<CString>)
    requires TotalLength(labels) < U32Limit
    ensures PackAsWritten(labels, 0) == PackSpec(labels)
  {
    if AllShort(labels) {
      var length := (0 + TotalLength(labels)) % U32Limit;
      assert length == TotalLength(labels);
    }
  }

  /** With residue 1 the single label "a" is announced as 3 bytes, not 2. */
  lemma AsWrittenMisreportsLength()
    ensures PackAsWritten(["a"], 1).Ok? && PackAsWritten(["a"], 1).value.namesLength == 3
    ensures PackSpec(["a"]).Ok? && PackSpec(["a"]).value.namesLength == 2
  {
    assert TotalLength(["a"]) == 2 by {
      assert ["a"][..0] == [];
    }
  }

  /** With a residue of 64 KiB the same valid label is refused outright. */
  lemma AsWrittenRefusesValidLabel()
    ensures PackAsWritten(["a"], BlobLimit) == Err(EINVAL)
    ensures PackSpec(["a"]).Ok?
  {
    assert TotalLength(["a"]) == 2 by {
      assert ["a"][..0] == [];
    }
  }

  /**
   * With a residue of 2^32 - 1 the count wraps to 1: a one-byte buffer is
   * allocated and announced for the two bytes that `strcpy` writes into it.
   */
  lemma AsWrittenUndersizesBuffer()
    ensures PackAsWritten(["a"], U32Limit - 1).Ok?
    ensures PackAsWritten(["a"], U32Limit - 1).value.namesLength == 1
    ensures |PackAsWritten(["a"], U32Limit - 1).value.blob| == 2
  {
    assert TotalLength(["a"]) == 2 by {
      assert ["a"][..0] == [];
    }
  }

  /**
   * With a residue of 2^32 - 2 the count wraps to 0 for the label "a":
   * `g_malloc0(0)` gives NULL and the valid label is refused with ENOMEM.
   */
  lemma AsWrittenWrapsToZero()
    ensures PackAsWritten(["a"], U32Limit - 2) == Err(ENOMEM)
    ensures PackSpec(["a"]).Ok?
  {
    assert TotalLength(["a"]) == 2 by {
      assert ["a"][..0] == [];
    }
  }
}
