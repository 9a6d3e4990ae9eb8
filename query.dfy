/**
 * Naming of sound cards (`src/ctl/query.c`): the sysname of a card or of its
 * control device built from a numeric id, and the list of card ids gathered
 * from the devices of the sound subsystem. The device database is an input
 * sequence of entries, each with what looking it up yields.
 */
module Query {
  import opened CtlTypes

  // ---- Sysnames

  /** A printf template with one `%u` at its end; `prefix` is the literal text before it. */
  type Literal = s: string | '%' !in s && '\0' !in s

  datatype Template = Template(prefix: Literal)

  const CardTemplate := Template("card")
  const ControlTemplate := Template("controlC")

  /** The template as the C string it is, conversion included. */
  function Text(t: Template): string
  {
    t.prefix + "%u"
  }

  /** The number of decimal digits of `n` as the sizing loop counts them: none for 0. */
  function NumDigits(n: nat): nat
  {
    if n == 0 then 0 else 1 + NumDigits(n / 10)
  }

  function Pow10(k: nat): nat
  {
    if k == 0 then 1 else 10 * Pow10(k - 1)
  }

  /** `NumDigits(n)` digits are exactly enough for a positive `n`. */
  lemma {:induction false} DigitsBound(n: nat)
    ensures NumDigits(n) == 0 <==> n == 0
    ensures n > 0 ==> Pow10(NumDigits(n) - 1) <= n < Pow10(NumDigits(n))
  {
    if n >= 10 {
      DigitsBound(n / 10);
    }
  }

  function DigitChar(d: nat): char
    requires d < 10
  {
    ['0', '1', '2', '3', '4', '5', '6', '7', '8', '9'][d]
  }

  /** `%u`: the decimal representation, most significant digit first; "0" for 0. */
  function Decimal(n: nat): (s: string)
    ensures |s| >= 1
  {
    if n < 10 then [DigitChar(n)] else Decimal(n / 10) + [DigitChar(n % 10)]
  }

  /** The representation has `NumDigits(n)` characters, and one for 0. */
  lemma {:induction false} DecimalLength(n: nat)
    ensures |Decimal(n)| == if n == 0 then 1 else NumDigits(n)
  {
    if n >= 10 {
      DecimalLength(n / 10);
    }
  }

  /** The template expanded without any bound. */
  function Expand(t: Template, n: nat): string
  {
    t.prefix + Decimal(n)
  }

  /** `snprintf(buf, size, ...)`: at most `size - 1` characters are kept; a size of 0 writes nothing. */
  function Snprintf(size: nat, full: string): (s: string)
    ensures s <= full
    ensures size > 0 ==> |s| == Min(|full|, size - 1)
    ensures size == 0 ==> s == []
  {
    if size == 0 then [] else full[..Min(|full|, size - 1)]
  }

  /** The allocated name: the size of the zeroed buffer, and the string it holds. */
  datatype Sysname = Sysname(bufferSize: nat, name: string)

  /** What `allocate_sysname` is to produce, as a function of whether the allocation succeeds. */
  function SysnameSpec(t: Template, cardId: nat, allocOk: bool): Result<Sysname>
  {
    var length := |Text(t)| + NumDigits(cardId);
    if !allocOk then Err(ENOMEM)
    else Ok(Sysname(length + 1, Snprintf(length, Expand(t, cardId))))
  }

  /**
   * `allocate_sysname`: count the digits of `card_id` by division, size
   * the buffer from the template's length, and print into it.
   */
  method AllocateSysname(t: Template, cardId: nat, allocOk: bool) returns (r: Result<Sysname>)
    requires IsU32(cardId)
    ensures r == SysnameSpec(t, cardId, allocOk)
  {
    var digits := 0;
    var number := cardId;
    while number > 0
      invariant digits + NumDigits(number) == NumDigits(cardId)
      decreases number
    {
      number := number / 10;
      digits := digits + 1;
    }
    var length := |Text(t)| + digits;
    if !allocOk {
      return Err(ENOMEM);
    }
    r := Ok(Sysname(length + 1, Snprintf(length, Expand(t, cardId))));
  }

  /**
   * The bound given to `snprintf` never cuts the name: the two characters
   * of `%u` make room for the one digit of 0 and for the terminator. The
   * full name fits in the buffer with its NUL.
   */
  lemma NeverTruncated(t: Template, cardId: nat)
    ensures SysnameSpec(t, cardId, true).Ok?
    ensures SysnameSpec(t, cardId, true).value.name == Expand(t, cardId)
    ensures |Expand(t, cardId)| < SysnameSpec(t, cardId, true).value.bufferSize
  {
    DecimalLength(cardId);
  }

  /** "card0" and "controlC12", as the two templates give them. */
  lemma SysnameExamples()
    ensures SysnameSpec(CardTemplate, 0, true) == Ok(Sysname(7, "card0"))
    ensures SysnameSpec(ControlTemplate, 12, true) == Ok(Sysname(13, "controlC12"))
  {
    NeverTruncated(CardTemplate, 0);
    NeverTruncated(ControlTemplate, 12);
    assert Decimal(0) == "0" && Decimal(1) == "1" && Decimal(2) == "2";
    assert Expand(CardTemplate, 0) == "card0";
    assert |Text(CardTemplate)| == 6 && |Text(ControlTemplate)| == 10;
    assert NumDigits(12) == 2 by {
      assert NumDigits(1) == 1;
    }
    assert Decimal(12) == "12";
    assert Expand(ControlTemplate, 12) == "controlC12";
  }

  /**
   * `alsactl_get_card_sysname` / `alsactl_get_control_sysname`: allocate
   * the name, then keep it only if the device database knows it;
   * `lookup` gives the lookup's errno, if any, for a name.
   */
  function GetSysname(t: Template, cardId: nat, allocOk: bool, lookup: string -> Option<Errno>): (r: Result<string>)
    ensures r.Ok? <==> allocOk && lookup(Expand(t, cardId)).None?
    ensures r.Ok? ==> r.value == Expand(t, cardId)
  {
    NeverTruncated(t, cardId);
    match SysnameSpec(t, cardId, allocOk)
    case Err(e) => Err(e)
    case Ok(s) => if lookup(s.name).Some? then Err(lookup(s.name).value) else Ok(s.name)
  }

  // ---- Parsing a sysnum

  const LongMax: int := 0x7fff_ffff_ffff_ffff
  const LongMin: int := -0x8000_0000_0000_0000

  /** `isspace` in the C locale. */
  predicate IsSpace(c: char)
  {
    c == ' ' || 9 <= c as int <= 13
  }

  predicate IsDigit(c: char)
  {
    '0' <= c <= '9'
  }

  function SkipSpaces(s: string, i: nat): (j: nat)
    requires i <= |s|
    ensures i <= j <= |s|
    decreases |s| - i
  {
    if i < |s| && IsSpace(s[i]) then SkipSpaces(s, i + 1) else i
  }

  /** The end of the run of digits starting at `i`. */
  function DigitRun(s: string, i: nat): (j: nat)
    requires i <= |s|
    ensures i <= j <= |s| && (j < |s| ==> !IsDigit(s[j]))
    ensures forall k :: i <= k < j ==> IsDigit(s[k])
    decreases |s| - i
  {
    if i < |s| && IsDigit(s[i]) then DigitRun(s, i + 1) else i
  }

  /** The value of a string of decimal digits. */
  function Value(ds: string): nat
  {
    if ds == [] then 0
    else 10 * Value(ds[..|ds| - 1]) + (if IsDigit(ds[|ds| - 1]) then ds[|ds| - 1] as int - '0' as int else 0)
  }

  /** What `strtol(s, &end, 10)` yields: the value, where it stopped, and whether it set ERANGE. */
  datatype Conversion = Conversion(value: int, end: nat, erange: bool)

  /**
   * `strtol` in base 10: leading white space, an optional sign, then
   * digits. With no digits nothing is converted and the end is the start
   * of the string; a value outside the range of `long` saturates and sets
   * ERANGE.
   */
  function Strtol(s: string): (c: Conversion)
    ensures c.end <= |s|
    ensures !c.erange ==> LongMin <= c.value <= LongMax
  {
    var i := SkipSpaces(s, 0);
    var negative := i < |s| && s[i] == '-';
    var j := if i < |s| && (s[i] == '-' || s[i] == '+') then i + 1 else i;
    var k := DigitRun(s, j);
    if k == j then Conversion(0, 0, false)
    else
      var magnitude: int := Value(s[j..k]);
      var v := if negative then -magnitude else magnitude;
      if v > LongMax then Conversion(LongMax, k, true)
      else if v < LongMin then Conversion(LongMin, k, true)
      else Conversion(v, k, false)
  }

  /**
   * The test a `sysnum` must pass: converted without error, up to its end,
   * to a non-negative value, which is then cast to `guint`.
   */
  function ParseSysnum(s: string): (r: Option<nat>)
    ensures r.Some? ==> IsU32(r.value)
    ensures r.Some? <==> !Strtol(s).erange && Strtol(s).end == |s| && Strtol(s).value >= 0
  {
    var c := Strtol(s);
    if !c.erange && c.end == |s| && c.value >= 0 then Some(c.value % U32Limit) else None
  }

  lemma {:induction false} DecimalIsDigits(n: nat)
    ensures forall k :: 0 <= k < |Decimal(n)| ==> IsDigit(Decimal(n)[k])
    ensures Value(Decimal(n)) == n
  {
    if n >= 10 {
      DecimalIsDigits(n / 10);
      var s := Decimal(n);
      assert s[..|s| - 1] == Decimal(n / 10);
    }
  }

  /**
   * Round trip: every `guint` printed in decimal is accepted back as
   * itself; a decimal beyond the range of `long` is refused.
   */
  lemma ParseDecimal(n: nat)
    ensures IsU32(n) ==> ParseSysnum(Decimal(n)) == Some(n)
    ensures n > LongMax ==> ParseSysnum(Decimal(n)) == None
  {
    StrtolDecimal(n);
    var c := Strtol(Decimal(n));
    if n <= LongMax {
      assert !c.erange && c.end == |Decimal(n)| && c.value == n;
      if IsU32(n) {
        assert n % U32Limit == n;
      }
    } else {
      assert c.erange;
    }
  }

  /** `strtol` reads a decimal back whole, saturating above the range of `long`. */
  lemma StrtolDecimal(n: nat)
    ensures var s := Decimal(n);
            Strtol(s) == if n <= LongMax then Conversion(n, |s|, false) else Conversion(LongMax, |s|, true)
  {
    var s := Decimal(n);
    DecimalIsDigits(n);
    assert IsDigit(s[0]);
    assert SkipSpaces(s, 0) == 0;
    DigitRunToEnd(s, 0);
    assert s[0..|s|] == s;
    assert Value(s[0..|s|]) == n;
  }

  lemma {:induction false} DigitRunToEnd(s: string, i: nat)
    requires i <= |s| && forall k :: i <= k < |s| ==> IsDigit(s[k])
    ensures DigitRun(s, i) == |s|
    decreases |s| - i
  {
    if i < |s| {
      DigitRunToEnd(s, i + 1);
    }
  }

  /** Trailing characters and a minus sign on a non-zero value are refused. */
  lemma SysnumRejections()
    ensures ParseSysnum("1a") == None
    ensures ParseSysnum("-1") == None
  {
    assert DigitRun("1a", 0) == 1 by {
      assert DigitRun("1a", 1) == 1;
    }
    assert Value("1") == 1 by {
      assert "1"[..0] == [];
    }
    assert "-1"[1..2] == "1";
    assert DigitRun("-1", 1) == 2 by {
      assert DigitRun("-1", 2) == 2;
    }
  }

  /** What `strtol` lets through beyond plain decimals: an empty string reads as 0. */
  lemma EmptySysnumAccepted()
    ensures ParseSysnum("") == Some(0)
  {
  }

  // ---- Collecting card ids

  /** A device as looked up from a syspath: its sysname, if any, and its sysnum. */
  datatype Device = Device(sysname: Option<CString>, sysnum: CString)

  /** One entry of the enumeration: its syspath, if any, and the device looking it up yields, if any. */
  datatype UdevEntry = UdevEntry(syspath: Option<CString>, device: Option<Device>)

  predicate OccursAt(hay: string, needle: string, j: nat)
  {
    j + |needle| <= |hay| && hay[j..j + |needle|] == needle
  }

  /** `strstr`: the first index at which `needle` occurs in `hay` at or after `i`. */
  function FindFrom(hay: string, needle: string, i: nat): (r: Option<nat>)
    requires i <= |hay|
    ensures r.Some? ==> i <= r.value && OccursAt(hay, needle, r.value)
    ensures r.Some? ==> forall j :: i <= j < r.value ==> !OccursAt(hay, needle, j)
    ensures r.None? ==> forall j :: i <= j ==> !OccursAt(hay, needle, j)
    decreases |hay| - i
  {
    if i + |needle| > |hay| then None
    else if hay[i..i + |needle|] == needle then Some(i)
    else if i == |hay| then None
    else FindFrom(hay, needle, i + 1)
  }

  function StrStr(hay: string, needle: string): Option<nat>
  {
    FindFrom(hay, needle, 0)
  }

  /** The first occurrence is at the start exactly when `needle` is a prefix. */
  lemma StrStrAtStart(hay: string, needle: string)
    ensures StrStr(hay, needle) == Some(0) <==> needle <= hay
  {
    if needle <= hay {
      assert hay[0..|needle|] == needle;
    }
  }

  /**
   * `detect_dev`: an entry is accepted exactly when its syspath, its device
   * and the device's sysname all exist and the sysname starts with `prefix`;
   * the accepted device is the one looked up.
   */
  function DetectDev(e: UdevEntry, prefix: string): (r: Option<Device>)
    ensures r.Some? <==>
              e.syspath.Some? && e.device.Some? && e.device.value.sysname.Some? &&
              prefix <= e.device.value.sysname.value
    ensures r.Some? ==> r == e.device
  {
    if e.syspath.None? || e.device.None? || e.device.value.sysname.None? then None
    else
      StrStrAtStart(e.device.value.sysname.value, prefix);
      if StrStr(e.device.value.sysname.value, prefix) != Some(0) then None
      else e.device
  }

  /** The number of card devices among the entries: the first pass. */
  function CountCards(es: seq<UdevEntry>): nat
  {
    if es == [] then 0
    else CountCards(es[..|es| - 1]) + (if DetectDev(es[|es| - 1], "card").Some? then 1 else 0)
  }

  /** The ids of the card devices whose sysnum is accepted, in enumeration order: the second pass. */
  function ParsedIds(es: seq<UdevEntry>): seq<nat>
  {
    if es == [] then []
    else
      var e := es[|es| - 1];
      var d := DetectDev(e, "card");
      ParsedIds(es[..|es| - 1]) +
        (if d.Some? && ParseSysnum(d.value.sysnum).Some? then [ParseSysnum(d.value.sysnum).value] else [])
  }

  /** Every card device's sysnum is accepted. */
  predicate AllAccepted(es: seq<UdevEntry>)
  {
    forall k :: 0 <= k < |es| && DetectDev(es[k], "card").Some? ==>
      ParseSysnum(DetectDev(es[k], "card").value.sysnum).Some?
  }

  /** The second pass never collects more ids than the first counted, and as many exactly when all are accepted. */
  lemma {:induction false} ParsedBound(es: seq<UdevEntry>)
    ensures |ParsedIds(es)| <= CountCards(es)
    ensures |ParsedIds(es)| == CountCards(es) <==> AllAccepted(es)
  {
    if es != [] {
      var init := es[..|es| - 1];
      ParsedBound(init);
      assert forall k :: 0 <= k < |init| ==> init[k] == es[k];
    }
  }

  /** The caller-visible outcome of the collection. */
  datatype IdList =
    | Failed(errno: Errno, cleared: bool)  // `cleared`: `*entries` was set to NULL
    | NoCards                              // nothing written, no error
    | Listed(ids: seq<nat>)                // `*entries` holds the ids, `*entry_count` their number

  /** `qsort` with any comparator rearranges the array without changing its elements. */
  ghost predicate Permutes(sort: seq<nat> -> seq<nat>)
  {
    forall xs: seq<nat> {:trigger sort(xs)} :: multiset(sort(xs)) == multiset(xs)
  }

  /**
   * What `alsactl_get_card_id_list` produces: `argsOk` is whether the three
   * out-pointers are non-NULL, `scan` the enumeration or its errno,
   * `allocOk` whether the array could be allocated, `sort` the effect of
   * the final `qsort`.
   */
  function CardIdListSpec(argsOk: bool, scan: Result<seq<UdevEntry>>, allocOk: bool,
                          sort: seq<nat> -> seq<nat>): IdList
  {
    if !argsOk then Failed(EINVAL, false)
    else if scan.Err? then Failed(scan.errno, false)
    else
      var count := CountCards(scan.value);
      if count == 0 then NoCards
      else if !allocOk then Failed(ENOMEM, true)
      else if |ParsedIds(scan.value)| != count then Failed(ENOENT, true)
      else Listed(sort(ParsedIds(scan.value)))
  }

  /**
   * `alsactl_get_card_id_list`: the first pass counts the card devices, the
   * second fills a zeroed array of that many ids, and the two counts are
   * compared.
   */
  method GetCardIdList(argsOk: bool, scan: Result<seq<UdevEntry>>, allocOk: bool,
                       sort: seq<nat> -> seq<nat>) returns (r: IdList)
    ensures r == CardIdListSpec(argsOk, scan, allocOk, sort)
  {
    if !argsOk {
      return Failed(EINVAL, false);
    }
    if scan.Err? {
      return Failed(scan.errno, false);
    }
    var es := scan.value;
    var count := CountCardDevices(es);
    if count == 0 {
      return NoCards;
    }
    if !allocOk {
      return Failed(ENOMEM, true);
    }
    var entries := new nat[count];
    var index := FillIds(es, entries);
    if index != count {
      return Failed(ENOENT, true);
    }
    assert entries[..index] == entries[..];
    r := Listed(sort(entries[..]));
  }

  /** The first pass: count the entries `detect_dev` accepts with the prefix "card". */
  method CountCardDevices(es: seq<UdevEntry>) returns (count: nat)
    ensures count == CountCards(es)
  {
    count := 0;
    var i := 0;
    while i < |es|
      invariant i <= |es| && count == CountCards(es[..i])
    {
      assert es[..i + 1][..i] == es[..i];
      if DetectDev(es[i], "card").Some? {
        count := count + 1;
      }
      i := i + 1;
    }
    assert es[..i] == es;
  }

  /**
   * The second pass: store the id of every accepted card device behind
   * `index`. The array, sized by the first pass, is never overrun.
   */
  method FillIds(es: seq<UdevEntry>, entries: array<nat>) returns (index: nat)
    requires entries.Length == CountCards(es)
    modifies entries
    ensures index == |ParsedIds(es)| <= entries.Length
    ensures entries[..index] == ParsedIds(es)
  {
    index := 0;
    var i := 0;
    while i < |es|
      invariant i <= |es| && index == |ParsedIds(es[..i])| <= entries.Length
      invariant entries[..index] == ParsedIds(es[..i])
    {
      ghost var done, next := ParsedIds(es[..i]), ParsedIds(es[..i + 1]);
      ParsedStep(es, i);
      ParsedBound(es[..i + 1]);
      TakeBound(es, i + 1);
      var dev := DetectDev(es[i], "card");
      if dev.Some? && ParseSysnum(dev.value.sysnum).Some? {
        var val := ParseSysnum(dev.value.sysnum).value;
        assert next == done + [val];
        entries[index] := val;
        assert entries[..index + 1] == done + [val];
        index := index + 1;
      } else {
        assert next == done;
      }
      i := i + 1;
    }
    assert es[..i] == es;
    ParsedBound(es);
  }

  /** One more entry: its id, if it is an accepted card device, goes behind the ids before it. */
  lemma ParsedStep(es: seq<UdevEntry>, i: nat)
    requires i < |es|
    ensures var d := DetectDev(es[i], "card");
            ParsedIds(es[..i + 1]) == ParsedIds(es[..i]) +
              (if d.Some? && ParseSysnum(d.value.sysnum).Some? then [ParseSysnum(d.value.sysnum).value] else [])
  {
    assert es[..i + 1][..i] == es[..i];
  }

  /** A prefix of the enumeration holds no more card devices than the whole of it. */
  lemma {:induction false} TakeBound(es: seq<UdevEntry>, n: nat)
    requires n <= |es|
    ensures CountCards(es[..n]) <= CountCards(es)
    decreases |es| - n
  {
    if n < |es| {
      TakeBound(es, n + 1);
      assert es[..n + 1][..n] == es[..n];
    } else {
      assert es[..n] == es;
    }
  }

  /**
   * A list comes back exactly when the arguments are present, the
   * enumeration worked, there is at least one card device, the array was
   * allocated and every card's sysnum was accepted; it holds one id per
   * card device, the parsed ids in some order.
   */
  lemma ListedExactly(argsOk: bool, scan: Result<seq<UdevEntry>>, allocOk: bool, sort: seq<nat> -> seq<nat>)
    requires Permutes(sort)
    ensures CardIdListSpec(argsOk, scan, allocOk, sort).Listed? <==>
              argsOk && scan.Ok? && CountCards(scan.value) > 0 && allocOk && AllAccepted(scan.value)
    ensures CardIdListSpec(argsOk, scan, allocOk, sort).Listed? ==>
              var ids := CardIdListSpec(argsOk, scan, allocOk, sort).ids;
              |ids| == CountCards(scan.value) && multiset(ids) == multiset(ParsedIds(scan.value))
  {
    if scan.Ok? {
      ParsedBound(scan.value);
      var p := ParsedIds(scan.value);
      assert multiset(sort(p)) == multiset(p);
      assert |multiset(sort(p))| == |sort(p)|;
    }
  }

  /** A card device whose sysnum is refused makes the whole collection fail with ENOENT. */
  lemma RefusedSysnumFails(scan: seq<UdevEntry>, sort: seq<nat> -> seq<nat>, k: nat)
    requires k < |scan| && DetectDev(scan[k], "card").Some?
    requires ParseSysnum(DetectDev(scan[k], "card").value.sysnum).None?
    ensures CardIdListSpec(true, Ok(scan), true, sort) == Failed(ENOENT, true)
  {
    ParsedBound(scan);
  }
}
