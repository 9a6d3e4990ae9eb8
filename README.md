# ALSA control binding: a verified model of its protocol logic

This project models the user-space protocol logic of the ALSA control-device
binding (`src/ctl/card.c`) and of its card-naming helpers (`src/ctl/query.c`),
and proves properties of that model in Dafny.

The kernel is not modelled. Every ioctl and `read` is a function parameter
(an *oracle*) that maps the request sent to the reply: success with data, or
an errno. Properties that hold for every driver are proved for every such
function. Where the code relies on the driver behaving (a stable element
count, a reply that fits the packet), that reliance is an explicit
precondition.

Modules, one per part of the core:

- `CtlTypes` (`ctl_types.dfy`): errno values, the element id, the
  `snd_ctl_elem_info` fields the core touches, `Option`/`Result`, 32-bit
  widths.
- `ElemList` (`elem_list.dfy`): paginated element-id enumeration. A probe
  call learns the count; chunks of at most 1000 ids then fill one array
  slice by slice, all or nothing.
- `ElemInfo` (`elem_info.dfy`): element-information decoding. Routing on the
  type tag, and the enumerated-label walk that reissues the call once per
  item.
- `ElemTlv` (`elem_tlv.dfy`): TLV packet framing for write, read and
  command. The container is an `array` overwritten in place.
- `EnumNames` (`enum_names.dfy`): packing enumerated labels into a blob of
  NUL-terminated strings, with its 64-byte and 64 KiB limits.
- `ElemRegistrar` (`elem_registrar.dfy`): user-element add/replace, with the
  element count in `owner` and the synthesis of consecutive ids.
- `CardSource` (`card_source.dfy`): the event source. The card is a class
  whose `subscribers` counter creation and finalization update in place;
  the SUBSCRIBE_EVENTS requests are a ghost trace. Also the
  prepare/check/dispatch callbacks and the dispatch loop over whole
  72-byte `snd_ctl_event` records.
- `Query` (`query.dfy`): sysname sizing and printing, `strtol`-based sysnum
  acceptance, the `detect_dev` prefix test, and the two-pass card-id
  collection. The device database is an input sequence of entries.

Each method that loops or writes in place is proved equal to a
specification function (`ensures r == Spec(...)`). The lemmas then state
what the source promises about that function.

Where the design description and the code disagree, the model follows the
code:

- `alsactl_card_create_source` sends the subscribe request on every
  creation, not only when the counter goes from 0 to 1.
  `CardSource.TwoSources` shows two subscribe requests for two sources.
- The counter is incremented before the subscribe request.

## Model

| member | source | states |
|---|---|---|
| ElemList.AllocateElemIds | src/ctl/card.c:173-217 | The result is the all-or-nothing enumeration `ListElems` with chunk cap 1000; on success it holds exactly as many ids as the probe reported. The first request is the zeroed probe. After a probe reporting N > 0, the chunk requests issued are a prefix of `Requests(N, 0, 1000)`, and all of it on success. A probe reporting 0 issues nothing more and yields an empty list. |
| ElemList.FetchPages | src/ctl/card.c:198-214 | The loop over the buffer sized by the probe computes `Pages` from offset 0; the requests it sends are a prefix of the chunk plan, and the whole plan when no call fails. |
| ElemList.StoreChunk | src/ctl/card.c:203-206 | The driver's copy to `ids + offset` puts the chunk there and keeps the ids before `offset`. |
| ElemList.PagesLength | src/ctl/card.c:199-214 | Against a driver whose chunks fit, a successful run of chunk calls from `offset` gathers exactly count − offset ids. |
| ElemList.ListElemsLength | src/ctl/card.c:181-216 | A successful enumeration holds exactly as many ids as the probe reported. |
| ElemList.RequestsBounded | src/ctl/card.c:199-202 | Every chunk request is non-empty, asks for at most the cap (1000) and lies inside [0, count). |
| ElemList.RequestsTile | src/ctl/card.c:199-214 | The chunk requests start at offset 0 and each starts where the previous ended; the last ends at count. So every slot is requested exactly once and the offset rises strictly to count. |
| ElemList.RequestCount | src/ctl/card.c:199-202 | N elements take ⌈N/1000⌉ chunk calls. |
| ElemList.FifteenHundredTakesTwoCalls | src/ctl/card.c:199-214 | 1500 elements are fetched as (0, 1000) then (1000, 500). |
| ElemList.PaginationTransparent | src/ctl/card.c:198-216 | Against a driver serving a fixed list, enumeration returns exactly that list, whatever the chunk cap. |
| ElemList.FailingChunkFailsAll | src/ctl/card.c:206-211 | One failing chunk call makes the whole enumeration fail. |
| ElemInfo.FixedVariant | src/ctl/card.c:309-329 | Yields a variant exactly for the five non-enumerated tags (bool, int, bytes, IEC 60958, int64). That variant carries the descriptor and stands for that tag; any other tag yields none. |
| ElemInfo.WalkLabels | src/ctl/card.c:340-354 | A successful label walk from item i to n returns n - i labels. |
| ElemInfo.ElemInfoOf | src/ctl/card.c:293-364 | A failing first call reports its errno. A non-enumerated tag yields its own variant with the driver's descriptor, or ENXIO for an unknown tag. An enumerated tag yields enumerated information with one label per item. |
| ElemInfo.GetElemInfo | src/ctl/card.c:293-364 | The method, which fills the label array in place, computes `ElemInfoOf`. |
| ElemInfo.LabelsInIndexOrder | src/ctl/card.c:340-357 | If the driver names `table[i]` for item i, the decoded labels are exactly `table`, in index order. |
| ElemInfo.FailingLookupDiscardsLabels | src/ctl/card.c:342-346 | A label lookup failing at any item makes the call fail with that errno; the labels gathered before are discarded. |
| ElemTlv.WriteSpec | src/ctl/card.c:389-406 | A missing container or one of fewer than 2 quadlets gives EINVAL and sends nothing. Otherwise the packet sent carries the element's numid, length 4·count, and a copy of the container. |
| ElemTlv.Exchange | src/ctl/card.c:448-452 | After the ioctl, the count is the reported byte length / 4. The container holds the returned payload's first count quadlets; the rest is unchanged. The ioctl's status is reported either way. |
| ElemTlv.ReadSpec | src/ctl/card.c:433-452 | Read refuses a missing or too-short container with EINVAL before sending anything. |
| ElemTlv.CommandSpec | src/ctl/card.c:480-500 | Command refuses a missing or too-short container with EINVAL before sending anything. |
| ElemTlv.WriteElemTlv | src/ctl/card.c:375-409 | The method computes `WriteSpec`. |
| ElemTlv.CopyOut | src/ctl/card.c:451 | The first n quadlets of the container become those of the payload; the rest is unchanged. |
| ElemTlv.ReadElemTlv | src/ctl/card.c:420-455 | The method sends a zero-filled packet and overwrites the container and its count as `ReadSpec` says. |
| ElemTlv.CommandElemTlv | src/ctl/card.c:466-503 | The method sends the container's contents and overwrites the container and its count as `CommandSpec` says. |
| ElemTlv.WriteThenRead | src/ctl/card.c:401-452 | Round trip: against a driver that stores the written blob, a later read of sufficient capacity returns the blob with its count; the rest of the container is untouched. |
| ElemTlv.WriteThenReadExample | src/ctl/card.c:401-452 | Writing [1, 4] and then reading with room for 8 quadlets returns [1, 4], 8 bytes long. |
| ElemTlv.OneQuadletRefused | src/ctl/card.c:389-392 | A one-quadlet container is refused with EINVAL by write, read and command alike, and nothing changes. |
| EnumNames.Concat | src/ctl/card.c:529-534 | The blob is Σ(len + 1) bytes long. |
| EnumNames.PrepareEnumNames | src/ctl/card.c:505-538 | The method, which checks and measures every label before allocating and then fills the blob behind a cursor, computes `PackSpec`. With `length` starting from 0 (see Findings): EINVAL for a label of 64 or more bytes or a total over 64 KiB; ENOMEM for an empty list, whose 0-byte `g_malloc0` returns NULL; otherwise the NUL-separated blob, `names_length` = Σ(len + 1) and `items` = the number of labels. |
| EnumNames.StrCopy | src/ctl/card.c:529-532 | `strcpy` and the explicit NUL put the label's bytes and one NUL at the cursor and keep the bytes before it. |
| EnumNames.SplitConcat | src/ctl/card.c:529-534 | Round trip: splitting the blob at its NULs gives back the labels. |
| EnumNames.LongLabelRefused | src/ctl/card.c:514-515 | Any label of 64 or more bytes gives EINVAL. |
| EnumNames.RefusalErrno | src/ctl/card.c:511-525 | An empty label list is refused with ENOMEM; every other refusal is EINVAL. |
| EnumNames.AcceptedBounds | src/ctl/card.c:511-527 | An accepted list is not empty, every label is shorter than 64 bytes, and the blob is at most 64 KiB and as long as `names_length`. |
| EnumNames.ShortLabelsTotal | src/ctl/card.c:511-517 | Labels under 64 bytes need at most 64 bytes each in the blob. |
| EnumNames.PackAsWritten | src/ctl/card.c:505-527 | The code as written, with `residue` left in `length`: a label of 64 or more bytes gives EINVAL; a refusal is EINVAL or ENOMEM, and ENOMEM exactly when the labels are short and residue + Σ(len + 1) wraps to 0 modulo 2^32. An accepted list yields the packed blob and one item per label, with `names_length` positive, at most 64 KiB and congruent to residue + Σ(len + 1) modulo 2^32. |
| EnumNames.AsWrittenWithZeroResidue | src/ctl/card.c:508-517 | The code as written agrees with the intended packing when the uninitialised `length` happens to hold 0. |
| EnumNames.AsWrittenMisreportsLength | src/ctl/card.c:508-527 | With residue 1 in `length`, the label "a" is announced as 3 bytes instead of 2. |
| EnumNames.AsWrittenRefusesValidLabel | src/ctl/card.c:517-521 | With residue 65536 in `length`, the valid label "a" is refused with EINVAL. |
| EnumNames.AsWrittenWrapsToZero | src/ctl/card.c:508-525 | With residue 2^32 − 2 in `length`, the valid label "a" makes the count wrap to 0 and is refused with ENOMEM. |
| EnumNames.AsWrittenUndersizesBuffer | src/ctl/card.c:508-532 | With residue 2^32 − 1 in `length`, the label "a" is accepted with a 1-byte buffer, into which two bytes are copied. |
| ElemRegistrar.ToPid | src/ctl/card.c:571 | The `(__kernel_pid_t)` cast gives a signed 32-bit value congruent to the count modulo 2^32. |
| ElemRegistrar.Synthesize | src/ctl/card.c:578-584 | The loop appends exactly n ids. |
| ElemRegistrar.AddOrReplaceElems | src/ctl/card.c:540-585 | The method computes `AddSpec`: an enumerated element's labels are packed first, and a refusal (ENOMEM for no label, EINVAL otherwise) is reported before any ioctl. |
| ElemRegistrar.StepArithmetic | src/ctl/card.c:582-583 | After i steps, numid and index have each risen by i modulo 2^32; no other id field changed. |
| ElemRegistrar.AddedIds | src/ctl/card.c:578-584 | A successful add appends exactly elem_count ids after the caller's list. The i-th has numid and index equal to the returned id's plus i (mod 2^32). |
| ElemRegistrar.RequestCarriesCount | src/ctl/card.c:551-572 | The request carries the caller's id, the add-or-replace choice, and the element count in `owner`. |
| ElemRegistrar.BadLabelsSendNothing | src/ctl/card.c:553-563 | Labels the packer refuses abort before any request, with ENOMEM when there is no label and EINVAL otherwise; the caller's list is untouched. |
| ElemRegistrar.NoLabelsSendNothing | src/ctl/card.c:520-563 | An enumerated element without labels is refused with ENOMEM and no ADD or REPLACE request is sent. |
| ElemRegistrar.FailedAddAppendsNothing | src/ctl/card.c:572-576 | A failing ioctl appends no id. |
| ElemRegistrar.EnumRequestCarriesLabels | src/ctl/card.c:553-558 | An enumerated request carries a blob that splits back into the labels, `items` = their number, and `names_length` = the blob's length ≤ 64 KiB. |
| CardSource.AfterFinalize | src/ctl/card.c:717-730 | Finalizing decrements the counter. The unsubscribe request is issued only when the counter goes from 1 to 0. |
| CardSource.AfterCreate | src/ctl/card.c:741-792 | A closed descriptor gives ENXIO and a failed buffer allocation gives ENOMEM; in both cases nothing changes. Otherwise a subscribe request is always issued. On success the counter is up by one. On a failed subscribe, its errno is reported and the counter is restored by the finalizer. |
| CardSource.CreateKeepsConsistent | src/ctl/card.c:785-790 | Creation, whatever its outcome, keeps the invariant: counter ≥ 0, and the last request asks for events iff the counter is positive. |
| CardSource.FinalizeKeepsConsistent | src/ctl/card.c:723-726 | Finalizing a live source keeps that invariant. |
| CardSource.RunCounts | src/ctl/card.c:717-792 | Over any history that finalizes only live sources, the counter equals the sources opened minus those closed, and the invariant holds. |
| CardSource.TwoSources | src/ctl/card.c:781-790 | Two sources on a fresh card issue two subscribe requests; finalizing both issues exactly one unsubscribe. |
| CardSource.Card.constructor | src/ctl/card.c:100-105 | A new card has no descriptor and no subscriber, and satisfies the invariant. |
| CardSource.Card.Subscribed | src/ctl/card.c:52-56 | `subscribed` is true iff the counter is positive. Under the invariant, that is iff the last request issued asks for events. |
| CardSource.Card.CreateSource | src/ctl/card.c:741-792 | The counter and the request trace change as `AfterCreate` says; the descriptor is unchanged. A source referring to the card and a page-sized buffer is returned exactly when there is no error. |
| CardSource.FinalizeSource | src/ctl/card.c:717-730 | The card's counter and trace change as `AfterFinalize` says. |
| CardSource.Prepare | src/ctl/card.c:660-666 | Never ready before polling, with a 500 ms timeout. |
| CardSource.Check | src/ctl/card.c:668-677 | Ready iff the condition contains IN or ERR. |
| CardSource.DispatchSpec | src/ctl/card.c:679-715 | REMOVE iff the descriptor is closed, ERR is polled, or the read fails with an errno other than EAGAIN. No record is visited in those cases or on EAGAIN. |
| CardSource.Dispatch | src/ctl/card.c:679-715 | The method, looping over the read bytes while a whole record remains, computes `DispatchSpec`. |
| CardSource.RecordsShape | src/ctl/card.c:705-711 | Dispatch visits exactly ⌊len/72⌋ records, the k-th being bytes [72k, 72k+72); trailing partial bytes are ignored. |
| CardSource.ShortReadVisitsNothing | src/ctl/card.c:705-714 | A read of fewer than 72 bytes visits nothing and keeps the source. |
| Query.DigitsBound | src/ctl/query.c:184-189 | The digit count is 0 only for 0. For n > 0 it is the d with 10^(d-1) ≤ n < 10^d. |
| Query.DecimalLength | src/ctl/query.c:184-198 | The printed decimal has as many characters as the digit count, and one for 0. |
| Query.Snprintf | src/ctl/query.c:198 | `snprintf` keeps a prefix of at most size − 1 characters, and nothing for size 0. |
| Query.AllocateSysname | src/ctl/query.c:177-199 | The digit-counting loop and the print compute `SysnameSpec`. The buffer is strlen(template) + digits + 1 bytes. The name is the template printed with bound strlen(template) + digits. |
| Query.NeverTruncated | src/ctl/query.c:191-198 | For every card id, including 0, the bound never cuts the name. The buffer holds the whole "prefix + decimal" plus its NUL. |
| Query.SysnameExamples | src/ctl/query.c:12-13 | Card 0 is "card0" in a 7-byte buffer; control device 12 is "controlC12" in a 13-byte buffer. |
| Query.GetSysname | src/ctl/query.c:235-251 | The name is returned iff allocation succeeds and the device exists, and it is then the full expanded name. |
| Query.Strtol | src/ctl/query.c:156 | `strtol` stops within the string and, without ERANGE, stays within the range of `long`. |
| Query.ParseSysnum | src/ctl/query.c:155-160 | A sysnum is accepted iff it converts without error, up to its end, to a non-negative value; the `guint` cast yields a 32-bit value. |
| Query.ParseDecimal | src/ctl/query.c:155-158 | Round trip: every 32-bit id printed in decimal is accepted back as itself. A decimal beyond `long` is refused. |
| Query.StrtolDecimal | src/ctl/query.c:156 | `strtol` reads a decimal back whole, saturating with ERANGE above `LONG_MAX`. |
| Query.SysnumRejections | src/ctl/query.c:157 | "1a" (trailing characters) and "-1" (negative) are refused. |
| Query.EmptySysnumAccepted | src/ctl/query.c:157 | The empty string passes the test as 0: nothing is converted and the end pointer already sits on the terminator. |
| Query.FindFrom | src/ctl/query.c:76 | `strstr` returns an index where the needle occurs, with no earlier occurrence; it returns nothing only when the needle occurs nowhere. |
| Query.StrStrAtStart | src/ctl/query.c:76 | The first occurrence is at the start iff the needle is a prefix. |
| Query.DetectDev | src/ctl/query.c:53-82 | An entry is accepted iff its syspath, device and sysname exist and the sysname starts with the prefix; the accepted device is the one looked up. |
| Query.ParsedBound | src/ctl/query.c:128-164 | The second pass collects at most as many ids as the first counted, and exactly as many iff every card's sysnum is accepted. |
| Query.CountCardDevices | src/ctl/query.c:128-135 | The first pass counts the entries `detect_dev` accepts. |
| Query.FillIds | src/ctl/query.c:147-163 | The second pass never overruns the array and stores the accepted ids in enumeration order. |
| Query.GetCardIdList | src/ctl/query.c:109-175 | The method computes `CardIdListSpec`. |
| Query.ListedExactly | src/ctl/query.c:117-172 | A list is produced iff the out-pointers are given, the enumeration works, at least one card exists, the array is allocated and every sysnum is accepted. The list then has one id per card: the parsed ids, in some order. |
| Query.RefusedSysnumFails | src/ctl/query.c:164-169 | One refused sysnum makes the collection fail with ENOENT and clear `*entries`. |

## Left out

- System calls are function parameters. Open file descriptors, `close` and `errno` are not modelled. The driver's behaviour is constrained only where the code relies on it:
  - `ElemList.StableDriver`: every chunk reports the same count and copies `space` ids;
  - `ElemInfo.KeepsItems`: label lookups keep the type and item count;
  - `ElemTlv.ReplyFits`: the reported TLV length is a whole number of quadlets within the packet.
- The code does not check that the returned TLV length fits the caller's container (src/ctl/card.c:451, 499), nor that it is a whole number of quadlets. The model assumes both in the preconditions of `ElemTlv.ReadElemTlv` and `ElemTlv.CommandElemTlv`.
- Allocation failures are an input flag where they decide an outcome: ENOMEM in `AfterCreate`, `AllocateSysname` and `GetCardIdList`. Elsewhere they are not modelled: `calloc` in `allocate_elem_ids`, the label array and `strdup` in `get_elem_info`, the TLV packet. The names blob is the exception: `g_malloc0` returns NULL only for 0 bytes, so its ENOMEM branch is taken exactly for an empty label list and is modelled as such. Freeing memory is not modelled either, including the names blob, which is freed on both paths.
- ElemRegistrar.AddOrReplaceElems: the loop index is an `int` compared with an unsigned count; counts beyond 2^31 are not modelled as the C overflow.
- Strings are sequences of `char`, and a label's (or any C string's) `char` stands for one byte of its encoding: `CtlTypes.CString` holds only values below 256, so its length is what `strlen` counts. Decoding UTF-8 into characters is not modelled.
- EnumNames.PackAsWritten: the blob is the full Σ(len + 1) bytes even when a wrapped `length` makes the allocation shorter; the overrun `strcpy` then commits is exhibited by `EnumNames.AsWrittenUndersizesBuffer`, not modelled as memory corruption.
- EnumNames.PrepareEnumNames: `length` and `count` are modelled as unbounded. The 32-bit wrap of Σ(len + 1) needs more than 2^26 labels and is not modelled.
- ElemTlv: `container_size` is a `size_t`, but `packet->length` is 32 bits wide. Containers of 2^30 quadlets or more, whose byte size truncates, are not modelled.
- `alsactl_card_get_elem_id_list` copies the enumerated ids into a `GList`; `ElemList.AllocateElemIds` returns them as a sequence.
- `alsactl_card_add_elems` and `alsactl_card_replace_elems` are represented by the `replace` flag of `ElemRegistrar.AddOrReplaceElems`.
- `alsactl_card_open`, `alsactl_card_get_info`, `alsactl_card_lock_elem`, `alsactl_card_remove_elems` and `ctl_card_finalize` are single system-call wrappers and are not modelled. The timer and rawmidi files are not modelled either.
- CardSource.Card.CreateSource: the `g_atomic_int_*` operations are modelled as sequential steps, so concurrent creation and finalization are not captured. The GObject reference the source holds on the card is not modelled. On a failed subscribe, `*gsrc` is left pointing at the released source; the model returns no source.
- CardSource.Dispatch: events are only visited, as in the source; their contents are not decoded. The read is an input, limited to the buffer length.
- The `devnode` property, `GParamSpec` and `GSource` registration, priorities and names are not modelled.
- Query: udev is an input sequence of entries. Each entry carries its syspath, and the device the lookup yields with its sysname and sysnum.
  - Both passes of `alsactl_get_card_id_list` see the same lookups. If a device appeared between the passes, the second pass could write past the array, which the model cannot express.
  - A NULL sysnum is not modelled: a sysnum is always a string.
- `prepare_udev_enum`, `check_existence` and `release_udev_enum` are not modelled; the enumeration is an input, as a `Result`. Two hazards there are not captured:
  - `prepare_udev_enum` leaves `enumerator` unset when `udev_new` fails;
  - it unreferences the enumerator without clearing it on later failures.
- Query.GetCardIdList: the final `qsort` is a parameter that is only required to permute its input. Its comparator returns only 0 or 1, so no order is claimed: the model proves only that the list holds the parsed ids in some order.
- Query.Strtol: only base 10 in the C locale is modelled, and no locale-specific white space.

## Findings

| source | as written | input that shows it | evidently intended | confidence | as-written member | corrected member |
|---|---|---|---|---|---|---|
| src/ctl/card.c:508,517 | `length` is declared without an initial value and then accumulated, so `names_length` and the 64 KiB check start from whatever the stack held | labels ["a"] with 1 left in `length`: `names_length` is 3, not 2; with 65536 left, the valid label is refused with EINVAL; with 2^32 − 1 left, a 1-byte buffer receives 2 bytes; with 2^32 − 2 left, the count wraps to 0 and the label is refused with ENOMEM | `length` starts from 0, so `names_length` = Σ(len + 1) | not executed | EnumNames.PackAsWritten (EnumNames.AsWrittenMisreportsLength, EnumNames.AsWrittenRefusesValidLabel, EnumNames.AsWrittenUndersizesBuffer, EnumNames.AsWrittenWrapsToZero) | EnumNames.PrepareEnumNames (EnumNames.PackSpec, EnumNames.SplitConcat) |
