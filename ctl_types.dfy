/**
 * Values shared by the control-device binding: errno codes, the element id,
 * the element-information descriptor that travels through the ELEM_INFO,
 * ELEM_ADD and ELEM_REPLACE ioctls, and the integer widths of the ABI.
 */
module CtlTypes {

  datatype Option<+T> = None | Some(value: T)

  /** An errno value reported by the kernel or by the binding itself. */
  type Errno = e: int | e > 0 witness 1

  /** Either the value an operation produced or the errno it reported. */
  datatype Result<+T> = Ok(value: T) | Err(errno: Errno)

  const ENOENT: Errno := 2
  const ENXIO: Errno := 6
  const EAGAIN: Errno := 11
  const ENOMEM: Errno := 12
  const EINVAL: Errno := 22

  /** 2^32: one past the largest `unsigned int` / `guint`. */
  const U32Limit: nat := 0x1_0000_0000

  predicate IsU32(x: int) { 0 <= x < U32Limit }

  /** A `gint32` quadlet of a TLV container. */
  newtype Int32 = x: int | -0x8000_0000 <= x < 0x8000_0000

  /**
   * A NUL-terminated C string, seen without its terminator: a sequence of
   * bytes, each `char` standing for one byte of the string's encoding, so
   * that its length is what `strlen` counts.
   */
  type CString = s: string | '\0' !in s && forall i | 0 <= i < |s| :: s[i] as int < 0x100

  /** Element type tags of the control ABI (`SNDRV_CTL_ELEM_TYPE_*`). */
  const TypeNone: int := 0
  const TypeBoolean: int := 1
  const TypeInteger: int := 2
  const TypeEnumerated: int := 3
  const TypeBytes: int := 4
  const TypeIec958: int := 5
  const TypeInteger64: int := 6

  /** `struct snd_ctl_elem_id`. */
  datatype ElemId = ElemId(numid: nat, iface: int, device: nat, subdevice: nat,
                           name: string, index: nat)

  const ZeroId := ElemId(0, 0, 0, 0, "", 0)

  /**
   * The fields of `struct snd_ctl_elem_info` this core reads or writes.
   * `owner` is the field the add/replace ioctls read as the number of
   * sibling elements to create; `items`, `item` and `name` are the
   * enumerated cursor; `names` and `namesLength` carry the packed label
   * blob on add/replace. The remaining fields (ranges, access flags)
   * pass through untouched and are not represented.
   */
  datatype Descriptor = Descriptor(id: ElemId, kind: int, owner: int,
                                   items: nat, item: nat, name: CString,
                                   names: seq<char>, namesLength: nat)

  /** The descriptor as `{0}` initialises it. */
  const ZeroDescriptor := Descriptor(ZeroId, TypeNone, 0, 0, 0, "", [], 0)

  function Min(a: int, b: int): (m: int)
    ensures m <= a && m <= b && (m == a || m == b)
  {
    if a <= b then a else b
  }
}
