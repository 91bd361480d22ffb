/**
 * Inter-level screen definitions: the packed frame-type word and the
 * integer-coded condition enumeration.
 */
module Interlevel {
  import Wrappers
  import opened Scalars

  // ---------------------------------------------------------------------
  // FrameType: a one-hot duration kind in bits 0-2, a random-offset flag
  // in bit 12.
  // ---------------------------------------------------------------------

  datatype Duration = None | Infinite | Fixed | Random
  datatype FrameType = FrameType(randomOffset: bool, duration: Duration)

  const MultipleDurations: string := "Multiple durations specified."

  /** The bits `to_u16` may set: the three duration bits and the offset bit. */
  const FrameTypeMask: bv16 := 0x1007

  /** The arm of the duration match in `from_u16`; `None` for the rejected patterns. */
  function DurationFromBits(bits: bv16): Wrappers.Option<Duration>
  {
    if bits == 0x0 then Wrappers.Some(Duration.None)
    else if bits == 0x1 then Wrappers.Some(Infinite)
    else if bits == 0x2 then Wrappers.Some(Fixed)
    else if bits == 0x4 then Wrappers.Some(Random)
    else Wrappers.None
  }

  /** `FrameType::to_u16`: the duration bit or-ed with the offset bit. */
  function ToU16(f: FrameType): (r: bv16)
    ensures r & !FrameTypeMask == 0
    ensures r & 0x7 in {0x0, 0x1, 0x2, 0x4}
    ensures (r & 0x1000 != 0) == f.randomOffset
  {
    var durationBits: bv16 := match f.duration
      case None => 0x0
      case Infinite => 0x1
      case Fixed => 0x2
      case Random => 0x4;
    var offsetBit: bv16 := if f.randomOffset then 0x1000 else 0;
    durationBits | offsetBit
  }

  /**
   * `FrameType::from_u16`: fails exactly when more than one duration bit is
   * set; on success the offset flag is bit 12 and the result re-encodes to
   * the masked input.
   */
  function FromU16(value: bv16): (r: Wrappers.Result<FrameType>)
    ensures r.Err? <==> value & 0x7 in {0x3, 0x5, 0x6, 0x7}
    ensures r.Err? ==> r.message == MultipleDurations
    ensures r.Ok? ==> r.value.randomOffset == (value & 0x1000 != 0)
    ensures r.Ok? ==> ToU16(r.value) == value & FrameTypeMask
  {
    match DurationFromBits(value & 0x7)
    case None => Wrappers.Err(MultipleDurations)
    case Some(duration) =>
      var randomOffset := value & 0x1000 != 0;
      Wrappers.Ok(FrameType(randomOffset, duration))
  }

  /** Decoding an encoded frame type gives it back. */
  lemma FrameTypeRoundTrip(f: FrameType)
    ensures FromU16(ToU16(f)) == Wrappers.Ok(f)
  {
    match f.duration
    case None =>
    case Infinite =>
    case Fixed =>
    case Random =>
  }

  /** The encoding is injective. */
  lemma ToU16Injective(f: FrameType, g: FrameType)
    requires ToU16(f) == ToU16(g)
    ensures f == g
  {
    FrameTypeRoundTrip(f);
    FrameTypeRoundTrip(g);
  }

  /** Bits outside the mask play no part in decoding. */
  lemma FromU16IgnoresUnmaskedBits(value: bv16)
    ensures FromU16(value) == FromU16(value & FrameTypeMask)
  {
    assert value & FrameTypeMask & 0x7 == value & 0x7;
    assert value & FrameTypeMask & 0x1000 == value & 0x1000;
  }

  // ---------------------------------------------------------------------
  // ConditionType (`#[repr(u8)]`), codes in declaration order.
  // ---------------------------------------------------------------------

  datatype ConditionType =
    | None | CurrMapGreater | CurrMapEqual | MapVisited
    | CurrMapNotSecret | AnySecretVisited | OnFinishedScreen | OnEnteringScreen

  const ConditionTypes: seq<ConditionType> :=
    [ConditionType.None, CurrMapGreater, CurrMapEqual, MapVisited,
     CurrMapNotSecret, AnySecretVisited, OnFinishedScreen, OnEnteringScreen]

  function ConditionTypeCode(t: ConditionType): (r: u8)
    ensures r < |ConditionTypes| && ConditionTypes[r] == t
  {
    match t
    case None => 0
    case CurrMapGreater => 1
    case CurrMapEqual => 2
    case MapVisited => 3
    case CurrMapNotSecret => 4
    case AnySecretVisited => 5
    case OnFinishedScreen => 6
    case OnEnteringScreen => 7
  }

  function ConditionTypeFromCode(code: u8): (r: Wrappers.Option<ConditionType>)
    ensures r.Some? <==> code <= 7
    ensures r.Some? ==> ConditionTypeCode(r.value) == code
  {
    if code < |ConditionTypes| then Wrappers.Some(ConditionTypes[code]) else Wrappers.None
  }

  /** Distinct conditions have distinct codes, and each decodes from its own code. */
  lemma ConditionCodesDistinct()
    ensures forall a, b :: ConditionTypeCode(a) == ConditionTypeCode(b) ==> a == b
    ensures forall t :: ConditionTypeFromCode(ConditionTypeCode(t)) == Wrappers.Some(t)
  {
  }
}
