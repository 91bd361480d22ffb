/**
 * Status-bar definitions (SBARDEF): the packed alignment byte and the
 * integer-coded enumerations.
 */
module Sbardef {
  import opened Wrappers
  import opened Scalars

  // ---------------------------------------------------------------------
  // Alignment: horizontal alignment in bits 0-1, vertical in bits 2-3.
  // ---------------------------------------------------------------------

  datatype HoriAlign = Left | Center | Right
  datatype VertAlign = Top | Center | Bottom
  datatype Alignment = Alignment(horizontal: HoriAlign, vertical: VertAlign)

  /** The message of both decode errors; the vertical one reuses the horizontal wording. */
  const MultipleAlignments: string := "Multiple horizontal alignments specified"

  /** The arm of the horizontal match in `from_u8`; `None` for the rejected pattern 0x3. */
  function HoriFromBits(bits: bv8): Option<HoriAlign>
  {
    if bits == 0x0 then Some(HoriAlign.Left)
    else if bits == 0x1 then Some(HoriAlign.Center)
    else if bits == 0x2 then Some(HoriAlign.Right)
    else None
  }

  /** The arm of the vertical match in `from_u8`; `None` for the rejected pattern 0xC. */
  function VertFromBits(bits: bv8): Option<VertAlign>
  {
    if bits == 0x0 then Some(VertAlign.Top)
    else if bits == 0x4 then Some(VertAlign.Center)
    else if bits == 0x8 then Some(VertAlign.Bottom)
    else None
  }

  /** `Alignment::to_u8`: the horizontal bits or-ed with the vertical bits. */
  function ToU8(a: Alignment): (r: bv8)
    ensures r < 16
    ensures r & 0x3 != 0x3 && r & 0xC != 0xC
  {
    var horizontalBits: bv8 := match a.horizontal
      case Left => 0x0
      case Center => 0x1
      case Right => 0x2;
    var verticalBits: bv8 := match a.vertical
      case Top => 0x0
      case Center => 0x4
      case Bottom => 0x8;
    horizontalBits | verticalBits
  }

  /**
   * `Alignment::from_u8`: fails exactly on the two conflicting bit patterns,
   * and on success re-encodes to the low nibble of its input.
   */
  function FromU8(value: bv8): (r: Result<Alignment>)
    ensures r.Err? <==> (value & 0x3 == 0x3 || value & 0xC == 0xC)
    ensures r.Err? ==> r.message == MultipleAlignments
    ensures r.Ok? ==> ToU8(r.value) == value & 0x0F
  {
    match HoriFromBits(value & 0x3)
    case None => Err(MultipleAlignments)
    case Some(horizontal) =>
      match VertFromBits(value & 0xC)
      case None => Err(MultipleAlignments)
      case Some(vertical) => Ok(Alignment(horizontal, vertical))
  }

  /** Decoding an encoded alignment gives it back. */
  lemma AlignmentRoundTrip(a: Alignment)
    ensures FromU8(ToU8(a)) == Ok(a)
  {
    match a.horizontal
    case Left =>
    case Center =>
    case Right =>
  }

  /** The encoding is injective. */
  lemma ToU8Injective(a: Alignment, b: Alignment)
    requires ToU8(a) == ToU8(b)
    ensures a == b
  {
    AlignmentRoundTrip(a);
    AlignmentRoundTrip(b);
  }

  /** Bits 4-7 play no part in decoding. */
  lemma FromU8IgnoresHighBits(value: bv8)
    ensures FromU8(value) == FromU8(value & 0x0F)
  {
    assert value & 0x0F & 0x3 == value & 0x3;
    assert value & 0x0F & 0xC == value & 0xC;
  }

  /** The horizontal component is decided by bits 0-1 alone. */
  lemma HorizontalFromLowBits(v: bv8, w: bv8)
    requires v & 0x3 == w & 0x3
    requires FromU8(v).Ok? && FromU8(w).Ok?
    ensures FromU8(v).value.horizontal == FromU8(w).value.horizontal
  {
  }

  /** The vertical component is decided by bits 2-3 alone. */
  lemma VerticalFromBits2To3(v: bv8, w: bv8)
    requires v & 0xC == w & 0xC
    requires FromU8(v).Ok? && FromU8(w).Ok?
    ensures FromU8(v).value.vertical == FromU8(w).value.vertical
  {
  }

  // ---------------------------------------------------------------------
  // Integer-coded enumerations (`#[repr(u8)]`, serialised as their code).
  // Each table lists the variants in declaration order; a variant's code is
  // its position in the table, and a byte outside the table does not decode.
  // ---------------------------------------------------------------------

  datatype NumberFontType = MonoSpacedZero | MonoSpaceWidest | Proportional

  const NumberFontTypes: seq<NumberFontType> := [MonoSpacedZero, MonoSpaceWidest, Proportional]

  function NumberFontTypeCode(t: NumberFontType): (r: u8)
    ensures r < |NumberFontTypes| && NumberFontTypes[r] == t
  {
    match t
    case MonoSpacedZero => 0
    case MonoSpaceWidest => 1
    case Proportional => 2
  }

  function NumberFontTypeFromCode(code: u8): (r: Option<NumberFontType>)
    ensures r.Some? <==> code <= 2
    ensures r.Some? ==> NumberFontTypeCode(r.value) == code
  {
    if code < |NumberFontTypes| then Some(NumberFontTypes[code]) else None
  }

  datatype NumberType =
    | Health | Armor | Frags | AmmoParam | AmmoCurrWeapon
    | MaxAmmoParam | AmmoParamWeapon | MaxAmmoParamWeapon

  const NumberTypes: seq<NumberType> :=
    [Health, Armor, Frags, AmmoParam, AmmoCurrWeapon,
     MaxAmmoParam, AmmoParamWeapon, MaxAmmoParamWeapon]

  function NumberTypeCode(t: NumberType): (r: u8)
    ensures r < |NumberTypes| && NumberTypes[r] == t
  {
    match t
    case Health => 0
    case Armor => 1
    case Frags => 2
    case AmmoParam => 3
    case AmmoCurrWeapon => 4
    case MaxAmmoParam => 5
    case AmmoParamWeapon => 6
    case MaxAmmoParamWeapon => 7
  }

  function NumberTypeFromCode(code: u8): (r: Option<NumberType>)
    ensures r.Some? <==> code <= 7
    ensures r.Some? ==> NumberTypeCode(r.value) == code
  {
    if code < |NumberTypes| then Some(NumberTypes[code]) else None
  }

  datatype ConditionType =
    | WeaponOwned | WeaponSelected | WeaponNotSelected | WeaponValidAmmo
    | CurrWeaponValidAmmo | MatchesCurrWeaponAmmo | AnyWeaponOwned
    | AnyWeaponNotOwned | AnyWeaponSelected | AnyWeaponNotSelected
    | ItemOwned | ItemNotOwned | GameVersionGreaterEq | GameVersionLess
    | SessionTypeEqual | SessionTypeNotEqual | GameModeEqual
    | GameModeNotEqual | HudModeEqual

  const ConditionTypes: seq<ConditionType> :=
    [WeaponOwned, WeaponSelected, WeaponNotSelected, WeaponValidAmmo,
     CurrWeaponValidAmmo, MatchesCurrWeaponAmmo, AnyWeaponOwned,
     AnyWeaponNotOwned, AnyWeaponSelected, AnyWeaponNotSelected,
     ItemOwned, ItemNotOwned, GameVersionGreaterEq, GameVersionLess,
     SessionTypeEqual, SessionTypeNotEqual, GameModeEqual,
     GameModeNotEqual, HudModeEqual]

  function ConditionTypeCode(t: ConditionType): (r: u8)
    ensures r < |ConditionTypes| && ConditionTypes[r] == t
  {
    match t
    case WeaponOwned => 0
    case WeaponSelected => 1
    case WeaponNotSelected => 2
    case WeaponValidAmmo => 3
    case CurrWeaponValidAmmo => 4
    case MatchesCurrWeaponAmmo => 5
    case AnyWeaponOwned => 6
    case AnyWeaponNotOwned => 7
    case AnyWeaponSelected => 8
    case AnyWeaponNotSelected => 9
    case ItemOwned => 10
    case ItemNotOwned => 11
    case GameVersionGreaterEq => 12
    case GameVersionLess => 13
    case SessionTypeEqual => 14
    case SessionTypeNotEqual => 15
    case GameModeEqual => 16
    case GameModeNotEqual => 17
    case HudModeEqual => 18
  }

  function ConditionTypeFromCode(code: u8): (r: Option<ConditionType>)
    ensures r.Some? <==> code <= 18
    ensures r.Some? ==> ConditionTypeCode(r.value) == code
  {
    if code < |ConditionTypes| then Some(ConditionTypes[code]) else None
  }

  /** Distinct variants have distinct codes, in all three tables. */
  lemma CodesDistinct()
    ensures forall a, b :: NumberFontTypeCode(a) == NumberFontTypeCode(b) ==> a == b
    ensures forall a, b :: NumberTypeCode(a) == NumberTypeCode(b) ==> a == b
    ensures forall a, b :: ConditionTypeCode(a) == ConditionTypeCode(b) ==> a == b
  {
  }

  /** Every variant decodes from its own code. */
  lemma CodesRoundTrip()
    ensures forall t :: NumberFontTypeFromCode(NumberFontTypeCode(t)) == Some(t)
    ensures forall t :: NumberTypeFromCode(NumberTypeCode(t)) == Some(t)
    ensures forall t :: ConditionTypeFromCode(ConditionTypeCode(t)) == Some(t)
  {
  }
}
