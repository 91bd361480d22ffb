/**
 * The ID24 JSON lump envelope: the `major.minor.revision` version string
 * codec, the typed payload, and the document the editor pages change.
 */
module Id24Json {
  import opened Wrappers
  import opened Scalars
  import opened RustText
  import opened Skydefs
  import opened Gameconf

  // ---------------------------------------------------------------------
  // Version
  // ---------------------------------------------------------------------

  datatype Version = Version(major: u8, minor: u8, revision: u8)

  const FormatError: string := "Expected format 'major.minor.revision'"
  const MajorError: string := "Invalid major version"
  const MinorError: string := "Invalid minor version"
  const RevisionError: string := "Invalid revision version"

  /** Serialisation: the three components in decimal, separated by dots. */
  function FormatVersion(v: Version): (r: string)
    ensures Split(r, '.') == [Decimal(v.major), Decimal(v.minor), Decimal(v.revision)]
  {
    SplitThree(Decimal(v.major), Decimal(v.minor), Decimal(v.revision), '.');
    Decimal(v.major) + "." + Decimal(v.minor) + "." + Decimal(v.revision)
  }

  /**
   * Deserialisation: split on '.', demand exactly three parts, and parse
   * each as a `u8`, reporting the first part that fails. A string with
   * other than two dots is rejected; on success each part is, up to a `+`
   * sign and leading zeros, the decimal form of its component.
   */
  function ParseVersion(s: string): (r: Result<Version>)
    ensures Count(s, '.') != 2 ==> r == Err(FormatError)
    ensures r.Ok? ==>
      && Canonical(Split(s, '.')[0]) == Decimal(r.value.major)
      && Canonical(Split(s, '.')[1]) == Decimal(r.value.minor)
      && Canonical(Split(s, '.')[2]) == Decimal(r.value.revision)
    ensures r.Err? && Count(s, '.') == 2 ==>
      (r.message == MajorError && ParseU8(Split(s, '.')[0]).None?) ||
      (r.message == MinorError && ParseU8(Split(s, '.')[1]).None?) ||
      (r.message == RevisionError && ParseU8(Split(s, '.')[2]).None?)
    ensures r == Err(MinorError) ==> Count(s, '.') == 2 && ParseU8(Split(s, '.')[0]).Some?
    ensures r == Err(RevisionError) ==>
      && Count(s, '.') == 2
      && ParseU8(Split(s, '.')[0]).Some?
      && ParseU8(Split(s, '.')[1]).Some?
  {
    var parts := Split(s, '.');
    if |parts| != 3 then Err(FormatError)
    else
      match ParseU8(parts[0])
      case None => Err(MajorError)
      case Some(major) =>
        match ParseU8(parts[1])
        case None => Err(MinorError)
        case Some(minor) =>
          match ParseU8(parts[2])
          case None => Err(RevisionError)
          case Some(revision) => Ok(Version(major, minor, revision))
  }

  /** Every version survives serialisation followed by deserialisation. */
  lemma VersionRoundTrip(v: Version)
    ensures ParseVersion(FormatVersion(v)) == Ok(v)
  {
    ParseDecimal(v.major);
    ParseDecimal(v.minor);
    ParseDecimal(v.revision);
  }

  /** Serialisation is injective. */
  lemma FormatVersionInjective(v: Version, w: Version)
    requires FormatVersion(v) == FormatVersion(w)
    ensures v == w
  {
    VersionRoundTrip(v);
    VersionRoundTrip(w);
  }

  /** Strings that do not split into exactly three parts are rejected. */
  lemma WrongPartCounts()
    ensures ParseVersion("1.0") == Err(FormatError)
    ensures ParseVersion("1.0.0.") == Err(FormatError)
    ensures ParseVersion("1") == Err(FormatError)
  {
    assert Count("1.0", '.') == 1;
    assert Count("1.0.0.", '.') == 3;
  }

  /** The lump version every test file declares. */
  lemma VersionOneZeroZero()
    ensures ParseVersion("1.0.0") == Ok(Version(1, 0, 0))
  {
    assert FormatVersion(Version(1, 0, 0)) == "1.0.0";
    VersionRoundTrip(Version(1, 0, 0));
  }

  /**
   * A sign and leading zeros are accepted, so reading then writing a
   * version need not reproduce the text that was read: a `+` before the
   * major part and a `0` before the minor part parse to the same version,
   * yet that text is not its serialisation.
   */
  lemma SignAndZeroAccepted(v: Version)
    ensures var t := ("+" + Decimal(v.major)) + "." + ("0" + Decimal(v.minor)) + "." + Decimal(v.revision);
      ParseVersion(t) == Ok(v) && FormatVersion(v) != t
  {
    var a, b, c := "+" + Decimal(v.major), "0" + Decimal(v.minor), Decimal(v.revision);
    SignedDecimal(v.major);
    PaddedDecimal(v.minor);
    ParseCanonical(a, v.major);
    ParseCanonical(b, v.minor);
    ParseDecimal(v.revision);
    ParseVersionParts(a, b, c, v);
    assert |FormatVersion(v)| + 2 == |a + "." + b + "." + c|;
  }

  /** Three dot-free parts that each parse as a byte parse as the version of those bytes. */
  lemma ParseVersionParts(a: string, b: string, c: string, v: Version)
    requires ParseU8(a) == Some(v.major) && ParseU8(b) == Some(v.minor) && ParseU8(c) == Some(v.revision)
    ensures ParseVersion(a + "." + b + "." + c) == Ok(v)
  {
    NoDotInParsed(a);
    NoDotInParsed(b);
    NoDotInParsed(c);
    SplitThree(a, b, c, '.');
  }

  /** Text that parses as a byte holds no dot. */
  lemma NoDotInParsed(s: string)
    requires ParseU8(s).Some?
    ensures '.' !in s
  {
    var digits := if |s| > 0 && s[0] == '+' then s[1..] else s;
    assert AllDigits(digits);
    forall i | 0 <= i < |s|
      ensures s[i] != '.'
    {
      if s[0] != '+' {
        assert s[i] == digits[i];
      } else if i > 0 {
        assert s[i] == digits[i - 1];
      }
    }
  }

  /**
   * Text whose parts carry no sign and no redundant leading zero is exactly
   * the serialisation of the version it parses to.
   */
  lemma FormatParsedCanonical(s: string)
    requires ParseVersion(s).Ok?
    requires forall i :: 0 <= i < 3 ==> Canonical(Split(s, '.')[i]) == Split(s, '.')[i]
    ensures FormatVersion(ParseVersion(s).value) == s
  {
    var parts := Split(s, '.');
    SplitJoin(s, '.');
    JoinThree(parts, '.');
    assert Canonical(parts[0]) == parts[0];
    assert Canonical(parts[1]) == parts[1];
    assert Canonical(parts[2]) == parts[2];
  }

  // ---------------------------------------------------------------------
  // Payload and document
  // ---------------------------------------------------------------------

  /**
   * The lump payload, one variant per lump type. The GAMECONF variant holds
   * the fields the configuration page reads and writes.
   */
  datatype Data =
    | GAMECONF(
        title: Option<string>,
        author: Option<string>,
        version: Option<string>,
        iwad: Option<string>,
        pwadfiles: Option<seq<string>>,
        dehfiles: Option<seq<string>>,
        executable: Option<Executable>,
        mode: Option<Mode>,
        options: Option<string>,
        playertranslations: Option<seq<string>>,
        wadtranslation: Option<string>)
    | DEMOLOOP
    | SBARDEF
    | SKYDEFS(skies: Option<seq<Sky>>, flatmapping: Option<seq<FlatMapping>>)
    | TRAKINFO
    | Interlevel
    | Finale

  /** A loaded lump; the pages update its payload in place. */
  class Document {
    var version: Version
    var data: Data

    /** `ID24Json::default()`: version 1.0.0 and an empty sky-definitions payload. */
    constructor Default()
      ensures version == Version(1, 0, 0)
      ensures data == SKYDEFS(None, None)
    {
      version := Version(1, 0, 0);
      data := SKYDEFS(None, None);
    }
  }
}
