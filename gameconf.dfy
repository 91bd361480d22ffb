/**
 * Game configuration (GAMECONF) enumerations and their wire tokens: serde's
 * lowercase variant names, with two explicit renames.
 */
module Gameconf {
  import opened Wrappers

  datatype Executable =
    | Doom1_9 | LimitRemoving | Bugfixed | Boom2_02 | CompLevel9
    | MBF | MBF21 | MBF21EX | ID24

  /** The variants in declaration order, which is also the order the executable picker offers. */
  const Executables: seq<Executable> :=
    [Doom1_9, LimitRemoving, Bugfixed, Boom2_02, CompLevel9, MBF, MBF21, MBF21EX, ID24]

  /** A character serde's `rename_all = "lowercase"` and the two renames can produce. */
  predicate IsTokenChar(c: char)
  {
    ('a' <= c <= 'z') || ('0' <= c <= '9') || c == '.'
  }

  /** The token an executable serialises to. */
  function ExecutableToken(e: Executable): (r: string)
    ensures |r| > 0 && forall i :: 0 <= i < |r| ==> IsTokenChar(r[i])
  {
    match e
    case Doom1_9 => "doom1.9"
    case LimitRemoving => "limitremoving"
    case Bugfixed => "bugfixed"
    case Boom2_02 => "boom2.02"
    case CompLevel9 => "complevel9"
    case MBF => "mbf"
    case MBF21 => "mbf21"
    case MBF21EX => "mbf21ex"
    case ID24 => "id24"
  }

  /** Deserialisation: exactly the nine tokens are accepted, each giving its own variant. */
  function ParseExecutable(s: string): (r: Option<Executable>)
    ensures r.Some? ==> ExecutableToken(r.value) == s
    ensures r.None? ==> forall e :: ExecutableToken(e) != s
  {
    if s == "doom1.9" then Some(Doom1_9)
    else if s == "limitremoving" then Some(LimitRemoving)
    else if s == "bugfixed" then Some(Bugfixed)
    else if s == "boom2.02" then Some(Boom2_02)
    else if s == "complevel9" then Some(CompLevel9)
    else if s == "mbf" then Some(MBF)
    else if s == "mbf21" then Some(MBF21)
    else if s == "mbf21ex" then Some(MBF21EX)
    else if s == "id24" then Some(ID24)
    else None
  }

  /** The picker lists every variant once; its tokens, in order, are these. */
  lemma ExecutableOrder()
    ensures forall e :: e in Executables
    ensures forall i, j :: 0 <= i < j < |Executables| ==> Executables[i] != Executables[j]
    ensures seq(|Executables|, i requires 0 <= i < |Executables| => ExecutableToken(Executables[i]))
         == ["doom1.9", "limitremoving", "bugfixed", "boom2.02", "complevel9",
             "mbf", "mbf21", "mbf21ex", "id24"]
  {
    forall e: Executable ensures e in Executables {
      match e
      case Doom1_9 => assert Executables[0] == e;
      case LimitRemoving => assert Executables[1] == e;
      case Bugfixed => assert Executables[2] == e;
      case Boom2_02 => assert Executables[3] == e;
      case CompLevel9 => assert Executables[4] == e;
      case MBF => assert Executables[5] == e;
      case MBF21 => assert Executables[6] == e;
      case MBF21EX => assert Executables[7] == e;
      case ID24 => assert Executables[8] == e;
    }
  }

  /** Distinct executables have distinct tokens, and each token parses back. */
  lemma ExecutableTokenRoundTrip(a: Executable, b: Executable)
    ensures ParseExecutable(ExecutableToken(a)) == Some(a)
    ensures ExecutableToken(a) == ExecutableToken(b) ==> a == b
  {
  }

  /** Matching is case-sensitive: upper-case spellings are rejected. */
  lemma ExecutableCaseSensitive()
    ensures ParseExecutable("MBF21") == None
    ensures ParseExecutable("Doom1.9") == None
    ensures ParseExecutable("doom1_9") == None
  {
  }

  datatype Mode = Registered | Retail | Commercial

  const Modes: seq<Mode> := [Registered, Retail, Commercial]

  function ModeToken(m: Mode): (r: string)
    ensures |r| > 0 && forall i :: 0 <= i < |r| ==> 'a' <= r[i] <= 'z'
  {
    match m
    case Registered => "registered"
    case Retail => "retail"
    case Commercial => "commercial"
  }

  function ParseMode(s: string): (r: Option<Mode>)
    ensures r.Some? ==> ModeToken(r.value) == s
    ensures r.None? ==> forall m :: ModeToken(m) != s
  {
    if s == "registered" then Some(Registered)
    else if s == "retail" then Some(Retail)
    else if s == "commercial" then Some(Commercial)
    else None
  }

  /** The mode picker's order: every mode exactly once, in declaration order. */
  lemma ModeOrder()
    ensures forall m :: m in Modes
    ensures forall i, j :: 0 <= i < j < |Modes| ==> Modes[i] != Modes[j]
    ensures seq(|Modes|, i requires 0 <= i < |Modes| => ModeToken(Modes[i]))
         == ["registered", "retail", "commercial"]
  {
    forall m: Mode ensures m in Modes {
      match m
      case Registered => assert Modes[0] == m;
      case Retail => assert Modes[1] == m;
      case Commercial => assert Modes[2] == m;
    }
  }

  /** Distinct modes have distinct tokens, and each token parses back. */
  lemma ModeTokenRoundTrip(a: Mode, b: Mode)
    ensures ParseMode(ModeToken(a)) == Some(a)
    ensures ModeToken(a) == ModeToken(b) ==> a == b
  {
  }
}
