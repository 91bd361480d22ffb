/**
 * The game-configuration editor page: its update handler overwrites single
 * fields of a GAMECONF payload in place.
 */
module GameconfPage {
  import opened Wrappers
  import opened Gameconf
  import opened Id24Json

  datatype Message =
    | UpdateExe(exe: Executable)
    | UpdateMode(mode: Mode)
    | UpdateTitle(text: string)
    | UpdateAuthor(text: string)
    | UpdateVersion(text: string)
    | UpdateIWAD(text: string)
    | EditDescription

  /** `(!t.is_empty()).then_some(t)`: absent for the empty string, the text itself otherwise. */
  function NoneIfEmpty(t: string): (r: Option<string>)
    ensures r.None? <==> |t| == 0
    ensures r.Some? ==> r.value == t
  {
    if |t| != 0 then Some(t) else None
  }

  /**
   * The page shows a stored field as `unwrap_or("")`; what was typed is what
   * is shown again, the empty entry being stored as an absent field.
   */
  lemma NoneIfEmptyInverse(t: string)
    ensures (match NoneIfEmpty(t) case None => "" case Some(v) => v) == t
  {
  }

  /** `Page::update`. */
  method Update(json: Document, message: Message)
    modifies json
    ensures json.version == old(json.version)
    ensures !old(json.data).GAMECONF? ==> json.data == old(json.data)
    ensures old(json.data).GAMECONF? ==>
      json.data == match message
        case UpdateTitle(t) => old(json.data).(title := NoneIfEmpty(t))
        case UpdateAuthor(a) => old(json.data).(author := NoneIfEmpty(a))
        case UpdateVersion(v) => old(json.data).(version := NoneIfEmpty(v))
        case UpdateIWAD(i) => old(json.data).(iwad := NoneIfEmpty(i))
        case UpdateExe(e) => old(json.data).(executable := Some(e))
        case UpdateMode(m) => old(json.data).(mode := Some(m))
        case EditDescription => old(json.data)
  {
    match message {
      case UpdateTitle(t) =>
        if json.data.GAMECONF? {
          json.data := json.data.(title := if |t| != 0 then Some(t) else None);
        }
      case UpdateAuthor(a) =>
        if json.data.GAMECONF? {
          json.data := json.data.(author := if |a| != 0 then Some(a) else None);
        }
      case UpdateVersion(v) =>
        if json.data.GAMECONF? {
          json.data := json.data.(version := if |v| != 0 then Some(v) else None);
        }
      case UpdateIWAD(i) =>
        if json.data.GAMECONF? {
          json.data := json.data.(iwad := if |i| != 0 then Some(i) else None);
        }
      case UpdateExe(e) =>
        if json.data.GAMECONF? {
          json.data := json.data.(executable := Some(e));
        }
      case UpdateMode(m) =>
        if json.data.GAMECONF? {
          json.data := json.data.(mode := Some(m));
        }
      case EditDescription =>
    }
  }
}
