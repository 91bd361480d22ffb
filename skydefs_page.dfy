/**
 * The sky-definitions editor page: a selection cursor and the update
 * handler that edits the SKYDEFS payload of a document in place.
 */
module SkydefsPage {
  import opened Wrappers
  import opened Scalars
  import opened Skydefs
  import opened Id24Json

  /** Which entry of which list the page has selected. */
  datatype SkydefsIndex = NoSelection | SelectedSky(idx: nat) | SelectedFlatmapping(idx: nat)

  /** An edit of one property of a sky texture. */
  datatype SkyTexMessage =
    | ChangeName(name: string)
    | ChangeMid(mid: u16)
    | ChangeScrollX(scrollx: F32)
    | ChangeScrollY(scrolly: F32)
    | ChangeScaleX(scalex: F32)
    | ChangeScaleY(scaley: F32)

  datatype Message =
    | UpdateSkyTexProp(texMessage: SkyTexMessage)
    | UpdateSkyTexPropFG(texMessage: SkyTexMessage)
    | ChangeSkyType(skyType: SkyType)
    | ChangeFireSpeed(speed: F32)
    | NewSky
    | NewFlatmapping
    | DeleteSky(index: nat)
    | DeleteFlatmapping(index: nat)
    | SelectSky(selection: Option<nat>)
    | SelectFlatmapping(selection: Option<nat>)
    | Dummy

  // ---------------------------------------------------------------------
  // Edits of one sky texture
  // ---------------------------------------------------------------------

  datatype TexField = NameField | MidField | ScrollXField | ScrollYField | ScaleXField | ScaleYField

  /** The field a texture message names. */
  function FieldOf(m: SkyTexMessage): TexField
  {
    match m
    case ChangeName(_) => NameField
    case ChangeMid(_) => MidField
    case ChangeScrollX(_) => ScrollXField
    case ChangeScrollY(_) => ScrollYField
    case ChangeScaleX(_) => ScaleXField
    case ChangeScaleY(_) => ScaleYField
  }

  /** `t` holds the value the message carries, in the field it names. */
  predicate Carries(t: SkyTex, m: SkyTexMessage)
  {
    match m
    case ChangeName(name) => t.name == name
    case ChangeMid(mid) => t.mid == mid
    case ChangeScrollX(v) => t.scrollx == v
    case ChangeScrollY(v) => t.scrolly == v
    case ChangeScaleX(v) => t.scalex == v
    case ChangeScaleY(v) => t.scaley == v
  }

  /** `a` and `b` agree on every field except possibly `f`. */
  predicate AgreeExcept(a: SkyTex, b: SkyTex, f: TexField)
  {
    && (f != NameField ==> a.name == b.name)
    && (f != MidField ==> a.mid == b.mid)
    && (f != ScrollXField ==> a.scrollx == b.scrollx)
    && (f != ScrollYField ==> a.scrolly == b.scrolly)
    && (f != ScaleXField ==> a.scalex == b.scalex)
    && (f != ScaleYField ==> a.scaley == b.scaley)
  }

  /** The field assignment a texture message performs: that field takes the new value, the others stay. */
  function ApplyTexMessage(t: SkyTex, m: SkyTexMessage): (r: SkyTex)
    ensures Carries(r, m) && AgreeExcept(r, t, FieldOf(m))
  {
    match m
    case ChangeName(name) => t.(name := name)
    case ChangeMid(mid) => t.(mid := mid)
    case ChangeScrollX(v) => t.(scrollx := v)
    case ChangeScrollY(v) => t.(scrolly := v)
    case ChangeScaleX(v) => t.(scalex := v)
    case ChangeScaleY(v) => t.(scaley := v)
  }

  // ---------------------------------------------------------------------
  // Edits of the selected sky
  // ---------------------------------------------------------------------

  /** Setting a sky's type, with its payloads reset to match the new type. */
  function WithSkyType(sky: Sky, t: SkyType): (r: Sky)
    ensures r.skyType == t && r.backgroundtex == sky.backgroundtex
    ensures PayloadMatchesType(r)
    ensures r.fire.Some? ==> r.fire.value == DefaultFire
    ensures r.foregroundtex.Some? ==> r.foregroundtex.value == DefaultSkyTex
  {
    match t
    case Standard => sky.(skyType := t, foregroundtex := None, fire := None)
    case WithForeground => sky.(skyType := t, foregroundtex := Some(DefaultSkyTex), fire := None)
    case Fire => sky.(skyType := t, foregroundtex := None, fire := Some(DefaultFire))
  }

  /** The messages that edit the selected sky. */
  predicate EditsSelectedSky(m: Message)
  {
    m.UpdateSkyTexProp? || m.UpdateSkyTexPropFG? || m.ChangeFireSpeed? || m.ChangeSkyType?
  }

  /**
   * What a sky-editing message does to the selected sky. Foreground and
   * fire edits change nothing when the sky lacks that payload; no edit
   * breaks a sky whose payloads match its type.
   */
  function EditSky(sky: Sky, m: Message): (r: Sky)
    requires EditsSelectedSky(m)
    ensures m.UpdateSkyTexProp? ==>
      && r == sky.(backgroundtex := r.backgroundtex)
      && Carries(r.backgroundtex, m.texMessage)
      && AgreeExcept(r.backgroundtex, sky.backgroundtex, FieldOf(m.texMessage))
    ensures m.UpdateSkyTexPropFG? ==>
      && (sky.foregroundtex.None? ==> r == sky)
      && (sky.foregroundtex.Some? ==>
            && r == sky.(foregroundtex := r.foregroundtex)
            && r.foregroundtex.Some?
            && Carries(r.foregroundtex.value, m.texMessage)
            && AgreeExcept(r.foregroundtex.value, sky.foregroundtex.value, FieldOf(m.texMessage)))
    ensures m.ChangeFireSpeed? ==>
      && (sky.fire.None? ==> r == sky)
      && (sky.fire.Some? ==>
            r == sky.(fire := Some(sky.fire.value.(updatetime := m.speed))))
    ensures m.ChangeSkyType? ==> r == WithSkyType(sky, m.skyType)
    ensures PayloadMatchesType(sky) ==> PayloadMatchesType(r)
  {
    match m
    case UpdateSkyTexProp(tm) => sky.(backgroundtex := ApplyTexMessage(sky.backgroundtex, tm))
    case UpdateSkyTexPropFG(tm) =>
      if sky.foregroundtex.Some? then
        sky.(foregroundtex := Some(ApplyTexMessage(sky.foregroundtex.value, tm)))
      else sky
    case ChangeFireSpeed(speed) =>
      if sky.fire.Some? then sky.(fire := Some(sky.fire.value.(updatetime := speed))) else sky
    case ChangeSkyType(t) => WithSkyType(sky, t)
  }

  // ---------------------------------------------------------------------
  // List edits
  // ---------------------------------------------------------------------

  /** `list.get_or_insert_with(Vec::new).push(x)`: the old elements, then `x`. */
  function PushTo<T>(list: Option<seq<T>>, x: T): (r: seq<T>)
    ensures list.None? ==> r == [x]
    ensures list.Some? ==> |r| == |list.value| + 1 && r[..|list.value|] == list.value
    ensures r[|r| - 1] == x
  {
    match list
    case None => [x]
    case Some(s) => s + [x]
  }

  /** `Vec::remove(i)`: element `i` is gone and the later ones move down by one. */
  function RemoveAt<T>(s: seq<T>, i: nat): (r: seq<T>)
    requires i < |s|
    ensures |r| == |s| - 1
    ensures forall k :: 0 <= k < i ==> r[k] == s[k]
    ensures forall k :: i <= k < |r| ==> r[k] == s[k + 1]
  {
    s[..i] + s[i + 1..]
  }

  // ---------------------------------------------------------------------
  // Page state
  // ---------------------------------------------------------------------

  /** The cases in which the update handler indexes out of range and panics. */
  predicate Panics(data: Data, index: SkydefsIndex, m: Message)
  {
    && data.SKYDEFS?
    && match m
       case DeleteSky(i) => data.skies.Some? && i >= |data.skies.value|
       case DeleteFlatmapping(i) => data.flatmapping.Some? && i >= |data.flatmapping.value|
       case _ =>
         EditsSelectedSky(m) && data.skies.Some? && index.SelectedSky? && index.idx >= |data.skies.value|
  }

  /** Every sky of a SKYDEFS payload has the payloads its type calls for. */
  predicate SkiesConsistent(data: Data)
  {
    data.SKYDEFS? && data.skies.Some? ==>
      forall i :: 0 <= i < |data.skies.value| ==> PayloadMatchesType(data.skies.value[i])
  }

  /** The cursor names an existing element of its list. */
  predicate CursorInBounds(data: Data, index: SkydefsIndex)
  {
    match index
    case NoSelection => true
    case SelectedSky(i) => data.SKYDEFS? && data.skies.Some? && i < |data.skies.value|
    case SelectedFlatmapping(i) => data.SKYDEFS? && data.flatmapping.Some? && i < |data.flatmapping.value|
  }

  /**
   * The delete messages the page's buttons can send: the Delete button of a
   * list is enabled only while an element of that list is selected, and
   * names the selected index.
   */
  predicate DeletesSelected(index: SkydefsIndex, m: Message)
  {
    && (m.DeleteSky? ==> index == SelectedSky(m.index))
    && (m.DeleteFlatmapping? ==> index == SelectedFlatmapping(m.index))
  }

  /**
   * While the cursor is in bounds, no message the page's buttons send can
   * index out of range: sky edits reach an existing sky and deletes remove
   * an existing element.
   */
  lemma CursorInBoundsNoPanic(data: Data, index: SkydefsIndex, m: Message)
    requires CursorInBounds(data, index) && DeletesSelected(index, m)
    ensures !Panics(data, index, m)
  {
  }

  /** The selection messages the page's list buttons can send: indices of existing elements. */
  predicate SelectsExisting(data: Data, m: Message)
  {
    && (m.SelectSky? && m.selection.Some? ==>
          data.SKYDEFS? && data.skies.Some? && m.selection.value < |data.skies.value|)
    && (m.SelectFlatmapping? && m.selection.Some? ==>
          data.SKYDEFS? && data.flatmapping.Some? && m.selection.value < |data.flatmapping.value|)
  }

  class Page {
    var skydefsIndex: SkydefsIndex

    /** `Page::default()`: nothing selected. */
    constructor ()
      ensures skydefsIndex == NoSelection
    {
      skydefsIndex := NoSelection;
    }

    method ResetIndex()
      modifies this
      ensures skydefsIndex == NoSelection
    {
      skydefsIndex := NoSelection;
    }

    /** `Page::update`: apply one message to the cursor and the document. */
    method Update(json: Document, message: Message)
      requires !Panics(json.data, skydefsIndex, message)
      modifies this, json
      ensures json.version == old(json.version)
      // Selection.
      ensures (message.SelectSky? || message.SelectFlatmapping?) ==> json.data == old(json.data)
      ensures message.SelectSky? && message.selection.Some? ==>
        skydefsIndex == SelectedSky(message.selection.value)
      ensures message.SelectFlatmapping? && message.selection.Some? ==>
        skydefsIndex == SelectedFlatmapping(message.selection.value)
      ensures (message.SelectSky? || message.SelectFlatmapping?) && message.selection.None? ==>
        skydefsIndex == NoSelection
      ensures !(message.SelectSky? || message.SelectFlatmapping? || message.DeleteSky? || message.DeleteFlatmapping?) ==>
        skydefsIndex == old(skydefsIndex)
      // Appending a default record, creating the list when absent.
      ensures message.NewSky? ==>
        json.data == (if old(json.data).SKYDEFS?
                      then old(json.data).(skies := Some(PushTo(old(json.data).skies, DefaultSky)))
                      else old(json.data))
      ensures message.NewFlatmapping? ==>
        json.data == (if old(json.data).SKYDEFS?
                      then old(json.data).(flatmapping := Some(PushTo(old(json.data).flatmapping, DefaultFlatMapping)))
                      else old(json.data))
      // Removing by index, which clears the selection.
      ensures message.DeleteSky? ==>
        if old(json.data).SKYDEFS? && old(json.data).skies.Some? then
          && skydefsIndex == NoSelection
          && json.data == old(json.data).(skies := Some(RemoveAt(old(json.data).skies.value, message.index)))
        else
          skydefsIndex == old(skydefsIndex) && json.data == old(json.data)
      ensures message.DeleteFlatmapping? ==>
        if old(json.data).SKYDEFS? && old(json.data).flatmapping.Some? then
          && skydefsIndex == NoSelection
          && json.data == old(json.data).(flatmapping := Some(RemoveAt(old(json.data).flatmapping.value, message.index)))
        else
          skydefsIndex == old(skydefsIndex) && json.data == old(json.data)
      // Editing the selected sky; every other sky is left as it was.
      ensures EditsSelectedSky(message) ==>
        if old(json.data).SKYDEFS? && old(json.data).skies.Some? && old(skydefsIndex).SelectedSky? then
          var skies := old(json.data).skies.value;
          var i := old(skydefsIndex).idx;
          json.data == old(json.data).(skies := Some(skies[i := EditSky(skies[i], message)]))
        else
          json.data == old(json.data)
      ensures message.Dummy? ==> json.data == old(json.data)
      // Invariants the handler keeps.
      ensures SkiesConsistent(old(json.data)) ==> SkiesConsistent(json.data)
      ensures CursorInBounds(old(json.data), old(skydefsIndex)) && SelectsExisting(old(json.data), message) ==>
        CursorInBounds(json.data, skydefsIndex)
    {
      match message {
        case SelectSky(Some(idx)) =>
          skydefsIndex := SelectedSky(idx);
        case SelectFlatmapping(Some(idx)) =>
          skydefsIndex := SelectedFlatmapping(idx);
        case SelectSky(None) =>
          skydefsIndex := NoSelection;
        case SelectFlatmapping(None) =>
          skydefsIndex := NoSelection;
        case NewSky =>
          if json.data.SKYDEFS? {
            json.data := json.data.(skies := Some(PushTo(json.data.skies, DefaultSky)));
            Defaults();
          }
        case NewFlatmapping =>
          if json.data.SKYDEFS? {
            json.data := json.data.(flatmapping := Some(PushTo(json.data.flatmapping, DefaultFlatMapping)));
          }
        case DeleteSky(idx) =>
          if json.data.SKYDEFS? && json.data.skies.Some? {
            skydefsIndex := NoSelection;
            json.data := json.data.(skies := Some(RemoveAt(json.data.skies.value, idx)));
          }
        case DeleteFlatmapping(idx) =>
          if json.data.SKYDEFS? && json.data.flatmapping.Some? {
            skydefsIndex := NoSelection;
            json.data := json.data.(flatmapping := Some(RemoveAt(json.data.flatmapping.value, idx)));
          }
        case UpdateSkyTexProp(tm) =>
          if json.data.SKYDEFS? && json.data.skies.Some? && skydefsIndex.SelectedSky? {
            var skies, idx := json.data.skies.value, skydefsIndex.idx;
            var tex := skies[idx].backgroundtex;
            tex := match tm
              case ChangeName(name) => tex.(name := name)
              case ChangeMid(mid) => tex.(mid := mid)
              case ChangeScaleX(scale) => tex.(scalex := scale)
              case ChangeScaleY(scale) => tex.(scaley := scale)
              case ChangeScrollX(scroll) => tex.(scrollx := scroll)
              case ChangeScrollY(scroll) => tex.(scrolly := scroll);
            json.data := json.data.(skies := Some(skies[idx := skies[idx].(backgroundtex := tex)]));
          }
        case UpdateSkyTexPropFG(tm) =>
          if json.data.SKYDEFS? && json.data.skies.Some? && skydefsIndex.SelectedSky? {
            var skies, idx := json.data.skies.value, skydefsIndex.idx;
            if skies[idx].foregroundtex.Some? {
              var foreground := skies[idx].foregroundtex.value;
              foreground := match tm
                case ChangeName(name) => foreground.(name := name)
                case ChangeMid(mid) => foreground.(mid := mid)
                case ChangeScaleX(scale) => foreground.(scalex := scale)
                case ChangeScaleY(scale) => foreground.(scaley := scale)
                case ChangeScrollX(scroll) => foreground.(scrollx := scroll)
                case ChangeScrollY(scroll) => foreground.(scrolly := scroll);
              json.data := json.data.(skies := Some(skies[idx := skies[idx].(foregroundtex := Some(foreground))]));
            } else {
              assert skies[idx := EditSky(skies[idx], message)] == skies;
            }
          }
        case ChangeFireSpeed(speed) =>
          if json.data.SKYDEFS? && json.data.skies.Some? && skydefsIndex.SelectedSky? {
            var skies, idx := json.data.skies.value, skydefsIndex.idx;
            if skies[idx].fire.Some? {
              var fire := skies[idx].fire.value.(updatetime := speed);
              json.data := json.data.(skies := Some(skies[idx := skies[idx].(fire := Some(fire))]));
            } else {
              assert skies[idx := EditSky(skies[idx], message)] == skies;
            }
          }
        case ChangeSkyType(skyType) =>
          if json.data.SKYDEFS? && json.data.skies.Some? && skydefsIndex.SelectedSky? {
            var skies, idx := json.data.skies.value, skydefsIndex.idx;
            var sky := skies[idx].(skyType := skyType);
            match skyType {
              case Standard =>
                sky := sky.(foregroundtex := None, fire := None);
              case WithForeground =>
                sky := sky.(foregroundtex := Some(DefaultSkyTex), fire := None);
              case Fire =>
                sky := sky.(foregroundtex := None, fire := Some(DefaultFire));
            }
            json.data := json.data.(skies := Some(skies[idx := sky]));
          }
        case Dummy =>
      }
    }
  }
}
