# ID24 JSON lump editor: a verified model of its codecs and page updates

This project models the core of an editor for id Software's ID24 JSON lumps
(SBARDEF status bars, inter-level screens, SKYDEFS sky definitions and GAMECONF
game configurations). It covers two parts:

- **The data-model codecs.**
  - The status-bar `Alignment` byte: horizontal alignment in bits 0-1, vertical in bits 2-3.
  - The inter-level `FrameType` word: a one-hot duration kind in bits 0-2, a random-offset flag in bit 12.
  - The integer-coded enumerations of status bars, inter-level conditions and sky types.
  - The lowercase wire tokens of `Executable` and `Mode`.
  - The `major.minor.revision` version string, with Rust's `str::split`, `u8` display and `u8` parsing.
  - The default records the editor inserts, and the default document.
- **The two page update handlers that edit a loaded document in place.**
  - The sky-definitions page keeps a selection cursor. It appends default skies and flat mappings, removes them by index, and edits the selected sky's fields. On a sky-type change it resets the sky's fire/foreground payload to match the new type.
  - The game-configuration page overwrites single optional fields.

Module layout follows the source: `Sbardef`, `Interlevel`, `Gameconf`,
`Skydefs` and `Id24Json` (the envelope, `mod.rs`) are pure functions over
datatypes. `SkydefsPage` is a `Page` class whose `Update` method changes the
cursor and a `Id24Json.Document` object. `GameconfPage.Update` changes a
`Document`. `RustText` holds the pieces of Rust's standard library the version
codec calls. `Wrappers` and `Scalars` hold `Option`/`Result` and the
fixed-width scalar types.

Points where the model follows the code rather than what the names and declarations suggest:

- `Alignment::from_u8` reports a vertical conflict with the same message as a horizontal one ("Multiple horizontal alignments specified"). `Sbardef.FromU8` keeps that text.
- `mod.rs` declares `GAMECONF` as a variant without fields, but the game-configuration page destructures it as a record. `Id24Json.Data.GAMECONF` is that record, with the fields the page names.
- A `u8` part of a version string may carry a single leading `+` and any number of leading zeros. Reading and re-writing a version therefore does not always give back the same text (`Id24Json.SignAndZeroAccepted`).
- The executable picker lists `Executable::VARIANTS`, but `gameconf.rs` does not derive that array. The model takes declaration order as the picker order.

## Model

| member | source | states |
|---|---|---|
| Sbardef.ToU8 | src/id24json/sbardef.rs:203-216 | the encoded alignment is below 16; bits 0-1 are never 0b11 and bits 2-3 never 0b1100 |
| Sbardef.FromU8 | src/id24json/sbardef.rs:184-201 | decoding fails exactly when bits 0-1 are 0b11 or bits 2-3 are 0b1100, with the source's message; a decoded alignment re-encodes to the low nibble of the input |
| Sbardef.AlignmentRoundTrip | src/id24json/sbardef.rs:184-216 | decoding an encoded alignment returns it |
| Sbardef.ToU8Injective | src/id24json/sbardef.rs:203-216 | distinct alignments have distinct encodings |
| Sbardef.FromU8IgnoresHighBits | src/id24json/sbardef.rs:184-201 | bits 4-7 do not affect decoding |
| Sbardef.HorizontalFromLowBits | src/id24json/sbardef.rs:186-191 | the horizontal component depends only on bits 0-1 |
| Sbardef.VerticalFromBits2To3 | src/id24json/sbardef.rs:192-197 | the vertical component depends only on bits 2-3 |
| Sbardef.NumberFontTypeCode | src/id24json/sbardef.rs:11-15 | each number-font type's code is its position in declaration order, 0..2 |
| Sbardef.NumberFontTypeFromCode | src/id24json/sbardef.rs:9-15 | a code decodes exactly when it is at most 2, to the variant with that code |
| Sbardef.NumberTypeCode | src/id24json/sbardef.rs:108-118 | each number type's code is its position in declaration order, 0..7 |
| Sbardef.NumberTypeFromCode | src/id24json/sbardef.rs:106-118 | a code decodes exactly when it is at most 7, to the variant with that code |
| Sbardef.ConditionTypeCode | src/id24json/sbardef.rs:128-148 | each status-bar condition's code is its position in declaration order, 0..18 |
| Sbardef.ConditionTypeFromCode | src/id24json/sbardef.rs:126-148 | a code decodes exactly when it is at most 18, to the variant with that code |
| Sbardef.CodesDistinct | src/id24json/sbardef.rs:9-148 | in all three status-bar tables, distinct variants have distinct codes |
| Sbardef.CodesRoundTrip | src/id24json/sbardef.rs:9-148 | in all three status-bar tables, every variant decodes from its own code |
| Interlevel.ToU16 | src/id24json/interlevel.rs:68-78 | the encoded frame type sets only bits in 0x1007, at most one of bits 0-2, and bit 12 exactly when the offset is random |
| Interlevel.FromU16 | src/id24json/interlevel.rs:52-66 | decoding fails exactly when bits 0-2 are 3, 5, 6 or 7, with the source's message; the random-offset flag is bit 12; a decoded frame type re-encodes to the input masked with 0x1007 |
| Interlevel.FrameTypeRoundTrip | src/id24json/interlevel.rs:52-78 | decoding an encoded frame type returns it |
| Interlevel.ToU16Injective | src/id24json/interlevel.rs:68-78 | distinct frame types have distinct encodings |
| Interlevel.FromU16IgnoresUnmaskedBits | src/id24json/interlevel.rs:52-66 | bits outside 0x1007 do not affect decoding |
| Interlevel.ConditionTypeCode | src/id24json/interlevel.rs:90-99 | each inter-level condition's code is its position in declaration order, 0..7 |
| Interlevel.ConditionTypeFromCode | src/id24json/interlevel.rs:88-99 | a code decodes exactly when it is at most 7, to the variant with that code |
| Interlevel.ConditionCodesDistinct | src/id24json/interlevel.rs:88-99 | distinct inter-level conditions have distinct codes, and each decodes from its own code |
| Gameconf.ExecutableToken | src/id24json/gameconf.rs:1-15 | every executable token is a non-empty string of lowercase letters, digits and dots |
| Gameconf.ParseExecutable | src/id24json/gameconf.rs:1-15 | a string decodes exactly when it is some executable's token, and then to that executable |
| Gameconf.ExecutableOrder | src/id24json/gameconf.rs:3-15 | the picker order lists each executable once; its tokens are doom1.9, limitremoving, bugfixed, boom2.02, complevel9, mbf, mbf21, mbf21ex, id24 |
| Gameconf.ExecutableTokenRoundTrip | src/id24json/gameconf.rs:1-15 | every token decodes to its executable, and distinct executables have distinct tokens |
| Gameconf.ExecutableCaseSensitive | src/id24json/gameconf.rs:1-15 | upper-case or re-spelled tokens are rejected |
| Gameconf.ModeToken | src/id24json/gameconf.rs:17-23 | every mode token is a non-empty lowercase word |
| Gameconf.ParseMode | src/id24json/gameconf.rs:17-23 | a string decodes exactly when it is some mode's token, and then to that mode |
| Gameconf.ModeTokenRoundTrip | src/id24json/gameconf.rs:17-23 | every mode token decodes to its mode, and distinct modes have distinct tokens |
| Gameconf.ModeOrder | src/id24json/gameconf.rs:17-23 | the mode picker order lists each mode once; its tokens are registered, retail, commercial |
| Skydefs.Defaults | src/id24json/skydefs.rs:23-107 | the default fire has an empty palette and a two-tic update time; the default texture is SKY1, mid 100, zero scroll, unit scale; the default sky is a standard sky with that texture and no payloads; the default flat mapping is F_SKY1 to SKY1 |
| Skydefs.SkyTypeCode | src/id24json/skydefs.rs:55-61 | sky-type codes are Standard 0, Fire 1, WithForeground 2, in declaration order |
| Skydefs.SkyTypeFromCode | src/id24json/skydefs.rs:55-61 | a code decodes exactly when it is at most 2, to the sky type with that code |
| Skydefs.SkyTypeName | src/id24json/skydefs.rs:63-71 | every sky type has a non-empty display name |
| Skydefs.SkyTypeTables | src/id24json/skydefs.rs:55-71 | sky-type codes round-trip, and codes and display names each tell the three types apart |
| RustText.Split | src/id24json/mod.rs:47 | splitting on '.' gives one more part than there are dots, and no part holds a dot |
| RustText.SplitJoin | src/id24json/mod.rs:47 | joining the parts with '.' gives the input back |
| RustText.SplitThree | src/id24json/mod.rs:47-48 | three dot-free parts joined by two dots split back into exactly those three parts |
| RustText.SplitFirst | src/id24json/mod.rs:47 | a dot-free prefix followed by a dot splits off as the first part |
| RustText.SplitNoSeparator | src/id24json/mod.rs:47 | dot-free text splits into itself alone |
| RustText.Decimal | src/id24json/mod.rs:40 | an integer prints as a non-empty digit string with that value and no redundant leading zero |
| RustText.ParseU8 | src/id24json/mod.rs:52-57 | a string parses to n exactly when, after dropping one leading '+' and redundant leading zeros, it is the decimal form of n with n at most 255; anything else (empty, other characters, above 255) is rejected |
| RustText.StripZerosDigits | src/id24json/mod.rs:52-57 | leading-zero stripping removes only digits: if the stripped text is all digits, so was the input |
| RustText.StripZerosValue | src/id24json/mod.rs:52-57 | leading-zero stripping keeps the value of a digit string |
| RustText.StripZerosDecimal | src/id24json/mod.rs:52-57 | a non-empty digit string, stripped of leading zeros, is the decimal form of its value |
| RustText.NotDigitsNoDecimal | src/id24json/mod.rs:52-57 | empty text, or text holding a non-digit, is the decimal form of no number whatever zeros are stripped |
| RustText.ParseCanonical | src/id24json/mod.rs:52-57 | conversely to ParseU8's contract, text whose canonical form is the decimal form of a byte parses to that byte |
| RustText.SignedDecimal | src/id24json/mod.rs:52-57 | a '+' before a decimal form is accepted and dropped |
| RustText.PaddedDecimal | src/id24json/mod.rs:52-57 | a redundant leading '0' before a decimal form is accepted and dropped |
| RustText.ParseDecimal | src/id24json/mod.rs:52-57 | the printed form of every byte parses back to it |
| Id24Json.FormatVersion | src/id24json/mod.rs:38-41 | the serialised version splits on '.' into exactly the decimal forms of major, minor and revision |
| Id24Json.ParseVersion | src/id24json/mod.rs:44-61 | text with other than two dots is rejected with the format error; on success each part is, up to sign and leading zeros, the decimal form of its component; otherwise the error names the first part that fails to parse as u8 |
| Id24Json.VersionRoundTrip | src/id24json/mod.rs:38-61 | every version survives serialisation followed by parsing |
| Id24Json.FormatVersionInjective | src/id24json/mod.rs:38-41 | distinct versions serialise to distinct strings |
| Id24Json.WrongPartCounts | src/id24json/mod.rs:47-50 | "1.0", "1.0.0." and "1" are rejected with the format error |
| Id24Json.VersionOneZeroZero | src/id24json/skydefs.rs:145 | "1.0.0" parses to version 1.0.0 |
| Id24Json.ParseVersionParts | src/id24json/mod.rs:47-59 | three texts that each parse as a byte, joined by two dots, parse as the version of those bytes |
| Id24Json.NoDotInParsed | src/id24json/mod.rs:52-57 | text that parses as a byte holds no dot |
| Id24Json.SignAndZeroAccepted | src/id24json/mod.rs:38-61 | for every version, the text with a '+' before the major part and a '0' before the minor part parses to that version, yet is not its serialisation: parse then print is not the identity |
| Id24Json.FormatParsedCanonical | src/id24json/mod.rs:38-61 | text whose parts have no sign and no redundant leading zero is exactly the serialisation of what it parses to |
| Id24Json.Document.Default | src/id24json/mod.rs:63-74 | the default document has version 1.0.0 and a SKYDEFS payload with neither skies nor flat mappings |
| SkydefsPage.ApplyTexMessage | src/pages/skydefs.rs:275-282 | a texture edit stores the new value in the field it names and leaves every other field as it was |
| SkydefsPage.WithSkyType | src/pages/skydefs.rs:306-325 | after a type change the sky has the new type and the same background; Standard has no payloads, WithForeground only the default foreground texture, Fire only the default fire |
| SkydefsPage.EditSky | src/pages/skydefs.rs:273-325 | background edits change only the named background field; foreground and fire-speed edits are no-ops when that payload is absent and otherwise change only it; a type change normalises payloads; no edit breaks a sky whose payloads match its type |
| SkydefsPage.PushTo | src/pages/skydefs.rs:250-259 | appending to an absent list gives a one-element list; to a present list, the old elements followed by the new one |
| SkydefsPage.RemoveAt | src/pages/skydefs.rs:260-272 | removal by index drops that element, keeps the earlier ones and shifts the later ones down by one |
| SkydefsPage.CursorInBoundsNoPanic | src/pages/skydefs.rs:198-213 | with the cursor in bounds, every message the buttons can send (deletes name the selected index) is free of out-of-range indexing: sky edits and deletes reach an existing element |
| SkydefsPage.Page.constructor | src/pages/skydefs.rs:23-36 | a new page has nothing selected |
| SkydefsPage.Page.ResetIndex | src/pages/skydefs.rs:64-66 | resetting clears the selection |
| SkydefsPage.Page.Update | src/pages/skydefs.rs:239-330 | selection messages set or clear the cursor and leave the document alone; NewSky/NewFlatmapping append one default record, creating the list, only on a SKYDEFS payload; DeleteSky/DeleteFlatmapping remove by index and clear the cursor when the list exists, else do nothing; sky edits change only the selected sky, and only when the cursor is on a sky; the cursor is otherwise unchanged and the version is never touched; payload consistency of all skies and an in-bounds cursor are preserved |
| GameconfPage.NoneIfEmpty | src/pages/gameconf.rs:92 | an empty entry becomes an absent field and any other entry is stored verbatim |
| GameconfPage.NoneIfEmptyInverse | src/pages/gameconf.rs:33-36 | showing a stored text field (absent as "") gives back exactly what was entered |
| GameconfPage.Update | src/pages/gameconf.rs:88-124 | on a GAMECONF payload each message overwrites only its own field (text fields empty-to-absent, executable and mode replaced outright); any other payload, and the description editor, leave the document unchanged |

## Left out

- The serde JSON machinery: parsing, field renaming, and the lowercase `type` tag of the payload. The codecs are modelled at the integer and string level. A JSON `null` list is represented directly as an absent (`None`) list, so there is nothing to model for the test's null-decoding check at src/id24json/skydefs.rs:165-180.
- The flat records with no logic of their own: the status-bar element records, the inter-level layer, animation and frame records, and `id24json/demoloop.rs` and `id24json/finale.rs`.
- Every `f32` field (scroll, scale, fire update time). These are carried as their binary32 bit pattern and only stored or copied, never computed with.
- The empty `metadata` record of a document.
- Views, widgets and the segmented-button models of the pages; `src/main.rs`, `src/config.rs`, `src/widgets/`, and `src/pages/demoloop.rs` (whose update does nothing). The description editor of the game-configuration page touches only a widget, so `EditDescription` carries no payload here.
- The game-configuration compatibility-option catalog, option set and text codec: they are not in `id24json/gameconf.rs`, which holds only the two enumerations.
- `usize` indices are unbounded naturals. An out-of-range `Vec::remove` or `skies[idx]`, which panics in Rust, is a precondition of `SkydefsPage.Page.Update` (`Panics`).
- Field types of the GAMECONF record that the page destructures but never writes (`pwadfiles`, `dehfiles`, `options`, `playertranslations`, `wadtranslation`) are plausible choices. The model only carries them unchanged.
- RustText.ParseU8: returns no error kind. Rust distinguishes an empty string, an invalid digit and an overflow, but the version parser discards the kind and reports its own message.
- In-place mutation of the nested sky and flat-mapping vectors is modelled by reassigning the document's payload with the updated value. Rust's ownership rules exclude aliasing here, so the model loses nothing.
