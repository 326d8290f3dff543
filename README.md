# dittoKeychain core, modelled in Dafny

dittoKeychain is a web app for making printed keychain inserts and CD case inserts.
Participants place an image onto each printable part of a template (the 4x5 front and
back, the CD disc, the case front and back, the front and back panels). They pan, pinch,
nudge, zoom, paste and cover-fit it, with undo and redo. The result is exported as a QR
payload. Staff pages scan these payloads, lay them out on an A6 sheet (100 x 148 mm) and
render PNG or SVG print sheets at 300 dpi. A small server-side proxy fetches remote
images for the browser and refuses private network targets.

This project models that core:

- the editor hook's state and history (`EditorHistory`);
- the clipboard and paste rules (`Clipboard`);
- the slot's transform clamping and geometry (`Slot`);
- the pointer gesture recogniser (`Gesture`);
- the image editor component's commands, groups, layouts, compression and QR schedule (`ImageEditor`);
- the print tables and millimetre conversions (`PrintSpecs`, `Mm`);
- the two-rectangle perforation path (`PerfPath`);
- the back fold strip (`BackFoldStrip`);
- the circle print sheet (`PrintSheet`);
- the staff four-up export and CD sheet (`FourUp`, `StaffCd`);
- the three scan pages (`ScanPages`);
- the five edit pages (`EditPages`);
- the image proxy (`Proxy`);
- the 3D case preview (`Preview3D`).

Modelling choices:

- Pure code is modelled as functions with lemmas.
- State that the components change in place is modelled as classes whose methods are
  proved to perform the pure transitions: the `Editor`, the `Recognizer`, the scan pages,
  the session `Store` and the 3D `Viewer`.
- Loops in the source, such as the offset reduces, the compression pass, the QR attempt
  schedule, the export drawing and the sheet's nested loops, are methods with loop
  invariants.
- The browser and the environment enter as parameters: image loading and canvas
  encoding (`Codec`, `load`), the QR encoder, the clipboard API, the HTML parser, the URL
  parser and `fetch`, and pointer distances.
- Numbers are Dafny reals; `Math.round` is written out as floor(x + 0.5).
- JavaScript truthiness (`||`, `?.`, `filter(specs[k])`) is written out with `HasText`,
  `Known` and `OrOne`.

Three behaviours of the code that a reader might not expect:

- `downloadPng` in src/pages/FourUp.tsx:52-55 awaits each part in turn, so one rejected
  image load aborts the whole export (`FourUp.ExportAllOrNothing`).
- The guard's comment at api/proxy.ts:16 says loopback is blocked. The WHATWG URL parser
  keeps the brackets in an IPv6 hostname (`[::1]`), so `host === '::1'` at
  api/proxy.ts:21 never matches and the loopback address passes
  (`Proxy.BracketedLoopbackPasses`).
- The zoom buttons clamp into [0.2, 5] (src/hooks/useImageEditor.ts:43) and reach scales
  below 1 (`EditorHistory.ZoomGoesBelowOne`), while every scale a gesture stores lies in
  [1, 5] (src/components/Slot.tsx:25, `Gesture.StoredGestureScaleInRange`).

Two more behaviours of the code that the model makes explicit:

- Only the 4x5 page emits a payload the staff pages accept. ScanLoad loads only `'cd'` and
  `'4x5'` payloads, so the EditCd3, EditCdFront, EditCdBack and EditCdDisc payloads are
  dropped (`EditPages.StaffAcceptance`).
- The three-part CD page holds the disc, case front and case back. Under the 'cd3' group
  table only the disc forms a group, so the case front and case back can never be
  selected (`EditPages.EditCd3Groups`, `EditPages.Cd3CasesUnreachable`).

## Model

| member | source | states |
|---|---|---|
| EditorHistory.Values | src/hooks/useImageEditor.ts:7 | the snapshot lists the map's entries in key order, one per key |
| EditorHistory.FromEntries | src/hooks/useImageEditor.ts:26 | the rebuilt map has exactly the given keys, and with distinct keys each key maps to the snapshot entry at its position |
| EditorHistory.FromEntriesOfValues | src/hooks/useImageEditor.ts:25-26 | rebuilding a map from its own values in key order gives the map back |
| EditorHistory.ValuesOfFromEntries | src/hooks/useImageEditor.ts:33-34 | for distinct keys, the values of a map rebuilt from a full-length snapshot are that snapshot |
| EditorHistory.Initial | src/hooks/useImageEditor.ts:5-8 | the opened editor is consistent, the first key is active, and the history is the one initial snapshot with the cursor on it |
| EditorHistory.Updated | src/hooks/useImageEditor.ts:11-20 | one edit changes only entry k, to f of its old value; it cuts the history after the cursor, appends the new snapshot, moves the cursor to it and keeps the state consistent |
| EditorHistory.MovedTo | src/hooks/useImageEditor.ts:24-26 | moving to snapshot j makes that snapshot live and keeps the history and the active part |
| EditorHistory.Undone | src/hooks/useImageEditor.ts:22-28 | undo is a no-op at the first snapshot; otherwise the cursor steps back one, that snapshot is live, and the history is kept |
| EditorHistory.Redone | src/hooks/useImageEditor.ts:30-36 | redo is a no-op at the last snapshot; otherwise the cursor steps forward one, that snapshot is live, and the history is kept |
| EditorHistory.UndoThenRedo | src/hooks/useImageEditor.ts:22-36 | whenever undo moves, undo followed by redo restores the whole editor state |
| EditorHistory.RedoThenUndo | src/hooks/useImageEditor.ts:22-36 | whenever redo moves, redo followed by undo restores the whole editor state |
| EditorHistory.RedoAfterEditIsNoop | src/hooks/useImageEditor.ts:14-31 | immediately after an edit, redo changes nothing |
| EditorHistory.Undos | src/hooks/useImageEditor.ts:22-28 | n undos leave the history unchanged and move the cursor back by n, stopping at 0 |
| EditorHistory.EditAfterUndosDiscardsRedo | src/hooks/useImageEditor.ts:11-36 | for any number of undos followed by one edit, the history is the prefix up to the cursor plus the new snapshot, and redo is a no-op |
| EditorHistory.Cover | src/hooks/useImageEditor.ts:38 | cover gives the identity transform and keeps the image and its recorded size |
| EditorHistory.FitW | src/hooks/useImageEditor.ts:39 | fitW zeroes ty and changes nothing else |
| EditorHistory.FitH | src/hooks/useImageEditor.ts:40 | fitH zeroes tx and changes nothing else |
| EditorHistory.Center | src/hooks/useImageEditor.ts:41 | center zeroes both offsets and keeps the scale and rotation |
| EditorHistory.HelpersAlgebra | src/hooks/useImageEditor.ts:38-41 | centring is fitW after fitH in either order; every helper is idempotent; cover after centring is cover |
| EditorHistory.Nudged | src/hooks/useImageEditor.ts:42 | a nudge shifts the offsets by (dx, dy) and changes nothing else |
| EditorHistory.NudgeGroup | src/hooks/useImageEditor.ts:42 | nudges compose by adding their offsets, and the opposite nudge undoes one |
| EditorHistory.Zoomed | src/hooks/useImageEditor.ts:43 | zoom multiplies the scale by 1.05 or 0.95, keeps it within [0.2, 5] and changes nothing else |
| EditorHistory.ZoomInOutDrifts | src/hooks/useImageEditor.ts:43 | away from the bounds, zooming in and then out leaves 0.9975 times the scale, not the original |
| EditorHistory.ZoomGoesBelowOne | src/hooks/useImageEditor.ts:43 | zooming out from the identity spec gives scale 0.95, a scale no gesture can store |
| EditorHistory.Editor.constructor | src/hooks/useImageEditor.ts:4-8 | the editor starts in the initial state of its keys and specs |
| EditorHistory.Editor.UpdateSpec | src/hooks/useImageEditor.ts:11-20 | the editor's new state is the pure edit of its old state, and its invariant is kept |
| EditorHistory.Editor.Undo | src/hooks/useImageEditor.ts:22-28 | the editor's new state is the pure undo of its old state |
| EditorHistory.Editor.Redo | src/hooks/useImageEditor.ts:30-36 | the editor's new state is the pure redo of its old state |
| EditorHistory.Editor.SetActive | src/hooks/useImageEditor.ts:6 | only the active part changes, to a part the editor holds |
| EditorHistory.Editor.Nudge | src/hooks/useImageEditor.ts:42 | one edit of the active part by the nudge updater |
| EditorHistory.Editor.Zoom | src/hooks/useImageEditor.ts:43 | one edit of the active part by the zoom updater |
| Clipboard.Leading | src/hooks/useImageEditor.ts:111 | counts exactly the white-space prefix: all those characters are white space and the next one, if any, is not |
| Clipboard.Trailing | src/hooks/useImageEditor.ts:129 | counts exactly the white-space suffix: all those characters are white space and the one before them, if any, is not |
| Clipboard.Trim | src/hooks/useImageEditor.ts:164 | the result is a contiguous piece of the input, only white space is cut on either side, and no white space is left at either end |
| Clipboard.ExtractUrl | src/hooks/useImageEditor.ts:66-79 | an image source that is http(s), or data: in lower case, wins; otherwise an http(s) link; otherwise nothing; the result is always such a URL |
| Clipboard.HtmlUrl | src/hooks/useImageEditor.ts:91-100 | an html URL an item offers is always http(s) |
| Clipboard.PlainUrl | src/hooks/useImageEditor.ts:108-116 | a plain-text URL an item offers is always http(s) |
| Clipboard.FirstOffer | src/hooks/useImageEditor.ts:89-103 | the result is what some item offers, and nothing exactly when no item offers anything |
| Clipboard.TextUrl | src/hooks/useImageEditor.ts:126-133 | a URL readText yields is always http(s) or data: |
| Clipboard.ClipboardPriority | src/hooks/useImageEditor.ts:81-144 | when any item offers an html URL the first such is pasted; a result that is not http(s) comes from readText; every result is http(s) or data:; a thrown read falls straight to readText |
| Clipboard.ReadClipboard | src/hooks/useImageEditor.ts:81-144 | the method pastes what the priority rule chooses, and the error callback fires exactly when nothing was pasted |
| Clipboard.FirstOfferIsFirst | src/hooks/useImageEditor.ts:89-103 | when item i offers something and no earlier item does, the first offer is item i's |
| Clipboard.PasteEvent | src/hooks/useImageEditor.ts:146-176 | the event is ignored exactly when it has no data; an http(s) URL from the html entry is pasted first, otherwise an http(s) trimmed text; the error callback runs exactly when neither exists; a pasted URL is never data: |
| Clipboard.TrimSamples | src/hooks/useImageEditor.ts:111 | trimming strips the white space around a data: text and leaves one without any unchanged |
| Clipboard.TrimUnpadded | src/hooks/useImageEditor.ts:164 | a text with no white space at either end is its own trim |
| Clipboard.PasteEventRejectsDataUrl | src/hooks/useImageEditor.ts:155 | a paste event with no html whose plain text trims to a data: URL reports an error |
| Clipboard.ReadTextAcceptsDataUrl | src/hooks/useImageEditor.ts:130 | without clipboard items, readText pastes that same trimmed data: URL |
| Clipboard.HtmlBeatsText | src/hooks/useImageEditor.ts:152-160 | when the html entry and the text both give an http(s) URL, the html one is pasted |
| Clipboard.SchemeCase | src/hooks/useImageEditor.ts:72 | the scheme test ignores case for http(s) but not for an image's data: source |
| Slot.Clamp | src/components/Slot.tsx:25 | the result lies in [lo, hi], equals x when x is inside, and equals the nearer bound otherwise |
| Slot.ClampTransform | src/components/Slot.tsx:21-28 | offsets and rotation are taken from the update when present, else kept; a given scale is clamped into [1, 5]; without one the stored scale is lifted to at least 1; translation is never clamped |
| Slot.ApplyGesture | src/components/Slot.tsx:32 | only the transform changes; the part, image and recorded size are kept |
| Slot.PanLiftsScale | src/components/Slot.tsx:25 | a pan over a scale below 1 stores exactly 1 and the pan's offsets |
| Slot.GeometryShape | src/components/Slot.tsx:35-61 | for the handled kinds the bleed is the trim plus 4 mm per axis and the safe area lies strictly inside the trim; every other kind has zero sizes |
| Slot.ViewportShape | src/components/Slot.tsx:74-86 | the viewport is 35 x 45 for the 4x5 parts and the trim otherwise, and only the disc is drawn round |
| Slot.AgreesWithPrintSpecs | src/components/Slot.tsx:38-61 | the slot's literal sizes equal the print tables' trim, bleed, safe and viewport sizes |
| Slot.ViewportOrigin | src/components/Slot.tsx:63-87 | the clipping viewport is centred in the bleed box, for both anchors |
| Slot.RecordImageSize | src/components/Slot.tsx:140-145 | a size is recorded only when both natural values are non-zero and a stored one is missing, and then only the size changes |
| Slot.RecordImageSizeOnce | src/components/Slot.tsx:140-145 | once a size is recorded, a second load of any image records nothing |
| Gesture.Inserted | src/utils/gesture.ts:26-28 | the ids are the old ones plus the new id, the list grows only for an unknown id, and distinct ids stay distinct |
| Gesture.Removed | src/utils/gesture.ts:68 | exactly that id is removed, and for distinct ids the list shrinks by one when the id was present |
| Gesture.PanUpdate | src/utils/gesture.ts:54-57 | a pan sets only the offsets: the base plus the pointer's travel from the anchor, in millimetres |
| Gesture.PinchScale | src/utils/gesture.ts:61-62 | the pinch scale lies in [0.2, 5]; with a start distance it is the base scale times the distance ratio, exact inside the bounds and saturating at 0.2 below and 5 above; without one it is the clamped base scale |
| Gesture.PinchUpdate | src/utils/gesture.ts:58-63 | a pinch sets the pinch scale of its inputs and the base rotation, and never a translation |
| Gesture.PinchAtStartDistance | src/utils/gesture.ts:61-62 | at the start distance the pinch keeps the clamped base scale |
| Gesture.StoredGestureScaleInRange | src/utils/gesture.ts:62 | every scale the slot stores from a pinch lies in [1, 5], and a pan stores max(1, old scale) (the slot's clamp at src/components/Slot.tsx:25) |
| Gesture.Recognizer.constructor | src/utils/gesture.ts:10-21 | the recogniser starts with no pointers, the base from the initial transform and zero start distance and anchor |
| Gesture.Recognizer.Down | src/utils/gesture.ts:30-49 | the pointer is recorded and the base re-captured; the anchor is set when it is the only pointer, and the start distance when there are now exactly two |
| Gesture.Recognizer.Move | src/utils/gesture.ts:51-64 | the pointer is recorded; with one pointer the update is the anchored pan and with more the pinch; only the pointer list changes |
| Gesture.Recognizer.UpOrCancel | src/utils/gesture.ts:66-72 | exactly that pointer is forgotten, and the start distance resets when fewer than two remain |
| Gesture.PanIsAnchored | src/utils/gesture.ts:54-57 | after a press, a second one-pointer move is measured from the press anchor, not from the first move |
| ImageEditor.ViewportMm | src/components/ImageEditor.tsx:233-243 | every part, including the parts without a table entry, gets a viewport with positive width and height, so the cover scale is always defined |
| ImageEditor.ViewportTable | src/components/ImageEditor.tsx:233-243 | every part has a positive cover viewport: 35 x 45 for the 4x5 parts, 40 x 40 for the disc, case and front panels (the default), and the back panels' own sizes |
| ImageEditor.ViewportAgainstSlot | src/components/ImageEditor.tsx:233-243 | the cover viewport equals the slot's drawn viewport for the 4x5 parts, the disc and case-front; the panel parts cover a 40 x 40 viewport the slot draws with zero size; case-back is drawn 49 wide but covered 40 wide |
| ImageEditor.CoverFactor | src/components/ImageEditor.tsx:252-254 | the cover factor is at least 1, and exactly 1 when the image and viewport aspects agree |
| ImageEditor.CoverSpec | src/components/ImageEditor.tsx:255 | the covered spec is centred with scale in [1, 5]; only the offsets and scale change; within the clamp the scale is (scale or 1) times the factor |
| ImageEditor.CoverCurrent | src/components/ImageEditor.tsx:245-256 | nothing happens exactly when the active image's size is unknown; otherwise one history edit of the active part with the cover updater for its viewport |
| ImageEditor.CoverNotIdempotent | src/components/ImageEditor.tsx:254-255 | below the upper clamp a factor above 1 is applied again by a second cover, so covering twice scales further than covering once |
| ImageEditor.CoverStableCases | src/components/ImageEditor.tsx:254-255 | a second cover changes nothing when the factor is 1 on an in-range scale, or when the first cover reached the clamp at 5 |
| ImageEditor.CoverCurrentTwice | src/components/ImageEditor.tsx:245-256 | after one cover a second is available and leaves the active part covered twice with the same factor |
| ImageEditor.ResetCurrent | src/components/ImageEditor.tsx:258-260 | one consistent edit sets the active part to the identity transform, keeping its image, and leaves every other part alone |
| ImageEditor.Pasted | src/components/ImageEditor.tsx:177-181 | the pasted spec shows the new image centred; a scale of at least 1 is kept and any smaller scale, zero or negative included, becomes exactly 1; nothing else changes |
| ImageEditor.HandlePaste | src/components/ImageEditor.tsx:177-181 | one consistent edit applies the paste updater to the active part and leaves every other part alone |
| ImageEditor.PasteKeepsRecordedSize | src/components/ImageEditor.tsx:179 | pasting over an image with a recorded size keeps that size, so the slot's load handler records nothing for the new image |
| ImageEditor.UrlSubmit | src/components/ImageEditor.tsx:32-36 | the URL-entry modal submits exactly when the trimmed input is an http(s) address, and then submits that trimmed address, with no white space at either end |
| ImageEditor.MobileExtract | src/components/ImageEditor.tsx:759-783 | the mobile paste field yields an http(s) image source first, else its http(s) trimmed text; it reports nothing found exactly when neither applies and the field has markup, and stays silent on an empty field |
| ImageEditor.MobileSkipsDataImage | src/components/ImageEditor.tsx:765-775 | an image whose source is a data: URL is never pasted; the field then pastes exactly what the URL-entry modal would submit for its text |
| ImageEditor.ModalsRejectData | src/components/ImageEditor.tsx:32-36 | neither paste modal ever hands a data: URL to the editor |
| ImageEditor.KeyCommand | src/components/ImageEditor.tsx:208-226 | undo is exactly Ctrl/Meta+z without shift, redo exactly Ctrl/Meta+y or Ctrl/Meta+Shift+z; modifier keys give nothing else; a nudge moves one step along one axis; a zoom needs no modifier and zooms in exactly for + and =; a plain key other than the four arrows, +, = and - does nothing |
| ImageEditor.ArrowsInverted | src/components/ImageEditor.tsx:218-225 | each arrow nudges against its direction, plus and equals both zoom in, minus zooms out, and a plain z does nothing |
| ImageEditor.Dispatch | src/components/ImageEditor.tsx:209-225 | a key command keeps the editor consistent and changes neither the key order nor the active part |
| ImageEditor.UpThenDownRestoresSpecs | src/components/ImageEditor.tsx:219-220 | ArrowUp then ArrowDown puts every spec back but adds two history entries |
| ImageEditor.HandleKeyDown | src/components/ImageEditor.tsx:207-230 | the editor's new state is the dispatch of the pressed key's command |
| ImageEditor.PresentParts | src/components/ImageEditor.tsx:271 | the filtered parts are exactly the group's parts the editor holds |
| ImageEditor.KeepPresent | src/components/ImageEditor.tsx:264-283 | every kept group is non-empty and holds only present parts, and no more groups are kept than the table has |
| ImageEditor.KeepPresentExact | src/components/ImageEditor.tsx:264-283 | each kept group is a table group narrowed to its present parts, and every table group with a present part is kept |
| ImageEditor.PresentPartsAppend | src/components/ImageEditor.tsx:271-272 | filtering a group's parts keeps their order: it distributes over concatenation |
| ImageEditor.KeepPresentAppend | src/components/ImageEditor.tsx:264-283 | filtering a table keeps the groups' order: it distributes over concatenation |
| ImageEditor.ActiveGroup | src/components/ImageEditor.tsx:285-288 | no group exactly when there are no groups; otherwise a group holding the active part when one exists, else the first group |
| ImageEditor.FindHolding | src/components/ImageEditor.tsx:287 | a found group holds the active part, and none is found exactly when no group holds it |
| ImageEditor.FindKey | src/components/ImageEditor.tsx:291 | a found group has the key, and none is found exactly when no group has it |
| ImageEditor.SelectGroup | src/components/ImageEditor.tsx:290-295 | a selected part belongs to a group with that key; the active part is kept when it is in that group, otherwise the group's first part is taken; an unknown key or an empty group selects nothing |
| ImageEditor.SelectGroupStaysPresent | src/components/ImageEditor.tsx:290-295 | whatever group is selected, the new active part is one the editor holds |
| ImageEditor.StripWidth | src/components/ImageEditor.tsx:423 | the back strip's width is the sum of the panel widths plus one 2 mm gap between each pair of neighbours |
| ImageEditor.LastPanelEndsAtWidth | src/components/ImageEditor.tsx:423-430 | the last back panel ends exactly at the strip width |
| ImageEditor.BackOffsets | src/components/ImageEditor.tsx:424-430 | the running loop gives each back panel the widths and gaps before it as its offset |
| ImageEditor.Render | src/components/ImageEditor.tsx:356-358 | exactly the placements of held parts are rendered, each at its own place |
| ImageEditor.PreviewLayout | src/components/ImageEditor.tsx:397-512 | the front preview is 82 x 40 mm with the right panel at 42 mm; the back strip is 116 x 37 mm with the panels at fixed offsets whether or not the others are present, and without per-slot guides |
| ImageEditor.CompressedDims | src/components/ImageEditor.tsx:100-103 | both dimensions are at least 1; an image within the limit keeps its size; otherwise neither side exceeds the limit |
| ImageEditor.ScaledWithin | src/components/ImageEditor.tsx:100-103 | a dimension scaled by min(1, limit / larger side) and rounded is unchanged within the limit and never above it |
| ImageEditor.CompressDataUrl | src/components/ImageEditor.tsx:95-116 | the result is the input or something shorter; a URL that is not data: comes back unchanged; the result fails exactly when a data: URL does not load |
| ImageEditor.CompressPart | src/components/ImageEditor.tsx:122-132 | only the image of a part changes, only a data: image is touched, and it never gets longer |
| ImageEditor.CompressedSpecs | src/components/ImageEditor.tsx:118-134 | the compression pass keeps the keys and compresses each part on its own |
| ImageEditor.CompressAll | src/components/ImageEditor.tsx:129-134 | the key-by-key loop produces the compressed spec map |
| ImageEditor.FirstQr | src/components/ImageEditor.tsx:145-154 | the result is the first non-empty QR among the outcomes, and none exactly when there is none |
| ImageEditor.GenerateQr | src/components/ImageEditor.tsx:70-163 | the attempt loop shows what the schedule prescribes: the first attempt's QR, else the first non-empty recompressed QR in schedule order, else nothing |
| ImageEditor.FirstQrIsFirst | src/components/ImageEditor.tsx:145-153 | when outcome i is the first non-empty QR, it is the one shown |
| ImageEditor.QrScheduleFacts | src/components/ImageEditor.tsx:81-156 | a first attempt that encodes is shown without compression, and nothing is shown exactly when the first attempt throws and no step yields a QR |
| PrintSpecs.Round | src/utils/printSpecs.ts:57 | the rounded value is the integer n with n <= x + 0.5 < n + 1, i.e. nearest with halves up |
| PrintSpecs.RoundOfInteger | src/utils/printSpecs.ts:57 | rounding an integer gives it back |
| PrintSpecs.RoundMonotone | src/utils/printSpecs.ts:57 | rounding never reverses the order of two values |
| PrintSpecs.MmToPxAnchors | src/utils/printSpecs.ts:57 | 0 mm is 0 px, and 25.4 mm is exactly dpi pixels at any integer resolution |
| PrintSpecs.MmToPxMonotone | src/utils/printSpecs.ts:57 | for a positive resolution, more millimetres never give fewer pixels |
| PrintSpecs.SheetInPixels | src/utils/printSpecs.ts:3-9 | at the default 300 dpi the 100 x 148 mm sheet is 1181 x 1748 px |
| PrintSpecs.TablesConsistent | src/utils/printSpecs.ts:15-40 | each bleed is the trim plus 2 mm per side; the disc and case safe areas are the trim less 3 mm per side; the hole lies inside the disc's safe circle; the 4x5 viewport lies inside its trim |
| PrintSpecs.PanelTable | src/utils/printSpecs.ts:42-54 | every back panel is 37 mm high and the five together are 108 mm wide; both front panels are 40 x 40 |
| PrintSpecs.Nudged | src/utils/printSpecs.ts:60-63 | the export nudge is zero, so it moves nothing |
| PrintSpecs.Calibrated | src/utils/printSpecs.ts:67-70 | calibration scales both sides by 0.95, so every positive length shrinks |
| Mm.Anchors | src/lib/mm.ts:2-3 | the vector map sends 0 mm to 0 and one inch to the default 300 |
| Mm.Additive | src/lib/mm.ts:2-3 | the unrounded map is additive |
| Mm.Homogeneous | src/lib/mm.ts:2-3 | the unrounded map commutes with scaling |
| Mm.StrictlyIncreasing | src/lib/mm.ts:2-3 | for a positive resolution, a longer length gives strictly more pixels |
| Mm.RoundedAgreesWithTables | src/lib/mm.ts:2-3 | rounding the vector map's value gives the print tables' raster value |
| PerfPath.Corners | src/lib/perfPath.ts:5-6 | the corners a path visits start at its starting point |
| PerfPath.CrossIsCentred | src/lib/perfPath.ts:4-6 | the horizontal bar spans halfArm either side of the centre and w/2 above and below, closing on its short side; the vertical bar visits exactly its corners reflected about the centre |
| PerfPath.RectangleCorners | src/lib/perfPath.ts:5 | three sides and a close visit the start and three more corners |
| PerfPath.ArmsOverlapAtCentre | src/lib/perfPath.ts:4-6 | when halfArm is at least w/2 both bars cover the centre, and the vertical bar lies within the horizontal bar's width |
| BackFoldStrip.Offsets | src/components/Preview/BackFoldStrip.tsx:25-29 | each panel's offset is the sum of the widths before it |
| BackFoldStrip.PanelsAbut | src/components/Preview/BackFoldStrip.tsx:25-29 | the first panel starts at 0, each next starts where the previous ends, and the last ends at the total width |
| BackFoldStrip.ImagesFrom | src/components/Preview/BackFoldStrip.tsx:46-67 | exactly the panels whose spec has an image are drawn, each with its own image in its own frame |
| BackFoldStrip.StripShape | src/components/Preview/BackFoldStrip.tsx:46-84 | five frames always; with guides a fold line at the start of each of panels 1 to 4, without guides none; every panel with an image shows it and no other image appears |
| BackFoldStrip.StripInPixels | src/components/Preview/BackFoldStrip.tsx:19-48 | every panel is 37 mm high and the widths total 108 mm; at 300 dpi the strip is 1276 x 437 px with panels at 0, 579, 638, 697 and 756 px, and the first fold is at 579 |
| PrintSheet.Items | src/components/PrintLayout/PrintSheetSVG.tsx:22-74 | the nested loops push rows x cols cells; item k is the cell at row k / cols and column k % cols |
| PrintSheet.EachCellOnce | src/components/PrintLayout/PrintSheetSVG.tsx:22-44 | no grid position occurs twice, so the clip ids are unique |
| PrintSheet.RowMajorInjective | src/components/PrintLayout/PrintSheetSVG.tsx:22-23 | distinct grid positions have distinct row-major indices |
| PrintSheet.CellLookup | src/components/PrintLayout/PrintSheetSVG.tsx:22-25 | cell (r, c) sits at index r * cols + c |
| PrintSheet.CentresSpaced | src/components/PrintLayout/PrintSheetSVG.tsx:18-25 | neighbouring centres are one cell width apart in both directions, and the first column's cut circle starts at the page margin |
| PrintSheet.CutCirclesApart | src/components/PrintLayout/PrintSheetSVG.tsx:18-27 | with non-negative spacing, neighbouring cut circles in a row do not overlap |
| PrintSheet.CellGeometry | src/components/PrintLayout/PrintSheetSVG.tsx:27-53 | the image is a square centred on the clip circle and circumscribing it; with non-negative margins the safe circle is inside the clip circle and the cut circle outside it |
| PrintSheet.MirrorKeepsSquare | src/components/PrintLayout/PrintSheetSVG.tsx:55 | mirroring is an involution that fixes the centre and maps the image square onto itself |
| PrintSheet.SideRules | src/components/PrintLayout/PrintSheetSVG.tsx:34-38 | the front is never mirrored; the back is mirrored exactly when flipXOnBack is true; each side shows its own image; the image is contained exactly when the side's fit, else the default fit, is contain |
| PrintSheet.RegMarksSymmetric | src/components/PrintLayout/PrintSheetSVG.tsx:77-96 | without the flag there are no marks; with it, four corner marks symmetric about the centre mark, black and smaller than the grey centre one |
| PrintSheet.Render | src/components/PrintLayout/PrintSheetSVG.tsx:9-104 | the sheet has the page's pixel size, the registration marks, and every grid cell in row-major order |
| FourUp.LocalPxIsTableMap | src/pages/FourUp.tsx:18-21 | the page's local conversion is the print tables' rounded map at 300 dpi, so the canvas is 1181 x 1748 px |
| FourUp.PreviewSpec | src/pages/FourUp.tsx:76-87 | a preview slot shows the scanned front spec, or the identity 4x5-front spec when there is none |
| FourUp.SpotsFitSheet | src/pages/FourUp.tsx:52-55 | the four 35 x 45 mm export viewports do not overlap and lie on the sheet |
| FourUp.ScreenAndExportDisagree | src/pages/FourUp.tsx:52 | on screen each picture starts 4.5 mm right of and below the spot where the export clips it (with src/components/Slot.tsx:63-87) |
| FourUp.DrawPart | src/pages/FourUp.tsx:29-50 | a part is skipped exactly when it has no image and rejected exactly when its image fails to load; a drawn part is clipped to its spot's viewport and drawn at its natural size times the contain factor times the scale (1 when the scale is 0) |
| FourUp.DrawFrom | src/pages/FourUp.tsx:37-60 | drawing the remaining slots always ends either in an abort or in a download; it never stops part-way without an outcome |
| FourUp.ContainFits | src/pages/FourUp.tsx:43-45 | at scale 1 the image fits inside the viewport and fills it along at least one axis |
| FourUp.DrawnIsCentred | src/pages/FourUp.tsx:40-47 | the drawn image is centred on the viewport shifted by the rounded offsets, keeps the image's aspect ratio at any scale, and at scale 1 (or 0) lies inside the viewport |
| FourUp.DownloadPng | src/pages/FourUp.tsx:16-61 | the export method produces the outcome the drawing sequence prescribes |
| FourUp.ExportAllOrNothing | src/pages/FourUp.tsx:37-60 | the export downloads exactly when no remaining part's image fails to load, so one failure discards the others; downloads are 1181 x 1748 px |
| ScanPages.Store.constructor | src/utils/staffStore.ts:8-28 | the session store starts with no four-up pair and no CD payload |
| ScanPages.Accept4 | src/pages/Scan4.tsx:27-33 | a decoded 4x5 payload is appended exactly when fewer than four are held and none has the same front image; otherwise the list is kept |
| ScanPages.Accept4Preserves | src/pages/Scan4.tsx:29 | accepting keeps the list at most four distinct-front 4x5 payloads |
| ScanPages.Collect4Valid | src/pages/Scan4.tsx:28-33 | after any run of decodes the list holds at most four 4x5 payloads with distinct front images |
| ScanPages.NoImageCountsOnce | src/pages/Scan4.tsx:29 | of two codes with no front image, the second is dropped |
| ScanPages.Scan4.constructor | src/pages/Scan4.tsx:11 | Scan4 starts with no payloads |
| ScanPages.Scan4.OnResult | src/pages/Scan4.tsx:28-33 | the list becomes the accept rule applied to the old list and the decode |
| ScanPages.Scan4.Finish | src/pages/Scan4.tsx:82-85 | the finish button is shown exactly with four payloads, and then stores the first four as the four-up pair and leaves the CD payload alone |
| ScanPages.Scan4SlotsCentredOnSpot | src/pages/Scan4.tsx:67-77 | the centre-anchored slot in a zero-size wrapper puts slot A's viewport 15.5 mm above and left of the sheet's corner |
| ScanPages.Accept2 | src/pages/Scan2.tsx:24-28 | each press appends a decoded 4x5 payload and drops anything else |
| ScanPages.RescanAppendsAgain | src/pages/Scan2.tsx:25 | scanning the same code twice collects it twice |
| ScanPages.Scan2.constructor | src/pages/Scan2.tsx:9 | Scan2 starts with no payloads |
| ScanPages.Scan2.OnScan | src/pages/Scan2.tsx:20-28 | the list becomes Accept2 of the old list and the scan |
| ScanPages.Scan2.Finish | src/pages/Scan2.tsx:43-47 | the finish button is shown exactly with two payloads, and then stores the first two |
| ScanPages.AcceptLoad | src/pages/ScanLoad.tsx:24-28 | a scan is appended exactly when it decodes to a 4x5 or cd payload |
| ScanPages.UrlPayload | src/pages/ScanLoad.tsx:38-43 | a typed-in URL becomes a well-formed 4x5 payload showing that image on both sides with identity transforms |
| ScanPages.FirstCd | src/pages/ScanLoad.tsx:51 | the index found is that of the first cd payload, and none exactly when there is none |
| ScanPages.Only4x5 | src/pages/ScanLoad.tsx:57 | the filter keeps exactly the 4x5 payloads |
| ScanPages.Only4x5Append | src/pages/ScanLoad.tsx:57 | filtering distributes over concatenation, so collection order is kept |
| ScanPages.PreviewChoice | src/pages/ScanLoad.tsx:49-64 | the first cd payload wins whenever there is one; otherwise the first two 4x5 payloads in order; otherwise more are needed |
| ScanPages.CdTakesPrecedence | src/pages/ScanLoad.tsx:49-64 | a cd payload after any number of 4x5 payloads is the one previewed |
| ScanPages.ScanLoad.constructor | src/pages/ScanLoad.tsx:9-10 | ScanLoad starts with no payloads and an empty URL field |
| ScanPages.ScanLoad.OnScan | src/pages/ScanLoad.tsx:24-28 | the list becomes AcceptLoad of the old list and the scan, and the URL field is kept |
| ScanPages.ScanLoad.SetImageUrl | src/pages/ScanLoad.tsx:73 | only the URL field changes |
| ScanPages.ScanLoad.LoadFromUrl | src/pages/ScanLoad.tsx:35-47 | with a non-empty URL its payload is appended and the field cleared; otherwise nothing changes |
| ScanPages.ScanLoad.GoPreview | src/pages/ScanLoad.tsx:49-64 | the chosen preview is stored in its own slot of the store, and the other slot is kept |
| EditPages.Keys | src/pages/Edit4x5.tsx:6-9 | every page has a non-empty key order |
| EditPages.KeysDistinct | src/pages/Edit4x5.tsx:6-9 | no page's key order names a part twice |
| EditPages.InitialSpecs | src/pages/EditCd3.tsx:6-10 | each page's initial record holds exactly its keys, each the identity spec of its own part with no image |
| EditPages.Opened | src/hooks/useImageEditor.ts:5-8 | each page opens a consistent editor on its first key with nothing to undo |
| EditPages.QrPayload | src/pages/Edit4x5.tsx:11-16 | each page emits its own template tag, copies the named specs unchanged into its payload fields, and leaves every other field empty |
| EditPages.StaffAcceptance | src/pages/EditCd3.tsx:14 | only the 4x5 page's payload is well-formed 4x5 and appended by every scan page; the other pages' payloads are dropped by all three and none is a cd payload |
| EditPages.HeldParts | src/pages/EditCdBack.tsx:6-12 | each page holds exactly its template's parts |
| EditPages.InitialKeys | src/pages/EditCdBack.tsx:6-12 | a part is held by a page's editor exactly when it is one of the page's keys |
| EditPages.NonePresent | src/components/ImageEditor.tsx:271-272 | a group with none of its parts held filters to nothing |
| EditPages.AllPresent | src/components/ImageEditor.tsx:271-272 | a group with all its parts held is kept whole |
| EditPages.KeepHead | src/components/ImageEditor.tsx:271-272 | filtering a table handles its first group on its own |
| EditPages.KeepThree | src/components/ImageEditor.tsx:271-272 | filtering three groups filters each in turn |
| EditPages.KeepTwo | src/components/ImageEditor.tsx:271-272 | filtering two groups filters each in turn |
| EditPages.Edit4x5Groups | src/components/ImageEditor.tsx:274-280 | the 4x5 page has a front group and a back group with one part each |
| EditPages.Cd3Table | src/components/ImageEditor.tsx:265-272 | the cd3 table keeps the front, back and disc groups, in that order, exactly when some of their parts are held |
| EditPages.EditCd3Groups | src/pages/EditCd3.tsx:6-10 | the three-part CD page has only the disc group |
| EditPages.Cd3CasesUnreachable | src/pages/EditCd3.tsx:6-10 | the three-part CD page opens on the disc, its active group is the disc group, and no group selection reaches case-front or case-back |
| EditPages.EditCdFrontGroups | src/pages/EditCdFront.tsx:6-9 | the front-panel page has exactly the front group with both panels |
| EditPages.EditCdBackGroups | src/pages/EditCdBack.tsx:6-12 | the back-panel page has exactly the back group, in strip order |
| EditPages.EditCdDiscGroups | src/pages/EditCdDisc.tsx:6-8 | the disc page has only the disc group |
| EditPages.DiscPageActive | src/pages/EditCdDisc.tsx:6-8 | the disc group is the disc page's active group |
| EditPages.DiscAlone | src/components/ImageEditor.tsx:285-295 | with the disc group alone, the disc is active and only the disc key selects, keeping the disc |
| EditPages.PanelPagesOpen | src/hooks/useImageEditor.ts:6 | the back page opens on the outside panel and the disc page on the disc |
| EditPages.FrontPanelsUnsized | src/components/ImageEditor.tsx:236-237 | the front panels are covered against 40 x 40 mm but drawn with a zero-size slot viewport |
| Proxy.Handle | api/proxy.ts:4-40 | the answer is a 400 or 502 error or the upstream body streamed through |
| Proxy.Rejections | api/proxy.ts:8-30 | each early exit answers with its own status and message, and for a target that fails any check the upstream is never consulted and the status is not 200 |
| Proxy.PassThrough | api/proxy.ts:32-36 | the body is streamed exactly when the target passed every check and the fetch returned; the upstream status, body and headers are kept, with CORS opened to * and caching set to no-store; a thrown fetch gives 502 |
| Proxy.QuadShape | api/proxy.ts:18 | a canonical dotted quad matches the quad pattern, reads back its second octet, and is no loopback name |
| Proxy.QuadBlocked | api/proxy.ts:17-29 | a canonical dotted quad is blocked exactly when it lies in a private, loopback or link-local block |
| Proxy.GuardEdges | api/proxy.ts:27 | the 172.16/12 test is tight: 172.15.x.x and 172.32.x.x pass while 172.31.255.255 is blocked |
| Proxy.ThreeFieldsNoQuad | api/proxy.ts:18 | three dot-free fields joined by dots never match the dotted-quad pattern |
| Proxy.NamesAreNotQuads | api/proxy.ts:18-22 | a host with a name part, such as 10.example.com, is not blocked by the prefix rules |
| Proxy.BracketedLoopbackPasses | api/proxy.ts:21 | the bracketed hostname [::1] that the URL parser yields for the IPv6 loopback is not blocked, while the bare ::1 the guard tests for is |
| Preview3D.IndexOf | src/components/Preview3D.tsx:43-44 | each mode's index is its position in the cycle |
| Preview3D.StepCycle | src/components/Preview3D.tsx:42-47 | forward steps go front, back, disc and round; a back step undoes a forward step; three steps return; a step always changes the mode |
| Preview3D.SwipeStep | src/components/Preview3D.tsx:36-38 | a release steps back past the threshold to the right, forward past it to the left, and not at all within it |
| Preview3D.ReleaseSwitches | src/components/Preview3D.tsx:34-40 | a release changes the mode exactly when the travel passes the threshold, in the direction of the swipe |
| Preview3D.TurnsClamp | src/components/Preview3D.tsx:31-32 | turns stay within the rotation limits, are exact inside them, stop at the limit past it, and never go back when turning one way |
| Preview3D.Viewer.constructor | src/components/Preview3D.tsx:14-19 | the viewer starts on the front at its initial rotation, not dragging, with no travel |
| Preview3D.Viewer.PointerDown | src/components/Preview3D.tsx:21-24 | a press starts a drag at the pointer and clears the travel, keeping the mode and rotation |
| Preview3D.Viewer.PointerMove | src/components/Preview3D.tsx:25-33 | a move without a drag changes nothing; with one, both rotations turn by the movement within the limits and the travel grows by dx |
| Preview3D.Viewer.SwitchMode | src/components/Preview3D.tsx:42-47 | the mode steps once in the given direction and nothing else changes |
| Preview3D.Viewer.SetMode | src/components/Preview3D.tsx:75-77 | the mode is set directly and nothing else changes |
| Preview3D.Viewer.PointerUp | src/components/Preview3D.tsx:34-40 | the drag ends, the mode becomes the release rule's choice for the travel, and the travel is cleared |
| Preview3D.FacesMatchCase | src/components/Preview3D.tsx:108-134 | each view's panels have the case table's sizes, lie inside the view's box with a gap between neighbours, and the disc is centred |
| StaffCd.SpecOr | src/pages/StaffCd.tsx:19 | the stored spec when present, else the part's identity spec |
| StaffCd.PlacementSpecs | src/pages/StaffCd.tsx:6-25 | the three slots show the disc, case front and case back, each with its stored spec or the identity spec |
| StaffCd.PlacementsStack | src/pages/StaffCd.tsx:18-26 | the three bleed boxes stack with 2 mm gaps, the last ends at 135 mm, and all lie on the sheet |
| Types.Identity | src/types.ts:16-41 | the identity spec has no image, zero offsets and rotation, and scale 1 |
| Types.OrOne | src/components/ImageEditor.tsx:255 | the fallback is never 0 and keeps every non-zero value |

## Definitions

These definitions carry no contract of their own; the members named after each one
state their properties.

- Mm.MmToPx (src/lib/mm.ts:3): Mm.Anchors, Mm.Additive, Mm.Homogeneous, Mm.StrictlyIncreasing, Mm.RoundedAgreesWithTables.
- PrintSpecs.MmToPx (src/utils/printSpecs.ts:57): PrintSpecs.MmToPxAnchors, PrintSpecs.MmToPxMonotone.
- PerfPath.CrossPerfPaths (src/lib/perfPath.ts:2-8): PerfPath.CrossIsCentred, PerfPath.ArmsOverlapAtCentre, PerfPath.RectangleCorners.
- Slot.GeometryOf (src/components/Slot.tsx:35-61): Slot.GeometryShape, Slot.AgreesWithPrintSpecs.
- Slot.BleedOrigin (src/components/Slot.tsx:63-87): Slot.ViewportOrigin.
- Proxy.Blocked (api/proxy.ts:17-29): Proxy.QuadBlocked, Proxy.GuardEdges, Proxy.NamesAreNotQuads, Proxy.BracketedLoopbackPasses.
- Proxy.Target (api/proxy.ts:6-11) and Proxy.Allowed (api/proxy.ts:12-30): Proxy.Rejections, Proxy.PassThrough, Proxy.Handle.
- BackFoldStrip.FrameOf and BackFoldStrip.StripOf (src/components/Preview/BackFoldStrip.tsx:46-84): BackFoldStrip.ImagesFrom, BackFoldStrip.StripShape.
- PrintSheet.CellAt (src/components/PrintLayout/PrintSheetSVG.tsx:22-53): PrintSheet.CellLookup, PrintSheet.CentresSpaced, PrintSheet.CellGeometry.
- PrintSheet.FitOf, PrintSheet.Bleed and PrintSheet.Safe (src/components/PrintLayout/PrintSheetSVG.tsx:27-53): PrintSheet.CellGeometry, PrintSheet.CutCirclesApart, PrintSheet.SideRules.
- PrintSheet.Mirror (src/components/PrintLayout/PrintSheetSVG.tsx:55): PrintSheet.MirrorKeepsSquare, PrintSheet.SideRules.
- PrintSheet.RegMarks (src/components/PrintLayout/PrintSheetSVG.tsx:77-96): PrintSheet.RegMarksSymmetric.
- FourUp.LocalPx (src/pages/FourUp.tsx:18-21): FourUp.LocalPxIsTableMap.
- FourUp.FrontAt (src/pages/FourUp.tsx:76-87): FourUp.PreviewSpec.
- FourUp.ContainScale (src/pages/FourUp.tsx:43-45): FourUp.ContainFits, FourUp.DrawnIsCentred.
- FourUp.ExportOf (src/pages/FourUp.tsx:16-61): FourUp.DownloadPng, FourUp.ExportAllOrNothing.
- StaffCd.Placements (src/pages/StaffCd.tsx:18-26): StaffCd.PlacementSpecs, StaffCd.PlacementsStack.
- ImageEditor.GroupTable and ImageEditor.Groups (src/components/ImageEditor.tsx:265-280): EditPages.Edit4x5Groups, EditPages.Cd3Table, EditPages.EditCd3Groups, EditPages.EditCdFrontGroups, EditPages.EditCdBackGroups, EditPages.EditCdDiscGroups.
- ImageEditor.PreviewOf (src/components/ImageEditor.tsx:397-512): ImageEditor.PreviewLayout.
- ImageEditor.BackStart (src/components/ImageEditor.tsx:424-430): ImageEditor.BackOffsets.
- ImageEditor.QrShown (src/components/ImageEditor.tsx:81-156): ImageEditor.QrScheduleFacts, ImageEditor.FirstQr, ImageEditor.FirstQrIsFirst.
- Preview3D.Step (src/components/Preview3D.tsx:42-47): Preview3D.IndexOf, Preview3D.StepCycle.
- Preview3D.Released (src/components/Preview3D.tsx:34-40): Preview3D.SwipeStep, Preview3D.ReleaseSwitches.
- Preview3D.TurnY and Preview3D.TurnX (src/components/Preview3D.tsx:31-32): Preview3D.TurnsClamp.
- Preview3D.Faces (src/components/Preview3D.tsx:108-134): Preview3D.FacesMatchCase.
- Clipboard.IsHttpUrl (src/hooks/useImageEditor.ts:72): Clipboard.SchemeCase, Clipboard.HtmlUrl, Clipboard.PlainUrl.
- Clipboard.ClipboardChoice (src/hooks/useImageEditor.ts:81-144): Clipboard.ClipboardPriority, Clipboard.ReadClipboard.
- ScanPages.Collect4 (src/pages/Scan4.tsx:28-33): ScanPages.Collect4Valid.
- ScanPages.Loadable (src/pages/ScanLoad.tsx:24-28): ScanPages.AcceptLoad, ScanPages.UrlPayload.
- EditPages.TemplateOf (src/pages/Edit4x5.tsx:6-9): EditPages.Edit4x5Groups, EditPages.EditCd3Groups.
- EditPages.Lookup (src/pages/Edit4x5.tsx:11-16): EditPages.QrPayload.
- Types.FrontImg (src/pages/Scan4.tsx:29): ScanPages.Accept4, ScanPages.Accept4Preserves, ScanPages.NoImageCountsOnce.

## Left out

- src/utils/encode.ts: the payload codec's decoder is not part of this model. The scans' decoded payloads are inputs (`ScanPages.Scan`), and the QR encoder is a parameter (`qr`).
- src/utils/staffStore.ts: the sessionStorage and JSON round trip is not modelled. The store is a class with the two slots the staff pages read and write.
- The QR encoder, the ZXing camera reader, `navigator.clipboard`, `DOMParser`, image loading and canvas encoding are browser services. Their outcomes are parameters (`Codec`, `load`, `ReadResult`, `TextResult`, `parse`).
- The sheet and stage DOM scaling (src/components/ImageEditor.tsx:317-346), the viewer zoom and its `toFixed` display (194-204), and `useIsMobile` are presentation only.
- Routing, the window event bus (src/components/ImageEditor.tsx:168-172, 297-310), the imperative handle, and the focus and clipboard side effects of activating a part are not modelled. They only call operations that are modelled.
- React state updates are taken to be applied in order. Stale closures and batching are not modelled.
- `Math.hypot` and `Math.atan2` are given as inputs (`pairDist`, `pairAngle`). Real square roots and angles are not modelled.
- The loading flag, the modals' open and close state and hint texts, `getPartLabel`, JSX, CSS strings and `styleImg` are rendering only. What the two paste modals accept is modelled (`UrlSubmit`, `MobileExtract`).
- The Preview3D image-to-panel mapping (src/components/Preview3D.tsx:58-65), the CSS transforms, `setPointerCapture` and the transition are rendering only.
- FourUp and StaffCd pass a no-op `onUpdate`, so their slots are read-only. That path is not modelled.
- FourUp.DrawPart, FourUp.ExportOf, FourUp.DownloadPng, FourUp.ExportAllOrNothing: require every loaded image to have a positive natural size (`WellLoaded`). In the source a zero-size image makes the contain scale Infinity and the draw NaN, so the canvas paints nothing for that part and the export carries on; that case is excluded rather than modelled.
- Proxy: URL parsing and `fetch` are parameters. Header names are lowercase keys. `Number()` is exact on the decimal digits the guard reads. The proxy's user-agent header is not part of the response and is not modelled.
- Proxy.Handle: an empty `url` query parameter is treated like a missing one, because both are falsy in the source.
- Preview3D.Viewer: `anchorX`, the pointer x at the last press, is a ghost field. It exists only to state what `accumDx` measures.
- TextLayer, Toolbar, src/utils/constants.ts and the remaining pages, including EditCircleDuplex and EditCdBackFold, are outside this model's core.
- ExportButtons, the SVG and PNG download buttons, is outside the core. Only the sheet it renders is modelled (`PrintSheet.Render`).
