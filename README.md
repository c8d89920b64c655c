# certigen — a verified model of the certificate generator's core

certigen is a browser application that lays recipients' names onto a certificate template and keeps
its data in the browser's `localStorage`. This project models the parts of it that compute something:

- **the canvas compositor** (`CertificateCanvas`). It does greedy word wrapping with a glyph measurer,
  the per-element style defaults, `{name}` substitution and the mapping of percentage positions to canvas pixels;
- **the drag/resize gesture machine** of a text box (`DraggableResizableText`), a component the editor imports but no page renders;
- **the template text editor** (`TextSettingsPage`). It covers the element list and its storage, the property
  panel kept in step with the selection, bulk edits, nudging, pointer dragging, an uncalled font lookup and
  saving the complete template;
- **the mock authentication service** (`authService`). It has seeded users, registration, login and the current session;
- **the recipient data-entry page**. It does manual entry and CSV import;
- **the custom font uploader**;
- **the administrator's pages**. They manage users, manage recipients and add recipients (one record, or a batch);
- **the certificate preview**. It steps cyclically through the latest batch and "Generate All";
- **the batch export page's preview dialog**.

The model is written in Dafny. Values become datatypes and functions. A page or service whose state React
or `localStorage` updates becomes a class. Its fields are the state variables and the storage slots it
uses; a slot is an `Option` (missing, or a value). Each handler is a method whose `ensures` states the whole new
state, in terms of functions whose properties are proved as lemmas.

Inputs the program takes from its surroundings are parameters:

- `ctx.measureText`, as a function of the font and the string;
- `Date.now()` ids and dates;
- `Math.random()`;
- the answer to `confirm()`;
- what the file reader and the CSV parser deliver.

A React effect that recomputes state from other state is modelled as a method the handlers call last.

## Model

| member | source | states |
|---|---|---|
| CertificateCanvas.Lines | src/components/CertificateCanvas.tsx:31-42 | one line text per group of words, each word followed by a space, as the loop builds `line + words[n] + ' '` |
| CertificateCanvas.PlaceLines | src/components/CertificateCanvas.tsx:43 | one fill per line, in order, each with the given width hint |
| CertificateCanvas.GreedyBreak | src/components/CertificateCanvas.tsx:34-37 | a word that would overflow the open line starts a new line, and the result is still a greedy wrap |
| CertificateCanvas.GreedyExtend | src/components/CertificateCanvas.tsx:38-39 | a word that fits is added to the open line, and the result is still a greedy wrap |
| CertificateCanvas.WrapPrefixGreedy | src/components/CertificateCanvas.tsx:31-41 | after any number of words, the loop's committed lines plus its open line are a greedy wrap of those words |
| CertificateCanvas.WrapPrefix | src/components/CertificateCanvas.tsx:31-41 | the loop's committed lines and open line after `k` words; WrapPrefixGreedy proves that this state is a greedy wrap of the first `k` words |
| CertificateCanvas.WrapGroups | src/components/CertificateCanvas.tsx:27-44 | at least one line is pushed; WrapGroupsGreedy proves the lines are a greedy wrap of the words, and WrapGroupsIsTheGreedyWrap that no other greedy wrap exists |
| CertificateCanvas.WrapText | src/components/CertificateCanvas.tsx:28-42 | the drawn line texts; WrapTextKeepsWords proves they hold the `split(' ')` words in order, each followed by one space, WrapTextLinesNonEmpty that there is at least one line, and OverwideLineHoldsOneWord that an overwide line holds one word |
| CertificateCanvas.WrapGroupsGreedy | src/components/CertificateCanvas.tsx:27-44 | the lines `drawTextWithWrap` draws are a greedy wrap of the words: no word lost or split, every multi-word line fits, each break happens because the next word overflowed |
| CertificateCanvas.GreedyHeadTail | src/components/CertificateCanvas.tsx:31-41 | the first line of a greedy wrap is a prefix of the words and the remaining lines wrap the rest |
| CertificateCanvas.GreedyFirstLineBound | src/components/CertificateCanvas.tsx:34-37 | of two greedy wraps, a first line followed by a break is at least as long as the other's first line |
| CertificateCanvas.GreedyWrapUnique | src/components/CertificateCanvas.tsx:31-41 | two greedy wraps of the same words at the same width are equal |
| CertificateCanvas.WrapGroupsIsTheGreedyWrap | src/components/CertificateCanvas.tsx:27-44 | any greedy wrap of the words is exactly what the loop computes |
| CertificateCanvas.WrapIdempotent | src/components/CertificateCanvas.tsx:27-44 | re-wrapping the words of one wrapped line at the same width gives that line back alone |
| CertificateCanvas.OneLineWhenItFits | src/components/CertificateCanvas.tsx:34-39 | when no candidate line overflows, all the words make one line |
| CertificateCanvas.ZeroWidthOneLine | src/components/CertificateCanvas.tsx:36 | a zero width is falsy, so nothing ever breaks and the words make one line |
| CertificateCanvas.WrapTextKeepsWords | src/components/CertificateCanvas.tsx:28-42 | the drawn lines laid end to end are the `split(' ')` words, each followed by one space, in order |
| CertificateCanvas.WrapTextLinesNonEmpty | src/components/CertificateCanvas.tsx:28-42 | at least one line is drawn and every line ends with a space |
| CertificateCanvas.WrapEmptyText | src/components/CertificateCanvas.tsx:28-43 | the empty text draws one line holding a single space |
| CertificateCanvas.OverwideLineHoldsOneWord | src/components/CertificateCanvas.tsx:34-37 | a drawn line wider than the width holds exactly one word |
| CertificateCanvas.NextWordWouldOverflow | src/components/CertificateCanvas.tsx:34-37 | the first word of each following line would have overflowed the line before it |
| CertificateCanvas.DrawTextWithWrap | src/components/CertificateCanvas.tsx:27-44 | the imperative loop issues exactly the fills of the wrapped lines, line `i` at `y + i * lineHeight` with the width hint |
| CertificateCanvas.ResolveStyle | src/components/CertificateCanvas.tsx:58-63 | each style field is the element's value when truthy, else its default (Arial, normal, 32, #222, left); the resolved values are never empty or 0 |
| CertificateCanvas.LineHeight | src/components/CertificateCanvas.tsx:66 | the element's own line height when set and nonzero, else 1.2 times the resolved font size |
| CertificateCanvas.PercentToPixel | src/components/CertificateCanvas.tsx:69-70 | the pixel is `percent / 100 · side` at every percentage (`px · 100 == percent · side`); a percentage in [0, 100] lands in [0, side], 0 at 0, 50 in the middle, 100 at the side |
| CertificateCanvas.Texts | src/components/CertificateCanvas.tsx:43 | the text of each fill, in order |
| CertificateCanvas.ElementLayout | src/components/CertificateCanvas.tsx:58-67 | the wrap width is the element's own width, and words are measured in its resolved font |
| CertificateCanvas.RenderElement | src/components/CertificateCanvas.tsx:57-77 | one element's style and fills; ElementAnchor proves the resolved style, at least one fill, every fill at the anchor's x and fill `i` at `i` line heights below; WrappedFills and UnwrappedWithoutWidth give the two branches on the width |
| CertificateCanvas.RenderElements | src/components/CertificateCanvas.tsx:57-77 | one draw per element; RenderElementsInOrder proves draw `i` is element `i`'s alone, and RenderElementsAppend that a concatenated list renders part by part |
| CertificateCanvas.Render | src/components/CertificateCanvas.tsx:53-77 | something is drawn exactly when the image loads; then the canvas takes the image's size, the image is the background and each element has one draw |
| CertificateCanvas.ElementAnchor | src/components/CertificateCanvas.tsx:58-76 | an element is drawn in its resolved style with at least one fill; every fill is at the anchor's x, fill `i` is `i` line heights below the anchor |
| CertificateCanvas.PlaceLinesPositions | src/components/CertificateCanvas.tsx:43 | each placed line keeps x and moves down by one line height per line |
| CertificateCanvas.PlaceLinesTexts | src/components/CertificateCanvas.tsx:43 | the fills carry the lines' texts in order |
| CertificateCanvas.WrappedFills | src/components/CertificateCanvas.tsx:67-73 | unfolds RenderElement's width branch: with a width set, the fills are the wrapped substituted text placed from the anchor, each with the width hint; ElementAnchor builds on it |
| CertificateCanvas.UnwrappedWithoutWidth | src/components/CertificateCanvas.tsx:74-76 | unfolds RenderElement's branch without a width: the substituted text is one `fillText` at the anchor with no width hint; ElementAnchor builds on it |
| CertificateCanvas.WrappedKeepsWords | src/components/CertificateCanvas.tsx:65-73 | with a width, every fill carries that width and together they hold the substituted text's words in order |
| CertificateCanvas.RenderElementsInOrder | src/components/CertificateCanvas.tsx:58-77 | one draw per element, element `i`'s draw depends on element `i` only |
| CertificateCanvas.RenderElementsAppend | src/components/CertificateCanvas.tsx:58-77 | rendering a concatenated list is rendering the parts one after the other |
| CertificateCanvas.RenderSurfaceSize | src/components/CertificateCanvas.tsx:53-57 | something is drawn exactly when the image loads; the canvas takes the image's natural size and draws it as background |
| CertificateCanvas.HelloAdaScenario | src/components/CertificateCanvas.tsx:53-76 | "Hello {name}!" for Ada on an 800 by 600 template draws one element whose first line is at (400, 300) |
| CertificateCanvas.HelloAdaLines | src/components/CertificateCanvas.tsx:65-73 | the scenario's lines together hold "Hello Ada! " |
| CertificateCanvas.HelloAdaOneLine | src/components/CertificateCanvas.tsx:31-43 | when "Hello Ada! " measures at most 200 pixels, it is one fill at (400, 300) with width 200 |
| DraggableResizableText.ClampPercent | src/components/DraggableResizableText.tsx:58-59 | the value when it lies in [0, 100], else the nearer bound |
| DraggableResizableText.DragPatch | src/components/DraggableResizableText.tsx:51-60 | a drag emits a position: the start box moved by the pointer's delta, as a percentage of the container; exact inside [0, 100], pinned to exactly 0 below it and exactly 100 above it, per axis |
| DraggableResizableText.ResizePatch | src/components/DraggableResizableText.tsx:61-69 | a resize emits a size: a dimension the handle controls is `max(minimum, start + delta)`, so exactly the delta-moved size at or above 30 (width) or 20 (height) and exactly the minimum below it; the other dimension keeps the start size |
| DraggableResizableText.MovePatch | src/components/DraggableResizableText.tsx:49-70 | the `mousemove` handler's output: idle emits nothing; a drag emits a position exactly when there is a container; a resize always emits a size; the emitted patch is exactly DragPatch, respectively ResizePatch in the handle's direction, of the pointer-down snapshot |
| DraggableResizableText.MoveDependsOnDeltaOnly | src/components/DraggableResizableText.tsx:50-69 | shifting the start point and the pointer by the same amount changes no patch |
| DraggableResizableText.ResizeAtStartKeepsBox | src/components/DraggableResizableText.tsx:61-69 | a pointer that has not moved keeps a start size that respects the minimums |
| DraggableResizableText.Gesture.constructor | src/components/DraggableResizableText.tsx:26-29 | the gesture starts idle |
| DraggableResizableText.Gesture.OnMouseDown | src/components/DraggableResizableText.tsx:32-38 | a press on the box starts a drag and snapshots the pointer and the box |
| DraggableResizableText.Gesture.OnResizeDown | src/components/DraggableResizableText.tsx:40-46 | a press on a handle starts a resize in its direction and snapshots the pointer and the box |
| DraggableResizableText.Gesture.OnMove | src/components/DraggableResizableText.tsx:50-70 | a move emits the patch of the current mode computed from the snapshot and changes no state |
| DraggableResizableText.Gesture.OnUp | src/components/DraggableResizableText.tsx:71-74 | release returns to idle and keeps the snapshot |
| DraggableResizableText.DragOnce | src/components/DraggableResizableText.tsx:32-74 | down, move, up emits one clamped position and ends idle |
| DraggableResizableText.ResizeOnce | src/components/DraggableResizableText.tsx:40-74 | down on a handle, move, up emits one size within the minimums and ends idle |
| TextSettingsPage.SetProperty | src/pages/TextSettingsPage.tsx:257-270 | `{ ...element, [property]: value }`: the element holds the value and agrees with the old one on every other field |
| TextSettingsPage.SetPropertyWhenHeld | src/pages/TextSettingsPage.tsx:257-270 | assigning a value the element already holds changes nothing |
| TextSettingsPage.SetPropertiesCommute | src/pages/TextSettingsPage.tsx:257-270 | assignments to two different fields commute |
| TextSettingsPage.UpdateProperty | src/pages/TextSettingsPage.tsx:257-270 | without a selected id nothing changes; otherwise every element with that id gets the value and the others are unchanged, ids and length kept |
| TextSettingsPage.UpdatePropertyIdempotent | src/pages/TextSettingsPage.tsx:257-270 | repeating an update does nothing more |
| TextSettingsPage.UpdatePropertiesCommute | src/pages/TextSettingsPage.tsx:257-270 | updates of different fields of the same id commute |
| TextSettingsPage.BulkUpdate | src/pages/TextSettingsPage.tsx:177-255 | in bulk mode every element holds the new value and keeps its other fields |
| TextSettingsPage.BulkUpdateIsUpdateOfEach | src/pages/TextSettingsPage.tsx:177-270 | on an element with a unique id, a bulk change equals the single update at that id, which leaves the others alone |
| TextSettingsPage.RemoveById | src/pages/TextSettingsPage.tsx:163-166 | the remaining elements are exactly those with another id |
| TextSettingsPage.SelectionAfterRemove | src/pages/TextSettingsPage.tsx:168-170 | removing the selected element selects the first remaining one, or none; any other selection stays; SelectionLeavesRemovedId proves the removed id is never selected afterwards |
| TextSettingsPage.SelectionLeavesRemovedId | src/pages/TextSettingsPage.tsx:163-175 | after a removal the removed id is never selected |
| TextSettingsPage.NewElement | src/pages/TextSettingsPage.tsx:119-147 | a new element: the text, at (50, 50), 24 px, black, Arial, 200 by 40, left aligned; these defaults are all the source promises |
| TextSettingsPage.FindById | src/pages/TextSettingsPage.tsx:149-161 | found exactly when some element has the id, and then it is the first such element |
| TextSettingsPage.Nudge | src/pages/TextSettingsPage.tsx:386-411 | up/down/left/right move one coordinate by the amount, clamped to 0 or 100; NudgeStaysOnCanvas proves the result stays in [0, 100] and only the axis of the direction moves |
| TextSettingsPage.NudgeStaysOnCanvas | src/pages/TextSettingsPage.tsx:386-411 | a nudge keeps a position on the canvas and moves only the axis of its direction |
| TextSettingsPage.PointerPercent | src/pages/TextSettingsPage.tsx:309-324 | the pointer as percentages of the canvas rectangle, per axis: exact inside the canvas, exactly 0 before its start and exactly 100 past its end |
| TextSettingsPage.LookupFamily | src/pages/TextSettingsPage.tsx:364-384 | the family of the first font with the name, or the name itself when no font has it |
| TextSettingsPage.ElementFamily | src/pages/TextSettingsPage.tsx:364-384 | the CSS family is looked up in the default fonts, then the uploaded ones; DefaultFontsShadowUploaded proves a default name always resolves to the default font, and UploadedFontResolves that any other uploaded name resolves to its first uploaded font |
| TextSettingsPage.DefaultFontsShadowUploaded | src/pages/TextSettingsPage.tsx:29-38 | an uploaded font with a default font's name never overrides the default |
| TextSettingsPage.UploadedFontResolves | src/pages/TextSettingsPage.tsx:364-384 | an uploaded name no default font has resolves to the first uploaded font of that name |
| TextSettingsPage.Reconcile | src/pages/TextSettingsPage.tsx:104-117 | when the selected id names an element, the panel shows that element's values; otherwise it is unchanged; the alignment is never touched; Page.Sync, which each handler that changes the list or the selection runs last, sets the panel to it |
| TextSettingsPage.Page.Mount | src/pages/TextSettingsPage.tsx:62-102 | mounting loads the stored elements, or seeds and selects one "Sample Text" element; it loads the fonts and the non-empty template |
| TextSettingsPage.Page.Sync | src/pages/TextSettingsPage.tsx:104-117 | the panel effect: the panel becomes the reconciled panel |
| TextSettingsPage.Page.UpdateElementProperty | src/pages/TextSettingsPage.tsx:257-270 | the list becomes the update and is written to storage |
| TextSettingsPage.Page.HandleAddTextElement | src/pages/TextSettingsPage.tsx:119-147 | a "New Text" element is appended, stored, selected and shown in the panel; nothing else changes |
| TextSettingsPage.Page.HandleSelectElement | src/pages/TextSettingsPage.tsx:149-161 | the id is selected and a found element's values, alignment included, fill the panel |
| TextSettingsPage.Page.HandleRemoveElement | src/pages/TextSettingsPage.tsx:163-175 | the elements with the id are removed and stored, and a removed selection moves on |
| TextSettingsPage.Page.HandleChange | src/pages/TextSettingsPage.tsx:177-255 | the panel shows the value; the selected element, or every element in bulk mode, gets it; the list is stored |
| TextSettingsPage.ShowInPanel | src/pages/TextSettingsPage.tsx:177-255 | the panel field of the changed property takes the new value, with the family and the alignment as present values; every other panel field, the position included, is kept |
| TextSettingsPage.Page.HandleAlignButton | src/pages/TextSettingsPage.tsx:482-505 | the alignment buttons update only the selected element, even in bulk mode |
| TextSettingsPage.Page.OnTextMove | src/pages/TextSettingsPage.tsx:711-714 | the element with the id gets x, then y |
| TextSettingsPage.Page.OnTextResize | src/pages/TextSettingsPage.tsx:715-718 | the element with the id gets width, then height |
| TextSettingsPage.Page.MoveElement | src/pages/TextSettingsPage.tsx:386-411 | with a selection, the nudged panel position is written to the element and shown; without one nothing changes |
| TextSettingsPage.Page.HandleMouseDown | src/pages/TextSettingsPage.tsx:290-307 | a left-button press selects the element and starts a drag; other buttons change nothing |
| TextSettingsPage.Page.HandleMouseMove | src/pages/TextSettingsPage.tsx:309-324 | while dragging a selection over the canvas, the element follows the clamped pointer; otherwise nothing changes |
| TextSettingsPage.Page.HandleMouseUp | src/pages/TextSettingsPage.tsx:326-328 | the drag ends |
| TextSettingsPage.Page.SetBulkEdit | src/pages/TextSettingsPage.tsx:454 | the bulk-edit switch sets the mode |
| TextSettingsPage.Page.HandleFontUpload | src/pages/TextSettingsPage.tsx:413-423 | the font is appended to the uploaded fonts and the list is stored |
| TextSettingsPage.Page.HandleSaveComplete | src/pages/TextSettingsPage.tsx:425-436 | with a template, the template and the current elements are saved; without one nothing is saved |
| AuthService.WithoutPassword | src/lib/authService.ts:68 | the user record keeps id, name, e-mail and role and drops the password; SeededLogins and LoginWith show logins return it |
| AuthService.Seed | src/lib/authService.ts:17-40 | a missing table is seeded with the two users; a stored one is kept; SeedIdempotent proves seeding twice is seeding once, and InitialEmailsUnique that the seeded e-mails differ |
| AuthService.SeedIdempotent | src/lib/authService.ts:17-40 | initialising twice is initialising once |
| AuthService.InitialEmailsUnique | src/lib/authService.ts:21-36 | the seeded users have different e-mails |
| AuthService.RegisterInto | src/lib/authService.ts:43-70 | "User already exists" exactly when the e-mail is taken; otherwise a member with these fields is appended; RegisterKeepsEmailsUnique proves e-mails stay unique, and RegisterThenLogin that the new member can then log in |
| AuthService.RegisterKeepsEmailsUnique | src/lib/authService.ts:50-65 | registration keeps e-mails unique |
| AuthService.FirstMatchUnique | src/lib/authService.ts:80 | only one index is the first match of the credentials |
| AuthService.FindCredentials | src/lib/authService.ts:80 | `find` succeeds exactly when some user has both credentials, and it returns the first |
| AuthService.LoginWith | src/lib/authService.ts:73-91 | success exactly when the credentials match, with the first match without its password; otherwise "Invalid credentials" |
| AuthService.RegisterThenLogin | src/lib/authService.ts:43-91 | a fresh e-mail registers, and then logging in with the same credentials succeeds |
| AuthService.RegisterKeepsLogins | src/lib/authService.ts:43-91 | registering never breaks or redirects a login that worked |
| AuthService.SeededLogins | src/lib/authService.ts:21-36 | the seeded administrator and member log in with their passwords, and only the administrator is one |
| AuthService.IsAdmin | src/lib/authService.ts:105-107 | true exactly for a present user with the administrator role; SeededLogins proves the seeded administrator is one and the seeded member is not |
| AuthService.AuthStore.constructor | src/lib/authService.ts:17-20 | the store starts with the given storage slots |
| AuthService.AuthStore.Init | src/lib/authService.ts:17-40 | the users slot becomes the seeded table |
| AuthService.AuthStore.Register | src/lib/authService.ts:43-70 | an error leaves storage alone; success stores the longer table and returns the member without password |
| AuthService.AuthStore.Login | src/lib/authService.ts:73-91 | the result is the login on the stored table, and success records the current user |
| AuthService.AuthStore.Logout | src/lib/authService.ts:100-102 | afterwards there is no current user |
| AuthService.AuthStore.CurrentUser | src/lib/authService.ts:94-97 | `getCurrentUser`: the signed-in slot, or none; AuthStore.Login's success sets it to the first match without its password, AuthStore.Logout clears it, and AdminSession follows it through a session |
| AuthService.AdminSession | src/lib/authService.ts:94-107 | on a fresh store, the seeded administrator becomes current and is an administrator, until logout |
| DataInputPage.TrimmedOrAbsent | src/pages/DataInputPage.tsx:33 | `trim() \|\| undefined`: absent exactly for a blank text, else its trimmed form |
| DataInputPage.NewRecipient | src/pages/DataInputPage.tsx:24-35 | "Please enter a name" exactly for a blank name; otherwise the trimmed name and optional trimmed description |
| DataInputPage.RemoveRecipient | src/pages/DataInputPage.tsx:42-43 | exactly the recipients with another id remain |
| DataInputPage.KeptRows | src/pages/DataInputPage.tsx:64 | exactly the rows with a non-blank name are kept |
| DataInputPage.RowRecipient | src/pages/DataInputPage.tsx:65-69 | a kept row becomes a recipient with its trimmed name and optional trimmed description |
| DataInputPage.ImportRows | src/pages/DataInputPage.tsx:62-69 | one recipient per kept row, in row order |
| DataInputPage.ImportedNamesTrimmed | src/pages/DataInputPage.tsx:64-67 | every imported name is trimmed and non-empty |
| DataInputPage.ImportKeepsRowOrder | src/pages/DataInputPage.tsx:63-64 | the rows kept from two parts of a file are those of the first part, then those of the second |
| DataInputPage.ImportKeepsNamedRows | src/pages/DataInputPage.tsx:64 | a file whose every row has a name keeps every row |
| DataInputPage.AcceptsFileExamples | src/pages/DataInputPage.tsx:53 | either the CSV type or a ".csv" name is enough; a file with neither is refused |
| DataInputPage.AcceptsFile | src/pages/DataInputPage.tsx:53-56 | a file is accepted when its type is `text/csv` or its name ends in ".csv"; AcceptsFileByNameOrType states both ways in over all inputs, and AddRecipientPage.StricterThanDataInput relates it to AddRecipientPage.CheckFile |
| DataInputPage.AcceptsFileByNameOrType | src/pages/DataInputPage.tsx:53 | any name ending in ".csv" is accepted whatever the type, and the type `text/csv` whatever the name |
| DataInputPage.Page.constructor | src/pages/DataInputPage.tsx:19-22 | the page starts with no recipients, an empty form and no error |
| DataInputPage.Page.HandleAddRecipient | src/pages/DataInputPage.tsx:24-40 | a blank name changes nothing; otherwise the recipient is appended and the form cleared |
| DataInputPage.Page.HandleRemoveRecipient | src/pages/DataInputPage.tsx:42-45 | the list becomes the removal |
| DataInputPage.Page.HandleFileUpload | src/pages/DataInputPage.tsx:47-58 | the error is cleared; no file changes nothing else, a refused file sets "Please upload a valid CSV file", and an accepted file starts the parse, handing its callback the recipient list as it stands at the pick |
| DataInputPage.Page.OnParseComplete | src/pages/DataInputPage.tsx:61-87 | each callback branch: a parse error sets its message, data that is no array changes nothing, a file with no named row sets "No valid recipients found in CSV", otherwise the list becomes the one captured at the pick followed by the imported rows |
| DataInputPage.ManualEntryDuringParseIsLost | src/pages/DataInputPage.tsx:58-76 | for any accepted file and any names without surrounding blanks: a recipient added by hand while the file is being parsed is on the list, and is gone once the parse completes, because the completion appends to the list captured at the pick |
| DataInputPage.NewRecipientUnpadded | src/pages/DataInputPage.tsx:24-35 | a name without surrounding blanks and an empty description are added as they are, with no description |
| DataInputPage.ImportOneNamedRow | src/pages/DataInputPage.tsx:63-69 | a file of one row whose name has no surrounding blanks imports exactly that recipient, with the first id |
| DataInputPage.Page.HandleClearAll | src/pages/DataInputPage.tsx:91-98 | a non-empty list is emptied when the dialog is confirmed; otherwise nothing changes |
| FontUploader.FontFormat | src/components/FontUploader.tsx:90-96 | the `format()` hint by extension: truetype, opentype, woff, woff2, with truetype as the default; FontFormatOfEachExtension proves each accepted extension gets its own format, ".woff2" included |
| FontUploader.FontFormatOfEachExtension | src/components/FontUploader.tsx:90-96 | each of the four extensions gives its own format, ".woff2" included |
| FontUploader.FamilyName | src/components/FontUploader.tsx:50 | "custom-" and the name with whitespace runs dashed and lower-cased |
| FontUploader.FamilyNameShape | src/components/FontUploader.tsx:50 | a family name has no whitespace and no upper-case ASCII letter |
| FontUploader.FamilyNameKeepsLeadingBlank | src/components/FontUploader.tsx:50 | the name is not trimmed first, so leading whitespace becomes a leading dash |
| FontUploader.StorageKey | src/components/FontUploader.tsx:65 | the storage key is the prefix followed by the family |
| FontUploader.StorageKeyInjective | src/components/FontUploader.tsx:65 | different families get different keys |
| FontUploader.Validate | src/components/FontUploader.tsx:21-36 | a blank name, then a missing file, then a wrong extension is refused, in that order; otherwise the file passes; ValidateTrims proves the blankness test gives the verdict of the handler's `trim()` |
| FontUploader.ValidateTrims | src/components/FontUploader.tsx:21-36 | the name check written with trim() as in the handler gives the same verdict as the blankness test |
| FontUploader.CompletionAsWritten | src/components/FontUploader.tsx:45-82 | the completion as written: the family, key and callback are always produced, and the data is "null" after a failed read; FailedReadStillRegisters proves it registers where Completion does not |
| FontUploader.Completion | src/components/FontUploader.tsx:45-77 | a font is registered exactly when its file was read, with the data URL under the family's key; CompletionsAgreeOnSuccess proves it agrees with the code as written after a successful read |
| FontUploader.FailedReadStillRegisters | src/components/FontUploader.tsx:45-82 | after a failed read the code as written stores "null" and announces the font; the intended completion registers nothing |
| FontUploader.CompletionsAgreeOnSuccess | src/components/FontUploader.tsx:45-77 | after a successful read both completions register the same font |
| FontUploader.Uploader.constructor | src/components/FontUploader.tsx:13-16 | the form starts empty and idle with the given storage |
| FontUploader.Uploader.HandleUpload | src/components/FontUploader.tsx:18-44 | a failed check changes nothing; a passing one makes the form busy with the read outstanding |
| FontUploader.Uploader.OnReadEnd | src/components/FontUploader.tsx:45-82 | follows the corrected completion of the second finding: a failed read only ends the upload; a successful one stores the font, announces it and clears the form (the program as written registers after a failed read too, see Left out) |
| UserManagementPage.EmailShapeIsPattern | src/pages/admin/UserManagementPage.tsx:110 | the plain description of an e-mail shape accepts exactly the strings the regular expression matches |
| UserManagementPage.EmailShapeExamples | src/pages/admin/UserManagementPage.tsx:110 | examples accepted and refused by the shape, e.g. "a@b." and "a@b@c.d" are refused |
| UserManagementPage.ShapeIsNotBlank | src/pages/admin/UserManagementPage.tsx:104-111 | an e-mail of the right shape is never blank |
| UserManagementPage.ValidateForm | src/pages/admin/UserManagementPage.tsx:98-117 | the three refusals in order; the form passes exactly for a non-blank name and a well-shaped e-mail |
| UserManagementPage.ValidateFormTrims | src/pages/admin/UserManagementPage.tsx:98-117 | the checks written with `trim()` as on the page give the same verdict as the blankness test on every form |
| UserManagementPage.Sanitize | src/pages/admin/UserManagementPage.tsx:26 | the displayed list is each stored user without its password |
| UserManagementPage.SanitizeAppend | src/pages/admin/UserManagementPage.tsx:26 | sanitizing distributes over concatenation |
| UserManagementPage.AddKeepsMirror | src/pages/admin/UserManagementPage.tsx:41-46 | appending to both lists keeps the displayed list the sanitized stored one |
| UserManagementPage.EditStored | src/pages/admin/UserManagementPage.tsx:63-66 | the stored users with the id get the new name, e-mail and role and keep the rest |
| UserManagementPage.EditDisplayed | src/pages/admin/UserManagementPage.tsx:55-60 | the displayed users with the id are replaced by the edited record |
| UserManagementPage.EditKeepsPasswords | src/pages/admin/UserManagementPage.tsx:64-66 | an edit keeps every password |
| UserManagementPage.EditKeepsMirror | src/pages/admin/UserManagementPage.tsx:55-70 | editing both lists keeps the displayed list the sanitized stored one |
| UserManagementPage.DeleteKeepsMirror | src/pages/admin/UserManagementPage.tsx:81-86 | deleting from both lists keeps the displayed list the sanitized stored one |
| UserManagementPage.AddCanDuplicateEmail | src/pages/admin/UserManagementPage.tsx:30-43 | adding does not check e-mails, so two stored users can share one |
| UserManagementPage.Page.constructor | src/pages/admin/UserManagementPage.tsx:22-28 | loading shows the stored users without passwords |
| UserManagementPage.Page.HandleAddUser | src/pages/admin/UserManagementPage.tsx:30-50 | an invalid form changes nothing; otherwise the user is appended to both lists with the default password and the form is reset |
| UserManagementPage.Page.AppendUser | src/pages/admin/UserManagementPage.tsx:41-46 | the two writes of `handleAddUser`: the record with its password is appended to the stored table (a missing one read as `[]`), the record without it to the displayed table, and the displayed table stays the password-free mirror of the stored one |
| UserManagementPage.Page.OpenEditDialog | src/pages/admin/UserManagementPage.tsx:90-96 | the user is selected and copied into the form |
| UserManagementPage.Page.HandleEditUser | src/pages/admin/UserManagementPage.tsx:52-75 | with no selection or an invalid form nothing changes; otherwise both lists are edited and the form is cleared |
| UserManagementPage.Page.HandleDeleteUser | src/pages/admin/UserManagementPage.tsx:77-88 | when confirmed, the id is removed from both lists; the mirror is kept |
| RecipientManagementPage.Load | src/pages/admin/RecipientManagementPage.tsx:23-46 | the stored list, or the two sample records when nothing is stored; this is all the source promises |
| RecipientManagementPage.Toggle | src/pages/admin/RecipientManagementPage.tsx:59-61 | a record with the id has its printed flag flipped; others are unchanged; ToggleTwice proves toggling twice restores the list, and TogglesCommute that toggles of two ids commute |
| RecipientManagementPage.TogglePrinted | src/pages/admin/RecipientManagementPage.tsx:58-68 | every record with the id has its flag flipped, every other record is unchanged, and ids and length are kept |
| RecipientManagementPage.ToggleTwice | src/pages/admin/RecipientManagementPage.tsx:58-68 | toggling twice restores the list |
| RecipientManagementPage.ToggleAbsentId | src/pages/admin/RecipientManagementPage.tsx:58-68 | toggling an unknown id changes nothing |
| RecipientManagementPage.TogglesCommute | src/pages/admin/RecipientManagementPage.tsx:58-68 | toggles of two ids commute |
| RecipientManagementPage.Deletion | src/pages/admin/RecipientManagementPage.tsx:71-78 | nothing exactly when no record has the id; otherwise exactly the records with another id |
| RecipientManagementPage.DeletionShortens | src/pages/admin/RecipientManagementPage.tsx:71-78 | deleting a known id removes at least one record |
| RecipientManagementPage.DeletionKeepsOrder | src/pages/admin/RecipientManagementPage.tsx:71-78 | deletion works part by part, so the remaining records keep their order |
| RecipientManagementPage.DeletionKeepsUntouchedPrefix | src/pages/admin/RecipientManagementPage.tsx:71-78 | records before the first match stay in place |
| RecipientManagementPage.Page.constructor | src/pages/admin/RecipientManagementPage.tsx:23-49 | the table starts from the loaded list with the dialog closed |
| RecipientManagementPage.Page.SaveRecipients | src/pages/admin/RecipientManagementPage.tsx:52-55 | the list is written to the slot and shown |
| RecipientManagementPage.Page.TogglePrintStatus | src/pages/admin/RecipientManagementPage.tsx:58-68 | the toggled list is saved and shown |
| RecipientManagementPage.Page.DeleteRecipient | src/pages/admin/RecipientManagementPage.tsx:71-78 | an unknown id changes nothing; a known one is removed, saved and shown |
| RecipientManagementPage.Page.PreviewRecipientCertificate | src/pages/admin/RecipientManagementPage.tsx:81-84 | the preview dialog opens on the record |
| AddRecipientPage.SetField | src/pages/admin/AddRecipientPage.tsx:27-30 | the named field takes the value and the others are unchanged; this is all the source promises |
| AddRecipientPage.NewRecord | src/pages/admin/AddRecipientPage.tsx:32-52 | "Please fill in all fields" exactly when a field is empty; otherwise an unprinted record with the form's fields and no e-mail; BlankNameAccepted proves that the fields are not trimmed |
| AddRecipientPage.BlankNameAccepted | src/pages/admin/AddRecipientPage.tsx:36-39 | fields are not trimmed, so a name of spaces is accepted as it is |
| AddRecipientPage.BatchNumber | src/pages/admin/AddRecipientPage.tsx:101 | "BATCH-" followed by the index padded with zeros to three digits |
| AddRecipientPage.PaddedDigitsValue | src/pages/admin/AddRecipientPage.tsx:101 | the padded digits still denote the index |
| AddRecipientPage.BatchNumberInjective | src/pages/admin/AddRecipientPage.tsx:101 | different indices give different numbers, four-digit ones included |
| AddRecipientPage.BatchNumberLength | src/pages/admin/AddRecipientPage.tsx:101 | a number is at least 9 characters long, and exactly 9 below 1000 |
| AddRecipientPage.BatchNumberExamples | src/pages/admin/AddRecipientPage.tsx:101 | 1, 42 and 1234 give BATCH-001, BATCH-042 and BATCH-1234 |
| AddRecipientPage.BatchRecord | src/pages/admin/AddRecipientPage.tsx:96-106 | the `i`-th generated record: index `existing + i + 1`, its number and name, and a title; unprinted with no e-mail; BatchNumbersDistinct and BatchIdsDistinct prove the records of a batch differ in number and id |
| AddRecipientPage.BatchRecords | src/pages/admin/AddRecipientPage.tsx:96-106 | the generated records in order, one per index |
| AddRecipientPage.BatchNumbersDistinct | src/pages/admin/AddRecipientPage.tsx:96-106 | the records of a batch have different certificate numbers |
| AddRecipientPage.BatchIdsDistinct | src/pages/admin/AddRecipientPage.tsx:96-106 | the records of a batch have different ids |
| AddRecipientPage.NextBatchNumbersAreNew | src/pages/admin/AddRecipientPage.tsx:87-112 | a second batch after the first continues its numbering with new numbers |
| AddRecipientPage.BatchSize | src/pages/admin/AddRecipientPage.tsx:93 | a draw in [0, 1) gives a batch of 3 to 7 records |
| AddRecipientPage.GenerateBatch | src/pages/admin/AddRecipientPage.tsx:95-106 | the loop pushes exactly the batch's records, in order |
| AddRecipientPage.CheckFile | src/pages/admin/AddRecipientPage.tsx:70-78 | no file does nothing; only the exact type "text/csv" is accepted, otherwise "Please upload a CSV file"; StricterThanDataInput proves this is stricter than the data-input page's check |
| AddRecipientPage.StricterThanDataInput | src/pages/admin/AddRecipientPage.tsx:75-78 | an accepted file also passes the data-input page's check, but a ".csv" file of another type passes only there |
| AddRecipientPage.Page.constructor | src/pages/admin/AddRecipientPage.tsx:18-25 | the form starts empty and not uploading |
| AddRecipientPage.Page.HandleInputChange | src/pages/admin/AddRecipientPage.tsx:27-30 | the form becomes the field update |
| AddRecipientPage.Page.HandleSubmit | src/pages/admin/AddRecipientPage.tsx:32-68 | a refused form writes nothing; an accepted record is appended to the stored list, or to an empty list when nothing is stored |
| AddRecipientPage.Page.HandleFileUpload | src/pages/admin/AddRecipientPage.tsx:70-80 | an accepted file starts the import; the other outcomes change nothing |
| AddRecipientPage.Page.FinishImport | src/pages/admin/AddRecipientPage.tsx:84-115 | a batch of 3 to 7 records continuing the stored numbering is appended, and the upload ends |
| CertificatePreviewPage.Next | src/pages/CertificatePreviewPage.tsx:32 | one step forward, from the last recipient back to the first |
| CertificatePreviewPage.Prev | src/pages/CertificatePreviewPage.tsx:31 | one step back, from the first recipient to the last; PrevAfterNext proves Prev and Next undo each other, and FullCycle that as many presses of Next as recipients come back to the start |
| CertificatePreviewPage.PrevAfterNext | src/pages/CertificatePreviewPage.tsx:31-32 | Prev undoes Next and Next undoes Prev |
| CertificatePreviewPage.NextTimesSteps | src/pages/CertificatePreviewPage.tsx:32 | before the end, `k` presses of Next move `k` places |
| CertificatePreviewPage.NextTimesCompose | src/pages/CertificatePreviewPage.tsx:32 | presses of Next add up |
| CertificatePreviewPage.FullCycle | src/pages/CertificatePreviewPage.tsx:32 | as many presses as recipients come back to the start |
| CertificatePreviewPage.LatestBatch | src/pages/CertificatePreviewPage.tsx:9-10 | the last stored batch, or none exactly when there are none; AppendedBatchIsShown proves a batch just appended is the one shown |
| CertificatePreviewPage.AppendedBatchIsShown | src/pages/CertificatePreviewPage.tsx:9-10 | a batch just appended is the one shown |
| CertificatePreviewPage.TemplateUrl | src/pages/CertificatePreviewPage.tsx:15-16 | the saved template when truthy, else the current one, else "" |
| CertificatePreviewPage.ElementsFallback | src/pages/CertificatePreviewPage.tsx:18-23 | the saved elements when present, else the current ones, else none; FallbacksDiffer proves an empty saved list is kept, while an empty template falls through |
| CertificatePreviewPage.FallbacksDiffer | src/pages/CertificatePreviewPage.tsx:15-23 | an empty template falls through to the current one; an empty saved element list does not |
| CertificatePreviewPage.MarkGenerated | src/pages/CertificatePreviewPage.tsx:65-74 | the first batch with the id is marked generated and the rest are unchanged; without one, nothing changes |
| CertificatePreviewPage.MarkGeneratedIdempotent | src/pages/CertificatePreviewPage.tsx:65-74 | generating twice is generating once |
| CertificatePreviewPage.FirstIndexOf | src/pages/CertificatePreviewPage.tsx:68 | the index `findIndex` returns when a batch has the id |
| CertificatePreviewPage.ShownBatchMarked | src/pages/CertificatePreviewPage.tsx:9-10 | when the shown batch's id is unique, Generate All marks exactly the shown batch |
| CertificatePreviewPage.FindIndex | src/pages/CertificatePreviewPage.tsx:68 | the first index with the id, or -1 exactly when there is none |
| CertificatePreviewPage.Page.constructor | src/pages/CertificatePreviewPage.tsx:25 | the page starts at the first recipient |
| CertificatePreviewPage.Page.Shown | src/pages/CertificatePreviewPage.tsx:9-10 | the batch the page shows: LatestBatch of the stored list, a missing slot read as `[]`, so none exactly when the stored list is missing or empty |
| CertificatePreviewPage.Page.ShowsRecipient | src/pages/CertificatePreviewPage.tsx:26-29 | the page renders a recipient: a batch is shown and the index names one of its recipients; it is the precondition of Page.HandlePrev and Page.HandleNext, whose buttons exist only then |
| CertificatePreviewPage.Page.Recipient | src/pages/CertificatePreviewPage.tsx:29 | `batch.recipients[current]`, the recipient whose name the canvas draws (CertificatePreviewPage.tsx:124) |
| CertificatePreviewPage.Page.HandlePrev | src/pages/CertificatePreviewPage.tsx:31 | the index steps back cyclically and still names a recipient |
| CertificatePreviewPage.Page.HandleNext | src/pages/CertificatePreviewPage.tsx:32 | the index steps forward cyclically and still names a recipient |
| CertificatePreviewPage.Page.HandleGenerateAll | src/pages/CertificatePreviewPage.tsx:65-74 | the array is updated in place and saved, and the reload starts at the first recipient; without a match nothing changes |
| ExportPage2.StepPrev | src/pages/ExportPage2.tsx:67-71 | one back, never below 0; StepsStayInRange proves it keeps an index in range and stops at 0, and StepsUndo that StepNext undoes it away from the ends |
| ExportPage2.StepNext | src/pages/ExportPage2.tsx:73-77 | one forward, never past the last recipient; StepsStayInRange proves it keeps an index in range and stops at the last one, and StepsUndo that StepPrev undoes it away from the ends |
| ExportPage2.StepsStayInRange | src/pages/ExportPage2.tsx:67-77 | both steps keep the index in range, and neither wraps round |
| ExportPage2.StepsUndo | src/pages/ExportPage2.tsx:67-77 | away from the ends, each step undoes the other |
| ExportPage2.ButtonsMatchHandlers | src/pages/ExportPage2.tsx:221-231 | a button is disabled exactly when its handler would do nothing; in an empty batch Next stays enabled and does nothing |
| ExportPage2.PreviewTexts | src/pages/ExportPage2.tsx:209 | each element's text, with `{name}` replaced by the recipient's name |
| ExportPage2.PreviewTextsFillName | src/pages/ExportPage2.tsx:209 | a text made of token-free pieces joined by `{name}` previews as those pieces joined by the name, other braces included |
| ExportPage2.PreviewTextWithoutToken | src/pages/ExportPage2.tsx:209 | a text without `{name}` previews unchanged |
| ExportPage2.PreviewContent | src/pages/ExportPage2.tsx:183-215 | shown exactly with a template and an index naming a recipient: that recipient's name and the filled texts |
| ExportPage2.Page.constructor | src/pages/ExportPage2.tsx:51-55 | no batches, no dialog, index 0, no template and no elements |
| ExportPage2.Page.HandlePreviewBatch | src/pages/ExportPage2.tsx:57-60 | the dialog opens on the batch at its first recipient |
| ExportPage2.Page.HandleClosePreview | src/pages/ExportPage2.tsx:62-65 | the dialog closes and the index returns to 0 |
| ExportPage2.Page.HandlePrevPreview | src/pages/ExportPage2.tsx:67-71 | the index steps back and stays valid |
| ExportPage2.Page.HandleNextPreview | src/pages/ExportPage2.tsx:73-77 | with a batch open, the index steps forward and stays valid; with none it stays |
| ExportPage2.Page.Content | src/pages/ExportPage2.tsx:183-215 | the closed dialog shows nothing; the open one shows the preview content, which PreviewContent proves is shown exactly with a template and a valid index, with that recipient's name and filled texts |
| ExportPage2.OpenAndStep | src/pages/ExportPage2.tsx:57-77 | opening a batch and pressing Next shows the second recipient |
| NameToken.Expand | src/components/CertificateCanvas.tsx:65 | the replacement text for one match: `$$`, `$&`, `` $` `` and `$'` are expanded as JavaScript's `replace` does; a replacement without `$` comes out unchanged |
| NameToken.ReplaceFromAsWritten | src/components/CertificateCanvas.tsx:65 | the global `replace` scanning from an index; for a name without `$` it is the literal substitution of the rest of the text |
| NameToken.ReplaceAsWritten | src/components/CertificateCanvas.tsx:65 | `replace(/\{name\}/g, name)` with JavaScript's `$` replacement patterns |
| NameToken.SubstituteName | src/components/CertificateCanvas.tsx:65 | the corrected member of the first finding: every `{name}`, left to right and without overlap, replaced by the name verbatim; the compositor and the export preview use it, and AsWrittenAgreesWithoutDollar proves it is what the program does for a name without `$` |
| NameToken.AsWrittenAgreesWithoutDollar | src/components/CertificateCanvas.tsx:65 | for a name without `$`, the replacement as written is the literal substitution |
| NameToken.AsWrittenExpandsDollarPatterns | src/components/CertificateCanvas.tsx:65 | the names "$&" and "Ke$$ha" are rendered as "{name}" and "Ke$ha" as written |
| NameToken.SubstituteWithoutToken | src/components/CertificateCanvas.tsx:65 | a text without the token is left alone |
| NameToken.SubstituteJoinedPieces | src/components/CertificateCanvas.tsx:65 | pieces that hold no token themselves (any other brace allowed), joined by the token, come out joined by the name, whatever the name holds |
| NameToken.BracedTokenExample | src/components/CertificateCanvas.tsx:65 | a brace around the token stays: "{{name}}" with the name "Ada" becomes "{Ada}" |
| NameToken.SubstituteTokenByItself | src/components/CertificateCanvas.tsx:65 | the inserted text is not rescanned, so using the token as the name changes nothing |
| JsStrings.Trim | src/pages/DataInputPage.tsx:25 | `trim()` leaves no whitespace at either end |
| JsStrings.TrimEmptyIffBlank | src/pages/DataInputPage.tsx:25 | a string trims to "" exactly when it is all whitespace |
| JsStrings.TrimIdempotent | src/pages/DataInputPage.tsx:32 | trimming twice is trimming once |
| JsStrings.Split | src/components/CertificateCanvas.tsx:28 | `split(' ')` gives at least one piece and no piece holds a space |
| JsStrings.JoinSplit | src/components/CertificateCanvas.tsx:28 | joining the pieces with the separator gives back the string |
| JsStrings.SplitJoin | src/components/CertificateCanvas.tsx:28 | splitting the join of separator-free words gives back the words |
| JsStrings.ToLower | src/components/FontUploader.tsx:50 | `toLowerCase()` on ASCII letters: same length, no upper-case letter left |
| JsStrings.DashWhitespaceRuns | src/components/FontUploader.tsx:50 | `replace(/\s+/g, '-')` leaves no whitespace and keeps a string without any |
| JsStrings.DashWholeRun | src/components/FontUploader.tsx:50 | a whole whitespace run becomes one dash |
| JsStrings.NatToString | src/pages/admin/AddRecipientPage.tsx:101 | `String(n)`: decimal digits without a leading zero |
| JsStrings.DigitsValueOfNatToString | src/pages/admin/AddRecipientPage.tsx:101 | reading `String(n)` back gives `n` |
| JsStrings.NatToStringInjective | src/pages/admin/AddRecipientPage.tsx:101 | different numbers give different strings |
| JsStrings.PadStart | src/pages/admin/AddRecipientPage.tsx:101 | `padStart(3, '0')`: the string kept at the end, fill characters before it up to the target length |
| Collections.RemoveKey | src/pages/admin/UserManagementPage.tsx:82 | `filter(x => x.id !== id)` keeps exactly the elements with another key |
| Collections.RemoveKeyAppend | src/pages/admin/UserManagementPage.tsx:82 | removal distributes over concatenation, so order is kept |

## Left out

- Pixels: the canvas is modelled by what it is told to draw, and `ctx.measureText` is a parameter. `fillText`'s squeezing to the width hint and font rasterisation are not modelled.
- Numbers are exact reals: floating-point rounding, NaN and infinities are not modelled. A container or canvas of zero size, where the source divides by zero, is excluded by a positive-size type.
- `JSON.parse`/`JSON.stringify` are not modelled. A storage slot holds the typed value or is missing, so malformed stored JSON, which makes the pages throw, is outside the model.
- Papa.parse is not modelled: the parser's rows or error message are the parameter of DataInputPage.Page.OnParseComplete, which the page's caller runs after DataInputPage.Page.HandleFileUpload, with the list captured at the pick. Its count of skipped rows only feeds a toast.
- The FileReader is not modelled: the read outcome is a parameter. Data URLs, `new FontFace` and the `@font-face` style injection are left out, because they are browser APIs.
- The JPG and PDF exports (jsPDF, `toDataURL`), the certificate pages' canvas lookup, the export page's download button, toasts, navigation and timers are left out. They are outside effects that compute nothing; the add-recipient page's one-and-a-half-second delay becomes a second method.
- `toLowerCase` is modelled on ASCII letters only, because Unicode case mapping is not available here.
- Ids from `Date.now()` and `Math.random().toString(36)`, and ISO dates, are parameters, because they depend on the clock and the random source.
- The user page's e-mail pattern `^[^\s@]+@[^\s@]+\.[^\s@]+$` is modelled by predicates (`PatternSplit`, `IsEmailShape`) rather than a regular-expression engine.
- The template editor's effects are modelled as run at the end of each handler that changes their inputs. React's batching and render scheduling are not modelled.
- The template editor's own mouse handlers are the same move as its global listener, so one method models both. The `onSelect` prop and listener registration and removal are left out as wiring.
- TextSettingsPage.Page.OnTextMove, TextSettingsPage.Page.OnTextResize, TextSettingsPage.Page.HandleMouseDown, TextSettingsPage.Page.HandleMouseMove and TextSettingsPage.Page.HandleMouseUp model handlers the program never runs. CertificateCanvas receives `onTextMove` and `onTextResize` but never calls them (CertificateCanvas.tsx:20-21). `handleMouseDown`, `handleMouseMove` and `handleMouseUp` (TextSettingsPage.tsx:290, 309, 326) are attached to no element, so nothing sets `isDragging` and the global listener (TextSettingsPage.tsx:331-362) never starts. They are modelled as written, in case they are wired up.
- TextSettingsPage.LookupFamily, TextSettingsPage.ElementFamily, the `Align` branch of TextSettingsPage.Page.HandleChange and the DraggableResizableText module also model code the program never calls. `getTextElementStyle` (TextSettingsPage.tsx:364-384) and `handleTextAlignChange` (TextSettingsPage.tsx:241-255) have no caller; the alignment buttons call `updateElementProperty` directly (TextSettingsPage.tsx:482-505), which TextSettingsPage.Page.HandleAlignButton models. `DraggableResizableText` is imported (TextSettingsPage.tsx:3) and rendered by no page. They are modelled as written.
- TextSettingsPage.Nudge: its `up` case, and the same case of TextSettingsPage.Page.MoveElement, model code nothing calls. The page has buttons for `moveElement('down')`, `'left'` and `'right'` only (TextSettingsPage.tsx:510-521). The case is modelled as written.
- DraggableResizableText.ResizePatch: the dimension a handle does not control keeps its start size even when that is below the minimum, as in the source. The contract states that and no lower bound for it.
- CertificatePreviewPage.Page.HandlePrev: requires that a recipient is shown, and so does HandleNext. Without a batch the page renders only the "Data tidak ditemukan" message and no buttons (CertificatePreviewPage.tsx:26-27). An empty batch makes the render throw at `recipient.name` (CertificatePreviewPage.tsx:124), so again no button exists. Either way the `% 0` of Next is never reached.
- The certificate preview's reload after "Generate All" is modelled as the index returning to 0 with the stored list as saved.
- ExportPage2: nothing in the page loads batches, a template or elements, so its table and dialog are modelled exactly as their handlers and render are written, on any state.
- FontUploader.Uploader.OnReadEnd: follows the corrected completion (Completion), so a failed read registers nothing. The program as written stores "null" under the font's key, announces the font and clears the form after a failed read too; CompletionAsWritten models that and FailedReadStillRegisters shows the difference (second finding).
- CertificateCanvas.RenderElement: substitutes the name literally (SubstituteName), the corrected member of the first finding, and so do the lemmas that state its fills: CertificateCanvas.WrappedFills, CertificateCanvas.UnwrappedWithoutWidth and CertificateCanvas.WrappedKeepsWords. The program's `replace` expands `$` patterns in the name (ReplaceAsWritten), so the drawn text differs for a name holding `$`; AsWrittenAgreesWithoutDollar proves it is the same for every other name.
- ExportPage2.PreviewTexts: substitutes the name literally, as CertificateCanvas.RenderElement does, and so do the members stated through it: ExportPage2.PreviewTextsFillName, ExportPage2.PreviewContent, ExportPage2.Page.Content and ExportPage2.OpenAndStep; the page's `replace` (ExportPage2.tsx:209) expands `$` patterns the same way, so the preview differs only for a name holding `$`.
- AddRecipientPage.GenerateBatch: takes one stamp and one date for the whole batch, and so does AddRecipientPage.Page.FinishImport. The source reads `Date.now()` and `new Date()` once per record (AddRecipientPage.tsx:98, 102), so its stamps can differ between records, and so can its dates across midnight. The ids stay distinct anyway, because each holds its index.
- Which font the browser draws with is not modelled. The editor stores a font's display name in the element (TextSettingsPage.tsx:576, 591) and the canvas sets `ctx.font` from that name (CertificateCanvas.tsx:58-61), while an uploaded font is registered as a `FontFace` under its `custom-…` family (FontUploader.tsx:50), so an uploaded font evidently never reaches the canvas; font matching is a browser service and stays outside the model.
- UserManagementPage.Page.HandleEditUser: without a selection the page returns silently; the model returns an error with the empty message and changes nothing.
- RecipientManagementPage.Load: a stored empty string would also give the samples in the source; a slot written by the pages never holds one.

## Findings

| source | as written | input that shows it | evidently intended | confidence | as-written member | corrected member |
|---|---|---|---|---|---|---|
| src/components/CertificateCanvas.tsx:65 | `el.text.replace(/\{name\}/g, name)` passes the recipient's name as a replacement string, so `$&`, `$$`, `` $` `` and `$'` in the name are expanded (ExportPage2.tsx:209 does the same) | the name "Ke$$ha" renders as "Ke$ha"; the name "$&" renders as "{name}" | every `{name}` replaced by the name verbatim | not executed | NameToken.AsWrittenExpandsDollarPatterns | NameToken.SubstituteName |
| src/components/FontUploader.tsx:45-82 | the work is done in `onloadend`, which also fires after `onerror`; `reader.result` is then null, so "null" is stored under the font's key and the font is announced to the editor | any read that fails | register the font only when the file was read | not executed | FontUploader.FailedReadStillRegisters | FontUploader.Completion |
