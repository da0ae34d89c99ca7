# site-luana in Dafny

This project models the parts of the site-luana web site that carry its rules. site-luana
is a photographer's portfolio with an admin area, and its images are served from a
Supabase storage bucket. The modelled parts are:

- **Image URL resolution** (`supabase_image.dfy`). This builds the render-endpoint URL
  (resize, quality, format) for a stored image. It also builds the public `-thumb` /
  `-display` variant URL and the responsive `srcset` candidate list.
- **The adaptive image element** (`optimized_image.dfy`). This covers the transforms flag,
  the `primary`/`fallback` mode that a load error switches, and the final `src`, `srcSet`
  and `sizes` attributes.
- **The album viewer** (`album_viewer.dfy`). This covers page-size choice, first-page and
  "load more" fetches, the guard against answers for an album no longer shown, the
  lightbox index and its keyboard handler, and the photo counter.
- **Drag-and-drop reordering** (`reorder.dfy`). This is shared by the album manager and
  the admin page. A drop moves one item and then rewrites every item's `order_index` as
  its new position.
- **The album manager** (`albums_manager.dfy`) and **the admin page** (`admin.dfy`).
  These cover the drop handlers, creating and editing rows (the `order_index` of a new
  row, the choice between typed and uploaded URL, the upload-failure path), the
  sign-in redirect and the delete-selection rule.
- **The portfolio lightbox** (`portfolio.dfy`). Its `selectedImage`/`selectedIndex`
  machine is driven by clicks, keys and arrow buttons.
- **The contact form** (`contact.dfy`). This covers the phone mask, validation
  (honeypot, required fields, e-mail pattern) and the two-stage e-mail send.
- **Storage helpers** (`storage.dfy`). These cover the uploaded object's name, the upload
  outcome, and the object path that a public URL is deleted by.
- **The typing animation** (`typing_effect.dfy`).

`strings.dfy` and `wrappers.dfy` hold the string built-ins the code relies on
(`indexOf`, `lastIndexOf`, `includes`, `join`, `String(n)`) and the `Option`/`Result`
types.

React components become classes whose fields are the component's state. Each handler is
a method with a `modifies` frame. An asynchronous fetch is split into a method that
starts it (returning the request) and a method that receives the store's answer. Every
remote answer is a parameter:

- Supabase row queries, inserts, updates and deletes;
- storage uploads and removals;
- `getPublicUrl`;
- e-mail sends;
- `confirm`;
- the URL parser.

The same goes for browser values: the clock, the random token, the viewport media query,
the hidden honeypot field's value and the transforms environment setting are all
parameters.

JavaScript semantics that matter are written out:

- `Math.max()` of an empty list is `-Infinity` (`SupabaseImage.Num`).
- A zero width, height or quality is falsy and adds no query parameter.
- An empty-string `selectedImage` is falsy, so the portfolio lightbox stays closed.
- `\s` and `trim()` use the ECMAScript white-space set (`Contact.IsSpace`).
- `String.prototype.replace` with a string pattern replaces only the first occurrence.

Behaviour worth noting:

- The image element has two modes, `primary` and `fallback`. There is no separate
  variant step between them.
- With transforms enabled, the primary URL is the render URL or the original. The
  variant is only tried when transforms are disabled.
- A `preferRender` prop has no effect (`OptimizedImage.PreferRenderIgnored`).
- There is no client-side encoder and there are no variant writes. `uploadImage` stores
  the file unchanged under its own extension. `deleteImage` removes a single object.
- The variant URL builder also returns null when the path ends in `/` (an empty file
  name), not only for non-storage URLs.
- With a known total count, `hasMore` after the first page is just `rows < count`. The
  code does not also require a full page.
- The render path replaces only the first `/storage/v1/object/`. A later occurrence stays
  in the path.
- The album viewer reloads its first page whenever the album id or the page size
  changes, because `loadFirstPage` depends on both. A change of viewport class therefore
  clears the loaded photos, the count and the lightbox. On a narrow screen every album
  open loads the first page twice, first with 12 rows and then with 6. Both requests
  carry the same album id, so the guard keeps whichever answer arrives last
  (`AlbumViewer.NarrowOpenLoadsFirstPageTwice`).

## Model

| member | source | states |
|---|---|---|
| SupabaseImage.SetParam | src/lib/supabaseImage.ts:48-54 | `searchParams.set`: afterwards the key has exactly one entry with the new value; apart from that key the query is unchanged |
| SupabaseImage.SetParamKeepsOthers | src/lib/supabaseImage.ts:48-54 | setting one parameter leaves every other key's value as it was |
| SupabaseImage.SetIfPresentGet | src/lib/supabaseImage.ts:48-54 | a guarded set changes only its own key, and only when the value is present |
| SupabaseImage.RenderQueryGet | src/lib/supabaseImage.ts:48-54 | the render query holds `width`/`height`/`quality` exactly when truthy, `resize` when given, `format` unless absent or `origin`; every other key of the input query is kept |
| SupabaseImage.RenderPathnameReplacesFirst | src/lib/supabaseImage.ts:15-17 | the text before the first object marker and everything after it are kept; only that marker becomes the render marker |
| SupabaseImage.RenderTargetPathname | src/lib/supabaseImage.ts:46 | the render URL's pathname is the input pathname with its first object marker replaced |
| SupabaseImage.RenderTarget | src/lib/supabaseImage.ts:46-54 | the render URL keeps origin and fragment; every query key reads the transform's value if it sets one, else the original value |
| SupabaseImage.RenderUrl | src/lib/supabaseImage.ts:31-57 | null exactly for an empty input, an unparseable input, or a pathname without `/storage/v1/object/`; otherwise the serialised render target |
| SupabaseImage.WithVariantSuffix | src/lib/supabaseImage.ts:19-29 | a result exists exactly when the path has a `/` and does not end in one |
| SupabaseImage.VariantOfDottedName | src/lib/supabaseImage.ts:19-29 | `dir/base.ext` becomes `dir/base-<suffix>.webp`: directory kept, last extension replaced |
| SupabaseImage.VariantOfUndottedName | src/lib/supabaseImage.ts:19-29 | a file name without `.` keeps its whole name and gains `-<suffix>.webp` |
| SupabaseImage.VariantTarget | src/lib/supabaseImage.ts:71-75 | the variant URL keeps origin and fragment, drops the whole query, and has the suffixed pathname |
| SupabaseImage.StoragePathHasSlash | src/lib/supabaseImage.ts:11-13 | a storage object path always contains `/`, so only a trailing `/` makes the suffix step fail |
| SupabaseImage.VariantUrl | src/lib/supabaseImage.ts:59-77 | null exactly for a non-storage input or a pathname ending in `/`; otherwise the serialised variant target |
| SupabaseImage.Candidates | src/lib/supabaseImage.ts:84-90 | one candidate per width for a storage URL (none otherwise); candidate k is the render URL at width k followed by ` <width>w` |
| SupabaseImage.SrcSet | src/lib/supabaseImage.ts:79-94 | null exactly when there are no widths or the input is not a storage URL; otherwise the non-empty `, `-join of the candidates |
| OptimizedImage.TransformsEnabled | src/components/OptimizedImage.tsx:17-19 | enabled exactly when the setting, lower-cased, is `1` or `true` |
| OptimizedImage.MaxWidth | src/components/OptimizedImage.tsx:37 | `-Infinity` exactly for an empty list, otherwise a member of the list that bounds every member |
| OptimizedImage.Attributes | src/components/OptimizedImage.tsx:33-63 | fallback renders the original with no srcSet; primary renders the render URL (transforms on) or the variant URL (off) or else the original; srcSet exists exactly in primary mode with transforms on, widths non-empty and a storage URL; the srcSet, when present, is the `, `-joined candidate list of `SupabaseImage.SrcSet` at the widths, quality and format; `sizes` only with a srcSet |
| OptimizedImage.PreferRenderIgnored | src/components/OptimizedImage.tsx:21-30 | the attributes do not depend on a `preferRender` prop |
| OptimizedImage.Image.constructor | src/components/OptimizedImage.tsx:31 | a new element starts in primary mode with the defaulted props |
| OptimizedImage.Image.OnError | src/components/OptimizedImage.tsx:60-63 | a load error switches to fallback for good, forwards the error only when an `onError` handler was passed, and leaves the original URL as the only source |
| OptimizedImage.Image.SetProps | src/components/OptimizedImage.tsx:31-52 | new props keep the current mode |
| AlbumViewer.Viewer.constructor | src/components/AlbumViewer.tsx:22-31 | the initial viewer state: desktop page size, nothing loaded, loading, lightbox closed |
| AlbumViewer.Viewer.ChangeAlbum | src/components/AlbumViewer.tsx:34-36 | the same id changes nothing; a new id becomes the shown album and the latest-album cell, the pager is cleared and the new album's first page is requested at the current page size, as the first-page effect (lines 83 and 114-116) does |
| AlbumViewer.Viewer.ApplyViewport | src/components/AlbumViewer.tsx:41-42 | page size is 6 on a narrow viewport and 12 otherwise; an unchanged size changes nothing, a changed one clears the pager and requests the same album's first page at the new size, through the first-page effect (lines 83 and 114-116) |
| AlbumViewer.Viewer.BeginFirstPage | src/components/AlbumViewer.tsx:57-72 | resets photos, count, `hasMore`, index and lightbox, sets loading, and requests rows `0..pageSize-1` of the current album |
| AlbumViewer.Viewer.CompleteFirstPage | src/components/AlbumViewer.tsx:74-82 | an answer for a superseded album changes nothing; otherwise rows and count are stored and `hasMore` is `rows < count` or, without a count, `rows == pageSize`; a failure keeps the state; loading ends |
| AlbumViewer.Viewer.BeginLoadMore | src/components/AlbumViewer.tsx:85-99 | no request while loading, loading more, or with nothing more; otherwise requests rows `n..n+pageSize-1` and captures photos, page size and count |
| AlbumViewer.Viewer.CompleteLoadMore | src/components/AlbumViewer.tsx:101-111 | a superseded answer changes nothing; non-empty rows are appended to the captured photos with `hasMore` = full page and below the count; empty or failed answers clear `hasMore` |
| AlbumViewer.Viewer.OpenLightbox | src/components/AlbumViewer.tsx:146-150 | opens the lightbox at the given index |
| AlbumViewer.Viewer.CloseLightbox | src/components/AlbumViewer.tsx:249 | closes the lightbox |
| AlbumViewer.Viewer.NextPhoto | src/components/AlbumViewer.tsx:152-158 | advances within the loaded photos, else starts a "load more" when more exist and none is running; nothing else changes |
| AlbumViewer.Viewer.PreviousPhoto | src/components/AlbumViewer.tsx:160-164 | moves back one photo, never below 0 |
| AlbumViewer.Viewer.KeyDown | src/components/AlbumViewer.tsx:121-135 | inactive with the lightbox closed; left moves back, right acts as "next" and keeps the lightbox open; a request is issued only on right at the last loaded photo, is the next page after the loaded photos, and sets `loadingMore`; Escape closes |
| AlbumViewer.Viewer.CounterTotal | src/components/AlbumViewer.tsx:166 | the counter shows the known total, else the number loaded |
| AlbumViewer.AppendKeepsPrefix | src/components/AlbumViewer.tsx:103-106 | against an honest store, appending a page to a prefix of the album gives a longer prefix (no gaps, no repeats) |
| AlbumViewer.MoreHasMoreExactWithCount | src/components/AlbumViewer.tsx:106 | with a known count, `hasMore` after a non-empty page is true exactly when photos remain |
| AlbumViewer.FirstPageHasMoreExactWithCount | src/components/AlbumViewer.tsx:79 | with a known count, `hasMore` after the first page is true exactly when photos remain |
| AlbumViewer.UnknownCountNeverStopsEarly | src/components/AlbumViewer.tsx:79 | without a count, `hasMore` stays true while photos remain beyond an honest page |
| AlbumViewer.UnknownCountOverReportsOnExactPage | src/components/AlbumViewer.tsx:79 | without a count, an album of exactly one page reports `hasMore`, and the next page is empty |
| AlbumViewer.BeginLoadMoreKeepsPrefix | src/components/AlbumViewer.tsx:85-99 | on photos that are a prefix of the album, a "load more" requests exactly the rows after that prefix, one page long |
| AlbumViewer.CompleteFirstPageKeepsPrefix | src/components/AlbumViewer.tsx:74-82 | an honest first-page answer, current or stale, leaves the photos a prefix of the album |
| AlbumViewer.CompleteLoadMoreKeepsPrefix | src/components/AlbumViewer.tsx:101-111 | an honest "load more" answer, current or stale, leaves the photos a prefix of the album whatever ran between its begin and its completion; with the two rows above, the photos stay gap-free and repeat-free for any interleaving on one album |
| Reorder.RemoveAt | src/components/AlbumsManager.tsx:217 | removing one element shortens the list by one |
| Reorder.InsertAt | src/components/AlbumsManager.tsx:218 | inserting one element lengthens the list by one |
| Reorder.Move | src/components/AlbumsManager.tsx:216-218 | the two splices give a permutation (same multiset) with the moved element at the target's original index, and the others in their old relative order |
| Reorder.MoveAt | src/components/AlbumsManager.tsx:216-218 | where every element of the moved list comes from, index by index |
| Reorder.MoveMap | src/components/AlbumsManager.tsx:222-227 | moving and then mapping ids equals mapping and then moving |
| Reorder.FindIndex | src/components/AlbumsManager.tsx:211-212 | `findIndex`: the first element with the id, or none when no element has it |
| Reorder.OrderWrites | src/components/AlbumsManager.tsx:222-227 | one write per element, each element's id with its position as `order_index` |
| Reorder.Drop | src/components/AlbumsManager.tsx:205-231 | no drag or a drop on itself only clears the drag; an unknown id leaves everything alone; otherwise the moved list (permutation, placement, relative order) and its index writes |
| Reorder.ReorderWritesDense | src/components/AlbumsManager.tsx:222-227 | after a reorder, the written indices are exactly `0..n-1` and the written ids are the list's ids |
| AlbumsManager.Manager.constructor | src/components/AlbumsManager.tsx:21-41 | the initial manager state |
| AlbumsManager.Manager.StartPhotoDrag | src/components/AlbumsManager.tsx:197-199 | records the dragged photo |
| AlbumsManager.Manager.StartAlbumDrag | src/components/AlbumsManager.tsx:233-235 | records the dragged album |
| AlbumsManager.Manager.HandlePhotoDrop | src/components/AlbumsManager.tsx:205-231 | applies the drop rule to the photos: clear-only, ignored (drag kept), or reordered with index writes and the drag cleared |
| AlbumsManager.Manager.HandleAlbumDrop | src/components/AlbumsManager.tsx:241-267 | the same rule over the albums |
| AlbumsManager.Manager.HandleAlbumSubmit | src/components/AlbumsManager.tsx:78-127 | upload failure: alert, no write, form kept; else update of the edited album or insert at `order_index = albums.length`, using the uploaded URL only in file mode with a file; success resets the form; `uploading` ends false |
| AlbumsManager.Manager.HandlePhotoSubmit | src/components/AlbumsManager.tsx:129-162 | without a selected album nothing is inserted and `uploading` stays set; else the insert at `order_index = photos.length` with the chosen URL, or alert on upload failure |
| AlbumsManager.Manager.HandleDeleteAlbum | src/components/AlbumsManager.tsx:164-176 | a confirmed successful delete of the selected album clears the selection and the photos; any other case leaves both |
| AlbumsManager.Manager.HandleEditAlbum | src/components/AlbumsManager.tsx:188-195 | fills the form from the album and opens the dialog |
| AlbumsManager.Manager.AlbumsLoaded | src/components/AlbumsManager.tsx:53-64 | rows replace the albums; an error keeps them |
| AlbumsManager.Manager.PhotosLoaded | src/components/AlbumsManager.tsx:66-76 | rows replace the photos; an error keeps them |
| Admin.FormFor | src/pages/Admin.tsx:128-136 | the edit form copies the image, with a missing description as `""` |
| Admin.Page.constructor | src/pages/Admin.tsx:22-35 | the initial admin state, with the blank `portfolio` form |
| Admin.Page.OnUser | src/pages/Admin.tsx:37-43 | no user: navigate to `/login` and load nothing; a user: start loading |
| Admin.Page.ImagesLoaded | src/pages/Admin.tsx:45-56 | rows replace the images; an error keeps them; loading ends |
| Admin.Page.HandleDelete | src/pages/Admin.tsx:118-126 | the delete is sent only when confirmed; a successful one reloads |
| Admin.Page.HandleEdit | src/pages/Admin.tsx:128-137 | the image becomes the edited one, the form is filled from it, the dialog opens |
| Admin.Page.OpenNewImage | src/pages/Admin.tsx:226-230 | the add button clears the edit, blanks the form and opens the dialog |
| Admin.Page.CloseDialog | src/pages/Admin.tsx:312-315 | closing ends the edit without clearing the form |
| Admin.Page.StartDrag | src/pages/Admin.tsx:139-141 | records the dragged image |
| Admin.Page.HandleImageDrop | src/pages/Admin.tsx:147-173 | the drop rule over the images, with the index writes |
| Admin.Page.HandleSubmit | src/pages/Admin.tsx:63-116 | upload failure: alert, no write, form kept; else update or insert at `order_index = images.length`; success resets the form to blank `portfolio`, clears the file and (for an edit) the edited image, and reloads; `uploading` ends false |
| Portfolio.FirstWithSrc | src/components/Portfolio.tsx:98 | the first grid position with the given source, or none exactly when no entry has it |
| Portfolio.Gallery.constructor | src/components/Portfolio.tsx:17-20 | nothing selected, loading |
| Portfolio.Gallery.ImagesLoaded | src/components/Portfolio.tsx:26-39 | rows replace the grid; an error keeps it; loading ends |
| Portfolio.Gallery.Click | src/components/Portfolio.tsx:96-99 | opens the clicked source, with the index of its first occurrence (at or before the click) |
| Portfolio.Gallery.KeyDown | src/components/Portfolio.tsx:47-67 | inactive unless an image is shown; left moves only the index; right moves index and image; Escape clears both; the index stays in the grid |
| Portfolio.Gallery.PrevButton | src/components/Portfolio.tsx:150-162 | when shown, moves index and image back together; the index stays in the grid |
| Portfolio.Gallery.NextButton | src/components/Portfolio.tsx:164-176 | when shown, moves index and image forward together; the index stays in the grid |
| Portfolio.Gallery.Close | src/components/Portfolio.tsx:140 | clears image and index |
| Contact.FormatDigits | src/components/Contact.tsx:21-29 | the digits of the display form are the input digits cut after the eleventh |
| Contact.MaskKeepsDigitPrefix | src/components/Contact.tsx:19-29 | the masked phone holds at most 11 digits, and they are the first digits typed |
| Contact.FormatFirstEleven | src/components/Contact.tsx:26-29 | digits beyond the eleventh do not change the display form |
| Contact.MaskIdempotent | src/components/Contact.tsx:19-29 | masking a masked value changes nothing |
| Contact.TrimEmptyIffAllSpace | src/components/Contact.tsx:45 | a field trims to empty exactly when it is all white space |
| Contact.EmailValidIffPattern | src/components/Contact.tsx:49-50 | the scan accepts exactly the strings matching `local@domain.tld` with non-empty parts free of white space and `@` |
| Contact.Set | src/components/Contact.tsx:31-34 | the edited field takes the value; every other field is unchanged |
| Contact.Validate | src/components/Contact.tsx:40-53 | honeypot first, then blank name/e-mail/message, then the e-mail pattern, each rejection exactly under its condition |
| Contact.ValidateAccepts | src/components/Contact.tsx:40-53 | a form passes exactly when the honeypot is empty, the three required fields are not blank and the e-mail matches |
| Contact.PhoneAndServiceNotChecked | src/components/Contact.tsx:45 | phone and service do not affect validation |
| Contact.SendFor | src/components/Contact.tsx:59-72 | the owner message carries all five fields to the owner's address; the confirmation goes to the sender with the fixed template |
| Contact.ContactForm.constructor | src/components/Contact.tsx:6-14 | an empty form, no error, no modal |
| Contact.ContactForm.HandleChange | src/components/Contact.tsx:16-35 | the phone is stored masked, other fields verbatim; only the edited field changes |
| Contact.ContactForm.HandleSubmit | src/components/Contact.tsx:37-72 | clears the error; a rejection sets its message and sends nothing; a valid form yields both messages |
| Contact.ContactForm.MainSendDone | src/components/Contact.tsx:74-90 | success leads to the confirmation send; failure shows the error modal and keeps the form |
| Contact.ContactForm.ConfirmSendDone | src/components/Contact.tsx:77-85 | success modal and form reset, whether the confirmation succeeded or not |
| Contact.ContactForm.CloseModal | src/components/Contact.tsx:176 | hides the modal |
| Storage.FileExtension | src/lib/storage.ts:4 | the text after the last `.` (the whole name without one); never contains `.` |
| Storage.TrailingDotExtension | src/lib/storage.ts:4 | a name ending in `.` has the empty extension |
| Storage.ExtensionOfDotted | src/lib/storage.ts:4 | `stem.ext` has extension `ext` when `ext` has no dot |
| Storage.ObjectPathShape | src/lib/storage.ts:3-5 | the object name lies under the folder (default `images`) and keeps the file's extension |
| Storage.Upload | src/lib/storage.ts:7-12 | the upload goes to `portfolio-images` at the object name, with `cacheControl: 3600` and `upsert: false` |
| Storage.FinishUpload | src/lib/storage.ts:14-22 | a store error becomes `Upload failed: <message>`; success returns the public URL of the stored path |
| Storage.DeletePath | src/lib/storage.ts:26-29 | none exactly without the marker; otherwise the text after the first marker, ending at the first marker that starts after it or at the end of the URL (the second piece of `split`), and holding no marker |
| Storage.FirstMarkerAfterBase | src/lib/storage.ts:26 | in `base/portfolio-images/path` the first marker is the written one when `base` holds none |
| Storage.DeletePathOfPublicUrl | src/lib/storage.ts:25-29 | a public URL built from `base` and a marker-free `path` is deleted by exactly `path` |
| Storage.DeleteImage | src/lib/storage.ts:25-38 | skipped exactly without the marker; otherwise removes the one derived path; a store error is only logged |
| TypingEffect.Typer.constructor | src/components/TypingEffect.tsx:9-11 | empty display, index 0 |
| TypingEffect.Typer.Tick | src/components/TypingEffect.tsx:14-18 | while characters remain, appends `text[index]` and advances by one, else nothing; keeps `displayed == text[..index]` |
| TypingEffect.Typer.SetText | src/components/TypingEffect.tsx:13-21 | a new text resets neither index nor display |
| TypingEffect.Typer.RunToEnd | src/components/TypingEffect.tsx:13-21 | with the text fixed, the ticks stop exactly when the whole text is shown |

## Left out

- Network and store calls are not modelled as I/O. Supabase queries, writes, storage
  upload, removal and `getPublicUrl`, and e-mail sends are parameters: the answer each
  completion method receives.
- URL parsing and normalisation (`new URL`) is a parser parameter. Serialisation is
  origin + pathname + `?query` + hash. Percent-encoding of query values is not modelled.
- Concurrency is not modelled. Begin and complete are separate calls, so any
  interleaving can be written, but the parallel order writes (`Promise.all`) appear only
  as the list of writes. Their partial failure is not modelled.
- Timers, `setTimeout` speed, `matchMedia` listeners, `keydown` listener registration,
  `confirm`, `alert`, `Date.now()`, `Math.random()` and the DOM honeypot query are not
  modelled. Their values are inputs.
- The regular expression engine is not modelled. The e-mail pattern is stated directly
  over the string, and `\s` is the fixed ECMAScript white-space set.
- Reorder.Move: the two `splice` calls on a copied array are modelled as one function on
  sequences. The handlers copy before splicing, so no aliasing is lost.
- AlbumViewer: the `lightboxDisplayLoaded` flag is not modelled. It only drives an image
  fade-in. The rest of the rendering is not modelled either.
- AlbumViewer: a stale "load more" answer for the same album can still land after a new
  first page for that album, because the guard compares only album ids. The model keeps
  that behaviour and proves nothing that would exclude it. Two first-page answers for the
  same album (after a viewport change) race the same way.
- AlbumsManager: the photo delete (`handleDeletePhoto`), album selection and its photo
  load effect, and the rendering are not modelled. None of them has a rule beyond a
  reload.
- AlbumsManager.Manager.HandleAlbumSubmit, AlbumsManager.Manager.HandlePhotoSubmit: the
  `loadAlbums()` or `loadPhotos()` reload after a successful write is not part of the
  result. The reloaded rows arrive through `AlbumsLoaded` and `PhotosLoaded`.
- Admin: sign-out and the tab switch are not modelled. They only navigate or toggle a
  tab.
- Portfolio: the six-row, `portfolio`-category filter of the query is left to the store.
  Reloading the grid while an image is selected is not constrained.
- Contact: the environment's service, template and user ids are not modelled. The
  owner-message template id comes from the environment.
- TypingEffect: `speed` is stored but has no effect, because time is not modelled.
- TypingEffect.Typer.Tick: a Dafny string is a sequence of Unicode scalar values, while
  `text[index]` and `text.length` count UTF-16 code units. A character outside the Basic
  Multilingual Plane is shown in two ticks by the component and in one by the model. The
  hero texts passed to it hold no such character.
- The pages and components outside this core are not part of this model: routing, the
  header, hero, about and footer sections, the before/after slider, the museum section
  and the collections page. The Supabase client set-up (`src/lib/supabase.ts`) is not
  part of this model either.
