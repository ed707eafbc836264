# Gallery lightbox controller, modelled in Dafny

This project models the logic of the image lightbox in `js/gallery.js`. The
page holds `.collection-item` elements. Each has an embedded `.w-json` payload
with a `group` value and an `items` list of images. Clicking an item's image
opens a modal on every item of the same group, starting at the clicked one.
Prev and next buttons step through the group with wrap-around. Escape and the
arrow keys do the same while the modal is open.

With the DOM stripped away, the model consists of:

- `wrappers.dfy`: `Option`, which stands for JavaScript's `null`.
- `gallery_groups.dfy` (module `GalleryGroups`): items and their payloads.
  - `GetJsonData` gives an item's payload.
  - `GroupOf` is the order-preserving filter that `getGroupItems` computes.
  - `FindIndex` is `findIndex` over a group.
  - Lemmas say that the group is exactly the right items, in document order, and that the clicked item is always found in its own group.
- `gallery_navigation.dfy` (module `GalleryNavigation`): the wrap-around index arithmetic of prev and next, with its lemmas.
- `gallery_controller.dfy` (module `GalleryController`): class `Gallery`.
  - It holds the module-level session state (`galleryData`, `currentIndex`), the modal's open flag (its `display` style) and what the modal shows (`shown`: image source, position and total).
  - Each handler is a method with a `modifies` frame.
  - `Valid()` keeps `0 <= currentIndex < |galleryData|` once a session exists. It also ties `shown` to the entry at the index.
  - `ThreeAndOneScenario` walks through a three-plus-one item page as a client of the class.

An item's identity is its position in the `.collection-item` NodeList, which is
document order. `group` is a value of any type with equality. `JSON.parse` is
not modelled: each item carries what parsing its text yields, as an `Option`.

Notes on the code:

- The modal is built once at start-up (js/gallery.js:13-27) and hidden with `display: none` (js/gallery.js:151). It is not created and removed on demand.
- There is no thumbnail strip and no thumbnail selection.
- There is no guard against an empty group. For `group` values that JavaScript's `===` compares by value (strings, numbers, booleans, null), `ClickedItemFound` proves that one cannot occur.

## Model

| member | source | states |
|---|---|---|
| `GalleryGroups.GroupOfSound` | js/gallery.js:111-131 | every group entry is an item of the page, paired with exactly the payload that `getJsonData` parses from that item, whose `group` equals the requested one |
| `GalleryGroups.GroupOfComplete` | js/gallery.js:122-131 | every item whose payload parsed with the requested `group` appears in the group |
| `GalleryGroups.GroupOfOrdered` | js/gallery.js:123-129 | the group's entries are in strictly increasing document order |
| `GalleryGroups.NoPayloadNeverGrouped` | js/gallery.js:111-126 | an item for which `getJsonData` yields null, because it has no `.w-json` node or its payload does not parse, is a member of no group |
| `GalleryGroups.GroupOfRenderable` | js/gallery.js:144 | on a page that follows the markup convention, every group entry has an `items[0]` to show |
| `GalleryGroups.FindIndex` | js/gallery.js:164 | the result is the first position whose entry is the given item, or -1 exactly when no entry is |
| `GalleryGroups.ClickedItemFound` | js/gallery.js:161-165 | for a clicked item whose payload parsed, `startIdx` lies inside its group and that entry is the item with its own payload, so the group is never empty |
| `GalleryNavigation.NextIndex` | js/gallery.js:176-179 | next stays in `[0, n)`: it moves to `i + 1`, or to 0 from the last image |
| `GalleryNavigation.PrevIndex` | js/gallery.js:172-175 | prev stays in `[0, n)`: it moves to `i - 1`, or to `n - 1` from the first image |
| `GalleryNavigation.PrevUndoesNext` | js/gallery.js:172-179 | prev after next restores the index |
| `GalleryNavigation.NextUndoesPrev` | js/gallery.js:172-179 | next after prev restores the index |
| `GalleryNavigation.SingleImageStays` | js/gallery.js:172-179 | in a group of one image both prev and next leave the index at 0 |
| `GalleryNavigation.NextTimes` | js/gallery.js:177 | any number of next presses keeps the index in `[0, n)` |
| `GalleryNavigation.NextTimesShifts` | js/gallery.js:177 | up to `n` next presses from `i` land on `i + k`, or on `i + k - n` once past the end |
| `GalleryNavigation.NextWrapsAround` | js/gallery.js:177 | `n` next presses in a group of `n` images return to the starting index |
| `GalleryController.Gallery.constructor` | js/gallery.js:106-108 | the controller starts closed, with an empty session at index 0 and nothing shown |
| `GalleryController.Gallery.GetGroupItems` | js/gallery.js:122-131 | the scanning loop collects exactly `GroupOf(items, g)`, the filter whose properties the `GroupOf*` lemmas state |
| `GalleryController.Gallery.UpdateGallery` | js/gallery.js:142-147 | the modal shows the current entry's first image, at position `currentIndex + 1` of `|galleryData|` |
| `GalleryController.Gallery.ShowGallery` | js/gallery.js:134-139 | the session is replaced entirely by the given group and start index, the modal opens, and it shows `items[0]` of that entry as "k+1 of n" |
| `GalleryController.Gallery.HideGallery` | js/gallery.js:150-152 | only the open flag changes, to closed; the session and what is shown stay as they were |
| `GalleryController.Gallery.Prev` | js/gallery.js:172-175 | the index moves to `PrevIndex` of the old one and the new entry is rendered; the group and the open flag are untouched |
| `GalleryController.Gallery.Next` | js/gallery.js:176-179 | the index moves to `NextIndex` of the old one and the new entry is rendered; the group and the open flag are untouched |
| `GalleryController.Gallery.ClickImage` | js/gallery.js:155-167 | an item without an image or without a parsed payload changes nothing; otherwise the session becomes the item's whole group, the index points at the item, the modal opens and shows it |
| `GalleryController.Gallery.KeyDown` | js/gallery.js:182-187 | nothing changes while the modal is closed; when it is open, Escape closes, ArrowLeft acts as prev, ArrowRight as next, and any other key changes nothing |

## Left out

- Building the modal markup, injecting the CSS and inserting both into the page (js/gallery.js:13-103): these are static DOM output with no logic.
- The DOM-ready bootstrap (js/gallery.js:3-9) and the registration of listeners. Each handler is a method of `Gallery`. The close button and the backdrop (js/gallery.js:170-171) both call `HideGallery`.
- `JSON.parse`, a foreign call: each item carries its parse outcome as an `Option`. A parse that yields a falsy value counts as `None`, as it does in the source's `if (!data)` test. A payload that parses to something other than an object with `group` and `items` is not modelled.
- JavaScript `===` on arbitrary JSON values: `group` is a value of a type with equality. This is faithful for strings, numbers, booleans and null. It loses one case. `getGroupItems` parses every payload again (js/gallery.js:125), so an object- or array-valued `group` from the click's own parse (js/gallery.js:161) is never `===` to a fresh parse's `group` (js/gallery.js:126). That holds even for the clicked item itself. The group is then empty, `findIndex` gives -1 (js/gallery.js:164), and `updateGallery` throws on `galleryData[-1]` (js/gallery.js:143). The model does not capture this failure.
- Changes to the page after start-up: the model fixes each item's payload when the controller is built. The source captures only the NodeList and the `img` check at start-up (js/gallery.js:106, 156). It reads and parses the `.w-json` text again on every click and for every item in `getGroupItems` (js/gallery.js:112-115, 125, 161). The model assumes payloads do not change after start-up.
- `e.preventDefault()`, the pointer cursor on images, and the browser loading the image are browser side effects. Rendering is recorded as the `View` that `UpdateGallery` writes.
- The position text is kept as its two numbers, `position` and `total`, rather than the formatted string "Image N of M".
- The crash when a payload's `items` list is missing or empty (js/gallery.js:144): the page must follow the markup convention (`WellFormed`, a precondition of the constructor).
- GalleryController.Gallery.Prev: requires a non-empty session. The buttons and keys can reach it only after an image was opened. The `% 0` on an empty session is not modelled.
- GalleryController.Gallery.Next: requires a non-empty session, for the same reason as `Prev`.
