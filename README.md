# Memories gallery: layout, preview scaling and gallery state

A Dafny model of the `MemoriesGallery` class of a browser photo gallery
(`src/script.js`). The gallery deals the images listed in its manifest
round-robin into four columns and renders that column set twice in a row, so
the scrolling strip can loop. The scroll lasts three seconds per image. A
click on a tile opens a preview. The preview's size is chosen by comparing the
window's aspect ratio with the image's: one dimension is the window's minus an
80-pixel margin, and the other follows from the image's aspect ratio. The
gallery object also keeps a mute flag in step with the music element and the
audio icon, and an `active` flag on the preview overlay.

The model has three modules:

- `Layout` (`layout.dfy`): the dealing loop `DistributeColumns`, proved equal to
  the column set `ColumnSet`, in which column `c` holds the inputs at indices
  `c, c + 4, c + 8, …`. It also has the rendering loops `RenderColumns`, proved
  equal to `Render` (the column set followed by itself), and the animation
  duration. Lemmas prove that the columns partition the manifest, that every
  index has exactly one slot, that dealing is stable, and that the columns are
  balanced.
- `Preview` (`preview.dfy`): the scaling rule `Scale` over exact reals, with
  its binding-dimension and aspect-ratio facts and the worked examples.
- `Gallery` (`gallery.dfy`): the class `MemoriesGallery` with the fields the
  source updates in place: the mute flag, the music's `muted`, the icon, the
  preview's `active` flag, source and size, and the gallery content. Each
  method has a frame limited to the fields it writes.

The preview code is commented as scaling the image to fit the screen
(`src/script.js:172`), but the 80-pixel margin is taken off only the binding
dimension (`src/script.js:180`, `src/script.js:184`). The choice of binding
dimension compares the window's own aspect ratio, not the margin-reduced one
(`src/script.js:173`). So the other dimension can exceed the window minus 80.
Example: a 1600×900 window and a 1600×900 image give 1520×855, and
855 > 820 (`Preview.MarginNotAlwaysKept`). What does hold is proved instead:
the binding dimension is exactly the window's minus the margin, and the whole
image stays strictly inside the window (`Preview.ScaleWithinWindow`).

## Model

| member | source | states |
|---|---|---|
| `Layout.DistributeColumns` | src/script.js:119-122 | the dealing loop returns exactly the column set: four columns, column `c` holding the images at indices congruent to `c` mod 4, in input order |
| `Layout.SlotInRange` | src/script.js:119-122 | column `c` of an `n`-image manifest has a slot `k` exactly when index `c + 4k` is below `n` |
| `Layout.ColumnAppend` | src/script.js:120-121 | pushing image number `|s|` appends it to column `|s| % 4` and leaves every other column unchanged |
| `Layout.ColumnSetAppend` | src/script.js:119-122 | one step of the loop: the column set of `s + [x]` is that of `s` with `x` pushed onto column `|s| % 4` |
| `Layout.ColumnsPartition` | src/script.js:119-122 | the columns together hold exactly the manifest's images, with multiplicity, and their lengths sum to the image count |
| `Layout.PlacementOfIndex` | src/script.js:120-121 | image `i` is in column `i % 4` at slot `i / 4` |
| `Layout.SlotOfIndex` | src/script.js:119-122 | slot `k` of column `c` is index `i` if and only if `c == i % 4` and `k == i / 4`, so each image lands in exactly one column |
| `Layout.ColumnPrefix` | src/script.js:120-121 | the columns of a prefix of the manifest are prefixes of the final columns, so each column keeps input order |
| `Layout.ColumnLengthCases` | src/script.js:119-122 | columns `0 .. n%4 - 1` get `n/4 + 1` images and the rest get `n/4` |
| `Layout.ColumnLengthsBalanced` | src/script.js:119-122 | a later column is never longer than an earlier one and at most one shorter |
| `Layout.Render` | src/script.js:125 | the strip has twice as many groups as the column set, and both halves equal the column set |
| `Layout.RenderColumns` | src/script.js:125-138 | the nested rendering loops append, for each of the two copies, one group per column holding that column's tiles in order, giving `Render` |
| `Layout.AnimationDuration` | src/script.js:140-141 | the duration in seconds is 3 times the number of tiles in one column set, which is 3 times the image count (any count, including 0) |
| `Layout.DurationPerTile` | src/script.js:140-141 | twice the duration is 3 seconds per tile of the doubled strip |
| `Layout.EmptyManifest` | src/script.js:119-141 | an empty manifest gives four empty columns, eight empty groups and a zero duration, with no error |
| `Preview.Scale` | src/script.js:173-186 | if the window is relatively wider than the image, the height is the window's minus 80, otherwise the width is; in both branches the width-to-height proportion equals the image's (cross-multiplied) |
| `Preview.ScalePreservesAspect` | src/script.js:174-186 | with room left after the margin, the scaled size is positive and its aspect ratio equals the image's exactly |
| `Preview.ScaleWithinWindow` | src/script.js:178-186 | one dimension is exactly the window's minus 80 and both dimensions stay strictly inside the window |
| `Preview.MarginNotAlwaysKept` | src/script.js:173-186 | a 1600×900 image in a 1600×900 window scales to 1520×855, whose height is more than the window's minus 80 |
| `Preview.WideImageExample` | src/script.js:173-186 | a 4000×2000 image in a 1920×1080 window is width-bound at 1840×920 |
| `Preview.TallImageExample` | src/script.js:173-186 | a 1000×2000 image in a 1920×1080 window is height-bound at 500×1000 |
| `Gallery.IconFor` | src/script.js:93-105 | the muted icon is shown exactly when the gallery is muted |
| `Gallery.FailureText` | src/script.js:145 | the failure text is the fixed prefix followed by the failure's own message |
| `Gallery.MemoriesGallery.constructor` | src/script.js:16 | a new gallery is unmuted with music and icon in step, no active preview and no content |
| `Gallery.MemoriesGallery.ToggleAudio` | src/script.js:88-107 | the mute flag flips, the music's `muted` equals it and the icon shows it; no other field changes |
| `Gallery.MemoriesGallery.ShowPreview` | src/script.js:171-193 | a completed preview load shows the clicked image at `Scale(window, natural)` and sets `active`; only the preview fields change |
| `Gallery.MemoriesGallery.CloseImagePreview` | src/script.js:198-200 | closing clears `active` and changes nothing else |
| `Gallery.MemoriesGallery.OverlayClicked` | src/script.js:30-34 | an overlay click clears `active`; when the overlay was inactive, nothing changes at all |
| `Gallery.MemoriesGallery.LoadGallery` | src/script.js:108-147 | a fetched manifest gives the rendered column strip with duration `3 × count`; a failure gives the failure text in place of the gallery |
| `Gallery.ToggleAudioTwice` | src/script.js:88-107 | toggling twice restores the mute flag, the music's `muted` and the icon |
| `Gallery.LastPreviewWins` | src/script.js:169-196 | of two completed preview loads, each scaled to the window at its own completion, the later one is shown at its own scaled size; only the preview fields may change |
| `Gallery.LoadedStrip` | src/script.js:119-138 | the loaded strip has 8 groups, its second 4 repeat its first 4, and it holds every manifest image exactly twice |

## Left out

- DOM work (element lookup and creation, `innerHTML`, class lists, style strings, event-listener wiring in `initEventListeners`) is not modelled. Tiles are represented by their image source, and the overlay's `active` class by a boolean field.
- The manifest fetch and JSON parsing are not modelled. `LoadGallery` takes their outcome as a `FetchResult`: either the image list, or the message of the error caught at `src/script.js:143`. That includes a manifest without an `images` list.
- The 500 ms `setTimeout` and the entry overlay in `startGalleryAndMusic` are left out. They are timing and presentation only.
- `playMusic` and the autoplay prompt are left out. They are browser media promises and prompt UI.
- `openImagePreview` only starts an asynchronous image load. Only its completion handler is modelled (`ShowPreview`), with the window and natural sizes as parameters. A load that never completes simply never calls it.
- The per-tile aspect ratio in `createImageTile` is left out. It is formatted with `toFixed(2)`, which is floating-point formatting, and it affects only tile styling.
- `Preview.Scale`: it uses exact reals instead of IEEE doubles and requires positive window and image sizes. In JavaScript a zero window or image height is a divisor at `src/script.js:173-174` and yields `Infinity` or `NaN`. A zero width yields a degenerate but finite size. The requirement excludes both cases.
- `Preview.ScaleWithinWindow`: it states fit inside the whole window, not inside the window minus the margin. The code takes the margin off the binding dimension only (`src/script.js:180`, `src/script.js:184`), after comparing the unmargined ratios (`src/script.js:173`), so it does not keep the margin on the other side.
- `Gallery.MemoriesGallery.constructor`: the initial `muted` state of the music and the initial icon come from the page markup, which is not part of this model. They are taken to start unmuted with the sound-on icon, matching `isMuted = false`.
- `src/avifconverter.py` is not part of this model. It is an offline image-conversion script built on image decoding, the filesystem and a thread pool.
