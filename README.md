# Stereo calibration bookkeeping (`CalibCam`)

A Dafny model of the bookkeeping inside the stereo-calibration object
`libcv::CalibCam` (calib.cpp). It covers two parts.

- **The calibration session.** `start` fixes the chessboard pattern (`nx`,
  `ny` inner corners), the square size and the image size. It zeroes the
  success counter and clears the three parallel observation vectors: object
  points, left image points and right image points. Each `compute` call runs
  the corner detector on the left and the right image (`computeOne`). Only
  when both corner lists come back non-empty does it append the left list,
  the right list and one freshly built object-point grid `(i / nx, i % nx, 0)`,
  `i < nx*ny`, and bump the counter.
- **Persistence.** `save` writes the calibration record (17 matrices and the
  image size) under named keys of a key/value document, and `load` reads
  each field back from a key.

Modules, one per component:

- `Geometry` (geometry.dfy): points, the object grid, and the loop that
  builds it (`BuildObjectPoints`).
- `Detector` (detector.dfy): the found/empty gating of `computeOne`.
- `Storage` (storage.dfy): `save`/`load` as pure functions between a
  `Calibration` record and a `map<string, Node>` document.
- `Calib` (calib_cam.dfy): the class `CalibCam`, with fields, `Start`,
  `Compute`, `Save` and `Load`. A ghost field `history` records every
  compute call since `start`. The invariant `Valid()` says three things:
  - the counter equals the length of all three vectors;
  - the image-point vectors are the left and right corners of the accepted
    calls, in call order;
  - every object-point list is the current pattern's grid.

The external collaborators are inputs. What the OpenCV detector reports for
an image (its found flag, its corner list, and the sub-pixel refinement of
the copy used only for display) is a `Detection` value passed to `Compute`.
The file behind a path is a `Document` value: `Save` returns the document it
writes, and `Load` takes the document it reads.

Behaviour of the code that the model keeps as written:

- `save` writes camera 1's distortion vector `D1` under both `"D1"` and
  `"D2"`. The model reproduces this. `Load(Save(c))` gives back `c` except
  that `d2` becomes `d1` (`Storage.LoadSave`). The round trip is exact only
  when the two vectors already agree (`Storage.LoadSaveExact`).
- `load` and `save` always return true. `load` reports no missing-field or
  unreadable-file error: an absent key reads as an empty matrix or 0, and a
  file that cannot be opened behaves as an empty document (`Storage.LoadEmpty`).
- `start` checks nothing about `nx`, `ny` or the size. With a zero product
  `nx*ny` the object-point loop runs zero times. A negative product is
  excluded from `Compute` (see "Left out").
- Before the first `start`, the counter and the pattern are uninitialised.
  The constructor leaves them arbitrary, so `Valid()` holds only from
  `Start` on. `Compute` preserves it (`old(Valid()) ==> Valid()`).

## Model

| member | source | states |
|---|---|---|
| `Geometry.BuildObjectPoints` | calib.cpp:121-124 | the loop yields exactly the object grid: `nx*ny` points (none when the product is not positive), the i-th being `(i / nx, i % nx, 0)` |
| `Geometry.ObjectGrid` | calib.cpp:122-124 | the grid has `nx*ny` entries when that product is positive and none otherwise |
| `Geometry.GridPointIndex` | calib.cpp:124 | row and column of the i-th point recover its index: `row*nx + col == i`, with the column in `[0, abs(nx))` |
| `Geometry.GridPointInRange` | calib.cpp:123-124 | for a positive pattern every object point has first coordinate in `[0, ny)`, second in `[0, nx)` and third 0 |
| `Geometry.GridPointInjective` | calib.cpp:123-124 | distinct loop indices give distinct object points |
| `Geometry.ObjectGridCovers` | calib.cpp:121-124 | every corner `(row, col)` of a positive pattern occurs in the grid, at row-major position `row*nx + col` |
| `Detector.ComputeOne` | calib.cpp:132-158 | the returned list is non-empty iff the detector reports found with a non-empty list; it is either empty or the detector's own list; an overlay is shown iff display is on |
| `Detector.ReturnedCorners` | calib.cpp:145-157 | the detector's list is returned when found and the empty list otherwise, whatever the display setting and whatever the refined copy holds |
| `Detector.OverlayShowsRefinedCopy` | calib.cpp:145-151 | with display on, the overlay draws the refined copy with the found flag in the named window, while the raw list is returned |
| `Storage.Save` | calib.cpp:58-82 | the written document holds exactly the 19 keys of the schema |
| `Storage.SaveWritesFields` | calib.cpp:61-79 | under every key save writes that key's own field, except that under `"D2"` it writes `D1` |
| `Storage.Load` | calib.cpp:26-46 | every field of the loaded record is what the document holds under that field's own key, read as a matrix or (for `W`/`H`) as a number, with a default when absent |
| `Storage.LoadSave` | calib.cpp:23-82 | `load(save(c))` reproduces every field of `c` except `D2`, which comes back equal to `D1` |
| `Storage.LoadSaveExact` | calib.cpp:63-64 | the round trip is the identity exactly when `D1 == D2` |
| `Storage.SaveIgnoresD2` | calib.cpp:63-64 | the saved document does not depend on camera 2's distortion vector |
| `Storage.LoadSaveIdempotent` | calib.cpp:23-82 | one round trip reaches a fixed point: a second round trip changes nothing |
| `Storage.SaveLoad` | calib.cpp:23-82 | saving what was loaded from a well-formed document gives that document back, except that `"D2"` now holds the `"D1"` node |
| `Storage.LoadEmpty` | calib.cpp:25-46 | loading a document with no keys still yields a record: all 17 matrices empty and a 0 x 0 image size |
| `Calib.AcceptedFilters` | calib.cpp:117-129 | the accepted calls are accepted calls of the history, never more than the calls made |
| `Calib.AcceptedAll` | calib.cpp:117-127 | when every pair is detected in both images, every call is kept |
| `Calib.AcceptedSnoc` | calib.cpp:117-129 | a rejected call leaves the accepted calls unchanged; an accepted one is added at the end |
| `Calib.AcceptedInOrder` | calib.cpp:118-119 | the k-th accepted observation is a call that was accepted and had exactly k accepted calls before it |
| `Calib.AcceptedAppend` | calib.cpp:117-129 | the accepted calls of two runs of calls, one after the other, are the first run's followed by the second's |
| `Calib.AcceptedCount` | calib.cpp:117-129 | for any history, the number of accepted calls is the number of calls less the number rejected |
| `Calib.SevenOfTen` | calib.cpp:117-129 | any ten pairs of which three have an image lacking the pattern leave seven accepted observations |
| `Calib.SessionCount` | calib.cpp:117-127 | in a valid session the success counter equals the number of accepted compute calls since start |
| `Calib.SessionOrder` | calib.cpp:118-119 | in a valid session the k-th stored left and right lists are the detections of the k-th accepted compute call |
| `Calib.CalibCam.constructor` | calib.cpp:15-17 | display is on; the vectors are empty; all 17 matrices are empty and the image size is 0 x 0, as default-constructed; the counter and pattern are left undefined |
| `Calib.CalibCam.Start` | calib.cpp:84-94 | sets nx, ny, size and image size; sets the counter to 0 and empties all three vectors whatever the prior state; establishes `Valid()`; leaves the parameters and display alone |
| `Calib.CalibCam.Compute` | calib.cpp:112-130 | returns true iff both detections are found and non-empty; then appends left, right and one object grid and adds exactly 1 to the counter; otherwise changes neither counter nor vectors; preserves `Valid()` |
| `Calib.CalibCam.Save` | calib.cpp:58-82 | the document written is `Storage.Save` of the object's record, and the call reports success |
| `Calib.CalibCam.Load` | calib.cpp:23-56 | the object's record becomes `Storage.Load` of the document; the session is unchanged except for the image size it shares with the record, and `Valid()` is preserved; the call reports success |

## Left out

- `end` (calib.cpp:96-110): stereo calibration, stereo rectification and remap-table generation are floating-point solvers of the OpenCV library. The model has no path that fills the matrices from a session.
- `transform` (calib.cpp:160-188): remapping, block-matching disparity, normalisation and display are image processing in a foreign library.
- The inside of `computeOne`: colour conversion, the chessboard detector, sub-pixel refinement, drawing and `imshow`. Their results are the `Detection` input. The overlay is recorded as a value, not rendered. `Mat imgmat(img)` (calib.cpp:134) shares the caller's pixels, so with display on and a colour input, lines 149-150 overwrite the caller's image with the grey conversion and the drawn corners. That in-place change to `compute`'s arguments is not modelled; the model's images are not values at all.
- The `gray` argument of `compute`: it only chooses whether `computeOne` converts the image to grayscale before detection, which is folded into the `Detection` input.
- The physical `FileStorage` XML file and the path argument: the document is an in-memory map, returned by `Save` and passed to `Load`.
- The `tmp.xml` debug copy that `load` writes (calib.cpp:48-53): a file-system side effect with no effect on the object.
- `Calib.CalibCam.Load`: does not model the float read of `W`/`H` and its conversion to an integer `Size` (calib.cpp:39-42). The size is stored and read back as integers.
- `Storage.ReadMat` and `Storage.ReadInt`: a node of the wrong kind (a number where a matrix is expected, or the reverse) reads as the default, an empty matrix or 0. The library's own coercions for that case are not modelled.
- `Calib.CalibCam.Compute`: requires `nx*ny >= 0`. With a negative product, `obj.reserve` throws after both image-point lists were already pushed. C++ exceptions are not modelled, and the detector rejects such a pattern size first.
- Integer widths: `nx*ny` and the counter are unbounded integers; 32-bit overflow of `int` is not modelled.
- Object-point coordinates are kept as exact integers. The source stores them as 32-bit floats, which hold them exactly while the row and column indices stay below 2^24, as they do for any realistic pattern.
- The physical square size is stored by `start` but never used. The object grid is in unit steps, as in the source.
