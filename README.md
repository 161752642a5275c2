# Virtual try-on compositor, modelled in Dafny

This project models the virtual try-on service in `modules/VTO_0.2/server2.py`. The service takes a photograph of a person and a garment image with an alpha channel. It places the garment on the body using a few pose landmarks and alpha-blends it onto a copy of the photograph. The model has four parts:

- `Numeric` (numeric.dfy): Python's `int()` on a number, which truncates toward zero (`Trunc`), and `// 2`, which rounds down (`Half`).
- `Raster` (raster.dfy): `overlay_png`. It is an in-place method on a `[row, column, channel]` array (`array3<Byte>`) with a nested loop. It is proved against a per-pixel specification, `OverlayPixel`. Per channel, the blend is the exact rational mix `(1 - a/255)·old + (a/255)·src`, rounded down as the uint8 store does.
- `Placement` (placement.dfy): the arithmetic of `tryon_top`, `tryon_bottom` and `tryon_full`. Each turns landmarks (integer `Point2D`s) into a `Rect` (top-left x, top-left y, width, height). The ratios are exact rationals. Every `int()` is `Trunc` and every `// 2` is `Half`. A Euclidean distance between two landmarks (numpy's `norm`) is an input `d` constrained by `IsDistance`: `d ≥ 0` and `d² = dx² + dy²`.
- `Strategies` (strategies.dfy): the three strategies. Each copies the person image and composites the already resized garment at its placement. The person image is never modified: the methods have no `modifies` clause, and their result is `fresh`.
- `Dispatch` (dispatch.dfy): the `try_on` handler as a pure function, `TryOn`, over an abstract request. The request records which files were uploaded, the form fields, whether each image decodes, and whether a pose was found. The checks run in this order: missing files, then undecodable images, then no pose, then the type. The type is the `type` field, `top` by default, lower-cased. It selects `top`, `bottom` or `full`; any other string gives "Unknown type".

The model follows these details of the code:

- The type strings are `top`, `bottom` and `full`.
- An unknown type is rejected only after pose detection, because line 139 comes after line 135 (`UnknownTypeAfterPose`).
- A garment without an alpha channel is not treated as opaque. Line 15 always reads channel 3, so the garment must have four channels.
- The upper-body vertical offset is `nose.y - int(height * -0.12)`: a truncation, not a rounding.
- The full-body anchor subtracts `int(0.05 * h)`, and the widths and heights of the bottom and full strategies are truncated, not rounded.

Two details of the code are modelled as written:

- The upper-body height uses the left hip only.
- The hip centre computed in `tryon_top` and the nose point read in `tryon_full` are never used.

## Model

| member | source | states |
|---|---|---|
| `Numeric.Trunc` | modules/VTO_0.2/server2.py:41 | `int()` on a number: the result is the integer part, toward zero, for positive and negative arguments |
| `Numeric.TruncNegate` | modules/VTO_0.2/server2.py:41 | truncation is odd: `Trunc(-v) == -Trunc(v)` |
| `Numeric.TruncMonotone` | modules/VTO_0.2/server2.py:93 | truncation preserves `<=` |
| `Numeric.TruncOfInt` | modules/VTO_0.2/server2.py:37 | `int()` of an integer value is that integer (the `* 1` in the top height) |
| `Numeric.TruncOfStretch` | modules/VTO_0.2/server2.py:62 | a non-negative integer scaled by a ratio of at least 1 truncates to at least itself |
| `Numeric.Half` | modules/VTO_0.2/server2.py:33 | `a // 2` is the floor of a/2: `2h <= a < 2h + 2` |
| `Raster.BlendChannel` | modules/VTO_0.2/server2.py:15-17 | the stored channel is the floor of the exact mix `(1 - a/255)·old + (a/255)·src`; it lies between old and src (so in 0..255); alpha 255 gives src exactly, alpha 0 gives old |
| `Raster.MixIsScaledSum` | modules/VTO_0.2/server2.py:17 | `Mix`, the exact mix of line 17, equals the integer weighted sum `(255 - a)·old + a·src` over 255 |
| `Raster.MixWithin` | modules/VTO_0.2/server2.py:17 | the weighted sum lies between 255·min and 255·max of the two values |
| `Raster.OverlayPixel` | modules/VTO_0.2/server2.py:11-17 | a pixel outside the garment footprint at (x, y), or under a garment pixel with alpha 0, keeps its value; under an opaque pixel it becomes the garment colour; otherwise it lies between the old and garment colour |
| `Raster.Overlay` | modules/VTO_0.2/server2.py:9-18 | composites in place and returns the same buffer; every background pixel (dimensions unchanged) ends as `OverlayPixel` of its old value, so target pixels outside the background are skipped with no write and no error |
| `Raster.Copy` | modules/VTO_0.2/server2.py:43 | `copy()` gives a fresh image with the same dimensions and the same pixels |
| `Raster.TransparentKeeps` | modules/VTO_0.2/server2.py:15-16 | a garment whose alpha is 0 everywhere leaves every pixel unchanged |
| `Placement.DistanceUnique` | modules/VTO_0.2/server2.py:36 | the distance between two landmarks is uniquely determined by them |
| `Placement.HorizontalDistance` | modules/VTO_0.2/server2.py:61 | for two landmarks on one row the distance is the horizontal gap |
| `Placement.TopSize` | modules/VTO_0.2/server2.py:33-40 | for `PlaceTop` (lines 33-41): top width is `trunc(1.6·d)` (`width <= 1.6·d < width + 1`); the garment spans from the nose to the left hip in height; it is centred on the shoulder centre to within half a pixel |
| `Placement.TopOffset` | modules/VTO_0.2/server2.py:41 | the top edge of `PlaceTop`: `nose.y - trunc(-0.12·h)` equals `nose.y + trunc(0.12·h)`, which is `nose.y + floor(0.12·h)` for `h >= 0`; then the garment starts at or below the nose and reaches at least the left hip |
| `Placement.TopExample` | modules/VTO_0.2/server2.py:20-44 | shoulders (100,200),(300,200), hips (120,500),(280,500), nose (200,150) give (40, 192, 320, 350) |
| `Placement.BottomSize` | modules/VTO_0.2/server2.py:58-66 | for `PlaceBottom` (lines 58-66): bottom width is `trunc(1.2·d)` of the hip distance; the top edge is at the hip centre; it is centred on the hip centre to within half a pixel |
| `Placement.BottomReachesAnkles` | modules/VTO_0.2/server2.py:59-62 | when the ankle centre is below the hip centre, the trousers reach at least the ankle centre |
| `Placement.BottomExample` | modules/VTO_0.2/server2.py:46-69 | hips (120,500),(280,500) and ankles (130,900),(270,900) give (104, 500, 192, 420) |
| `Placement.FullAnchorAbove` | modules/VTO_0.2/server2.py:87 | for `FullAnchorY` (line 87): the anchor lies above both shoulders by `trunc(0.05·h)`, which is at most 5% of the image height |
| `Placement.FullWidthCovers` | modules/VTO_0.2/server2.py:89-93 | for `PlaceFull` (lines 87-103): full width is at least `trunc(1.25·1.7·shoulder_w)` and at least `trunc(1.25·2.1·hip_w)`; it is centred on the shoulders; the top edge is the anchor |
| `Placement.FullReachesAnkles` | modules/VTO_0.2/server2.py:96-97 | when the ankle centre is below the anchor, the dress reaches at least the ankle centre |
| `Placement.FullExample` | modules/VTO_0.2/server2.py:71-106 | the same landmarks in a 1000-pixel-high photograph give (-12, 150, 425, 862) |
| `Strategies.Composite` | modules/VTO_0.2/server2.py:43 | `overlay_png(imgPerson.copy(), …)`: a fresh image with the person's dimensions, each pixel `OverlayPixel` of the person's pixel; the person image is not modified |
| `Strategies.TryOnTop` | modules/VTO_0.2/server2.py:20-44 | the person image composited with the garment at `PlaceTop`, on a fresh copy |
| `Strategies.TryOnBottom` | modules/VTO_0.2/server2.py:46-69 | the person image composited with the garment at `PlaceBottom`, on a fresh copy |
| `Strategies.TryOnFull` | modules/VTO_0.2/server2.py:71-106 | the person image composited with the garment at `PlaceFull` (anchor from the image height), on a fresh copy |
| `Dispatch.LowerChar` | modules/VTO_0.2/server2.py:118 | upper-case ASCII letters map to lower case; other characters are kept; no upper-case letter results |
| `Dispatch.Lower` | modules/VTO_0.2/server2.py:118 | `.lower()` keeps the length and lower-cases each character |
| `Dispatch.LowerIdempotent` | modules/VTO_0.2/server2.py:118 | lower-casing twice is lower-casing once |
| `Dispatch.GarmentOf` | modules/VTO_0.2/server2.py:139-146 | exactly `top`, `bottom` and `full` select a strategy, and the one each selects is named by that string |
| `Dispatch.TryOn` | modules/VTO_0.2/server2.py:108-146 | with `ClothType` the lower-cased `type` field, `top` by default (line 118): missing files, undecodable images and no pose each give their own rejection, each only when the earlier checks pass; a ready request renders exactly when the lower-cased type is known, with the strategy of that name, and otherwise gets "Unknown type" |
| `Dispatch.NameSelects` | modules/VTO_0.2/server2.py:139-144 | a type string selects strategy g if and only if it is g's name; names are already lower case |
| `Dispatch.DefaultIsTop` | modules/VTO_0.2/server2.py:118 | with no `type` field, a ready request gets the upper-body strategy |
| `Dispatch.TypeIgnoresCase` | modules/VTO_0.2/server2.py:118 | a type string and its lower-cased form lead to the same response |
| `Dispatch.EarlierChecksFirst` | modules/VTO_0.2/server2.py:110-136 | until files, decoding and pose all pass, the form fields do not affect the response |
| `Dispatch.UnknownTypeAfterPose` | modules/VTO_0.2/server2.py:126-146 | "shoes" with no pose gives the no-pose error; with a pose it gives "Unknown type" |
| `Dispatch.FailuresDistinct` | modules/VTO_0.2/server2.py:110-146 | every rejection is status 400 and success is 200; the four error messages are pairwise distinct |

## Left out

- HTTP handling (Flask request parsing, `jsonify`, `send_file`), PNG encoding, `cv2.imdecode` and `cvtColor`, and the mediapipe pose detector. Their outcomes are abstract inputs of `Dispatch.Request`: which files are present, and whether each image decodes and a pose is found.
- `get_point`, the scaling of normalised landmarks by the image size. The resulting integer `Point2D`s are inputs.
- `np.linalg.norm`: the square root is not computed. The distance is an input constrained by `IsDistance`.
- `cv2.resize`: the strategies take the resized garment as an argument with exactly the placement's width and height, both positive (`FitsRect`). For a non-positive size, `cv2.resize` raises and the request fails with a server error; that path is not modelled.
- `Dispatch.TryOn`: an empty uploaded file makes `cv2.imdecode` raise, because OpenCV asserts a non-empty buffer. The request then ends in a server error, not the "Error loading images" 400 that `personDecodes = false` (or `clothDecodes = false`) gives here. This is OpenCV's behaviour, not visible in the handler, and is not modelled.
- IEEE floating point: the ratios and `a/255` are exact rationals. A float product or a float square root from `norm` can land on either side of an integer, so `int()` or the uint8 store may differ from the exact result by one in either direction. This is not modelled.
- A greyscale garment makes `overlay_png` raise at line 10. A 3-channel garment raises at line 15 as soon as one of its pixels falls inside the photograph. If the garment falls entirely outside the photograph, every pixel is skipped at line 14 without error, and the request returns the unchanged copy with a 200 (lines 149-152). The model requires a 4-channel garment and does not cover that case. It also requires a 3-channel person image, as `IMREAD_COLOR` produces.
- `Raster.Overlay`: the garment is assumed to be 8-bit. For a 16-bit PNG, which `IMREAD_UNCHANGED` keeps as uint16, `alpha/255` exceeds 1 and the mix leaves 0..255 before the uint8 store. That case is not modelled.
- `Dispatch.LowerChar`: it lower-cases ASCII letters only and keeps every other character, where `str.lower` also lower-cases non-ASCII capitals such as 'É'.
- `Dispatch.Lower`: it lower-cases ASCII letters only (through `LowerChar`), where Python's `str.lower` covers all of Unicode. No non-ASCII character lower-cases to a letter of `top`, `bottom` or `full`.
- The connection between `Dispatch.TryOn` and the strategy methods is by name only. `Render(g)` says which strategy runs; it does not run it.
- `modules/Chatbot/bot2.py` and `modules/remove-bg/basic.py` are not part of this model: they are thin wrappers around a chat API and a background-removal library.
