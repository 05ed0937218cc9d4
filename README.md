# Pathology annotation editor: a verified model

This project models the browser-side annotation editor of a pathology-image
annotation tool. The editor lives in `dist/static/app.js`. The user picks an
image and draws annotations on a canvas. Annotations are points, for single
cells, and closed polygons, for regions. Each carries one of six category
labels (lymphocyte, tumor, stromal, neutrophil, eosinophil, other). The view
can be panned by dragging and zoomed with the wheel. A delete tool removes the
first annotation under the click. Every create and delete is sent to a
persistence service, and the whole annotation list is then reloaded from it.

The model has five modules:

- `Geometry` (`geometry.dfy`): integer image points, the shoelace polygon
  area and the even-odd (ray casting) point-in-polygon test, plus squared
  distances for the click radii. Each loop of the source is a method proved
  equal to a recursive specification function, and the properties of the
  specification functions are lemmas.
- `ViewTransform` (`view_transform.dfy`): the view (scale and translation),
  zoom with its clamp to [0.1, 10], the letterbox fit of the image in the
  canvas, and the maps between viewport positions and image pixels, with
  their round trips.
- `Annotations` (`annotations.dfy`): annotation records, the requests sent
  to the service, the effect of a response on the store, and the delete
  tool's first-match scan.
- `Editor` (`editor.dfy`): the page's global state as the class
  `EditorSession`, with one method per handler (`setTool`, `zoom`,
  `resetView`, the mouse and wheel handlers, `addPolygonPoint`,
  `completePolygon`, `deleteAnnotationAt`, ...).
- `Scenarios` (`scenarios.dfy`): whole gestures checked against the
  session's contracts only. One is a polygon auto-closed by a click near its
  first vertex; the other is a pan drag.

A network exchange is modelled as one atomic step. A handler returns the
request it would send, for example `CreatePolygon(label, ring, area)`. It
takes the service's answer as a parameter of type `Response`:

- `Rejected`: the request threw, or the service answered without success;
- `Accepted(reload)`: the request succeeded. `reload` holds the reloaded
  list, or `None` when the reload failed. `loadAnnotations` catches its own
  errors, so a failed reload leaves the store as it was.

Real numbers stand for the view and fit arithmetic. Image points are integers,
because `canvasToImageCoords` rounds with `Math.round`. `Math.round(x)` is
modelled as `floor(x + 0.5)`. The test `Math.sqrt(d) < r` is modelled as
`d < r * r`.

Three behaviours of `app.js` that a reader might not expect, all modelled
as written:

- A failed polygon commit keeps the ring in progress. `polygonPoints` is
  cleared only after a successful create.
- Selecting another image does not clear the polygon in progress. Only
  `setTool` and a successful create clear it.
- The click that auto-closes a polygon is itself appended to the ring before
  the ring is committed. So after (0,0), (100,0), (100,100), a closing click
  at (2,2) commits four vertices with area 5000, not the three-vertex
  triangle.

## Model

| member | source | states |
|---|---|---|
| Geometry.Area | dist/static/app.js:345-353 | the area is non-negative and is half the absolute value of the shoelace sum over the closed ring (last vertex joined back to the first) |
| Geometry.CalculatePolygonArea | dist/static/app.js:345-353 | the loop with wrap-around index `(i + 1) % n` returns exactly `Area(points)` for every ring, including the empty one and those with one or two vertices |
| Geometry.ShoelaceStep | dist/static/app.js:347-351 | one iteration adds the cross term of vertex i and vertex `(i + 1) % n`, extending the open chain by one edge, and the last iteration adds the closing edge back to vertex 0 |
| Geometry.AreaOfFewerThanThree | dist/static/app.js:345-353 | a ring with fewer than three vertices has area 0 |
| Geometry.ShoelaceRotateOne | dist/static/app.js:347-351 | starting the ring at its second vertex leaves the signed shoelace sum unchanged |
| Geometry.AreaRotate | dist/static/app.js:345-353 | the area does not depend on which vertex the ring starts at |
| Geometry.ShoelaceReverse | dist/static/app.js:345-353 | reversing the ring's orientation negates the signed sum and leaves the area unchanged |
| Geometry.AreaTranslate | dist/static/app.js:345-353 | moving every vertex by the same vector leaves the signed sum and the area unchanged |
| Geometry.AreaCollinear | dist/static/app.js:345-353 | a ring whose vertices all lie on one line has area 0 |
| Geometry.AreaOfSquare | dist/static/app.js:345-353 | the axis-aligned k by k square (0,0), (k,0), (k,k), (0,k) has area k*k |
| Geometry.ChainCons | dist/static/app.js:347-351 | the open chain of cross terms splits at its first edge as well as at its last |
| Geometry.ChainSnoc | dist/static/app.js:347-351 | appending a vertex to the open chain adds exactly the cross term of the new edge |
| Geometry.ChainReverse | dist/static/app.js:347-351 | the open chain of a reversed vertex list is the negated chain |
| Geometry.ChainTranslate | dist/static/app.js:347-351 | translating the chain changes it only by the cross terms of its two end vertices with the vector |
| Geometry.ChainCollinear | dist/static/app.js:347-351 | the open chain over collinear vertices is the parameter difference of its ends times one constant cross term |
| Geometry.ShoelaceOfFour | dist/static/app.js:347-351 | the shoelace sum of a four-vertex ring is the sum of its four edge cross terms, wrap-around edge included |
| Geometry.CrossAntisymmetric | dist/static/app.js:349-350 | swapping an edge's endpoints negates its cross term |
| Geometry.CrossShift | dist/static/app.js:349-350 | how an edge's cross term changes when both endpoints are moved by one vector |
| Geometry.CrossOnLine | dist/static/app.js:349-350 | the cross term of two points on one line is their parameter difference times one constant |
| Geometry.Abs | dist/static/app.js:352 | the absolute value is the input or its negation, and is never negative |
| Geometry.Crosses | dist/static/app.js:394-395 | an edge counts as crossed only if one endpoint lies strictly above the point's row and the other at or below it (half-open in y), so the division in the x-test never divides by zero |
| Geometry.Crossings | dist/static/app.js:388-399 | the number of edges crossed among the first k is at most k |
| Geometry.IsPointInPolygon | dist/static/app.js:388-399 | the loop with the trailing index `j` (starting at the last vertex) returns exactly whether the rightward ray from the point crosses an odd number of the ring's edges |
| Geometry.CrossingBetween | dist/static/app.js:394-395 | the x-coordinate where a straddling edge meets the point's row lies between the edge's two x-coordinates, bounded above by the larger and below by the smaller |
| Geometry.NoCrossingFromTheRight | dist/static/app.js:394-395 | an edge with both endpoints at or left of the point is never crossed |
| Geometry.RightOfAllVerticesIsOutside | dist/static/app.js:388-399 | a point at or right of every vertex crosses no edge and is outside |
| Geometry.OutsideVerticalSpanIsOutside | dist/static/app.js:388-399 | when every vertex has y greater than the point's, or every vertex has y at most the point's, no edge is crossed and the point is outside |
| Geometry.SquareExamples | dist/static/app.js:388-399 | (5,5) is inside the square (0,0)-(10,10) and (15,15) is not |
| Geometry.DistSq | dist/static/app.js:312 | the squared distance is a natural number and is zero exactly when the points coincide |
| Geometry.WithinRadiusBounds | dist/static/app.js:312-314 | `WithinRadius`, the `Math.sqrt(d) < r` test as `d < r * r`: a point is within any positive radius of itself, and a point within the radius differs by less than the radius on each axis |
| ViewTransform.ClampScale | dist/static/app.js:166 | the clamped scale lies in [0.1, 10], equals its input inside that range and the nearer bound outside it |
| ViewTransform.Zoomed | dist/static/app.js:163-172 | the new scale is the old scale times the factor, clamped to [0.1, 10]; a zoom without a center leaves the translation unchanged |
| ViewTransform.UnprojectAfterZoom | dist/static/app.js:170-171 | the translation update `c - (c - t) * (s' / s)` keeps the drawing-space coordinate under viewport coordinate c |
| ViewTransform.ZoomKeepsCenterFixed | dist/static/app.js:163-172 | zooming about a center keeps the drawing-space point under the center fixed on both axes, also when the clamp reduces the factor applied |
| ViewTransform.WheelFactor | dist/static/app.js:159 | a positive wheel delta zooms by 0.9, any other by 1.1 |
| ViewTransform.WideImageFits | dist/static/app.js:202-205 | when the image is relatively wider than the canvas, the width-filling draw height fits the box height |
| ViewTransform.TallImageFits | dist/static/app.js:206-209 | otherwise the height-filling draw width fits the box width |
| ViewTransform.LetterboxFit | dist/static/app.js:197-210 | the fit as written, computed against the box canvas / s: non-empty, centred (twice the offset plus the draw size equals the box), aspect-preserving, and filling the box along at least one axis |
| ViewTransform.AxisWithin | dist/static/app.js:255-256 | along one axis, an image coordinate between 0 and the image extent is drawn between the drawn image's two on-screen edges |
| ViewTransform.PixelDrawnOnImage | dist/static/app.js:255-256 | `ImageToViewport`, drawAnnotation's map `offset + p * draw / img` under the canvas transform `translate` then `scale` (app.js:192-193), draws every pixel inside the image inside the image's on-screen rectangle |
| ViewTransform.ToImageAxis | dist/static/app.js:420-421 | the unrounded conversion `((c - t) / s - off) * (img / draw)` is the exact inverse of the drawing map along that axis |
| ViewTransform.AxisInverseWithin | dist/static/app.js:420-421 | along one axis, a viewport coordinate on the drawn image converts to a coordinate between 0 and the image extent |
| ViewTransform.ClickOnImageIsInImage | dist/static/app.js:420-423 | `ViewportToImage`, the rounded conversion, turns a click on the drawn image into a pixel between 0 and the image extent (plus half a pixel of rounding) on each axis |
| ViewTransform.Round | dist/static/app.js:423 | Math.round returns an integer within half a unit of its input, with halves rounded up |
| ViewTransform.RoundInt | dist/static/app.js:423 | rounding an integer returns it |
| ViewTransform.AxisRoundTrip | dist/static/app.js:420-421 | along one axis, converting the viewport position of image coordinate n back gives exactly n before rounding |
| ViewTransform.ImageRoundTrip | dist/static/app.js:255-256 | converting the viewport position where drawAnnotation puts pixel p gives back exactly p, for every view and fit |
| ViewTransform.WithinHalf | dist/static/app.js:423 | an error of at most half a pixel in image units stays within half that pixel's on-screen size |
| ViewTransform.AxisNearest | dist/static/app.js:420-423 | along one axis, the pixel a viewport coordinate converts to is drawn within half a pixel's on-screen size of it |
| ViewTransform.ViewportRoundTrip | dist/static/app.js:401-424 | the pixel a viewport point converts to is drawn within half an on-screen pixel of that point, on both axes |
| ViewTransform.ScreenSizeIgnoresScaleAsWritten | dist/static/app.js:203-209 | as written, the on-screen draw size and offset (scale times fit) do not depend on the scale at all |
| ViewTransform.ZoomMovesImagePointAsWritten | dist/static/app.js:157-172 | as written, one wheel step in (factor 1.1) about (50,50) on a 100x100 image and a 100x100 canvas changes the pixel under the cursor from (50,50) to (55,55) |
| ViewTransform.ScreenFit | dist/static/app.js:197-210 | the corrected fit lies inside the canvas itself, is centred and keeps the image's aspect ratio, independently of the zoom level |
| ViewTransform.ZoomKeepsImagePointUnderCursor | dist/static/app.js:163-172 | with the corrected fit, zooming about the cursor by any factor keeps the image pixel under the cursor, and its unrounded coordinate, unchanged |
| Annotations.AfterResponse | dist/static/app.js:573-584 | a successful reload replaces the store wholesale; a rejected request or a failed reload leaves it unchanged |
| Annotations.Hits | dist/static/app.js:362-373 | the delete tool's test: a click exactly on a point annotation hits it, a hit point is less than 15 pixels away on each axis, and a click at or right of every vertex of a polygon misses it |
| Annotations.FirstHit | dist/static/app.js:359-374 | the first annotation in store order that the pixel hits: a point within 15 pixels or a polygon containing it, none earlier hit; None exactly when nothing is hit |
| Annotations.FindAnnotationAt | dist/static/app.js:359-374 | the early-exit scan returns the index of the first hit, with no earlier annotation hit, and None only when no annotation is hit; it equals FirstHit |
| Annotations.DeleteRadiusExamples | dist/static/app.js:363-364 | a click at (58,58) hits a point annotation at (50,50); one at (70,70) does not |
| Editor.ClosesRingBounds | dist/static/app.js:309-314 | `ClosesRing`: a ring closes only with at least three vertices and its newest vertex less than 10 pixels from the first on each axis; a newest vertex exactly on the first always closes it |
| Editor.AutoCloseExamples | dist/static/app.js:309-316 | after (0,0), (100,0), (100,100), a click at (2,2) closes the ring and one at (30,40), 50 pixels from the first vertex, does not |
| Editor.AutoClosedRingArea | dist/static/app.js:303-318 | the ring committed by a closing click on the diagonal keeps that click as a fourth vertex and has area k*k/2 |
| Editor.EditorSession.constructor | dist/static/app.js:2-14 | the initial state: pan tool, lymphocyte label, no image, identity view, not dragging, no polygon in progress, empty store |
| Editor.EditorSession.ResizeCanvas | dist/static/app.js:40-47 | the canvas takes the container's size truncated to whole pixels, as the canvas's integer width and height store it, and the session stays valid |
| Editor.EditorSession.SetTool | dist/static/app.js:95-97 | the tool changes and the polygon in progress is dropped without being committed |
| Editor.EditorSession.SetLabel | dist/static/app.js:63-65 | the current label becomes the chosen one |
| Editor.EditorSession.Zoom | dist/static/app.js:163-176 | the new view is `Zoomed` of the old one, the scale stays in [0.1, 10], and the drawing-space point under the center is fixed |
| Editor.EditorSession.HandleWheel | dist/static/app.js:157-161 | the view is zoomed by the wheel factor about the pointer's offset |
| Editor.EditorSession.ResetView | dist/static/app.js:178-184 | the view becomes scale 1, translation (0, 0) |
| Editor.EditorSession.CurrentFit | dist/static/app.js:405-418 | the fit both drawImage and canvasToImageCoords compute, against the box canvas / scale, is non-empty |
| Editor.EditorSession.CanvasToImageCoords | dist/static/app.js:401-424 | (0,0) before an image has decoded; otherwise, with the fit as written, the pixel whose drawn position is within half an on-screen pixel of the viewport point |
| Editor.EditorSession.ImageToCanvas | dist/static/app.js:225-226 | the viewport position where drawImage, with the fit as written, draws pixel p converts back to exactly p |
| Editor.EditorSession.SelectImage | dist/static/app.js:506-538 | a found image record becomes current and the store is replaced by its reloaded annotations when that load succeeds; a failed lookup changes nothing |
| Editor.EditorSession.ImageDecoded | dist/static/app.js:902-905 | the decoded image's size becomes current and the view is reset to the identity |
| Editor.EditorSession.LoadAnnotations | dist/static/app.js:573-584 | a successful load replaces the whole store; a failed one leaves it |
| Editor.EditorSession.HandleMouseMove | dist/static/app.js:137-148 | while dragging, the translation is the pointer minus the drag anchor; otherwise the view is unchanged |
| Editor.EditorSession.HandleMouseUp | dist/static/app.js:150-155 | dragging ends |
| Editor.EditorSession.AddPointAnnotation | dist/static/app.js:278-301 | with an image selected, exactly one point is created, at the converted pixel with the current label, and the store follows the response; without one nothing is sent |
| Editor.EditorSession.Commit | dist/static/app.js:293-296 | the store after a create or delete is AfterResponse of the old store |
| Editor.EditorSession.CompletePolygon | dist/static/app.js:320-343 | below three vertices nothing is sent; otherwise the ring is sent with its shoelace area and cleared only if the create is accepted; every request has at least three vertices |
| Editor.EditorSession.AddPolygonPoint | dist/static/app.js:303-318 | the converted click is appended; if the ring then has three or more vertices and the click lies within 10 pixels of the first vertex, the whole ring, click included, is committed; otherwise nothing is sent |
| Editor.EditorSession.DeleteAnnotationAt | dist/static/app.js:355-375 | exactly the first annotation, in store order, hit by the converted click is deleted; when none is hit nothing is sent and the store is unchanged |
| Editor.EditorSession.HandleMouseDown | dist/static/app.js:118-135 | pan mode anchors a drag so that the grabbed point follows the pointer; the other tools act only with an image selected, each as its handler states; at most one request per click |
| Scenarios.ClickPolygonAt | dist/static/app.js:303-318 | a polygon-tool click where pixel p is drawn appends exactly p, and commits the ring when p closes it |
| Scenarios.ClickNoClose | dist/static/app.js:303-318 | a polygon-tool click that does not close the ring appends its pixel and sends nothing |
| Scenarios.ClickThreeCorners | dist/static/app.js:303-318 | from an empty ring, three clicks at (0,0), (k,0), (k,k) leave exactly those three vertices in progress |
| Scenarios.CornersDoNotClose | dist/static/app.js:309-316 | three corners (0,0), (k,0), (k,k) of a square with side k >= 8 do not close the ring |
| Scenarios.DiagonalCloses | dist/static/app.js:309-316 | after three vertices starting at (0,0), a fourth vertex (d,d) with 0 <= d <= 7 closes the ring |
| Scenarios.RingOfTheScenario | dist/static/app.js:309-316 | three corners (0,0), (k,0), (k,k) do not close for any k >= 8; a fourth vertex (d,d) with 0 <= d <= 7 closes the ring, and the ring's area is k*k/2 |

## Left out

- Network I/O, JSON parsing and the `async` interleaving of handlers are
  not modelled. Each exchange is one atomic step whose outcome is a
  parameter, so a click arriving while a commit is in flight is not
  modelled.
- Project and image lists, statistics, AI analysis, export, notifications,
  the annotation side list, cursor styles and all canvas drawing calls are
  not modelled. Drawing appears only as the map from image pixels to
  viewport positions.
- The server (`src/index.tsx`) is not part of this model.
- IEEE-754 floating point is not modelled. Arithmetic is exact over the
  reals, so rounding error in the fit and in `canvasToImageCoords` is not
  captured.
- Editor.EditorSession.ResizeCanvas requires a container at least one
  pixel wide and high. A smaller one truncates to a zero-size canvas, where
  the source divides by zero and produces non-finite coordinates (mostly
  infinities, NaN when the numerator is also zero), which are not modelled.
- Stored annotation coordinates are integer pixels. The service also
  accepts non-integer coordinates sent directly in a create or update
  request, and those are not modelled.

## Findings

| source | as written | input that shows it | evidently intended | confidence | as-written member | corrected member |
|---|---|---|---|---|---|---|
| dist/static/app.js:203-209 | the fit is computed against `canvas.width / scale` and `canvas.height / scale`, and then the canvas transform scales by `scale`, so the two cancel: zoom does not magnify the image, and zooming about the cursor moves the image pixel under it | 100x100 image on a 100x100 canvas, identity view, one wheel step in (factor 1.1) about (50, 50): the pixel under the cursor changes from (50, 50) to (55, 55) | the fit depends only on the canvas and the image, so the canvas transform alone magnifies and the pixel under the cursor stays put | not executed | ViewTransform.ZoomMovesImagePointAsWritten | ViewTransform.ZoomKeepsImagePointUnderCursor |

`Editor.EditorSession` keeps the behaviour as written: its conversions use
`ViewTransform.LetterboxFit` with the current scale (`CurrentFit`), so every
click handler converts clicks exactly as `app.js` does, drift included.
`ViewTransform.ScreenFit` and `ViewTransform.ZoomKeepsImagePointUnderCursor`
state the intended fit and the property it restores.
