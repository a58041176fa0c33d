# COCO dataset formatter — a verified model

This project models the core of `dataproc/coco_formatter.py`. That file turns per-image binary object masks into a COCO instance-segmentation document. COCO (Common Objects in Context) is a detection format, used here in its polygon form (`iscrowd = 0`).

The model covers:

- **The aggregation walk** (`process_db_list`). It visits databases, then image entries, then masks, in order.
  - A mask whose category name is not in the name→id table is skipped.
  - Every other mask becomes an annotation record. The record is kept only when it passes the validity rule.
  - The annotation counter advances only on a kept annotation.
  - An entry with no kept annotation is skipped altogether.
  - A kept entry gets the next image id, the file name `"{:05}.png"` of that id, and an image-info record.
- **The validity rule** (`_check_annotation_valid`). In this order, it rejects an annotation with no polygon, then an area strictly below the threshold, then a box narrower or lower than the minimums.
- **Polygon post-processing** (`get_polygons` after contour tracing). It shifts points by −1 to undo the padding, closes open rings, and drops rings of fewer than three points. Then it swaps (row, col) to (x, y), flattens the points, and clamps negative values to 0.
- **Record building**: the annotation record, the image-info record, the output document, and the category table built by the constructor.
- **Area and bounding box**, which the source gets from pycocotools. Here they are specification functions on a raster of booleans: area is the number of foreground pixels, and the bounding box is the tight (x, y, width, height) box.

Module layout:

| file | module | contents |
|---|---|---|
| `geometry.dfy` | `MaskGeometry` | masks, `Area`, `BBox`, and their properties |
| `polygons.dfy` | `Polygons` | contours, rings, `PolygonsOf` (the specification) and the `GetPolygons` loop |
| `filenames.dfy` | `FileNames` | the zero-padded image file name, and that it decodes back to the id |
| `records.dfy` | `Records` | configuration, records, the validity rule, `GetAnnotationInfo`, and the category-table loop |
| `aggregation.dfy` | `Aggregation` | the walk as a fold over input prefixes, its invariants, and the `Formatter` class with the `ProcessDbList` loops proved against that fold |

`ProcessDbList` keeps the source's counters and lists as local variables and runs nested loops. Three inner loops are written as methods of their own, each proved against the same fold:

- the loop over one entry's masks (`EntryAnnotationList`);
- the loop over one database's image entries (`DatabaseEntries`);
- the loop that appends an entry's annotations to the global list (`AppendEach`).

The walk is specified by `ProcessAll` / `ProcessDatabase` / `ProcessEntry` / `EntryAnnotations`, which are folds over prefixes of the input. The loop invariants say that the local variables equal the fold over the prefix visited so far. The document properties are then proved about the fold.

The validity threshold on the area is compared with a strict `<` in the code. So an area exactly equal to the threshold is accepted (`Records.ValidIff`, `Records.DefaultRule`).

## Model

| member | source | states |
|---|---|---|
| MaskGeometry.BBox | dataproc/coco_formatter.py:184-188 | the box has non-negative integer x, y, width and height |
| MaskGeometry.BBoxTight | dataproc/coco_formatter.py:184-188 | for a non-empty mask, the box contains every foreground pixel and touches the foreground on all four sides; an empty mask gets the all-zero box |
| MaskGeometry.Area | dataproc/coco_formatter.py:179-182 | the number of foreground pixels, as the specification of the encoded area; its properties are `AreaZeroIff` and `AreaFitsBox` |
| MaskGeometry.AreaZeroIff | dataproc/coco_formatter.py:179-182 | the area (foreground pixel count) is 0 exactly when the mask has no foreground pixel |
| MaskGeometry.AreaFitsBox | dataproc/coco_formatter.py:179-188 | the area never exceeds width × height of the box, and is positive exactly when the box has positive width |
| Polygons.Unpad | dataproc/coco_formatter.py:203 | the −1 shift that undoes the one-pixel padding of the traced mask; what it preserves is stated by `UnpadKeepsShape` |
| Polygons.UnpadAll | dataproc/coco_formatter.py:203 | the shift applied to every traced contour; what it preserves is stated by `UnpadKeptCount` |
| Polygons.UnpadKeepsShape | dataproc/coco_formatter.py:203-206 | shifting then closing equals closing then shifting, and a contour yields a ring after the shift exactly when it did before |
| Polygons.UnpadKeptCount | dataproc/coco_formatter.py:203-214 | the shift never changes which traced contours produce a ring, so the number of rings returned equals the number of traced contours with at least 3 points once closed |
| Polygons.Close | dataproc/coco_formatter.py:205-206 | a contour whose first and last points are equal is returned unchanged; otherwise its first point is appended; either way the result starts and ends on the same point |
| Polygons.Ravel | dataproc/coco_formatter.py:210-211 | the flattened list has two numbers per point, with point k's column at 2k and its row at 2k+1 (the (row, col) → (x, y) flip) |
| Polygons.RingOf | dataproc/coco_formatter.py:205-214 | an emitted ring is well formed (closed, at least 3 points, even length, no negative value) and its k-th pair is the clamped (column, row) of the k-th point |
| Polygons.PolygonsOf | dataproc/coco_formatter.py:199-217 | at most one ring per contour, and every ring well formed |
| Polygons.PolygonsCount | dataproc/coco_formatter.py:204-214 | the number of rings equals the number of contours with at least 3 points once closed |
| Polygons.PolygonsEmptyIff | dataproc/coco_formatter.py:204-214 | no ring comes out exactly when every contour is too short |
| Polygons.GetPolygons | dataproc/coco_formatter.py:199-217 | the loop computes `PolygonsOf` of the shifted contours, so every ring it returns is well formed |
| FileNames.FileName | dataproc/coco_formatter.py:128-129 | the name is at least five digits followed by ".png", and for ids of 10000 or more it has no leading zero (no padding beyond the id's own digits) |
| FileNames.FileNameValue | dataproc/coco_formatter.py:128-129 | the digits of the name denote the image id |
| FileNames.FileNameInjective | dataproc/coco_formatter.py:128-129 | distinct image ids get distinct file names; ids below 100000 give names of exactly 9 characters |
| Records.IsValid | dataproc/coco_formatter.py:219-231 | the rejection chain in the code's order; read positively by `ValidIff` |
| Records.ValidIff | dataproc/coco_formatter.py:219-231 | valid exactly when the segmentation is non-empty, area ≥ threshold (equality accepted), width ≥ minimum width and height ≥ minimum height |
| Records.DefaultRule | dataproc/coco_formatter.py:34-37 | with the class defaults (5.0, 5.0, 25.0) an annotation is valid exactly when it has a polygon, area at least 25 and a box at least 5 by 5; a 5 by 5 box of area exactly 25 passes |
| Records.AnnotationOf | dataproc/coco_formatter.py:161-169 | the record built from ids, mask and contours; its shape is stated by `AnnotationShape` |
| Records.AnnotationShape | dataproc/coco_formatter.py:146-169 | the record carries the caller's ids, iscrowd 0, well-formed rings, non-negative integer bbox fields, and an area within the box that is positive exactly when the box is non-empty |
| Records.ValidIffAccepted | dataproc/coco_formatter.py:146-173 | validity of the built record depends on the mask and its contours only, never on the ids |
| Records.GetAnnotationInfo | dataproc/coco_formatter.py:146-173 | returns the record for the mask and whether it is valid; valid exactly when the mask is accepted |
| Records.BuildCategoryTable | dataproc/coco_formatter.py:75-79 | the keys are exactly the configured names, and a name listed twice maps to the id of its later entry |
| Aggregation.Formatter.constructor | dataproc/coco_formatter.py:62-79 | needs non-empty db name and base folder, keeps the configuration, and builds the category table as above |
| Aggregation.EntryAnnotations | dataproc/coco_formatter.py:93-114 | the annotations one entry keeps, as a fold over its masks; stated by `EntryAnnotationsInOrder`, `EntryAnnotationsBatch`, `EntryAnnotationsCount` and `SkippedMaskInvisible`, and computed by `EntryAnnotationList` |
| Aggregation.ProcessEntry | dataproc/coco_formatter.py:90-135 | the walk state after one image entry; stated by `EmptyEntryDropped`, `KeptEntryLinked` and `ProcessEntryWellFormed` |
| Aggregation.ProcessDatabase | dataproc/coco_formatter.py:89-135 | the walk state after one database; stated by `ProcessDatabaseCounts` and `EmptyEntryInvisible` |
| Aggregation.ProcessAll | dataproc/coco_formatter.py:88-135 | the walk state after every database; stated by `ProcessAllWellFormed` and computed by `ProcessDbList` |
| Aggregation.EntryAnnotationsBatch | dataproc/coco_formatter.py:93-114 | an entry's kept annotations carry consecutive ids from the first free one, all name the entry's image id, and all are valid with a known category id and iscrowd 0 |
| Aggregation.EntryAnnotationsInOrder | dataproc/coco_formatter.py:94-114 | an entry keeps exactly the records of its accepted masks, in mask order: the k-th kept record is built from the k-th accepted mask, with id first-free + k, the entry's image id and the table's id for that mask's own category name |
| Aggregation.RecordsOfAt | dataproc/coco_formatter.py:102-114 | the k-th record of the reference list is `AnnotationOf(firstId + k, imageId, name2id[name of mask k], mask k, contours of mask k)` |
| Aggregation.AllAcceptedMasks | dataproc/coco_formatter.py:94-114 | when every mask is accepted, the accepted masks are all the masks, so the k-th kept record is the k-th mask's |
| Aggregation.AllAcceptedKept | dataproc/coco_formatter.py:94-114 | when every mask of an entry is accepted, it keeps one record per mask, and the k-th is built from the k-th mask with id first-free + k and that mask's own category id |
| Aggregation.EntryAnnotationsCount | dataproc/coco_formatter.py:94-114 | an entry keeps exactly one annotation per accepted mask, so the annotation counter advances once per accepted mask |
| Aggregation.SkippedMaskInvisible | dataproc/coco_formatter.py:98-114 | a mask of unknown category or failing the rule leaves the kept annotations, and hence every id, as if it were absent |
| Aggregation.EmptyEntryDropped | dataproc/coco_formatter.py:116-118 | an entry with no accepted mask changes neither counter nor list |
| Aggregation.EmptyEntryInvisible | dataproc/coco_formatter.py:116-118 | such an entry can be removed from its database without changing the result |
| Aggregation.KeptEntryLinked | dataproc/coco_formatter.py:105-135 | an entry changes the state exactly when it has an accepted mask; a kept entry appends exactly the image info with the next image id, the entry's width and height, the file name of that id and the capture date, keeps the old annotations as a prefix, and every annotation it adds refers to that image's id; the appended info is the record of `_get_image_info` (lines 233-257), `Records.ImageInfoOf` |
| Aggregation.ProcessEntryWellFormed | dataproc/coco_formatter.py:90-135 | one entry preserves the walk invariant: counters equal list lengths, dense zero-based ids, file names from ids, license 1 and empty URLs on every image, valid annotations referring to listed images in grouped order |
| Aggregation.ProcessAllWellFormed | dataproc/coco_formatter.py:81-135 | the invariant holds after any sequence of databases |
| Aggregation.ProcessDatabaseCounts | dataproc/coco_formatter.py:83-135 | after a database, the annotation counter and list grew by its accepted masks, and the image counter and list by its entries with at least one |
| Aggregation.EveryImageAnnotated | dataproc/coco_formatter.py:116-135 | every listed image is referred to by at least one annotation |
| Aggregation.DocumentConsistent | dataproc/coco_formatter.py:81-143 | the final document lists the configured categories and the walk's images and annotations, with dense ids, file names from ids, license 1 and empty URLs, only valid annotations, and references complete in both directions; the document is that of `_get_coco_output_from_images_and_annotations` (lines 259-268), `Records.CocoOutput` |
| Aggregation.Formatter.EntryAnnotationList | dataproc/coco_formatter.py:93-114 | the mask loop returns exactly the entry's kept annotations and the advanced annotation counter |
| Aggregation.Formatter.AppendEach | dataproc/coco_formatter.py:119-121 | appending one by one yields the old list followed by the new items |
| Aggregation.Formatter.DatabaseEntries | dataproc/coco_formatter.py:90-135 | the loop over one database's entries leaves the counters and lists of the specified walk over that database |
| Aggregation.Formatter.ProcessDbList | dataproc/coco_formatter.py:81-143 | the loops build the document of the specified walk, and that document is consistent |

## Left out

- File system and output: creating folders, writing images, `_write_coco_to_json` and the `json_file_path` property (lines 21-29, 69-72, 127-130, 144, 270-276). The model returns the document instead of writing it.
- pycocotools run-length encoding, `mask.area` and `mask.toBbox` (lines 176-188): area and box are specification functions on the raster. The float-to-int cast of the box is exact for a pixel raster, so the box is modelled with integers.
- `skimage.measure.find_contours` (marching squares on the padded mask, lines 200-202): each mask entry carries the contours the tracer finds on it, as input. The model does not check that those contours belong to the mask. `approximate_polygon` is applied with tolerance 0, which returns its input (lines 196-197, 207), so it is the identity here.
- Floating point: coordinates and thresholds are `real`. `float(area)` is exact.
- `INFO` and `LICENSES` (lines 39-55) are static metadata and are not in the document model. The `utcnow()` default of `date_captured` (line 242) is evaluated once, when Python defines the function, so one `dateCaptured` parameter is shared by every image info.
- The progress `print` (lines 137-139), and `test_formatter` / `__main__` (lines 279-298).
- The database loaders (`AbstractMaskDatabase`) are not part of this model. A database is a sequence of entries, and an entry's RGB image is represented by its width and height only. The three-channel shape unpacking (line 125) is not modelled.
- The `'name'` / `'id'` key assertions of the constructor (lines 77-78) hold by construction: a category is a record with both fields.
- `np.subtract` on the contour list (line 203) is modelled as a point-by-point shift of −1 of every contour. This is what NumPy before 1.24 does when the contours have different lengths: it builds an object array and shifts each contour. From NumPy 1.24 on, that conversion of a ragged list raises `ValueError`. The model does not capture that failure.
