/** The records the formatter builds: its configuration, the category
    table, one annotation per accepted mask, one image entry per kept image
    and the final document. Also the validity rule that decides whether an
    annotation is kept. */
module Records {
  import opened MaskGeometry
  import opened Polygons

  /** One configured object category. The source's dictionaries must carry
      both keys; here the type guarantees it. */
  datatype Category = Category(name: string, id: int)

  /** The formatter's configuration: output names, the category list and the
      three thresholds of the validity rule. */
  datatype Config = Config(
    dbName: string,
    baseFolder: string,
    objectCategory: seq<Category>,
    bboxMinWidth: real,
    bboxMinHeight: real,
    areaThreshold: real)

  const DefaultBboxMinWidth: real := 5.0
  const DefaultBboxMinHeight: real := 5.0
  const DefaultAreaThreshold: real := 25.0

  function DefaultConfig(dbName: string, baseFolder: string, categories: seq<Category>): Config
  {
    Config(dbName, baseFolder, categories, DefaultBboxMinWidth, DefaultBboxMinHeight, DefaultAreaThreshold)
  }

  /** A polygon-form annotation (iscrowd = 0). */
  datatype Annotation = Annotation(
    id: nat,
    imageId: nat,
    categoryId: int,
    segmentation: seq<Ring>,
    area: real,
    bbox: Box,
    iscrowd: int)

  datatype ImageInfo = ImageInfo(
    id: nat,
    width: nat,
    height: nat,
    fileName: string,
    license: int,
    flickrUrl: string,
    cocoUrl: string,
    dateCaptured: string)

  /** The output document; the static "info" and "licenses" blocks are not modelled. */
  datatype CocoDocument = CocoDocument(
    categories: seq<Category>,
    images: seq<ImageInfo>,
    annotations: seq<Annotation>)

  /** The validity rule, in the source's order of checks: no polygon, too
      small an area (strictly below the threshold), or too narrow or too low
      a box rejects the annotation. */
  predicate IsValid(ann: Annotation, config: Config)
  {
    if |ann.segmentation| == 0 then false
    else if ann.area < config.areaThreshold then false
    else if ann.bbox.width as real < config.bboxMinWidth || ann.bbox.height as real < config.bboxMinHeight then false
    else true
  }

  /** The rule read positively: an annotation is valid exactly when it has a
      polygon, its area reaches the threshold (equality is enough) and its box
      is at least as wide and as high as the minimums. */
  lemma ValidIff(ann: Annotation, config: Config)
    ensures IsValid(ann, config) <==>
      && |ann.segmentation| > 0
      && ann.area >= config.areaThreshold
      && ann.bbox.width as real >= config.bboxMinWidth
      && ann.bbox.height as real >= config.bboxMinHeight
  {
  }

  /** Under the class defaults the rule needs a polygon, at least 25 pixels
      and a box of at least 5 by 5 pixels; a 5 by 5 box of area exactly 25 is
      on the accepted side of the boundary. */
  lemma DefaultRule(ann: Annotation, dbName: string, baseFolder: string, categories: seq<Category>)
    ensures IsValid(ann, DefaultConfig(dbName, baseFolder, categories)) <==>
      && |ann.segmentation| > 0
      && ann.area >= 25.0
      && ann.bbox.width >= 5
      && ann.bbox.height >= 5
    ensures |ann.segmentation| > 0 && ann.area == 25.0 && ann.bbox.width == 5 && ann.bbox.height == 5 ==>
      IsValid(ann, DefaultConfig(dbName, baseFolder, categories))
  {
    ValidIff(ann, DefaultConfig(dbName, baseFolder, categories));
  }

  /** Whether a mask with these traced contours passes the validity rule,
      stated on the mask alone (no identifier plays a part). */
  ghost predicate MaskAccepted(mask: Mask, contours: seq<Contour>, config: Config)
  {
    && KeptCount(UnpadAll(contours)) > 0
    && Area(mask) as real >= config.areaThreshold
    && BBox(mask).width as real >= config.bboxMinWidth
    && BBox(mask).height as real >= config.bboxMinHeight
  }

  /** The annotation record built for one mask. */
  function AnnotationOf(annotationId: nat, imageId: nat, categoryId: int, mask: Mask, contours: seq<Contour>): Annotation
  {
    Annotation(
      annotationId, imageId, categoryId,
      PolygonsOf(UnpadAll(contours)),
      Area(mask) as real,
      BBox(mask),
      0)
  }

  /** The shape of every built record: the caller's identifiers, iscrowd 0,
      well-formed rings, a box with non-negative integer fields, and an area
      that fits the box and is positive exactly when the box is not empty. */
  lemma AnnotationShape(annotationId: nat, imageId: nat, categoryId: int, mask: Mask, contours: seq<Contour>)
    ensures var a := AnnotationOf(annotationId, imageId, categoryId, mask, contours);
      && a.id == annotationId && a.imageId == imageId && a.categoryId == categoryId
      && a.iscrowd == 0
      && (forall k :: 0 <= k < |a.segmentation| ==> WellFormedRing(a.segmentation[k]))
      && a.bbox.x >= 0 && a.bbox.y >= 0 && a.bbox.width >= 0 && a.bbox.height >= 0
      && 0.0 <= a.area <= (a.bbox.width * a.bbox.height) as real
      && (a.area > 0.0 <==> a.bbox.width > 0)
  {
    var a := AnnotationOf(annotationId, imageId, categoryId, mask, contours);
    var b := BBox(mask);
    AreaFitsBox(mask);
    var boxArea := b.width * b.height;
    assert a.area == Area(mask) as real && a.bbox == b;
    assert Area(mask) as real <= boxArea as real;
  }

  /** _get_annotation_info: builds the record and reports whether it is
      valid; validity depends on the mask alone, never on the identifiers. */
  method GetAnnotationInfo(annotationId: nat, imageId: nat, categoryId: int, mask: Mask,
                           contours: seq<Contour>, config: Config)
    returns (isValidity: bool, annotation: Annotation)
    ensures annotation == AnnotationOf(annotationId, imageId, categoryId, mask, contours)
    ensures isValidity == IsValid(annotation, config)
    ensures isValidity <==> MaskAccepted(mask, contours, config)
  {
    var area := Area(mask);
    var box := BBox(mask);
    var segmentation := GetPolygons(contours);
    annotation := Annotation(annotationId, imageId, categoryId, segmentation, area as real, box, 0);
    isValidity := IsValid(annotation, config);
    ValidIffAccepted(annotationId, imageId, categoryId, mask, contours, config);
  }

  /** Whether the built annotation is valid depends on the mask and its
      contours alone, never on the identifiers it is given. */
  lemma ValidIffAccepted(annotationId: nat, imageId: nat, categoryId: int, mask: Mask,
                         contours: seq<Contour>, config: Config)
    ensures IsValid(AnnotationOf(annotationId, imageId, categoryId, mask, contours), config)
      <==> MaskAccepted(mask, contours, config)
  {
    PolygonsCount(UnpadAll(contours));
  }

  /** _get_image_info with its default arguments: license 1, no URLs. */
  function ImageInfoOf(imageId: nat, width: nat, height: nat, fileName: string, dateCaptured: string): (info: ImageInfo)
    ensures info.id == imageId && info.fileName == fileName
    ensures info.license == 1 && info.flickrUrl == "" && info.cocoUrl == ""
  {
    ImageInfo(imageId, width, height, fileName, 1, "", "", dateCaptured)
  }

  /** The document: the configured categories as given, the images and the
      annotations, unfiltered. */
  function CocoOutput(config: Config, images: seq<ImageInfo>, annotations: seq<Annotation>): (doc: CocoDocument)
    ensures doc.categories == config.objectCategory
    ensures doc.images == images && doc.annotations == annotations
  {
    CocoDocument(config.objectCategory, images, annotations)
  }

  /** Position i holds the last category carrying its name among the first n. */
  ghost predicate LastWithName(categories: seq<Category>, i: int, n: int)
    requires 0 <= i < n <= |categories|
  {
    forall j :: i < j < n ==> categories[j].name != categories[i].name
  }

  /** The name-to-id table of __init__: every configured name is a key, no
      other key exists, and a name listed twice maps to the id of its later
      entry. */
  method BuildCategoryTable(categories: seq<Category>) returns (name2id: map<string, int>)
    ensures name2id.Keys == set i | 0 <= i < |categories| :: categories[i].name
    ensures forall i :: 0 <= i < |categories| && LastWithName(categories, i, |categories|) ==>
      name2id[categories[i].name] == categories[i].id
  {
    name2id := map[];
    var k := 0;
    while k < |categories|
      invariant 0 <= k <= |categories|
      invariant name2id.Keys == set i | 0 <= i < k :: categories[i].name
      invariant forall i :: 0 <= i < k && LastWithName(categories, i, k) ==>
        name2id[categories[i].name] == categories[i].id
    {
      var category := categories[k];
      name2id := name2id[category.name := category.id];
      k := k + 1;
    }
  }
}
