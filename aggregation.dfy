/** process_db_list: walks the databases, their image entries and each
    entry's masks in order, keeps the annotations that pass the validity rule,
    and gives out image and annotation identifiers only to what is kept.

    The first half states the walk as functions over prefixes of the input
    (the state after the first n items); the lemmas after them prove the
    identifier and integrity properties of that state; the class at the end
    is the formatter itself, whose loops are proved to compute it. */
module Aggregation {
  import opened MaskGeometry
  import opened Polygons
  import opened FileNames
  import opened Records

  /** One mask of an image entry, with the contours the tracer finds on it
      (on the mask padded by one pixel, before the -1 shift). */
  datatype AnnotationEntry = AnnotationEntry(binaryMask: Mask, categoryName: string, contours: seq<Contour>)

  /** One image of a source database: the size of its RGB image and its masks. */
  datatype ImageEntry = ImageEntry(width: nat, height: nat, annotationList: seq<AnnotationEntry>)

  type Database = seq<ImageEntry>

  /** What the walk reads besides its input: the category table, the
      configuration, and the one capture date every image info carries. */
  datatype Context = Context(name2id: map<string, int>, config: Config, dateCaptured: string)

  /** The walk's variables: both counters and both global lists. */
  datatype State = State(imageId: nat, annotationId: nat, images: seq<ImageInfo>, annotations: seq<Annotation>)

  const Start: State := State(0, 0, [], [])

  /** A mask yields an annotation: its category is known and it passes the
      validity rule. */
  ghost predicate Accepted(ctx: Context, m: AnnotationEntry)
  {
    m.categoryName in ctx.name2id && MaskAccepted(m.binaryMask, m.contours, ctx.config)
  }

  /** The annotations kept for one image entry whose masks are `masks`,
      given the entry's tentative image id and the next free annotation id. */
  function EntryAnnotations(ctx: Context, masks: seq<AnnotationEntry>, imageId: nat, firstId: nat): (kept: seq<Annotation>)
    ensures |kept| <= |masks|
  {
    if masks == [] then []
    else NextKept(ctx, EntryAnnotations(ctx, masks[..|masks| - 1], imageId, firstId), masks[|masks| - 1], imageId, firstId)
  }

  /** One step of the mask loop: a mask of unknown category is skipped;
      otherwise its annotation takes the next id and is kept when valid. */
  function NextKept(ctx: Context, kept: seq<Annotation>, m: AnnotationEntry, imageId: nat, firstId: nat): seq<Annotation>
  {
    if m.categoryName !in ctx.name2id then kept
    else
      var ann := AnnotationOf(firstId + |kept|, imageId, ctx.name2id[m.categoryName], m.binaryMask, m.contours);
      if IsValid(ann, ctx.config) then kept + [ann] else kept
  }

  /** The step once the annotation of a known-category mask is built. */
  lemma KeepStep(ctx: Context, kept: seq<Annotation>, m: AnnotationEntry, imageId: nat, firstId: nat,
                 ann: Annotation, isValidity: bool)
    requires m.categoryName in ctx.name2id
    requires ann == AnnotationOf(firstId + |kept|, imageId, ctx.name2id[m.categoryName], m.binaryMask, m.contours)
    requires isValidity == IsValid(ann, ctx.config)
    ensures NextKept(ctx, kept, m, imageId, firstId) == if isValidity then kept + [ann] else kept
  {
  }

  lemma EntryAnnotationsStep(ctx: Context, masks: seq<AnnotationEntry>, i: nat, imageId: nat, firstId: nat)
    requires i < |masks|
    ensures EntryAnnotations(ctx, masks[..i + 1], imageId, firstId)
      == NextKept(ctx, EntryAnnotations(ctx, masks[..i], imageId, firstId), masks[i], imageId, firstId)
  {
    assert masks[..i + 1][..i] == masks[..i];
  }

  /** One image entry: its annotations are appended and it receives the next
      image id and file name, unless none of its masks was kept. */
  function ProcessEntry(ctx: Context, s: State, e: ImageEntry): State
  {
    var kept := EntryAnnotations(ctx, e.annotationList, s.imageId, s.annotationId);
    if kept == [] then s
    else
      var info := ImageInfoOf(s.imageId, e.width, e.height, FileName(s.imageId), ctx.dateCaptured);
      State(s.imageId + 1, s.annotationId + |kept|, s.images + [info], s.annotations + kept)
  }

  /** The state after the given entries of one database. */
  function ProcessDatabase(ctx: Context, s: State, entries: seq<ImageEntry>): State
  {
    if entries == [] then s
    else ProcessEntry(ctx, ProcessDatabase(ctx, s, entries[..|entries| - 1]), entries[|entries| - 1])
  }

  lemma ProcessDatabaseStep(ctx: Context, s: State, entries: seq<ImageEntry>, j: nat)
    requires j < |entries|
    ensures ProcessDatabase(ctx, s, entries[..j + 1]) == ProcessEntry(ctx, ProcessDatabase(ctx, s, entries[..j]), entries[j])
  {
    assert entries[..j + 1][..j] == entries[..j];
  }

  /** The entry loop's step, given the annotations the entry keeps. */
  lemma EntryStep(ctx: Context, s: State, entries: seq<ImageEntry>, j: nat, kept: seq<Annotation>)
    requires j < |entries|
    requires var u := ProcessDatabase(ctx, s, entries[..j]);
      kept == EntryAnnotations(ctx, entries[j].annotationList, u.imageId, u.annotationId)
    ensures var u := ProcessDatabase(ctx, s, entries[..j]);
      ProcessDatabase(ctx, s, entries[..j + 1])
        == if kept == [] then u
           else State(u.imageId + 1, u.annotationId + |kept|,
                      u.images + [ImageInfoOf(u.imageId, entries[j].width, entries[j].height, FileName(u.imageId), ctx.dateCaptured)],
                      u.annotations + kept)
  {
    ProcessDatabaseStep(ctx, s, entries, j);
  }

  /** The state after the given databases. */
  function ProcessAll(ctx: Context, s: State, databases: seq<Database>): State
  {
    if databases == [] then s
    else ProcessDatabase(ctx, ProcessAll(ctx, s, databases[..|databases| - 1]), databases[|databases| - 1])
  }

  lemma ProcessAllStep(ctx: Context, s: State, databases: seq<Database>, d: nat)
    requires d < |databases|
    ensures ProcessAll(ctx, s, databases[..d + 1]) == ProcessDatabase(ctx, ProcessAll(ctx, s, databases[..d]), databases[d])
  {
    assert databases[..d + 1][..d] == databases[..d];
  }

  /** An annotation as the walk keeps it: a known category id, iscrowd 0,
      and valid under the configured thresholds. */
  ghost predicate KeptAnnotation(ctx: Context, a: Annotation)
  {
    a.categoryId in ctx.name2id.Values && a.iscrowd == 0 && IsValid(a, ctx.config)
  }

  /** Image k has id k and is written as FileName(k). */
  ghost predicate ImagesNumbered(images: seq<ImageInfo>)
  {
    forall k :: 0 <= k < |images| ==> images[k].id == k && images[k].fileName == FileName(k)
  }

  /** Every image info carries the defaults of _get_image_info (license 1,
      no URLs) and the capture date of the walk. */
  ghost predicate ImagesStamped(ctx: Context, images: seq<ImageInfo>)
  {
    forall k :: 0 <= k < |images| ==>
      images[k].license == 1 && images[k].flickrUrl == "" && images[k].cocoUrl == "" && images[k].dateCaptured == ctx.dateCaptured
  }

  /** Annotation k has id k, refers to one of the first n images and was kept. */
  ghost predicate AnnotationsNumbered(ctx: Context, anns: seq<Annotation>, n: nat)
  {
    forall k :: 0 <= k < |anns| ==> anns[k].id == k && anns[k].imageId < n && KeptAnnotation(ctx, anns[k])
  }

  /** Consecutive annotations belong to the same image or to the next one. */
  ghost predicate ImagesInOrder(anns: seq<Annotation>)
  {
    forall k :: 0 < k < |anns| ==> anns[k - 1].imageId <= anns[k].imageId <= anns[k - 1].imageId + 1
  }

  /** The references start at image 0 and end at the last of n images. */
  ghost predicate RefsSpan(anns: seq<Annotation>, n: nat)
  {
    && (|anns| == 0 <==> n == 0)
    && (|anns| > 0 ==> anns[0].imageId == 0 && anns[|anns| - 1].imageId == n - 1)
  }

  /** The invariant of the walk: each counter is the length of its list;
      images and annotations carry dense, zero-based ids; every annotation is
      valid and refers to an image already listed; annotations come grouped
      by image, in image order, and each image has at least one. */
  ghost predicate WellFormed(ctx: Context, s: State)
  {
    && s.imageId == |s.images|
    && s.annotationId == |s.annotations|
    && ImagesNumbered(s.images)
    && ImagesStamped(ctx, s.images)
    && AnnotationsNumbered(ctx, s.annotations, |s.images|)
    && ImagesInOrder(s.annotations)
    && RefsSpan(s.annotations, |s.images|)
  }

  /** The annotations kept for one entry, as EntryAnnotations promises them. */
  ghost predicate EntryBatch(ctx: Context, kept: seq<Annotation>, imageId: nat, firstId: nat)
  {
    forall k :: 0 <= k < |kept| ==> kept[k].id == firstId + k && kept[k].imageId == imageId && KeptAnnotation(ctx, kept[k])
  }

  /** The annotations kept for an entry carry consecutive ids from the
      first free one, all name the entry's image, and all were kept. */
  lemma {:induction false} EntryAnnotationsBatch(ctx: Context, masks: seq<AnnotationEntry>, imageId: nat, firstId: nat)
    ensures EntryBatch(ctx, EntryAnnotations(ctx, masks, imageId, firstId), imageId, firstId)
  {
    if masks != [] {
      var init, m := masks[..|masks| - 1], masks[|masks| - 1];
      var kept := EntryAnnotations(ctx, init, imageId, firstId);
      EntryAnnotationsBatch(ctx, init, imageId, firstId);
      assert EntryAnnotations(ctx, masks, imageId, firstId) == NextKept(ctx, kept, m, imageId, firstId);
      NextKeptBatch(ctx, kept, m, imageId, firstId);
    }
  }

  /** One step of the mask loop keeps the batch property. */
  lemma NextKeptBatch(ctx: Context, kept: seq<Annotation>, m: AnnotationEntry, imageId: nat, firstId: nat)
    requires EntryBatch(ctx, kept, imageId, firstId)
    ensures EntryBatch(ctx, NextKept(ctx, kept, m, imageId, firstId), imageId, firstId)
  {
    if m.categoryName in ctx.name2id {
      var categoryId := ctx.name2id[m.categoryName];
      var ann := AnnotationOf(firstId + |kept|, imageId, categoryId, m.binaryMask, m.contours);
      if IsValid(ann, ctx.config) {
        assert NextKept(ctx, kept, m, imageId, firstId) == kept + [ann];
        assert KeptAnnotation(ctx, ann);
        BatchAppend(ctx, kept, ann, imageId, firstId);
      }
    }
  }

  lemma BatchAppend(ctx: Context, kept: seq<Annotation>, ann: Annotation, imageId: nat, firstId: nat)
    requires EntryBatch(ctx, kept, imageId, firstId)
    requires ann.id == firstId + |kept| && ann.imageId == imageId && KeptAnnotation(ctx, ann)
    ensures EntryBatch(ctx, kept + [ann], imageId, firstId)
  {
    var all := kept + [ann];
    assert forall k :: 0 <= k < |kept| ==> all[k] == kept[k];
    assert all[|kept|] == ann;
  }

  lemma AppendNumbered(ctx: Context, anns: seq<Annotation>, kept: seq<Annotation>, n: nat)
    requires AnnotationsNumbered(ctx, anns, n)
    requires EntryBatch(ctx, kept, n, |anns|)
    ensures AnnotationsNumbered(ctx, anns + kept, n + 1)
  {
    var all := anns + kept;
    forall k | 0 <= k < |all|
      ensures all[k].id == k && all[k].imageId < n + 1 && KeptAnnotation(ctx, all[k])
    {
      if k < |anns| {
        assert all[k] == anns[k];
      } else {
        assert all[k] == kept[k - |anns|];
      }
    }
  }

  lemma AppendImage(ctx: Context, images: seq<ImageInfo>, info: ImageInfo)
    requires ImagesNumbered(images) && ImagesStamped(ctx, images)
    requires exists w, h :: info == ImageInfoOf(|images|, w, h, FileName(|images|), ctx.dateCaptured)
    ensures ImagesNumbered(images + [info]) && ImagesStamped(ctx, images + [info])
  {
    var all := images + [info];
    assert forall k :: 0 <= k < |images| ==> all[k] == images[k];
    assert all[|images|] == info;
  }

  lemma AppendInOrder(ctx: Context, anns: seq<Annotation>, kept: seq<Annotation>, n: nat)
    requires ImagesInOrder(anns) && RefsSpan(anns, n)
    requires kept != [] && EntryBatch(ctx, kept, n, |anns|)
    ensures ImagesInOrder(anns + kept) && RefsSpan(anns + kept, n + 1)
  {
    var all := anns + kept;
    var m := |anns|;
    forall k | 0 < k < |all|
      ensures all[k - 1].imageId <= all[k].imageId <= all[k - 1].imageId + 1
    {
      if k > m {
        assert all[k - 1] == kept[k - 1 - m] && all[k] == kept[k - m];
      } else if k == m {
        assert all[k - 1] == anns[m - 1] && all[k] == kept[0];
      } else {
        assert all[k - 1] == anns[k - 1] && all[k] == anns[k];
      }
    }
    assert all[|all| - 1] == kept[|kept| - 1];
    if m == 0 {
      assert all[0] == kept[0];
    } else {
      assert all[0] == anns[0];
    }
  }

  lemma ProcessEntryWellFormed(ctx: Context, s: State, e: ImageEntry)
    requires WellFormed(ctx, s)
    ensures WellFormed(ctx, ProcessEntry(ctx, s, e))
  {
    var kept := EntryAnnotations(ctx, e.annotationList, s.imageId, s.annotationId);
    EntryAnnotationsBatch(ctx, e.annotationList, s.imageId, s.annotationId);
    if kept != [] {
      var info := ImageInfoOf(s.imageId, e.width, e.height, FileName(s.imageId), ctx.dateCaptured);
      assert ProcessEntry(ctx, s, e) == State(s.imageId + 1, s.annotationId + |kept|, s.images + [info], s.annotations + kept);
      AppendNumbered(ctx, s.annotations, kept, |s.images|);
      AppendInOrder(ctx, s.annotations, kept, |s.images|);
      AppendImage(ctx, s.images, info);
    }
  }

  lemma {:induction false} ProcessDatabaseWellFormed(ctx: Context, s: State, entries: seq<ImageEntry>)
    requires WellFormed(ctx, s)
    ensures WellFormed(ctx, ProcessDatabase(ctx, s, entries))
  {
    if entries != [] {
      ProcessDatabaseWellFormed(ctx, s, entries[..|entries| - 1]);
      ProcessEntryWellFormed(ctx, ProcessDatabase(ctx, s, entries[..|entries| - 1]), entries[|entries| - 1]);
    }
  }

  /** Walking any databases from a well-formed state keeps it well-formed. */
  lemma {:induction false} ProcessAllWellFormed(ctx: Context, s: State, databases: seq<Database>)
    requires WellFormed(ctx, s)
    ensures WellFormed(ctx, ProcessAll(ctx, s, databases))
  {
    if databases != [] {
      ProcessAllWellFormed(ctx, s, databases[..|databases| - 1]);
      ProcessDatabaseWellFormed(ctx, ProcessAll(ctx, s, databases[..|databases| - 1]), databases[|databases| - 1]);
    }
  }

  /** Some annotation refers to image i. */
  ghost predicate Referenced(anns: seq<Annotation>, i: nat)
  {
    exists k :: 0 <= k < |anns| && anns[k].imageId == i
  }

  /** Grouped, gap-free image references starting at 0 reach every image id up
      to the last one referenced. */
  lemma {:induction false} ImagesCovered(anns: seq<Annotation>, i: nat)
    requires |anns| > 0 && anns[0].imageId == 0 && ImagesInOrder(anns)
    requires i <= anns[|anns| - 1].imageId
    ensures Referenced(anns, i)
  {
    var n := |anns|;
    if anns[n - 1].imageId != i {
      var init := anns[..n - 1];
      assert n > 1;
      assert init[n - 2] == anns[n - 2];
      ImagesCovered(init, i);
      var k :| 0 <= k < |init| && init[k].imageId == i;
      assert anns[k] == init[k];
    }
  }

  /** A kept entry adds exactly one image info, and every annotation it adds
      refers to that image by its id. */
  lemma KeptEntryLinked(ctx: Context, s: State, e: ImageEntry)
    ensures var t := ProcessEntry(ctx, s, e);
      && (t == s <==> AcceptedCount(ctx, e.annotationList) == 0)
      && (t != s ==>
        && t.images == s.images + [ImageInfoOf(s.imageId, e.width, e.height, FileName(s.imageId), ctx.dateCaptured)]
        && |t.annotations| > |s.annotations|
        && t.annotations[..|s.annotations|] == s.annotations
        && forall k :: |s.annotations| <= k < |t.annotations| ==> t.annotations[k].imageId == t.images[|s.images|].id)
  {
    var kept := EntryAnnotations(ctx, e.annotationList, s.imageId, s.annotationId);
    EntryAnnotationsBatch(ctx, e.annotationList, s.imageId, s.annotationId);
    EntryAnnotationsCount(ctx, e.annotationList, s.imageId, s.annotationId);
    if kept != [] {
      var info := ImageInfoOf(s.imageId, e.width, e.height, FileName(s.imageId), ctx.dateCaptured);
      var images, annotations := s.images + [info], s.annotations + kept;
      assert ProcessEntry(ctx, s, e) == State(s.imageId + 1, s.annotationId + |kept|, images, annotations);
      assert images[|s.images|] == info;
      assert annotations[..|s.annotations|] == s.annotations;
      forall k | |s.annotations| <= k < |annotations|
        ensures annotations[k].imageId == info.id
      {
        assert annotations[k] == kept[k - |s.annotations|];
      }
    }
  }

  /** Referential integrity both ways: every annotation names a listed image,
      and every listed image is named by some annotation. */
  lemma EveryImageAnnotated(ctx: Context, s: State, i: nat)
    requires WellFormed(ctx, s)
    requires i < |s.images|
    ensures Referenced(s.annotations, i)
  {
    ImagesCovered(s.annotations, i);
  }

  /** The number of masks among `masks` that yield an annotation. */
  ghost function AcceptedCount(ctx: Context, masks: seq<AnnotationEntry>): nat
  {
    if masks == [] then 0
    else AcceptedCount(ctx, masks[..|masks| - 1]) + (if Accepted(ctx, masks[|masks| - 1]) then 1 else 0)
  }

  /** One annotation per accepted mask: so the annotation counter advances
      exactly once per accepted mask, and never for a skipped one. */
  lemma {:induction false} EntryAnnotationsCount(ctx: Context, masks: seq<AnnotationEntry>, imageId: nat, firstId: nat)
    ensures |EntryAnnotations(ctx, masks, imageId, firstId)| == AcceptedCount(ctx, masks)
  {
    if masks != [] {
      var init := masks[..|masks| - 1];
      EntryAnnotationsCount(ctx, init, imageId, firstId);
      var m := masks[|masks| - 1];
      if m.categoryName in ctx.name2id {
        var kept := EntryAnnotations(ctx, init, imageId, firstId);
        ValidIffAccepted(firstId + |kept|, imageId, ctx.name2id[m.categoryName], m.binaryMask, m.contours, ctx.config);
      }
    }
  }

  /** A mask that is not accepted (unknown category, or rejected by the
      validity rule) leaves the kept annotations exactly as if it were absent:
      in particular it uses up no annotation id. */
  lemma {:induction false} SkippedMaskInvisible(ctx: Context, pre: seq<AnnotationEntry>, m: AnnotationEntry,
                                                post: seq<AnnotationEntry>, imageId: nat, firstId: nat)
    requires !Accepted(ctx, m)
    ensures EntryAnnotations(ctx, pre + [m] + post, imageId, firstId) == EntryAnnotations(ctx, pre + post, imageId, firstId)
  {
    var xs, ys := pre + [m] + post, pre + post;
    if post == [] {
      assert xs[..|xs| - 1] == pre && xs[|xs| - 1] == m;
      assert ys == pre;
      RejectedKeepsNothing(ctx, EntryAnnotations(ctx, pre, imageId, firstId), m, imageId, firstId);
    } else {
      var init := post[..|post| - 1];
      SkippedMaskInvisible(ctx, pre, m, init, imageId, firstId);
      assert xs[..|xs| - 1] == pre + [m] + init;
      assert ys[..|ys| - 1] == pre + init;
      var last := post[|post| - 1];
      assert xs[|xs| - 1] == last && ys[|ys| - 1] == last;
      var kept := EntryAnnotations(ctx, pre + init, imageId, firstId);
      assert EntryAnnotations(ctx, xs, imageId, firstId) == NextKept(ctx, kept, last, imageId, firstId);
      assert EntryAnnotations(ctx, ys, imageId, firstId) == NextKept(ctx, kept, last, imageId, firstId);
    }
  }

  /** The loop step for a mask that is not accepted keeps nothing new. */
  lemma RejectedKeepsNothing(ctx: Context, kept: seq<Annotation>, m: AnnotationEntry, imageId: nat, firstId: nat)
    requires !Accepted(ctx, m)
    ensures NextKept(ctx, kept, m, imageId, firstId) == kept
  {
    if m.categoryName in ctx.name2id {
      ValidIffAccepted(firstId + |kept|, imageId, ctx.name2id[m.categoryName], m.binaryMask, m.contours, ctx.config);
    }
  }

  /** The accepted masks among `masks`, in their order. */
  ghost function AcceptedMasks(ctx: Context, masks: seq<AnnotationEntry>): (accepted: seq<AnnotationEntry>)
    ensures |accepted| <= |masks|
    ensures AllKnown(ctx, accepted)
  {
    if masks == [] then []
    else AcceptedMasks(ctx, masks[..|masks| - 1]) + (if Accepted(ctx, masks[|masks| - 1]) then [masks[|masks| - 1]] else [])
  }

  /** Every mask of `ms` has a category name the table knows. */
  ghost predicate AllKnown(ctx: Context, ms: seq<AnnotationEntry>)
  {
    forall k :: 0 <= k < |ms| ==> ms[k].categoryName in ctx.name2id
  }

  /** The records built from `accepted`, in that order: the k-th carries id
      firstId + k, the entry's image id, and the table's id for the k-th
      mask's own category name. */
  ghost function RecordsOf(ctx: Context, accepted: seq<AnnotationEntry>, imageId: nat, firstId: nat): (kept: seq<Annotation>)
    requires AllKnown(ctx, accepted)
    ensures |kept| == |accepted|
  {
    if accepted == [] then []
    else
      var m := accepted[|accepted| - 1];
      RecordsOf(ctx, accepted[..|accepted| - 1], imageId, firstId)
        + [AnnotationOf(firstId + |accepted| - 1, imageId, ctx.name2id[m.categoryName], m.binaryMask, m.contours)]
  }

  /** The k-th of those records is built from the k-th accepted mask. */
  lemma {:induction false} RecordsOfAt(ctx: Context, accepted: seq<AnnotationEntry>, imageId: nat, firstId: nat, k: nat)
    requires AllKnown(ctx, accepted)
    requires k < |accepted|
    ensures RecordsOf(ctx, accepted, imageId, firstId)[k]
      == AnnotationOf(firstId + k, imageId, ctx.name2id[accepted[k].categoryName], accepted[k].binaryMask, accepted[k].contours)
  {
    if k < |accepted| - 1 {
      var init := accepted[..|accepted| - 1];
      RecordsOfAt(ctx, init, imageId, firstId, k);
      assert init[k] == accepted[k];
    }
  }

  /** An entry keeps exactly the records of its accepted masks, numbered
      from the first free id, in mask order, each with its own category id. */
  lemma {:induction false} EntryAnnotationsInOrder(ctx: Context, masks: seq<AnnotationEntry>, imageId: nat, firstId: nat)
    ensures EntryAnnotations(ctx, masks, imageId, firstId) == RecordsOf(ctx, AcceptedMasks(ctx, masks), imageId, firstId)
  {
    if masks != [] {
      EntryAnnotationsInOrder(ctx, masks[..|masks| - 1], imageId, firstId);
      InOrderStep(ctx, masks, imageId, firstId);
    }
  }

  lemma InOrderStep(ctx: Context, masks: seq<AnnotationEntry>, imageId: nat, firstId: nat)
    requires masks != []
    requires var init := masks[..|masks| - 1];
      EntryAnnotations(ctx, init, imageId, firstId) == RecordsOf(ctx, AcceptedMasks(ctx, init), imageId, firstId)
    ensures EntryAnnotations(ctx, masks, imageId, firstId) == RecordsOf(ctx, AcceptedMasks(ctx, masks), imageId, firstId)
  {
    var init, m := masks[..|masks| - 1], masks[|masks| - 1];
    var kept := EntryAnnotations(ctx, init, imageId, firstId);
    var acc := AcceptedMasks(ctx, init);
    assert EntryAnnotations(ctx, masks, imageId, firstId) == NextKept(ctx, kept, m, imageId, firstId);
    if Accepted(ctx, m) {
      assert AcceptedMasks(ctx, masks) == acc + [m];
      var ann := AnnotationOf(firstId + |acc|, imageId, ctx.name2id[m.categoryName], m.binaryMask, m.contours);
      AcceptedKeeps(ctx, kept, m, imageId, firstId, ann);
      AcceptedAppend(ctx, acc, m, imageId, firstId, ann);
    } else {
      assert AcceptedMasks(ctx, masks) == acc;
      RejectedKeepsNothing(ctx, kept, m, imageId, firstId);
    }
  }

  lemma AcceptedKeeps(ctx: Context, kept: seq<Annotation>, m: AnnotationEntry, imageId: nat, firstId: nat, ann: Annotation)
    requires Accepted(ctx, m)
    requires ann == AnnotationOf(firstId + |kept|, imageId, ctx.name2id[m.categoryName], m.binaryMask, m.contours)
    ensures NextKept(ctx, kept, m, imageId, firstId) == kept + [ann]
  {
    ValidIffAccepted(firstId + |kept|, imageId, ctx.name2id[m.categoryName], m.binaryMask, m.contours, ctx.config);
  }

  lemma AcceptedAppend(ctx: Context, acc: seq<AnnotationEntry>, m: AnnotationEntry, imageId: nat, firstId: nat, ann: Annotation)
    requires AllKnown(ctx, acc) && m.categoryName in ctx.name2id
    requires ann == AnnotationOf(firstId + |acc|, imageId, ctx.name2id[m.categoryName], m.binaryMask, m.contours)
    ensures AllKnown(ctx, acc + [m])
    ensures RecordsOf(ctx, acc + [m], imageId, firstId) == RecordsOf(ctx, acc, imageId, firstId) + [ann]
  {
    var all := acc + [m];
    AllKnownAppend(ctx, acc, m);
    assert all[..|all| - 1] == acc && all[|all| - 1] == m;
    RecordsOfLast(ctx, all, imageId, firstId, ann);
  }

  /** The last record of a non-empty list is the last mask's. */
  lemma RecordsOfLast(ctx: Context, all: seq<AnnotationEntry>, imageId: nat, firstId: nat, ann: Annotation)
    requires all != [] && AllKnown(ctx, all)
    requires var m := all[|all| - 1];
      ann == AnnotationOf(firstId + |all| - 1, imageId, ctx.name2id[m.categoryName], m.binaryMask, m.contours)
    ensures RecordsOf(ctx, all, imageId, firstId) == RecordsOf(ctx, all[..|all| - 1], imageId, firstId) + [ann]
  {
  }

  lemma AllKnownAppend(ctx: Context, acc: seq<AnnotationEntry>, m: AnnotationEntry)
    requires AllKnown(ctx, acc) && m.categoryName in ctx.name2id
    ensures AllKnown(ctx, acc + [m])
  {
    var all := acc + [m];
    assert forall k :: 0 <= k < |acc| ==> all[k] == acc[k];
  }

  /** When every mask is accepted, the k-th kept record is the k-th mask's. */
  lemma {:induction false} AllAcceptedMasks(ctx: Context, masks: seq<AnnotationEntry>)
    requires forall k :: 0 <= k < |masks| ==> Accepted(ctx, masks[k])
    ensures AcceptedMasks(ctx, masks) == masks
  {
    if masks != [] {
      AllAcceptedMasks(ctx, masks[..|masks| - 1]);
    }
  }

  /** When every mask of an entry is accepted, it keeps one record per mask
      and the k-th is the k-th mask's, with the k-th free id. */
  lemma AllAcceptedKept(ctx: Context, masks: seq<AnnotationEntry>, imageId: nat, firstId: nat, k: nat)
    requires forall j :: 0 <= j < |masks| ==> Accepted(ctx, masks[j])
    requires k < |masks|
    ensures |EntryAnnotations(ctx, masks, imageId, firstId)| == |masks|
    ensures masks[k].categoryName in ctx.name2id
    ensures EntryAnnotations(ctx, masks, imageId, firstId)[k]
      == AnnotationOf(firstId + k, imageId, ctx.name2id[masks[k].categoryName], masks[k].binaryMask, masks[k].contours)
  {
    AllAcceptedMasks(ctx, masks);
    EntryAnnotationsInOrder(ctx, masks, imageId, firstId);
    RecordsOfAt(ctx, masks, imageId, firstId, k);
  }

  /** An entry none of whose masks is accepted keeps no annotation, so it
      changes nothing: no image info, no image id, no annotation id. */
  lemma EmptyEntryDropped(ctx: Context, s: State, e: ImageEntry)
    requires forall j :: 0 <= j < |e.annotationList| ==> !Accepted(ctx, e.annotationList[j])
    ensures ProcessEntry(ctx, s, e) == s
  {
    NoneAccepted(ctx, e.annotationList);
    EntryAnnotationsCount(ctx, e.annotationList, s.imageId, s.annotationId);
  }

  lemma {:induction false} NoneAccepted(ctx: Context, masks: seq<AnnotationEntry>)
    requires forall j :: 0 <= j < |masks| ==> !Accepted(ctx, masks[j])
    ensures AcceptedCount(ctx, masks) == 0
  {
    if masks != [] {
      var init := masks[..|masks| - 1];
      assert forall j :: 0 <= j < |init| ==> init[j] == masks[j];
      NoneAccepted(ctx, init);
    }
  }

  /** Hence such an entry may as well be missing from its database. */
  lemma EmptyEntryInvisible(ctx: Context, s: State, pre: seq<ImageEntry>, e: ImageEntry, post: seq<ImageEntry>)
    requires forall j :: 0 <= j < |e.annotationList| ==> !Accepted(ctx, e.annotationList[j])
    ensures ProcessDatabase(ctx, s, pre + [e] + post) == ProcessDatabase(ctx, s, pre + post)
  {
    var u := ProcessDatabase(ctx, s, pre);
    EmptyEntryDropped(ctx, u, e);
    ProcessDatabaseStep(ctx, s, pre + [e], |pre|);
    assert (pre + [e])[..|pre|] == pre && (pre + [e])[..|pre| + 1] == pre + [e];
    ProcessDatabaseAppend(ctx, s, pre + [e], post);
    ProcessDatabaseAppend(ctx, s, pre, post);
  }

  /** Walking xs then ys is walking xs + ys. */
  lemma {:induction false} ProcessDatabaseAppend(ctx: Context, s: State, xs: seq<ImageEntry>, ys: seq<ImageEntry>)
    ensures ProcessDatabase(ctx, s, xs + ys) == ProcessDatabase(ctx, ProcessDatabase(ctx, s, xs), ys)
  {
    if ys == [] {
      assert xs + ys == xs;
    } else {
      var init := ys[..|ys| - 1];
      ProcessDatabaseAppend(ctx, s, xs, init);
      assert (xs + ys)[..|xs + ys| - 1] == xs + init;
    }
  }

  /** Accepted masks over all entries, and entries with at least one of them. */
  ghost function AcceptedInDatabase(ctx: Context, entries: seq<ImageEntry>): nat
  {
    if entries == [] then 0
    else AcceptedInDatabase(ctx, entries[..|entries| - 1]) + AcceptedCount(ctx, entries[|entries| - 1].annotationList)
  }

  ghost function KeptEntries(ctx: Context, entries: seq<ImageEntry>): nat
  {
    if entries == [] then 0
    else KeptEntries(ctx, entries[..|entries| - 1]) + (if AcceptedCount(ctx, entries[|entries| - 1].annotationList) > 0 then 1 else 0)
  }

  /** After a database, the annotation counter has advanced by its number of
      accepted masks and the image counter by its number of entries that kept
      at least one. */
  lemma {:induction false} ProcessDatabaseCounts(ctx: Context, s: State, entries: seq<ImageEntry>)
    ensures var t := ProcessDatabase(ctx, s, entries);
      && |t.annotations| == |s.annotations| + AcceptedInDatabase(ctx, entries)
      && t.annotationId == s.annotationId + AcceptedInDatabase(ctx, entries)
      && |t.images| == |s.images| + KeptEntries(ctx, entries)
      && t.imageId == s.imageId + KeptEntries(ctx, entries)
  {
    if entries != [] {
      var init := entries[..|entries| - 1];
      ProcessDatabaseCounts(ctx, s, init);
      var u := ProcessDatabase(ctx, s, init);
      var e := entries[|entries| - 1];
      EntryAnnotationsCount(ctx, e.annotationList, u.imageId, u.annotationId);
    }
  }

  /** The whole-document property: dense ids for both lists, file names
      derived from image ids, default license and URLs, valid polygon annotations only, and references
      from annotations to images that are complete in both directions. */
  ghost predicate ConsistentDocument(ctx: Context, doc: CocoDocument)
  {
    && doc.categories == ctx.config.objectCategory
    && ImagesNumbered(doc.images)
    && ImagesStamped(ctx, doc.images)
    && AnnotationsNumbered(ctx, doc.annotations, |doc.images|)
    && (forall i :: 0 <= i < |doc.images| ==> Referenced(doc.annotations, i))
    && ImagesInOrder(doc.annotations)
  }

  /** The document built from the walk of any databases is consistent. */
  lemma DocumentConsistent(ctx: Context, databases: seq<Database>)
    ensures var s := ProcessAll(ctx, Start, databases);
      ConsistentDocument(ctx, CocoOutput(ctx.config, s.images, s.annotations))
  {
    var s := ProcessAll(ctx, Start, databases);
    ProcessAllWellFormed(ctx, Start, databases);
    forall i | 0 <= i < |s.images|
      ensures Referenced(s.annotations, i)
    {
      EveryImageAnnotated(ctx, s, i);
    }
  }

  /** The formatter: its configuration and the category table built once at
      construction. The output directories it creates are not modelled. */
  class Formatter {
    const config: Config
    const categoryName2Id: map<string, int>

    constructor (config: Config)
      requires |config.dbName| > 0 && |config.baseFolder| > 0
      ensures this.config == config
      ensures categoryName2Id.Keys == set i | 0 <= i < |config.objectCategory| :: config.objectCategory[i].name
      ensures forall i :: 0 <= i < |config.objectCategory| && LastWithName(config.objectCategory, i, |config.objectCategory|) ==>
        categoryName2Id[config.objectCategory[i].name] == config.objectCategory[i].id
    {
      this.config := config;
      var name2id := BuildCategoryTable(config.objectCategory);
      this.categoryName2Id := name2id;
    }

    function Ctx(dateCaptured: string): Context
    {
      Context(categoryName2Id, config, dateCaptured)
    }

    /** The loop over one entry's masks: a mask whose category is not in the
        table is skipped; any other is built into an annotation with the next
        annotation id, and kept, taking that id, when it is valid. */
    method EntryAnnotationList(imgEntry: ImageEntry, imageId: nat, annotationId: nat, ghost ctx: Context)
      returns (imgAnnotationList: seq<Annotation>, nextAnnotationId: nat)
      requires ctx.name2id == categoryName2Id && ctx.config == config
      ensures imgAnnotationList == EntryAnnotations(ctx, imgEntry.annotationList, imageId, annotationId)
      ensures nextAnnotationId == annotationId + |imgAnnotationList|
    {
      nextAnnotationId := annotationId;
      imgAnnotationList := [];
      assert imgEntry.annotationList[..0] == [];
      for m := 0 to |imgEntry.annotationList|
        invariant imgAnnotationList == EntryAnnotations(ctx, imgEntry.annotationList[..m], imageId, annotationId)
        invariant nextAnnotationId == annotationId + |imgAnnotationList|
      {
        var annotationEntry := imgEntry.annotationList[m];
        EntryAnnotationsStep(ctx, imgEntry.annotationList, m, imageId, annotationId);
        var binaryMask := annotationEntry.binaryMask;
        var categoryName := annotationEntry.categoryName;
        if categoryName !in categoryName2Id {
          continue;
        }
        var categoryId := categoryName2Id[categoryName];
        var isValidity, annotation := GetAnnotationInfo(
          nextAnnotationId, imageId, categoryId, binaryMask, annotationEntry.contours, config);
        KeepStep(ctx, imgAnnotationList, annotationEntry, imageId, annotationId, annotation, isValidity);
        if isValidity {
          nextAnnotationId := nextAnnotationId + 1;
          imgAnnotationList := imgAnnotationList + [annotation];
        }
      }
      assert imgEntry.annotationList[..|imgEntry.annotationList|] == imgEntry.annotationList;
    }

    /** Appends the elements of `items` to `all` one by one, in order. */
    static method AppendEach(all: seq<Annotation>, items: seq<Annotation>) returns (result: seq<Annotation>)
      ensures result == all + items
    {
      result := all;
      for t := 0 to |items|
        invariant result == all + items[..t]
      {
        result := result + [items[t]];
        assert items[..t + 1] == items[..t] + [items[t]];
      }
      assert items[..|items|] == items;
    }

    /** process_db_list, up to the document it writes: the result is the
        document of the walk specified above, and it is consistent. */
    method ProcessDbList(databaseList: seq<Database>, dateCaptured: string) returns (cocoOutput: CocoDocument)
      ensures var s := ProcessAll(Ctx(dateCaptured), Start, databaseList);
        cocoOutput == CocoOutput(config, s.images, s.annotations)
      ensures ConsistentDocument(Ctx(dateCaptured), cocoOutput)
    {
      ghost var ctx := Ctx(dateCaptured);
      var imageId: nat := 0;
      var annotationId: nat := 0;
      var allAnnotationList: seq<Annotation> := [];
      var allImageInfoList: seq<ImageInfo> := [];

      for d := 0 to |databaseList|
        invariant State(imageId, annotationId, allImageInfoList, allAnnotationList)
          == ProcessAll(ctx, Start, databaseList[..d])
      {
        imageId, annotationId, allImageInfoList, allAnnotationList :=
          DatabaseEntries(databaseList[d], imageId, annotationId, allImageInfoList, allAnnotationList, dateCaptured);
        ProcessAllStep(ctx, Start, databaseList, d);
      }
      assert databaseList[..|databaseList|] == databaseList;

      cocoOutput := CocoOutput(config, allImageInfoList, allAnnotationList);
      DocumentConsistent(ctx, databaseList);
    }

    /** The loop over one database's image entries: the counters and lists
        after it are those of the specified walk over that database. */
    method DatabaseEntries(database: Database, imageId0: nat, annotationId0: nat,
                           images0: seq<ImageInfo>, annotations0: seq<Annotation>, dateCaptured: string)
      returns (imageId: nat, annotationId: nat, allImageInfoList: seq<ImageInfo>, allAnnotationList: seq<Annotation>)
      ensures State(imageId, annotationId, allImageInfoList, allAnnotationList)
        == ProcessDatabase(Ctx(dateCaptured), State(imageId0, annotationId0, images0, annotations0), database)
    {
      ghost var ctx := Ctx(dateCaptured);
      ghost var atStart := State(imageId0, annotationId0, images0, annotations0);
      imageId, annotationId, allImageInfoList, allAnnotationList := imageId0, annotationId0, images0, annotations0;
      for entryIdx := 0 to |database|
        invariant State(imageId, annotationId, allImageInfoList, allAnnotationList)
          == ProcessDatabase(ctx, atStart, database[..entryIdx])
      {
        var imgEntry := database[entryIdx];
        var imgAnnotationList;
        imgAnnotationList, annotationId := EntryAnnotationList(imgEntry, imageId, annotationId, ctx);

        EntryStep(ctx, atStart, database, entryIdx, imgAnnotationList);
        if |imgAnnotationList| == 0 {
          continue;
        }
        allAnnotationList := AppendEach(allAnnotationList, imgAnnotationList);

        var rgbRelativePath := FileName(imageId);
        var imageInfo := ImageInfoOf(imageId, imgEntry.width, imgEntry.height, rgbRelativePath, dateCaptured);
        allImageInfoList := allImageInfoList + [imageInfo];
        imageId := imageId + 1;
      }
      assert database[..|database|] == database;
    }
  }
}
