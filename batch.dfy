/** The batch screen: a list of image records, each with a status, that
    files are added to, loaded into, removed from and processed in one run.
    The asynchronous steps (decoding a file, rendering and encoding an
    image) are results passed in; the clock is a list of instants, one per
    record; ids come from the caller and must be fresh. */
module Batch {
  import opened Wrappers
  import opened JsRuntime
  import opened Exif
  import Zip

  datatype Status = Pending | Processing | Completed | Error

  /** A selected file, known by its name. */
  datatype File = File(name: string)

  datatype BatchImage = BatchImage(
    id: string,
    file: File,
    imageData: Option<ImageWithOrientation>,
    previewUrl: Option<string>,
    status: Status,
    error: Option<string>)

  const LoadFailedMessage := "加载失败"
  const ProcessFailedMessage := "处理失败"

  /** The record a newly selected file gets. */
  function NewRecord(id: string, file: File): BatchImage {
    BatchImage(id, file, None, None, Pending, None)
  }

  function Ids(images: seq<BatchImage>): set<string> {
    set i | 0 <= i < |images| :: images[i].id
  }

  predicate UniqueIds(images: seq<BatchImage>) {
    forall i, j | 0 <= i < j < |images| :: images[i].id != images[j].id
  }

  /** `prev.map(img => img.id === id ? upd(img) : img)` */
  function Update(images: seq<BatchImage>, id: string, upd: BatchImage -> BatchImage): (r: seq<BatchImage>)
    ensures |r| == |images|
    ensures forall i | 0 <= i < |r| :: r[i] == if images[i].id == id then upd(images[i]) else images[i]
  {
    seq(|images|, i requires 0 <= i < |images| => if images[i].id == id then upd(images[i]) else images[i])
  }

  ghost predicate KeepsId(upd: BatchImage -> BatchImage) {
    forall img :: upd(img).id == img.id
  }

  /** With unique ids, updating by id changes exactly the record at its
      position and keeps the ids unique. */
  lemma UpdateAt(images: seq<BatchImage>, k: nat, upd: BatchImage -> BatchImage)
    requires UniqueIds(images) && k < |images| && KeepsId(upd)
    ensures Update(images, images[k].id, upd) == images[k := upd(images[k])]
    ensures UniqueIds(images[k := upd(images[k])])
  {
    var r := Update(images, images[k].id, upd);
    forall i | 0 <= i < |images| ensures r[i] == images[k := upd(images[k])][i] {
      if i != k {
        assert images[i].id != images[k].id by {
          if i < k {} else {}
        }
      }
    }
  }

  // ---------------------------------------------------------------------------
  // The record updates
  // ---------------------------------------------------------------------------

  /** Load success: the decoded image and its preview; still pending. */
  function Loaded(img: BatchImage, data: ImageWithOrientation, previewUrl: string): BatchImage {
    img.(imageData := Some(data), previewUrl := Some(previewUrl), status := Pending)
  }

  function LoadFailed(img: BatchImage): BatchImage {
    img.(status := Error, error := Some(LoadFailedMessage))
  }

  function MarkProcessing(img: BatchImage): BatchImage {
    img.(status := Processing)
  }

  function MarkCompleted(img: BatchImage): BatchImage {
    img.(status := Completed)
  }

  function MarkFailed(img: BatchImage): BatchImage {
    img.(status := Error, error := Some(ProcessFailedMessage))
  }

  /** `prev.filter(img => img.id !== id)` */
  function Removed(images: seq<BatchImage>, id: string): (r: seq<BatchImage>)
    ensures |r| <= |images|
  {
    if images == [] then []
    else (if images[0].id == id then [] else [images[0]]) + Removed(images[1..], id)
  }

  /** The kept records are exactly those whose id differs. */
  lemma {:induction false} RemovedMembers(images: seq<BatchImage>, id: string)
    ensures forall img :: img in Removed(images, id) <==> img in images && img.id != id
  {
    if images != [] {
      RemovedMembers(images[1..], id);
      assert images == [images[0]] + images[1..];
    }
  }

  /** Removal works piece by piece, so the kept records stay in their
      order. */
  lemma {:induction false} RemovedAppend(a: seq<BatchImage>, b: seq<BatchImage>, id: string)
    ensures Removed(a + b, id) == Removed(a, id) + Removed(b, id)
  {
    if a == [] {
      assert a + b == b;
    } else {
      assert (a + b)[0] == a[0] && (a + b)[1..] == a[1..] + b;
      RemovedAppend(a[1..], b, id);
    }
  }

  /** Removing an id no record has changes nothing. */
  lemma {:induction false} RemovedAbsent(images: seq<BatchImage>, id: string)
    requires id !in Ids(images)
    ensures Removed(images, id) == images
  {
    if images != [] {
      assert images[0].id in Ids(images);
      assert Ids(images[1..]) <= Ids(images) by {
        forall x | x in Ids(images[1..]) ensures x in Ids(images) {
          var i :| 0 <= i < |images[1..]| && images[1..][i].id == x;
          assert images[i + 1].id == x;
        }
      }
      RemovedAbsent(images[1..], id);
    }
  }

  /** With unique ids, removing the id of the record at `p` drops exactly
      that record. */
  lemma RemovedAt(images: seq<BatchImage>, p: nat)
    requires UniqueIds(images) && p < |images|
    ensures Removed(images, images[p].id) == images[..p] + images[p + 1..]
    ensures UniqueIds(images[..p] + images[p + 1..])
  {
    UniqueWithout(images, p);
    IdAbsentAround(images, p);
    SplitAt(images, p);
    RemovedAround(images[..p], images[p], images[p + 1..]);
  }

  lemma SplitAt<T>(s: seq<T>, p: nat)
    requires p < |s|
    ensures s == s[..p] + [s[p]] + s[p + 1..]
  {
  }

  /** Removing the id of a record that no record before or after it shares
      drops that record alone. */
  lemma RemovedAround(before: seq<BatchImage>, x: BatchImage, after: seq<BatchImage>)
    requires x.id !in Ids(before) && x.id !in Ids(after)
    ensures Removed(before + [x] + after, x.id) == before + after
  {
    var id := x.id;
    RemovedSingle(x);
    calc {
      Removed(before + [x] + after, id);
    == { RemovedAppend(before + [x], after, id); }
      Removed(before + [x], id) + Removed(after, id);
    == { RemovedAppend(before, [x], id); }
      Removed(before, id) + Removed([x], id) + Removed(after, id);
    == { RemovedAbsent(before, id); RemovedAbsent(after, id); }
      before + [] + after;
    }
  }

  lemma RemovedSingle(x: BatchImage)
    ensures Removed([x], x.id) == []
  {
    assert [x][1..] == [];
  }

  /** With unique ids, no record but the one at `p` carries its id. */
  lemma IdAbsentAround(images: seq<BatchImage>, p: nat)
    requires UniqueIds(images) && p < |images|
    ensures images[p].id !in Ids(images[..p]) && images[p].id !in Ids(images[p + 1..])
  {
    var id := images[p].id;
    var before, after := images[..p], images[p + 1..];
    forall i | 0 <= i < |before| ensures before[i].id != id {
      assert before[i] == images[i];
    }
    forall i | 0 <= i < |after| ensures after[i].id != id {
      assert after[i] == images[p + 1 + i];
    }
  }

  lemma UniqueWithout(images: seq<BatchImage>, p: nat)
    requires UniqueIds(images) && p < |images|
    ensures UniqueIds(images[..p] + images[p + 1..])
  {
    var r := images[..p] + images[p + 1..];
    forall i, j | 0 <= i < j < |r| ensures r[i].id != r[j].id {
      var i', j' := if i < p then i else i + 1, if j < p then j else j + 1;
      assert r[i] == images[i'] && r[j] == images[j'];
    }
  }

  /** `handleRemoveImage` on the list: a present id loses exactly its record,
      an absent one changes nothing; ids stay unique. */
  lemma RemovedKeepsUnique(images: seq<BatchImage>, id: string)
    requires UniqueIds(images)
    ensures |Removed(images, id)| == if id in Ids(images) then |images| - 1 else |images|
    ensures UniqueIds(Removed(images, id))
  {
    if id in Ids(images) {
      var p :| 0 <= p < |images| && images[p].id == id;
      RemovedAt(images, p);
    } else {
      RemovedAbsent(images, id);
    }
  }

  // ---------------------------------------------------------------------------
  // Status counts
  // ---------------------------------------------------------------------------

  function CountStatus(images: seq<BatchImage>, status: Status): (r: nat)
    ensures r <= |images|
    ensures r == 0 <==> forall i | 0 <= i < |images| :: images[i].status != status
  {
    if images == [] then 0
    else (if images[0].status == status then 1 else 0) + CountStatus(images[1..], status)
  }

  /** The three counters the screen shows. */
  function CompletedCount(images: seq<BatchImage>): (r: nat)
    ensures r <= |images|
    ensures r == 0 <==> forall i | 0 <= i < |images| :: images[i].status != Completed
  {
    CountStatus(images, Completed)
  }

  function ErrorCount(images: seq<BatchImage>): (r: nat)
    ensures r <= |images|
    ensures r == 0 <==> forall i | 0 <= i < |images| :: images[i].status != Error
  {
    CountStatus(images, Error)
  }

  /** Records still waiting or being processed. */
  function PendingCount(images: seq<BatchImage>): (r: nat)
    ensures r == 0 <==> forall i | 0 <= i < |images| :: images[i].status in {Completed, Error}
  {
    CountStatus(images, Pending) + CountStatus(images, Processing)
  }

  /** Every record is counted exactly once. */
  lemma {:induction false} StatusCountsAddUp(images: seq<BatchImage>)
    ensures CompletedCount(images) + ErrorCount(images) + PendingCount(images) == |images|
  {
    if images != [] {
      StatusCountsAddUp(images[1..]);
    }
  }

  // ---------------------------------------------------------------------------
  // The batch run
  // ---------------------------------------------------------------------------

  /** A record the run works on: it has decoded image data and has not
      failed. Completed records are processed again. */
  predicate Eligible(img: BatchImage) {
    img.imageData.Some? && img.status != Error
  }

  /** A record after the run, given whether rendering and encoding it
      succeeded: skipped, completed, or failed with the processing message. */
  function Processed(img: BatchImage, rendered: bool): (r: BatchImage)
    ensures r.id == img.id && r.file == img.file && r.imageData == img.imageData && r.previewUrl == img.previewUrl
    ensures !Eligible(img) ==> r == img
    ensures Eligible(img) ==> (r.status == Completed <==> rendered) && (r.status == Error <==> !rendered)
  {
    if !Eligible(img) then img
    else if rendered then MarkCompleted(MarkProcessing(img))
    else MarkFailed(MarkProcessing(img))
  }

  /** The list once the first `k` records of the run are done. */
  function ProcessedUpTo(images: seq<BatchImage>, rendered: seq<bool>, k: nat): (r: seq<BatchImage>)
    requires |rendered| == |images| && k <= |images|
    ensures |r| == |images|
  {
    seq(|images|, i requires 0 <= i < |images| => if i < k then Processed(images[i], rendered[i]) else images[i])
  }

  lemma ProcessedNone(images: seq<BatchImage>, rendered: seq<bool>)
    requires |rendered| == |images|
    ensures ProcessedUpTo(images, rendered, 0) == images
  {
  }

  /** One more step of the run settles record `k` and nothing else. */
  lemma ProcessedStep(images: seq<BatchImage>, rendered: seq<bool>, k: nat)
    requires |rendered| == |images| && k < |images|
    ensures ProcessedUpTo(images, rendered, k)[k] == images[k]
    ensures ProcessedUpTo(images, rendered, k + 1)
            == ProcessedUpTo(images, rendered, k)[k := Processed(images[k], rendered[k])]
  {
  }

  function ProcessAll(images: seq<BatchImage>, rendered: seq<bool>): seq<BatchImage>
    requires |rendered| == |images|
  {
    ProcessedUpTo(images, rendered, |images|)
  }

  /** The name each record is exported under if it completes:
      `generateFilename(file.name, '{basename}_watermarked_{date}')` at the
      record's own instant. */
  function ExportNames(images: seq<BatchImage>, times: seq<DateTime>): (names: seq<string>)
    requires |times| == |images|
    ensures |names| == |images|
  {
    seq(|images|, i requires 0 <= i < |images| => Zip.GenerateFilename(images[i].file.name, Zip.BatchTemplate, None, times[i]))
  }

  /** The names exported by the first `k` records of the run, `names[i]`
      being record `i`'s: one per record completed, in list order. */
  function ExportsUpTo(images: seq<BatchImage>, rendered: seq<bool>, names: seq<string>, k: nat): seq<string>
    requires |rendered| == |images| && |names| == |images| && k <= |images|
  {
    if k == 0 then []
    else ExportsUpTo(images, rendered, names, k - 1)
         + (if Eligible(images[k - 1]) && rendered[k - 1] then [names[k - 1]] else [])
  }

  function Exports(images: seq<BatchImage>, rendered: seq<bool>, times: seq<DateTime>): seq<string>
    requires |rendered| == |images| && |times| == |images|
  {
    ExportsUpTo(images, rendered, ExportNames(images, times), |images|)
  }

  /** How many records the run completes. */
  function CompletedInRun(images: seq<BatchImage>, rendered: seq<bool>, k: nat): nat
    requires |rendered| == |images| && k <= |images|
  {
    if k == 0 then 0
    else CompletedInRun(images, rendered, k - 1) + (if Eligible(images[k - 1]) && rendered[k - 1] then 1 else 0)
  }

  /** One export per record the run completes, each named after its record's
      file; the archive is attempted exactly when some record completed. */
  lemma {:induction false} ExportsPerCompleted(images: seq<BatchImage>, rendered: seq<bool>, names: seq<string>, k: nat)
    requires |rendered| == |images| && |names| == |images| && k <= |images|
    ensures |ExportsUpTo(images, rendered, names, k)| == CompletedInRun(images, rendered, k)
    ensures ExportsUpTo(images, rendered, names, k) == [] <==>
              forall i | 0 <= i < k :: !(Eligible(images[i]) && rendered[i])
  {
    if k > 0 {
      ExportsPerCompleted(images, rendered, names, k - 1);
    }
  }

  /** After a run every record with image data that had not failed is
      completed or failed, a failure on one record does not stop the others,
      and the records keep their ids, files and order. */
  lemma RunSettlesEveryRecord(images: seq<BatchImage>, rendered: seq<bool>)
    requires |rendered| == |images|
    ensures var after := ProcessAll(images, rendered);
            && |after| == |images|
            && (forall i | 0 <= i < |images| :: after[i].id == images[i].id && after[i].file == images[i].file)
            && (forall i | 0 <= i < |images| && Eligible(images[i]) ::
                  after[i].status == (if rendered[i] then Completed else Error))
            && (forall i | 0 <= i < |images| && !Eligible(images[i]) :: after[i] == images[i])
            && (forall i | 0 <= i < |images| && after[i].status == Processing :: images[i].imageData.None?)
  {
  }

  /** The completed counter after a run: the records the run completed plus
      the completed records it skipped. */
  lemma {:induction false} CompletedAfterRun(images: seq<BatchImage>, rendered: seq<bool>, k: nat)
    requires |rendered| == |images| && k <= |images|
    ensures CompletedCount(ProcessedUpTo(images, rendered, k)[..k])
            == CompletedInRun(images, rendered, k) + SkippedCompleted(images[..k])
  {
    if k > 0 {
      CompletedAfterRun(images, rendered, k - 1);
      var b := ProcessedUpTo(images, rendered, k - 1)[..k - 1];
      ProcessedPrefixStep(images, rendered, k);
      CountStatusAppend(b, [Processed(images[k - 1], rendered[k - 1])], Completed);
      assert images[..k] == images[..k - 1] + [images[k - 1]];
      SkippedCompletedAppend(images[..k - 1], images[k - 1]);
    }
  }

  /** The settled prefix grows by the record just settled. */
  lemma ProcessedPrefixStep(images: seq<BatchImage>, rendered: seq<bool>, k: nat)
    requires |rendered| == |images| && 0 < k <= |images|
    ensures ProcessedUpTo(images, rendered, k)[..k]
            == ProcessedUpTo(images, rendered, k - 1)[..k - 1] + [Processed(images[k - 1], rendered[k - 1])]
  {
    var a := ProcessedUpTo(images, rendered, k)[..k];
    var b := ProcessedUpTo(images, rendered, k - 1)[..k - 1] + [Processed(images[k - 1], rendered[k - 1])];
    forall i | 0 <= i < k ensures a[i] == b[i] {
      if i < k - 1 {
        assert b[i] == ProcessedUpTo(images, rendered, k - 1)[i];
      }
    }
  }

  /** Completed records the run skips: those without image data. */
  function SkippedCompleted(images: seq<BatchImage>): nat {
    if images == [] then 0
    else SkippedCompleted(images[..|images| - 1])
         + (if !Eligible(images[|images| - 1]) && images[|images| - 1].status == Completed then 1 else 0)
  }

  lemma SkippedCompletedAppend(images: seq<BatchImage>, img: BatchImage)
    ensures SkippedCompleted(images + [img])
            == SkippedCompleted(images) + (if !Eligible(img) && img.status == Completed then 1 else 0)
  {
    assert (images + [img])[..|images|] == images;
  }

  lemma {:induction false} CountStatusAppend(a: seq<BatchImage>, b: seq<BatchImage>, status: Status)
    ensures CountStatus(a + b, status) == CountStatus(a, status) + CountStatus(b, status)
  {
    if a == [] {
      assert a + b == b;
    } else {
      assert (a + b)[1..] == a[1..] + b;
      CountStatusAppend(a[1..], b, status);
    }
  }

  // ---------------------------------------------------------------------------
  // The screen
  // ---------------------------------------------------------------------------

  class BatchWatermark {
    var images: seq<BatchImage>
    var isProcessing: bool

    predicate Valid()
      reads this
    {
      UniqueIds(images)
    }

    constructor ()
      ensures images == [] && !isProcessing && Valid()
    {
      images := [];
      isProcessing := false;
    }

    /** `handleImageSelect`, first step: a pending record for the file is
        appended under the fresh id `id`. */
    method SelectImage(file: File, id: string)
      requires Valid() && id !in Ids(images)
      modifies this
      ensures images == old(images) + [NewRecord(id, file)]
      ensures isProcessing == old(isProcessing) && Valid()
    {
      images := images + [NewRecord(id, file)];
      assert forall i | 0 <= i < |old(images)| :: images[i].id in Ids(old(images));
    }

    /** `handleImageSelect`, second step: the outcome of loading the file of
        record `id` is stored in that record and no other. */
    method FinishLoad(id: string, loaded: Result<ImageWithOrientation, LoadError>, previewUrl: string)
      requires Valid()
      modifies this
      ensures loaded.Success? ==> images == Update(old(images), id, img => Loaded(img, loaded.value, previewUrl))
      ensures loaded.Failure? ==> images == Update(old(images), id, LoadFailed)
      ensures isProcessing == old(isProcessing) && Valid()
    {
      match loaded
      case Success(imageData) =>
        images := Update(images, id, img => Loaded(img, imageData, previewUrl));
      case Failure(_) =>
        images := Update(images, id, LoadFailed);
    }

    /** `handleRemoveImage` */
    method RemoveImage(id: string)
      requires Valid()
      modifies this
      ensures images == Removed(old(images), id)
      ensures isProcessing == old(isProcessing) && Valid()
    {
      RemovedKeepsUnique(images, id);
      images := Removed(images, id);
    }

    /** `handleClear` */
    method Clear()
      modifies this
      ensures images == [] && isProcessing == old(isProcessing) && Valid()
    {
      images := [];
    }

    /** `handleBatchProcess`: `rendered[i]` says whether rendering and
        encoding the i-th record succeeds, `times[i]` is the clock when its
        file name is made. Returns the exported file names and whether
        building the archive is attempted (it may still fail, which the
        handler catches). */
    method BatchProcess(rendered: seq<bool>, times: seq<DateTime>) returns (exportNames: seq<string>, zipAttempted: bool)
      requires Valid() && |rendered| == |images| && |times| == |images|
      modifies this
      ensures images == ProcessAll(old(images), rendered)
      ensures exportNames == Exports(old(images), rendered, times)
      ensures zipAttempted <==> exportNames != []
      ensures old(images) == [] ==> isProcessing == old(isProcessing)
      ensures old(images) != [] ==> !isProcessing
      ensures Valid()
    {
      if |images| == 0 {
        return [], false;
      }
      isProcessing := true;
      exportNames := RunBatch(rendered, times);
      zipAttempted := |exportNames| > 0;
      isProcessing := false;
    }

    /** The loop of a run: every record of the list as it was when the run
        started, in order. Returns the names exported. */
    method RunBatch(rendered: seq<bool>, times: seq<DateTime>) returns (exportNames: seq<string>)
      requires Valid() && |rendered| == |images| && |times| == |images|
      modifies this
      ensures images == ProcessAll(old(images), rendered)
      ensures exportNames == Exports(old(images), rendered, times)
      ensures Valid() && isProcessing == old(isProcessing)
    {
      var snapshot := images;
      exportNames := [];
      ProcessedNone(snapshot, rendered);
      for k := 0 to |snapshot|
        invariant images == ProcessedUpTo(snapshot, rendered, k)
        invariant exportNames == ExportsUpTo(snapshot, rendered, ExportNames(snapshot, times), k)
        invariant forall i | 0 <= i < |images| :: images[i].id == snapshot[i].id
        invariant UniqueIds(images) && isProcessing == old(isProcessing)
      {
        var exported := ProcessRecord(snapshot, rendered, times, k);
        exportNames := exportNames + exported;
      }
    }

    /** One turn of the batch loop: record `k` of the list as it was when the
        run started is skipped, or marked processing and then completed (its
        file name exported) or failed. Returns the names exported. */
    method ProcessRecord(snapshot: seq<BatchImage>, rendered: seq<bool>, times: seq<DateTime>, k: nat)
      returns (exported: seq<string>)
      requires |rendered| == |snapshot| && |times| == |snapshot| && k < |snapshot|
      requires images == ProcessedUpTo(snapshot, rendered, k)
      requires forall i | 0 <= i < |images| :: images[i].id == snapshot[i].id
      requires UniqueIds(images)
      modifies this
      ensures images == ProcessedUpTo(snapshot, rendered, k + 1)
      ensures exported == if Eligible(snapshot[k]) && rendered[k] then [ExportNames(snapshot, times)[k]] else []
      ensures forall i | 0 <= i < |images| :: images[i].id == snapshot[i].id
      ensures UniqueIds(images) && isProcessing == old(isProcessing)
    {
      var image := snapshot[k];
      ProcessedStep(snapshot, rendered, k);
      assert images[k] == image;
      exported := [];
      if Eligible(image) {
        UpdateAt(images, k, MarkProcessing);
        images := Update(images, image.id, MarkProcessing);
        if rendered[k] {
          var name := Zip.GenerateFilename(image.file.name, Zip.BatchTemplate, None, times[k]);
          assert name == ExportNames(snapshot, times)[k];
          exported := [name];
          UpdateAt(images, k, MarkCompleted);
          images := Update(images, image.id, MarkCompleted);
        } else {
          UpdateAt(images, k, MarkFailed);
          images := Update(images, image.id, MarkFailed);
        }
      }
    }
  }
}
