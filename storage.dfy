/**
 * Upload result handling of `src/firebase/storage.js`. The blob store itself
 * is not modelled: the millisecond clock reading and what the store answered
 * (a download URL, or the message of the exception it threw) are inputs.
 */
module Storage {
  import opened Wrappers
  import Text
  import Seqs

  /** The parts of a browser `File` the code reads. */
  datatype File = File(name: string, size: nat, mimeType: string)

  /** `{ url, path, error }` as `uploadImage` returns it. */
  datatype UploadResult = UploadResult(url: Option<string>, path: Option<string>, error: Option<string>)

  /** `uploadMultipleImages`' `{ uploads, errors, success }`. */
  datatype Batch = Batch(uploads: seq<UploadResult>, errors: seq<UploadResult>, success: bool)

  /** `uploadImage`'s default folder. */
  const DefaultFolder: string := "blog-images"

  /** `${Date.now()}-${file.name}`. */
  function ObjectName(stamp: nat, fileName: string): (n: string)
    ensures |n| == |Text.Decimal(stamp)| + 1 + |fileName|
    ensures n[|Text.Decimal(stamp)|] == '-' && n[|Text.Decimal(stamp)| + 1..] == fileName
    ensures forall k :: 0 <= k < |Text.Decimal(stamp)| ==> Text.IsDigit(n[k])
  {
    Text.Decimal(stamp) + "-" + fileName
  }

  /** The storage path `${path}/${fileName}`. */
  function ObjectPath(folder: string, stamp: nat, fileName: string): (p: string)
    ensures |p| == |folder| + 1 + |ObjectName(stamp, fileName)|
    ensures p[..|folder| + 1] == folder + "/"
    ensures p[|folder| + 1..] == ObjectName(stamp, fileName)
  {
    folder + "/" + ObjectName(stamp, fileName)
  }

  /** Everything before the first `-`, and everything after it. */
  function SplitAtDash(s: string): (string, string)
  {
    if s == [] then ([], [])
    else if s[0] == '-' then ([], s[1..])
    else
      var (before, after) := SplitAtDash(s[1..]);
      ([s[0]] + before, after)
  }

  /** The leading digits of an object name and the original file name can be read back from it. */
  lemma {:induction false} ObjectNameRoundTrip(stamp: nat, fileName: string)
    ensures SplitAtDash(ObjectName(stamp, fileName)) == (Text.Decimal(stamp), fileName)
    ensures Text.DigitsValue(SplitAtDash(ObjectName(stamp, fileName)).0) == stamp
  {
    DigitsBeforeDash(Text.Decimal(stamp), fileName);
    Text.DecimalRoundTrip(stamp);
  }

  lemma {:induction false} DigitsBeforeDash(digits: string, rest: string)
    requires forall k :: 0 <= k < |digits| ==> Text.IsDigit(digits[k])
    ensures SplitAtDash(digits + "-" + rest) == (digits, rest)
  {
    if digits == [] {
      assert digits + "-" + rest == ['-'] + rest;
    } else {
      var s := digits + "-" + rest;
      assert s[0] == digits[0] && Text.IsDigit(digits[0]);
      assert s[1..] == digits[1..] + "-" + rest;
      DigitsBeforeDash(digits[1..], rest);
      assert digits == [digits[0]] + digits[1..];
    }
  }

  /**
   * `uploadImage(file, folder)`: on success the download URL and the path the
   * object was stored under, on failure only the error message.
   */
  function UploadImage(file: File, folder: string, stamp: nat, answer: Outcome<string>): (r: UploadResult)
    ensures answer.Ok? ==> r.error.None? && r.url == Some(answer.value)
    ensures answer.Ok? ==> r.path.Some? && r.path.value == folder + "/" + Text.Decimal(stamp) + "-" + file.name
    ensures answer.Err? ==> r.url.None? && r.path.None? && r.error == Some(answer.message)
  {
    match answer
    case Ok(url) => UploadResult(Some(url), Some(ObjectPath(folder, stamp, file.name)), None)
    case Err(m) => UploadResult(None, None, Some(m))
  }

  predicate Succeeded(r: UploadResult)
  {
    r.error.None?
  }

  predicate Failed(r: UploadResult)
  {
    r.error.Some?
  }

  /** The results of uploading `files` one by one, in input order (`Promise.all` over `files.map`). */
  function UploadAll(files: seq<File>, folder: string, stamps: seq<nat>, answers: seq<Outcome<string>>): (rs: seq<UploadResult>)
    requires |stamps| == |files| && |answers| == |files|
    ensures |rs| == |files|
    ensures forall i :: 0 <= i < |files| ==> rs[i] == UploadImage(files[i], folder, stamps[i], answers[i])
  {
    if files == [] then []
    else [UploadImage(files[0], folder, stamps[0], answers[0])] + UploadAll(files[1..], folder, stamps[1..], answers[1..])
  }

  /**
   * `uploadMultipleImages`: the results split into successes and errors, each
   * in input order; if the batch throws, no uploads and one error entry.
   */
  function UploadMultipleImages(files: seq<File>, folder: string, stamps: seq<nat>, answers: seq<Outcome<string>>,
                                thrown: Option<string>): (b: Batch)
    requires |stamps| == |files| && |answers| == |files|
    ensures thrown.Some? ==> b == Batch([], [UploadResult(None, None, Some(thrown.value))], false)
    ensures thrown.None? ==> |b.uploads| + |b.errors| == |files|
    ensures thrown.None? ==> (b.success <==> b.errors == [])
    ensures forall u :: u in b.uploads ==> Succeeded(u) && u.url.Some?
    ensures forall e :: e in b.errors ==> Failed(e)
    ensures thrown.None? ==>
      forall u :: multiset(b.uploads)[u] == if Succeeded(u) then multiset(UploadAll(files, folder, stamps, answers))[u] else 0
    ensures thrown.None? ==>
      forall e :: multiset(b.errors)[e] == if Failed(e) then multiset(UploadAll(files, folder, stamps, answers))[e] else 0
  {
    if thrown.Some? then Batch([], [UploadResult(None, None, Some(thrown.value))], false)
    else
      var results := UploadAll(files, folder, stamps, answers);
      PartitionSizes(results);
      UploadedHaveUrls(files, folder, stamps, answers);
      Batch(Seqs.Filter(results, Succeeded), Seqs.Filter(results, Failed), |Seqs.Filter(results, Failed)| == 0)
  }

  /** Every result is a success or an error, never both. */
  lemma {:induction false} PartitionSizes(rs: seq<UploadResult>)
    ensures |Seqs.Filter(rs, Succeeded)| + |Seqs.Filter(rs, Failed)| == |rs|
  {
    if rs != [] {
      PartitionSizes(rs[1..]);
    }
  }

  /** A successful upload result always carries its download URL. */
  lemma UploadedHaveUrls(files: seq<File>, folder: string, stamps: seq<nat>, answers: seq<Outcome<string>>)
    requires |stamps| == |files| && |answers| == |files|
    ensures forall u :: u in UploadAll(files, folder, stamps, answers) && Succeeded(u) ==> u.url.Some?
  {
    var results := UploadAll(files, folder, stamps, answers);
    forall u | u in results && Succeeded(u) ensures u.url.Some? {
      var i :| 0 <= i < |results| && results[i] == u;
    }
  }

  /** Uploading two batches of files one after the other gives the results of uploading them together. */
  lemma UploadAllAppend(f1: seq<File>, f2: seq<File>, folder: string, s1: seq<nat>, s2: seq<nat>,
                        a1: seq<Outcome<string>>, a2: seq<Outcome<string>>)
    requires |s1| == |f1| && |a1| == |f1| && |s2| == |f2| && |a2| == |f2|
    ensures UploadAll(f1 + f2, folder, s1 + s2, a1 + a2)
      == UploadAll(f1, folder, s1, a1) + UploadAll(f2, folder, s2, a2)
  {
    var whole := UploadAll(f1 + f2, folder, s1 + s2, a1 + a2);
    var parts := UploadAll(f1, folder, s1, a1) + UploadAll(f2, folder, s2, a2);
    forall i | 0 <= i < |whole| ensures whole[i] == parts[i] {
      if i >= |f1| {
        assert (f1 + f2)[i] == f2[i - |f1|] && (s1 + s2)[i] == s2[i - |f1|] && (a1 + a2)[i] == a2[i - |f1|];
      }
    }
  }

  /**
   * The successful uploads, and the errors, keep their input order: the batch
   * of two runs of files lists the first run's results before the second's.
   */
  lemma BatchKeepsOrder(f1: seq<File>, f2: seq<File>, folder: string, s1: seq<nat>, s2: seq<nat>,
                        a1: seq<Outcome<string>>, a2: seq<Outcome<string>>)
    requires |s1| == |f1| && |a1| == |f1| && |s2| == |f2| && |a2| == |f2|
    ensures UploadMultipleImages(f1 + f2, folder, s1 + s2, a1 + a2, None).uploads
      == UploadMultipleImages(f1, folder, s1, a1, None).uploads + UploadMultipleImages(f2, folder, s2, a2, None).uploads
    ensures UploadMultipleImages(f1 + f2, folder, s1 + s2, a1 + a2, None).errors
      == UploadMultipleImages(f1, folder, s1, a1, None).errors + UploadMultipleImages(f2, folder, s2, a2, None).errors
  {
    UploadAllAppend(f1, f2, folder, s1, s2, a1, a2);
    Seqs.FilterAppend(UploadAll(f1, folder, s1, a1), UploadAll(f2, folder, s2, a2), Succeeded);
    Seqs.FilterAppend(UploadAll(f1, folder, s1, a1), UploadAll(f2, folder, s2, a2), Failed);
  }
}
