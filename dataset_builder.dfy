/**
 * The bookkeeping of `ml_models/dataset_builder.py`: the file name and record of a new
 * sample, the manifest that groups annotation records by category and subject, and the
 * counters of the dataset report. The directory listings and annotation files are given as
 * sequences; the builder's state is the set of files it knows to exist and the annotation
 * files it has written.
 */
module DatasetBuilder {
  import opened Wrappers
  import opened Seqs
  import opened Text
  import opened MapSums
  import opened Groups

  /* ---------- file names ---------- */

  /** The last component of a path (`Path(p).name`). */
  function BaseName(path: string): (r: string)
    ensures '/' !in r
  {
    match LastIndexOf(path, '/')
    case None => path
    case Some(i) => path[i + 1..]
  }

  /** `Path.suffix`: from the last '.' of the name, unless that dot starts or ends the name. */
  function Suffix(name: string): (r: string)
    ensures r == "" || (|r| >= 2 && r[0] == '.' && '.' !in r[1..])
    ensures r != "" ==> |r| < |name| && r == name[|name| - |r|..]
  {
    match LastIndexOf(name, '.')
    case None => ""
    case Some(i) => if 0 < i < |name| - 1 then name[i..] else ""
  }

  /**
   * `f"{subject}_{timestamp}{source.suffix}"`: the name starts with the subject and the
   * timestamp, and a stored sample keeps the extension of the image it was copied from.
   */
  function SampleFilename(subject: string, timestamp: string, imagePath: string): (r: string)
    ensures subject + "_" + timestamp <= r
    ensures |r| == |subject| + 1 + |timestamp| + |Suffix(BaseName(imagePath))|
    ensures r[|subject| + 1 + |timestamp|..] == Suffix(BaseName(imagePath))
    ensures Suffix(BaseName(imagePath)) != "" ==> Suffix(r) == Suffix(BaseName(imagePath))
  {
    var stem := subject + "_" + timestamp;
    var suffix := Suffix(BaseName(imagePath));
    if suffix != "" then
      LastDotOfSuffixed(stem, suffix);
      assert (stem + suffix)[|stem|..] == suffix;
      stem + suffix
    else
      stem
  }

  /** `filename.rsplit('.', 1)[0]`: everything before the last '.', or the whole name without one. */
  function AnnotationStem(filename: string): (r: string)
    ensures '.' !in filename ==> r == filename
    ensures '.' in filename ==> r + "." <= filename && '.' !in filename[|r| + 1..]
  {
    match LastIndexOf(filename, '.')
    case None => filename
    case Some(i) => filename[..i]
  }

  function AnnotationName(filename: string): string {
    AnnotationStem(filename) + ".json"
  }

  /** The last '.' of `a + b` is the first character of `b` when `b` has no other one. */
  lemma LastDotOfSuffixed(a: string, b: string)
    requires |b| >= 1 && b[0] == '.' && '.' !in b[1..]
    ensures LastIndexOf(a + b, '.') == Some(|a|)
  {
    var s := a + b;
    assert s[|a|] == '.';
    var r := LastIndexOf(s, '.').value;
    assert forall j :: r < j < |s| ==> s[j] != '.' by {
      forall j | r < j < |s| ensures s[j] != '.' {
        assert s[j] in s[r + 1..];
      }
    }
    assert forall j :: |a| < j < |s| ==> s[j] != '.' by {
      forall j | |a| < j < |s| ensures s[j] != '.' {
        assert s[j] == b[j - |a|] && b[j - |a|] in b[1..];
      }
    }
  }

  /**
   * With a timestamp free of dots, the annotation file is named after the sample without
   * its extension: `subject_timestamp.json`. Without a suffix, a dot in the subject is
   * taken for one.
   */
  lemma AnnotationNameDropsSuffix(subject: string, timestamp: string, imagePath: string)
    requires '.' !in timestamp
    ensures var suffix := Suffix(BaseName(imagePath));
      suffix != "" ==> AnnotationName(SampleFilename(subject, timestamp, imagePath)) == subject + "_" + timestamp + ".json"
    ensures var suffix := Suffix(BaseName(imagePath));
      suffix == "" && '.' !in subject ==>
        AnnotationName(SampleFilename(subject, timestamp, imagePath)) == subject + "_" + timestamp + ".json"
  {
    var suffix := Suffix(BaseName(imagePath));
    var stem := subject + "_" + timestamp;
    if suffix != "" {
      LastDotOfSuffixed(stem, suffix);
      assert (stem + suffix)[..|stem|] == stem;
    } else {
      assert SampleFilename(subject, timestamp, imagePath) == stem;
      assert forall i :: 0 <= i < |subject| ==> stem[i] == subject[i];
      assert forall i :: |subject| < i < |stem| ==> stem[i] == timestamp[i - |subject| - 1];
    }
  }

  /* ---------- sample records ---------- */

  /** The JSON record written for one sample; `annotations` stands for the free-form dictionary. */
  datatype Sample = Sample(
    filename: string,
    subject: string,
    category: string,
    originalPath: string,
    datasetPath: string,
    addedDate: string,
    annotations: map<string, string>)

  function CategoryOf(s: Sample): string { s.category }
  function SubjectOf(s: Sample): string { s.subject }

  /* ---------- the manifest ---------- */

  datatype ManifestItem = ManifestItem(filename: string, path: string, added: string)

  datatype CategoryEntry = CategoryEntry(count: nat, subjects: map<string, seq<ManifestItem>>)

  datatype Manifest = Manifest(created: string, categories: map<string, CategoryEntry>, totalSamples: nat)

  function ItemOf(s: Sample): ManifestItem {
    ManifestItem(s.filename, s.datasetPath, s.addedDate)
  }

  function Items(samples: seq<Sample>): (r: seq<ManifestItem>)
    ensures |r| == |samples| && forall i :: 0 <= i < |r| ==> r[i] == ItemOf(samples[i])
  {
    seq(|samples|, i requires 0 <= i < |samples| => ItemOf(samples[i]))
  }

  /** The subject lists of one category's samples: each subject's items in reading order. */
  ghost function SubjectLists(samples: seq<Sample>): map<string, seq<ManifestItem>> {
    map s | s in KeysOf(samples, SubjectOf) :: Items(Group(samples, SubjectOf, s))
  }

  /** What the manifest holds for category `c`: its sample count and its subject lists. */
  ghost function EntryFor(samples: seq<Sample>, c: string): CategoryEntry {
    CategoryEntry(|Group(samples, CategoryOf, c)|, SubjectLists(Group(samples, CategoryOf, c)))
  }

  /** What the manifest's "categories" must hold: the samples grouped by category, then by subject. */
  ghost function ExpectedCategories(samples: seq<Sample>): map<string, CategoryEntry> {
    map c | c in KeysOf(samples, CategoryOf) :: EntryFor(samples, c)
  }

  /** The entry a category has before its first sample. */
  const NewCategory := CategoryEntry(0, map[])

  /** One more sample in a category entry: the count goes up and the item joins its subject's list. */
  function AddToEntry(entry: CategoryEntry, r: Sample): (e: CategoryEntry)
    ensures e.count == entry.count + 1
    ensures e.subjects.Keys == entry.subjects.Keys + {r.subject}
  {
    var list := if r.subject in entry.subjects then entry.subjects[r.subject] else [];
    CategoryEntry(entry.count + 1, entry.subjects[r.subject := list + [ItemOf(r)]])
  }

  lemma SubjectListSnocAt(samples: seq<Sample>, r: Sample, s: string)
    ensures Items(Group(samples + [r], SubjectOf, s))
      == (if s in KeysOf(samples, SubjectOf) then Items(Group(samples, SubjectOf, s)) else [])
         + (if r.subject == s then [ItemOf(r)] else [])
  {
    GroupSnoc(samples, r, SubjectOf, s);
    EmptyUnlessKeyOccurs(samples, SubjectOf, s);
  }

  lemma SubjectListsSnoc(samples: seq<Sample>, r: Sample)
    ensures var before := SubjectLists(samples);
      SubjectLists(samples + [r])
        == before[r.subject := (if r.subject in before then before[r.subject] else []) + [ItemOf(r)]]
  {
    var before, after := SubjectLists(samples), SubjectLists(samples + [r]);
    var expected := before[r.subject := (if r.subject in before then before[r.subject] else []) + [ItemOf(r)]];
    KeysOfSnoc(samples, r, SubjectOf);
    assert after.Keys == expected.Keys;
    forall s | s in after
      ensures after[s] == expected[s]
    {
      SubjectListSnocAt(samples, r, s);
      assert after[s] == Items(Group(samples + [r], SubjectOf, s));
      if s == r.subject {
        assert expected[s] == (if s in before then before[s] else []) + [ItemOf(r)];
      } else {
        assert s in before && expected[s] == before[s];
        assert before[s] == Items(Group(samples, SubjectOf, s));
      }
    }
    MapExtensional(after, expected);
  }

  /** A category without samples has the empty entry. */
  lemma EntryForAbsent(samples: seq<Sample>, c: string)
    requires c !in KeysOf(samples, CategoryOf)
    ensures EntryFor(samples, c) == NewCategory
  {
    EmptyUnlessKeyOccurs(samples, CategoryOf, c);
    assert SubjectLists([]) == map[];
  }

  lemma EntryForSnoc(samples: seq<Sample>, r: Sample, c: string)
    ensures EntryFor(samples + [r], c) == if c == r.category then AddToEntry(EntryFor(samples, c), r) else EntryFor(samples, c)
  {
    if c == r.category {
      EntryForSnocOwn(samples, r);
    } else {
      EntryForSnocOther(samples, r, c);
    }
  }

  /** Every other category keeps its entry. */
  lemma EntryForSnocOther(samples: seq<Sample>, r: Sample, c: string)
    requires c != r.category
    ensures EntryFor(samples + [r], c) == EntryFor(samples, c)
  {
    GroupSnoc(samples, r, CategoryOf, c);
    assert Group(samples + [r], CategoryOf, c) == Group(samples, CategoryOf, c);
  }

  /** The record's own category gains it. */
  lemma EntryForSnocOwn(samples: seq<Sample>, r: Sample)
    ensures EntryFor(samples + [r], r.category) == AddToEntry(EntryFor(samples, r.category), r)
  {
    var g := Group(samples, CategoryOf, r.category);
    GroupSnoc(samples, r, CategoryOf, r.category);
    assert Group(samples + [r], CategoryOf, r.category) == g + [r];
    SubjectListsSnoc(g, r);
  }

  /** Reading one more record updates exactly its own category entry, as the loop of `create_manifest` does. */
  lemma ExpectedCategoriesSnoc(samples: seq<Sample>, r: Sample)
    ensures var before := ExpectedCategories(samples);
      ExpectedCategories(samples + [r])
        == before[r.category := AddToEntry(if r.category in before then before[r.category] else NewCategory, r)]
  {
    var before, after := ExpectedCategories(samples), ExpectedCategories(samples + [r]);
    var expected := before[r.category := AddToEntry(if r.category in before then before[r.category] else NewCategory, r)];
    KeysOfSnoc(samples, r, CategoryOf);
    assert after.Keys == expected.Keys;
    forall c | c in after
      ensures after[c] == expected[c]
    {
      ExpectedAt(samples, r, c);
    }
    MapExtensional(after, expected);
  }

  /** The value `ExpectedCategoriesSnoc` claims at one category `c` of the longer sequence. */
  lemma ExpectedAt(samples: seq<Sample>, r: Sample, c: string)
    requires c in KeysOf(samples + [r], CategoryOf)
    ensures var before := ExpectedCategories(samples);
      ExpectedCategories(samples + [r])[c]
        == before[r.category := AddToEntry(if r.category in before then before[r.category] else NewCategory, r)][c]
  {
    var before := ExpectedCategories(samples);
    KeysOfSnoc(samples, r, CategoryOf);
    EntryForSnoc(samples, r, c);
    if c == r.category {
      if c in before {
        assert before[c] == EntryFor(samples, c);
      } else {
        EntryForAbsent(samples, c);
      }
    } else {
      assert c in KeysOf(samples, CategoryOf);
      assert before[c] == EntryFor(samples, c);
    }
  }

  /** The loop step of `create_manifest` over the first `n` records. */
  lemma ManifestStep(records: seq<Sample>, n: nat)
    requires n < |records|
    ensures var before := ExpectedCategories(records[..n]);
      var r := records[n];
      ExpectedCategories(records[..n + 1])
        == before[r.category := AddToEntry(if r.category in before then before[r.category] else NewCategory, r)]
  {
    assert records[..n + 1] == records[..n] + [records[n]];
    ExpectedCategoriesSnoc(records[..n], records[n]);
  }

  lemma ManifestStart(records: seq<Sample>)
    ensures ExpectedCategories(records[..0]) == map[]
  {
    assert KeysOf(records[..0], CategoryOf) == {};
  }

  /** Category counts as a map, for the total below. */
  ghost function CategoryCounts(categories: map<string, CategoryEntry>): map<string, nat> {
    map c | c in categories :: categories[c].count
  }

  /** Subject list lengths as a map, for the total below. */
  ghost function ListLengths(subjects: map<string, seq<ManifestItem>>): map<string, nat> {
    map s | s in subjects :: |subjects[s]|
  }

  /** Every record is counted in exactly one category: the category counts add up to the number of records. */
  lemma CategoryCountsTotal(samples: seq<Sample>)
    ensures Sum(CategoryCounts(ExpectedCategories(samples))) == |samples|
  {
    var counts := CategoryCounts(ExpectedCategories(samples));
    assert counts.Keys == GroupSizes(samples, CategoryOf).Keys;
    assert counts == GroupSizes(samples, CategoryOf);
    GroupSizesSum(samples, CategoryOf);
  }

  lemma ListLengthsAreGroupSizes(g: seq<Sample>)
    ensures ListLengths(SubjectLists(g)) == GroupSizes(g, SubjectOf)
  {
    var lists := SubjectLists(g);
    var lengths := ListLengths(lists);
    var sizes := GroupSizes(g, SubjectOf);
    assert lengths.Keys == sizes.Keys;
    forall s | s in lengths ensures lengths[s] == sizes[s] {
      assert lists[s] == Items(Group(g, SubjectOf, s));
    }
  }

  /** A category's count is the total length of its subject lists: each record is in exactly one list. */
  lemma CategoryCountIsListTotal(samples: seq<Sample>, c: string)
    requires c in ExpectedCategories(samples)
    ensures ExpectedCategories(samples)[c].count == Sum(ListLengths(ExpectedCategories(samples)[c].subjects))
  {
    var g := Group(samples, CategoryOf, c);
    assert ExpectedCategories(samples)[c] == EntryFor(samples, c);
    ListLengthsAreGroupSizes(g);
    GroupSizesSum(g, SubjectOf);
  }

  /** Each record's item is in the list of its own category and subject. */
  lemma RecordInItsList(samples: seq<Sample>, j: nat)
    requires j < |samples|
    ensures var r := samples[j];
      && r.category in ExpectedCategories(samples)
      && r.subject in ExpectedCategories(samples)[r.category].subjects
      && ItemOf(r) in ExpectedCategories(samples)[r.category].subjects[r.subject]
  {
    var r := samples[j];
    assert r in samples;
    var g := Group(samples, CategoryOf, r.category);
    assert r in g;
    var h := Group(g, SubjectOf, r.subject);
    assert r in h;
    var k :| 0 <= k < |h| && h[k] == r;
    assert Items(h)[k] == ItemOf(r);
  }

  /* ---------- image counting ---------- */

  /** `fnmatch(name, "*.[jp]*g")`: a '.', then 'j' or 'p', then anything, ending in 'g'. */
  predicate MatchesJpGlob(name: string) {
    exists i :: 0 <= i && i + 2 < |name| && name[i] == '.' && (name[i + 1] == 'j' || name[i + 1] == 'p') && name[|name| - 1] == 'g'
  }

  /** `fnmatch(name, "*.png")`. */
  predicate MatchesPngGlob(name: string) {
    |name| >= 4 && name[|name| - 4..] == ".png"
  }

  /** A file either pattern accepts. */
  predicate IsImageName(name: string) {
    MatchesJpGlob(name) || MatchesPngGlob(name)
  }

  /** The count as written: the two globs' results concatenated. */
  function ImageCountAsWritten(files: seq<string>): nat {
    |Filter(files, MatchesJpGlob)| + |Filter(files, MatchesPngGlob)|
  }

  /** The count as intended: each image file once. */
  function ImageCount(files: seq<string>): (r: nat)
    ensures r <= |files|
  {
    |Filter(files, IsImageName)|
  }

  /** Every ".png" name also matches "*.[jp]*g". */
  lemma PngMatchesJpGlob(name: string)
    requires MatchesPngGlob(name)
    ensures MatchesJpGlob(name)
  {
    var i := |name| - 4;
    assert name[i] == name[|name| - 4..][0] == '.';
    assert name[i + 1] == name[|name| - 4..][1] == 'p';
    assert name[|name| - 1] == name[|name| - 4..][3] == 'g';
  }

  /** The count as written adds the ".png" files a second time. */
  lemma {:induction false} AsWrittenCountsPngTwice(files: seq<string>)
    ensures ImageCountAsWritten(files) == ImageCount(files) + |Filter(files, MatchesPngGlob)|
  {
    if files != [] {
      var init := files[..|files| - 1];
      AsWrittenCountsPngTwice(init);
      var f := files[|files| - 1];
      if MatchesPngGlob(f) {
        PngMatchesJpGlob(f);
      }
    }
  }

  /** A directory holding only "heart.png" is reported as holding two images. */
  lemma PngCountedTwice()
    ensures ImageCountAsWritten(["heart.png"]) == 2
    ensures ImageCount(["heart.png"]) == 1
  {
    assert MatchesPngGlob("heart.png");
    PngMatchesJpGlob("heart.png");
    assert Filter(["heart.png"], MatchesJpGlob) == Filter([], MatchesJpGlob) + ["heart.png"] by {
      assert ["heart.png"][..0] == [];
    }
    assert Filter(["heart.png"], MatchesPngGlob) == Filter([], MatchesPngGlob) + ["heart.png"] by {
      assert ["heart.png"][..0] == [];
    }
    assert Filter(["heart.png"], IsImageName) == Filter([], IsImageName) + ["heart.png"] by {
      assert ["heart.png"][..0] == [];
    }
  }

  /* ---------- the report ---------- */

  datatype Report = Report(
    totalImages: nat,
    byCategory: map<string, nat>,
    bySubject: map<string, nat>,
    rawCount: nat,
    processedCount: nat)

  /** The file names of one category directory under "raw". */
  datatype CategoryDir = CategoryDir(name: string, files: seq<string>)

  ghost predicate DistinctNames(dirs: seq<CategoryDir>) {
    forall i, j :: 0 <= i < j < |dirs| ==> dirs[i].name != dirs[j].name
  }

  /** The images of a list of directories. */
  function TotalImages(dirs: seq<seq<string>>): nat {
    if dirs == [] then 0 else TotalImages(dirs[..|dirs| - 1]) + ImageCount(dirs[|dirs| - 1])
  }

  /** The names of the first `n` category directories. */
  ghost function NamesUpTo(dirs: seq<CategoryDir>, n: nat): set<string>
    requires n <= |dirs|
  {
    set i | 0 <= i < n :: dirs[i].name
  }

  lemma NamesStep(dirs: seq<CategoryDir>, n: nat)
    requires n < |dirs| && DistinctNames(dirs)
    ensures NamesUpTo(dirs, n + 1) == NamesUpTo(dirs, n) + {dirs[n].name}
    ensures dirs[n].name !in NamesUpTo(dirs, n)
  {
  }

  lemma TotalImagesStep(dirs: seq<seq<string>>, n: nat)
    requires n < |dirs|
    ensures TotalImages(dirs[..n + 1]) == TotalImages(dirs[..n]) + ImageCount(dirs[n])
  {
    assert dirs[..n + 1][..n] == dirs[..n];
  }

  lemma SubjectCountStep(records: seq<Sample>, n: nat)
    requires n < |records|
    ensures GroupSizes(records[..n + 1], SubjectOf) == Increment(GroupSizes(records[..n], SubjectOf), records[n].subject)
  {
    assert records[..n + 1] == records[..n] + [records[n]];
    GroupSizesSnoc(records[..n], records[n], SubjectOf);
  }

  lemma GroupSizesStart(records: seq<Sample>)
    ensures GroupSizes(records[..0], SubjectOf) == map[]
  {
    assert KeysOf(records[..0], SubjectOf) == {};
  }

  /* ---------- the builder object ---------- */

  /** The directories `_setup_directory_structure` creates under the base path. */
  const SetupDirectories: set<string> := {
    "raw/biology", "raw/chemistry", "raw/physics", "raw/astronomy",
    "processed/biology", "processed/chemistry", "processed/physics", "processed/astronomy",
    "annotations", "metadata", "embeddings", "validation", "test"}

  /** The text of the `FileNotFoundError` that `shutil.copy2` raises for a missing destination directory. */
  function NoSuchFileText(path: string): string {
    "[Errno 2] No such file or directory: '" + path + "'"
  }

  class DatasetBuilder {
    const basePath: string
    /** The paths that exist on disk. */
    var files: set<string>
    /** The directories under the base path, relative to it. */
    const directories: set<string>
    /** The annotation directory: file name to the record stored in it. */
    var annotationFiles: map<string, Sample>

    /** `DatasetBuilder(base_path)`: the standard directories now exist beside any that already did. */
    constructor (basePath: string, files: set<string>, existingDirectories: set<string>)
      ensures this.basePath == basePath && this.files == files && annotationFiles == map[]
      ensures directories == existingDirectories + SetupDirectories
    {
      this.basePath := basePath;
      this.files := files;
      directories := existingDirectories + SetupDirectories;
      annotationFiles := map[];
    }

    function DestinationPath(category: string, filename: string): string {
      basePath + "/raw/" + category + "/" + filename
    }

    /**
     * `add_sample`: a missing source fails before anything is copied or written; so does a
     * copy into a category without a "raw" directory, which `shutil.copy2` refuses. Otherwise
     * the sample is copied (when asked) and its record is written under the annotation name.
     * `timestamp` is the `strftime` stamp and `now` the `isoformat` time of the call.
     */
    method AddSample(imagePath: string, subject: string, category: string, annotations: Option<map<string, string>>,
                     copyToDataset: bool, timestamp: string, now: string) returns (r: Result<Sample>)
      modifies this
      ensures imagePath !in old(files) ==>
        r == Err("Image not found: " + imagePath) && files == old(files) && annotationFiles == old(annotationFiles)
      ensures imagePath in old(files) && copyToDataset && "raw/" + category !in directories ==>
        r == Err(NoSuchFileText(DestinationPath(category, SampleFilename(subject, timestamp, imagePath))))
        && files == old(files) && annotationFiles == old(annotationFiles)
      ensures imagePath in old(files) && (!copyToDataset || "raw/" + category in directories) ==>
        var filename := SampleFilename(subject, timestamp, imagePath);
        var dest := DestinationPath(category, filename);
        var sample := Sample(filename, subject, category, imagePath, dest, now, annotations.GetOr(map[]));
        && r == Ok(sample)
        && files == (if copyToDataset then old(files) + {dest} else old(files))
        && annotationFiles == old(annotationFiles)[AnnotationName(filename) := sample]
    {
      if imagePath !in files {
        r := Err("Image not found: " + imagePath);
      } else {
        var filename := SampleFilename(subject, timestamp, imagePath);
        var dest := DestinationPath(category, filename);
        if copyToDataset && "raw/" + category !in directories {
          r := Err(NoSuchFileText(dest));
        } else {
          if copyToDataset {
            files := files + {dest};
          }
          var sample := Sample(filename, subject, category, imagePath, dest, now, annotations.GetOr(map[]));
          annotationFiles := annotationFiles[AnnotationName(filename) := sample];
          r := Ok(sample);
        }
      }
    }

    /**
     * `create_manifest` over the annotation records in the order they are read: every record
     * goes into the list of its category and subject, and the counters follow.
     */
    method CreateManifest(records: seq<Sample>, created: string) returns (m: Manifest)
      ensures m.created == created && m.totalSamples == |records|
      ensures m.categories == ExpectedCategories(records)
    {
      var categories: map<string, CategoryEntry> := map[];
      var total := 0;
      ManifestStart(records);
      for n := 0 to |records|
        invariant total == n
        invariant categories == ExpectedCategories(records[..n])
      {
        var r := records[n];
        var entry := if r.category in categories then categories[r.category] else NewCategory;
        entry := AddToEntry(entry, r);
        ManifestStep(records, n);
        categories := categories[r.category := entry];
        total := total + 1;
      }
      assert records[..|records|] == records;
      m := Manifest(created, categories, total);
    }

    /**
     * `generate_dataset_report` over the listed directories and the annotation records, with
     * each image file counted once.
     */
    method GenerateDatasetReport(rawDirs: seq<CategoryDir>, processedDirs: seq<seq<string>>, records: seq<Sample>)
      returns (report: Report)
      requires DistinctNames(rawDirs)
      ensures report.byCategory.Keys == set i | 0 <= i < |rawDirs| :: rawDirs[i].name
      ensures forall i :: 0 <= i < |rawDirs| ==> report.byCategory[rawDirs[i].name] == ImageCount(rawDirs[i].files)
      ensures report.rawCount == Sum(report.byCategory)
      ensures report.processedCount == TotalImages(processedDirs)
      ensures report.totalImages == report.rawCount + report.processedCount
      ensures report.bySubject == GroupSizes(records, SubjectOf)
      ensures Sum(report.bySubject) == |records|
    {
      var byCategory, rawCount := CountRaw(rawDirs);
      var processedCount := CountProcessed(processedDirs);
      var bySubject := CountSubjects(records);
      GroupSizesSum(records, SubjectOf);
      report := Report(rawCount + processedCount, byCategory, bySubject, rawCount, processedCount);
    }
  }

  /** The "raw" loop of the report: each category directory's image count, and their total. */
  method CountRaw(rawDirs: seq<CategoryDir>) returns (byCategory: map<string, nat>, rawCount: nat)
    requires DistinctNames(rawDirs)
    ensures byCategory.Keys == set i | 0 <= i < |rawDirs| :: rawDirs[i].name
    ensures forall i :: 0 <= i < |rawDirs| ==> byCategory[rawDirs[i].name] == ImageCount(rawDirs[i].files)
    ensures rawCount == Sum(byCategory)
  {
    byCategory := map[];
    rawCount := 0;
    for n := 0 to |rawDirs|
      invariant byCategory == RawCounts(rawDirs[..n])
      invariant rawCount == RawTotal(rawDirs[..n])
    {
      assert rawDirs[..n + 1][..n] == rawDirs[..n];
      var count := ImageCount(rawDirs[n].files);
      byCategory := byCategory[rawDirs[n].name := count];
      rawCount := rawCount + count;
    }
    assert rawDirs[..|rawDirs|] == rawDirs;
    RawCountsFacts(rawDirs);
    RawCountsSum(rawDirs);
  }

  /** The counts the raw loop has stored after the directories `dirs`. */
  ghost function RawCounts(dirs: seq<CategoryDir>): map<string, nat> {
    if dirs == [] then map[]
    else
      var last := dirs[|dirs| - 1];
      RawCounts(dirs[..|dirs| - 1])[last.name := ImageCount(last.files)]
  }

  /** The running total of the raw loop after the directories `dirs`. */
  ghost function RawTotal(dirs: seq<CategoryDir>): nat {
    if dirs == [] then 0 else RawTotal(dirs[..|dirs| - 1]) + ImageCount(dirs[|dirs| - 1].files)
  }

  /** With distinct directory names, each name is stored with its own count. */
  lemma {:induction false} RawCountsFacts(dirs: seq<CategoryDir>)
    requires DistinctNames(dirs)
    ensures RawCounts(dirs).Keys == NamesUpTo(dirs, |dirs|)
    ensures forall i :: 0 <= i < |dirs| ==> RawCounts(dirs)[dirs[i].name] == ImageCount(dirs[i].files)
  {
    if dirs != [] {
      var n := |dirs| - 1;
      var init := dirs[..n];
      assert forall i :: 0 <= i < n ==> init[i] == dirs[i];
      RawCountsFacts(init);
      assert NamesUpTo(init, n) == NamesUpTo(dirs, n);
      RawStep(dirs, n, RawCounts(init));
    }
  }

  /** With distinct directory names, the running total is the sum of the stored counts. */
  lemma {:induction false} RawCountsSum(dirs: seq<CategoryDir>)
    requires DistinctNames(dirs)
    ensures Sum(RawCounts(dirs)) == RawTotal(dirs)
  {
    if dirs != [] {
      var n := |dirs| - 1;
      var init := dirs[..n];
      var m, name, count := RawCounts(init), dirs[n].name, ImageCount(dirs[n].files);
      assert RawCounts(dirs) == m[name := count];
      assert RawTotal(dirs) == RawTotal(init) + count;
      NameIsNew(dirs);
      RawCountsSum(init);
      SumInsert(m, name, count);
    }
  }

  /** The last directory's name is not among the earlier ones, which are themselves distinct. */
  lemma NameIsNew(dirs: seq<CategoryDir>)
    requires |dirs| > 0 && DistinctNames(dirs)
    ensures DistinctNames(dirs[..|dirs| - 1])
    ensures dirs[|dirs| - 1].name !in RawCounts(dirs[..|dirs| - 1])
  {
    var n := |dirs| - 1;
    var init := dirs[..n];
    assert forall i :: 0 <= i < n ==> init[i] == dirs[i];
    RawCountsKeys(init, dirs[n].name);
  }

  /** A name no directory has is not stored. */
  lemma {:induction false} RawCountsKeys(dirs: seq<CategoryDir>, name: string)
    requires forall i :: 0 <= i < |dirs| ==> dirs[i].name != name
    ensures name !in RawCounts(dirs)
  {
    if dirs != [] {
      var init := dirs[..|dirs| - 1];
      assert forall i :: 0 <= i < |init| ==> init[i] == dirs[i];
      RawCountsKeys(init, name);
    }
  }

  /** One step of the raw loop: the new category's count joins those of the earlier ones. */
  lemma RawStep(rawDirs: seq<CategoryDir>, n: nat, byCategory: map<string, nat>)
    requires n < |rawDirs| && DistinctNames(rawDirs)
    requires byCategory.Keys == NamesUpTo(rawDirs, n)
    requires forall i :: 0 <= i < n ==> byCategory[rawDirs[i].name] == ImageCount(rawDirs[i].files)
    ensures var next := byCategory[rawDirs[n].name := ImageCount(rawDirs[n].files)];
      && next.Keys == NamesUpTo(rawDirs, n + 1)
      && (forall i :: 0 <= i < n + 1 ==> next[rawDirs[i].name] == ImageCount(rawDirs[i].files))
    ensures rawDirs[n].name !in byCategory
  {
    var name, count := rawDirs[n].name, ImageCount(rawDirs[n].files);
    NamesStep(rawDirs, n);
    var next := byCategory[name := count];
    forall i | 0 <= i < n + 1
      ensures next[rawDirs[i].name] == ImageCount(rawDirs[i].files)
    {
      if i < n {
        assert rawDirs[i].name != name;
      }
    }
  }

  /** The "processed" loop of the report. */
  method CountProcessed(processedDirs: seq<seq<string>>) returns (processedCount: nat)
    ensures processedCount == TotalImages(processedDirs)
  {
    processedCount := 0;
    for n := 0 to |processedDirs|
      invariant processedCount == TotalImages(processedDirs[..n])
    {
      TotalImagesStep(processedDirs, n);
      processedCount := processedCount + ImageCount(processedDirs[n]);
    }
    assert processedDirs[..|processedDirs|] == processedDirs;
  }

  /** The subject-distribution loop of the report: `by_subject[s] = by_subject.get(s, 0) + 1`. */
  method CountSubjects(records: seq<Sample>) returns (bySubject: map<string, nat>)
    ensures bySubject == GroupSizes(records, SubjectOf)
  {
    bySubject := map[];
    GroupSizesStart(records);
    for n := 0 to |records|
      invariant bySubject == GroupSizes(records[..n], SubjectOf)
    {
      SubjectCountStep(records, n);
      bySubject := Increment(bySubject, records[n].subject);
    }
    assert records[..|records|] == records;
  }
}
