/**
 * The asset table of `ml_models/content_mapper.py`: subject ids mapped to 3D-model metadata,
 * loaded once and only read. A JSON object keeps its insertion order, so the table is a
 * sequence of (subject, entry) pairs; the filters keep that order.
 */
module ContentMapper {
  import opened Wrappers
  import opened Seqs
  import opened Text

  /** One subject's metadata object; `None` is a key the object does not have. */
  datatype Asset = Asset(
    file: Option<string>,
    displayName: Option<string>,
    category: Option<string>,
    difficulty: Option<string>,
    animations: Option<seq<string>>,
    interactiveFeatures: Option<seq<string>>,
    description: Option<string>,
    tags: Option<seq<string>>,
    recommendedAge: Option<string>,
    otherKeys: set<string>)

  /** An object with no key at all, which Python treats as false in `if not info`. */
  predicate IsEmpty(a: Asset) {
    && a.file.None? && a.displayName.None? && a.category.None? && a.difficulty.None?
    && a.animations.None? && a.interactiveFeatures.None? && a.description.None?
    && a.tags.None? && a.recommendedAge.None? && a.otherKeys == {}
  }

  type Table = seq<(string, Asset)>

  /** The loaded metadata file; `subjects` is `None` when the file has no "subjects" key. */
  datatype Metadata = Metadata(subjects: Option<Table>)

  /** `metadata.get("subjects", {})`. */
  function SubjectsOf(m: Metadata): Table {
    m.subjects.GetOr([])
  }

  function Lookup(t: Table, subject: string): (r: Option<Asset>)
    ensures r.None? <==> forall i :: 0 <= i < |t| ==> t[i].0 != subject
    ensures r.Some? ==> (subject, r.value) in t
  {
    if t == [] then None
    else if t[0].0 == subject then Some(t[0].1)
    else
      var r := Lookup(t[1..], subject);
      assert forall i :: 1 <= i < |t| ==> t[i] == t[1..][i - 1];
      r
  }

  /** `get_model_info`: the subject's entry, or `None` when the subject or the whole table is missing. */
  function GetModelInfo(m: Metadata, subject: string): (r: Option<Asset>)
    ensures m.subjects.None? ==> r.None?
    ensures r.None? <==> forall e :: e in SubjectsOf(m) ==> e.0 != subject
    ensures r.Some? ==> (subject, r.value) in SubjectsOf(m)
  {
    Lookup(SubjectsOf(m), subject)
  }

  /** `get_model_file`: the entry's "file", or `None` for an unknown subject or an empty entry. */
  function GetModelFile(m: Metadata, subject: string): (r: Option<string>)
    ensures GetModelInfo(m, subject).None? ==> r.None?
    ensures r.Some? ==> exists a :: (subject, a) in SubjectsOf(m) && a.file == r
  {
    match GetModelInfo(m, subject)
    case None => None
    case Some(info) => if IsEmpty(info) then None else info.file
  }

  /** `get_animations`: the entry's animation list, `[]` for an unknown subject or an entry without one. */
  function GetAnimations(m: Metadata, subject: string): (r: seq<string>)
    ensures GetModelInfo(m, subject).None? ==> r == []
    ensures r != [] ==> exists a :: (subject, a) in SubjectsOf(m) && a.animations == Some(r)
  {
    match GetModelInfo(m, subject)
    case None => []
    case Some(info) => if IsEmpty(info) then [] else info.animations.GetOr([])
  }

  /** `get_by_category`: exactly the entries whose "subject_category" is `category`, data and order unchanged. */
  function GetByCategory(m: Metadata, category: string): (r: Table)
    ensures forall e :: e in r <==> e in SubjectsOf(m) && e.1.category == Some(category)
    ensures IsSubsequence(r, SubjectsOf(m))
  {
    var keep := (e: (string, Asset)) => e.1.category == Some(category);
    FilterIsSubsequence(SubjectsOf(m), keep);
    Filter(SubjectsOf(m), keep)
  }

  /** `get_by_difficulty`: exactly the entries whose "difficulty_level" is `level`, data and order unchanged. */
  function GetByDifficulty(m: Metadata, level: string): (r: Table)
    ensures forall e :: e in r <==> e in SubjectsOf(m) && e.1.difficulty == Some(level)
    ensures IsSubsequence(r, SubjectsOf(m))
  {
    var keep := (e: (string, Asset)) => e.1.difficulty == Some(level);
    FilterIsSubsequence(SubjectsOf(m), keep);
    Filter(SubjectsOf(m), keep)
  }

  function LowerAll(tags: seq<string>): (r: seq<string>)
    ensures |r| == |tags| && forall k :: 0 <= k < |tags| ==> r[k] == Lower(tags[k])
  {
    seq(|tags|, k requires 0 <= k < |tags| => Lower(tags[k]))
  }

  /** The entry carries `tag` as one whole tag, ignoring letter case. */
  ghost predicate HasTag(a: Asset, tag: string) {
    exists k :: 0 <= k < |a.tags.GetOr([])| && Lower(a.tags.GetOr([])[k]) == Lower(tag)
  }

  /** `search_by_tag`: the entries one of whose "educational_tags" equals `tag` case-insensitively. */
  function SearchByTag(m: Metadata, tag: string): (r: Table)
    ensures forall e :: e in r <==> e in SubjectsOf(m) && HasTag(e.1, tag)
    ensures IsSubsequence(r, SubjectsOf(m))
  {
    var keep := (e: (string, Asset)) => Lower(tag) in LowerAll(e.1.tags.GetOr([]));
    FilterIsSubsequence(SubjectsOf(m), keep);
    Filter(SubjectsOf(m), keep)
  }

  /** `get_all_subjects`: the subject ids in table order. */
  function GetAllSubjects(m: Metadata): (r: seq<string>)
    ensures |r| == |SubjectsOf(m)| && forall i :: 0 <= i < |r| ==> r[i] == SubjectsOf(m)[i].0
  {
    seq(|SubjectsOf(m)|, i requires 0 <= i < |SubjectsOf(m)| => SubjectsOf(m)[i].0)
  }

  datatype Recommendation =
    | NotFound(subject: string, message: string)
    | Found(
        subject: string,
        modelFile: string,
        displayName: string,
        category: string,
        difficulty: string,
        difficultyMatchesPreference: bool,
        animations: seq<string>,
        interactiveFeatures: seq<string>,
        description: string,
        educationalTags: seq<string>,
        recommendedAge: string)

  /** The text of Python's `KeyError` for a missing key, as `str(e)` renders it. */
  function KeyErrorText(key: string): string {
    "'" + key + "'"
  }

  /**
   * `get_recommendation`: "not_found" for an unknown subject (or an empty entry); otherwise
   * the entry's fields, with `info["file"]`, `info["display_name"]`, `info["subject_category"]`
   * and `info["difficulty_level"]` read in that order and a missing one raising `KeyError`.
   * `min_confidence` is accepted and not used.
   */
  function GetRecommendation(m: Metadata, subject: string, minConfidence: real, preferDifficulty: Option<string>): (r: Result<Recommendation>)
    ensures GetModelInfo(m, subject).None? ==>
      r == Ok(NotFound(subject, "No 3D model available for subject: " + subject))
    ensures r.Err? <==>
      && GetModelInfo(m, subject).Some?
      && var a := GetModelInfo(m, subject).value;
      && !IsEmpty(a)
      && (a.file.None? || a.displayName.None? || a.category.None? || a.difficulty.None?)
    ensures r.Err? ==>
      r.error in {KeyErrorText("file"), KeyErrorText("display_name"), KeyErrorText("subject_category"), KeyErrorText("difficulty_level")}
    ensures r.Ok? && r.value.Found? ==>
      && r.value.subject == subject
      && exists a :: (subject, a) in SubjectsOf(m)
          && a.file == Some(r.value.modelFile) && a.displayName == Some(r.value.displayName)
          && a.category == Some(r.value.category) && a.difficulty == Some(r.value.difficulty)
    ensures GetModelInfo(m, subject).Some? && IsEmpty(GetModelInfo(m, subject).value) ==>
      r == Ok(NotFound(subject, "No 3D model available for subject: " + subject))
    ensures GetModelInfo(m, subject).Some? ==>
      var a := GetModelInfo(m, subject).value;
      !IsEmpty(a) && a.file.Some? && a.displayName.Some? && a.category.Some? && a.difficulty.Some? ==>
        r.Ok? && r.value.Found?
    ensures r.Ok? && r.value.Found? ==>
      && GetModelInfo(m, subject).Some?
      && var a := GetModelInfo(m, subject).value;
      && r.value.animations == a.animations.GetOr([])
      && r.value.interactiveFeatures == a.interactiveFeatures.GetOr([])
      && r.value.description == a.description.GetOr("")
      && r.value.educationalTags == a.tags.GetOr([])
      && r.value.recommendedAge == a.recommendedAge.GetOr("N/A")
    ensures r.Ok? && r.value.Found? ==>
      (r.value.difficultyMatchesPreference <==>
        (preferDifficulty.None? || preferDifficulty.value == "" || preferDifficulty.value == r.value.difficulty))
  {
    match GetModelInfo(m, subject)
    case None => Ok(NotFound(subject, "No 3D model available for subject: " + subject))
    case Some(info) =>
      if IsEmpty(info) then Ok(NotFound(subject, "No 3D model available for subject: " + subject))
      else
        var matches := if preferDifficulty.None? || preferDifficulty.value == "" then true
                       else info.difficulty == preferDifficulty;
        if info.file.None? then Err(KeyErrorText("file"))
        else if info.displayName.None? then Err(KeyErrorText("display_name"))
        else if info.category.None? then Err(KeyErrorText("subject_category"))
        else if info.difficulty.None? then Err(KeyErrorText("difficulty_level"))
        else Ok(Found(
          subject, info.file.value, info.displayName.value, info.category.value, info.difficulty.value,
          matches,
          info.animations.GetOr([]), info.interactiveFeatures.GetOr([]), info.description.GetOr(""),
          info.tags.GetOr([]), info.recommendedAge.GetOr("N/A")))
  }

  /* ---------- properties ---------- */

  /** A JSON object has each subject once. */
  ghost predicate UniqueSubjects(t: Table) {
    forall i, j :: 0 <= i < j < |t| ==> t[i].0 != t[j].0
  }

  /** In a well-formed table the lookup finds the one entry stored under the subject. */
  lemma {:induction false} LookupFindsEntry(t: Table, subject: string, a: Asset)
    requires UniqueSubjects(t) && (subject, a) in t
    ensures Lookup(t, subject) == Some(a)
  {
    if t[0].0 != subject {
      assert (subject, a) in t[1..];
      LookupFindsEntry(t[1..], subject, a);
    }
  }

  /** `get_model_info` returns the entry stored under the subject. */
  lemma ModelInfoIsEntry(m: Metadata, subject: string, a: Asset)
    requires UniqueSubjects(SubjectsOf(m)) && (subject, a) in SubjectsOf(m)
    ensures GetModelInfo(m, subject) == Some(a)
    ensures !IsEmpty(a) ==> GetModelFile(m, subject) == a.file && GetAnimations(m, subject) == a.animations.GetOr([])
  {
    LookupFindsEntry(SubjectsOf(m), subject, a);
  }

  /**
   * The category queries partition the entries that have a category: each such entry is in the
   * result for its own category and in no other, and an entry without one is in none.
   */
  lemma CategoriesPartitionTable(m: Metadata, e: (string, Asset), c1: string, c2: string)
    requires e in SubjectsOf(m)
    ensures e.1.category.Some? ==> e in GetByCategory(m, e.1.category.value)
    ensures e.1.category.None? ==> e !in GetByCategory(m, c1)
    ensures c1 != c2 ==> !(e in GetByCategory(m, c1) && e in GetByCategory(m, c2))
  {
  }

  /** The union of the category queries over the categories in use is the set of entries that have a category. */
  lemma CategoriesCoverTable(m: Metadata)
    ensures var cats := set e | e in SubjectsOf(m) && e.1.category.Some? :: e.1.category.value;
      (set c, e | c in cats && e in GetByCategory(m, c) :: e)
        == (set e | e in SubjectsOf(m) && e.1.category.Some?)
  {
    var cats := set e | e in SubjectsOf(m) && e.1.category.Some? :: e.1.category.value;
    var lhs := set c, e | c in cats && e in GetByCategory(m, c) :: e;
    var rhs := set e | e in SubjectsOf(m) && e.1.category.Some?;
    forall e | e in rhs ensures e in lhs {
      assert e.1.category.value in cats;
      assert e in GetByCategory(m, e.1.category.value);
    }
  }

  /** A tag search matches whole tags only: the tag "cell" does not find an entry tagged "cell biology". */
  lemma TagSearchIsNotSubstring()
    ensures var a := Asset(Some("cell.glb"), None, None, None, None, None, None, Some(["Cell Biology"]), None, {});
      var m := Metadata(Some([("cell", a)]));
      SearchByTag(m, "cell") == [] && SearchByTag(m, "CELL biology") == [("cell", a)]
  {
    var a := Asset(Some("cell.glb"), None, None, None, None, None, None, Some(["Cell Biology"]), None, {});
    assert Lower("Cell Biology") == "cell biology";
    assert Lower("CELL biology") == "cell biology";
    assert Lower("cell") == "cell";
    assert LowerAll(["Cell Biology"]) == ["cell biology"];
    assert "cell" !in ["cell biology"];
  }

  /** `min_confidence` has no effect on the recommendation. */
  lemma MinConfidenceIgnored(m: Metadata, subject: string, c1: real, c2: real, prefer: Option<string>)
    ensures GetRecommendation(m, subject, c1, prefer) == GetRecommendation(m, subject, c2, prefer)
  {
  }
}
