/**
 * YOLO archives: the split folders, the import of a folder of images and label files, and the round
 * trip of a whole exported commit.
 */
module Archive {
  import opened Prelude
  import opened Decimal
  import opened Yolo

  // ---- Split folders ----

  /** The first folder on the way to an image that names a split. */
  function DetectSplit(folders: seq<string>): Option<string> {
    if folders == [] then None
    else if folders[0] == "train" then Some("train")
    else if folders[0] == "val" || folders[0] == "valid" || folders[0] == "validation" then Some("val")
    else if folders[0] == "test" then Some("test")
    else DetectSplit(folders[1..])
  }

  /** A folder that stands for a split. */
  ghost predicate Names(folder: string, split: string) {
    || (split == "train" && folder == "train")
    || (split == "val" && (folder == "val" || folder == "valid" || folder == "validation"))
    || (split == "test" && folder == "test")
  }

  /** The folder at the front decides if it stands for a split, and is passed over otherwise. */
  lemma FrontDecides(folders: seq<string>)
    requires folders != []
    ensures forall split :: Names(folders[0], split) ==> DetectSplit(folders) == Some(split)
    ensures (forall split :: !Names(folders[0], split)) ==> DetectSplit(folders) == DetectSplit(folders[1..])
  {
    assert "train"[0] != "val"[0] && "test"[1] != "train"[1] && "test"[0] != "val"[0];
    assert "train"[0] != "valid"[0] && "train"[0] != "validation"[0] && "test"[0] != "valid"[0];
    if forall split :: !Names(folders[0], split) {
      assert !Names(folders[0], "train") && !Names(folders[0], "val") && !Names(folders[0], "test");
    }
  }

  ghost predicate NoneNamed(folders: seq<string>) {
    forall f, split :: f in folders ==> !Names(f, split)
  }

  /** Folder `i` is the first on the path that stands for a split. */
  ghost predicate FirstNamed(folders: seq<string>, i: nat, split: string) {
    i < |folders| && Names(folders[i], split) && NoneNamed(folders[..i])
  }

  /** An image is in the split that the first of its folders stands for that stands for any. */
  lemma {:induction false} DetectSplitIff(folders: seq<string>, split: string)
    ensures DetectSplit(folders) == Some(split) <==> exists i: nat :: FirstNamed(folders, i, split)
  {
    if folders != [] {
      var rest := folders[1..];
      FrontDecides(folders);
      hide DetectSplit, Names;
      if x :| Names(folders[0], x) {
        if i: nat :| FirstNamed(folders, i, split) { FrontIsFirst(folders, i); }
        if x == split { assert FirstNamed(folders, 0, split); }
      } else {
        DetectSplitIff(rest, split);
        if i: nat :| FirstNamed(folders, i, split) { NamedLater(folders, i, split); }
        if i: nat :| FirstNamed(rest, i, split) { NamedEarlier(folders, i, split); }
      }
    }
  }

  lemma FrontIsFirst(folders: seq<string>, i: nat)
    requires i <= |folders|
    ensures i > 0 ==> folders[0] in folders[..i]
  {
    assert i > 0 ==> folders[..i][0] == folders[0];
  }

  lemma NamedLater(folders: seq<string>, i: nat, split: string)
    requires FirstNamed(folders, i, split) && forall x :: !Names(folders[0], x)
    ensures i > 0 && FirstNamed(folders[1..], i - 1, split)
  {
    hide Names;
    assert folders[..i] == if i > 0 then [folders[0]] + folders[1..][..i - 1] else [];
  }

  lemma NamedEarlier(folders: seq<string>, i: nat, split: string)
    requires folders != [] && FirstNamed(folders[1..], i, split) && forall x :: !Names(folders[0], x)
    ensures FirstNamed(folders, i + 1, split)
  {
    hide Names;
    assert folders[..i + 1] == [folders[0]] + folders[1..][..i];
  }

  /** Where the exporter puts an image. */
  ghost function ImageFolders(split: string): seq<string> {
    ["images", split]
  }

  ghost predicate SplitName(split: string) {
    split == "train" || split == "val" || split == "test"
  }

  /** An exported image is found in its own split exactly for the three split names. */
  lemma SplitReadsBackIff(split: string)
    ensures DetectSplit(ImageFolders(split)) == Some(split) <==> SplitName(split)
  {
    assert ImageFolders(split)[1..] == [split];
    assert [split][1..] == [];
    assert "images"[0] != "train"[0] && "images"[0] != "val"[0] && "images"[0] != "test"[0];
    assert "images"[0] != "valid"[0] && "images"[0] != "validation"[0];
    assert DetectSplit(ImageFolders(split)) == DetectSplit([split]);
    assert DetectSplit([]) == None;
    assert |"val"| != |"valid"| && |"val"| != |"validation"|;
  }

  // ---- Label files by stem ----

  /** A text file of the archive: its folders, its name without the extension, its contents. */
  datatype TextFile = TextFile(folders: seq<string>, stem: string, text: string)

  ghost predicate UnderLabels(f: TextFile) {
    f.folders != [] && f.folders[0] == "labels"
  }

  /** Annotations by file stem; a file without any has no entry, a later file of one stem wins. */
  ghost function ByStem(files: seq<TextFile>, names: seq<string>, rd: Reader): Result<map<string, seq<Annotation>>> {
    if files == [] then Ok(map[])
    else
      var front, last := ByStem(files[..|files| - 1], names, rd), files[|files| - 1];
      if front.Err? || !UnderLabels(last) then front
      else
        match ReadText(last.text, names, rd)
        case Err => Err
        case Ok(anns) => Ok(if anns == [] then front.value else front.value[last.stem := anns])
  }

  method ParseYolo(files: seq<TextFile>, names: seq<string>, rd: Reader)
    returns (byStem: Result<map<string, seq<Annotation>>>)
    ensures byStem == ByStem(files, names, rd)
  {
    hide ReadText;
    var found: map<string, seq<Annotation>> := map[];
    for i := 0 to |files|
      invariant ByStem(files[..i], names, rd) == Ok(found)
    {
      assert files[..i + 1][..i] == files[..i];
      if files[i].folders != [] && files[i].folders[0] == "labels" {
        var anns := ParseLabels(files[i].text, names, rd);
        if anns.Err? {
          ErrorStays(files, i + 1, names, rd);
          return Err;
        }
        if anns.value != [] { found := found[files[i].stem := anns.value]; }
      }
    }
    assert files[..|files|] == files;
    byStem := Ok(found);
  }

  lemma {:induction false} ErrorStays(files: seq<TextFile>, i: nat, names: seq<string>, rd: Reader)
    requires i <= |files| && ByStem(files[..i], names, rd).Err?
    ensures ByStem(files, names, rd).Err?
    decreases |files|
  {
    if i == |files| {
      assert files[..i] == files;
    } else {
      assert files[..|files| - 1][..i] == files[..i];
      ErrorStays(files[..|files| - 1], i, names, rd);
    }
  }

  ghost function Lookup(byStem: map<string, seq<Annotation>>, stem: string): seq<Annotation> {
    if stem in byStem then byStem[stem] else []
  }

  ghost predicate DistinctStems(files: seq<TextFile>) {
    forall i, j :: 0 <= i < j < |files| ==> files[i].stem != files[j].stem
  }

  /** Readable files with distinct stems are all found under their stems, and nothing else is. */
  lemma {:induction false} ByStemExact(files: seq<TextFile>, names: seq<string>, rd: Reader)
    requires DistinctStems(files)
    requires forall f :: f in files ==> UnderLabels(f) && ReadText(f.text, names, rd).Ok?
    ensures ByStem(files, names, rd).Ok?
    ensures forall f :: f in files ==>
      Lookup(ByStem(files, names, rd).value, f.stem) == ReadText(f.text, names, rd).value
    ensures forall stem :: stem in ByStem(files, names, rd).value ==> exists f :: f in files && f.stem == stem
  {
    hide ReadText;
    if files != [] {
      var n := |files| - 1;
      var front, last := files[..n], files[n];
      FrontStems(files);
      ByStemExact(front, names, rd);
      assert files == front + [last];
      var before, after := ByStem(front, names, rd).value, ByStem(files, names, rd).value;
      var anns := ReadText(last.text, names, rd).value;
      assert after == if anns == [] then before else before[last.stem := anns];
      hide ByStem;
      assert last.stem !in before;
    }
  }

  lemma FrontStems(files: seq<TextFile>)
    requires DistinctStems(files) && files != []
    ensures var n := |files| - 1;
      DistinctStems(files[..n]) && forall f :: f in files[..n] ==> f in files && f.stem != files[n].stem
  {
    var n := |files| - 1;
    assert forall i :: 0 <= i < n ==> files[..n][i] == files[i];
    forall f | f in files[..n] ensures f in files && f.stem != files[n].stem {
      var i :| 0 <= i < n && files[..n][i] == f;
      assert files[i] == f;
    }
  }

  // ---- Images, revisions and the split map ----

  /** An image file: the sample its bytes belong to, its name without the extension, its folders. */
  datatype ImageFile = ImageFile(sample: string, stem: string, folders: seq<string>)

  datatype Revision = Revision(sample: string, payload: seq<Annotation>)

  datatype Import = Import(samples: seq<string>, revisions: seq<Revision>, splits: Option<map<string, string>>)

  /** Annotations of classes that the ontology has. */
  ghost function Valid(anns: seq<Annotation>, known: set<string>): seq<Annotation> {
    if anns == [] then []
    else (if anns[0].classKey in known then [anns[0]] else []) + Valid(anns[1..], known)
  }

  ghost function Samples(files: seq<ImageFile>): (ids: seq<string>)
    ensures |ids| == |files| && forall i :: 0 <= i < |files| ==> ids[i] == files[i].sample
  {
    seq(|files|, i requires 0 <= i < |files| => files[i].sample)
  }

  /** One revision for each image whose label file has a box of a known class. */
  ghost function Revisions(files: seq<ImageFile>, byStem: map<string, seq<Annotation>>, known: set<string>)
    : seq<Revision>
  {
    if files == [] then []
    else
      var f := files[|files| - 1];
      var valid := Valid(Lookup(byStem, f.stem), known);
      Revisions(files[..|files| - 1], byStem, known) + if valid == [] then [] else [Revision(f.sample, valid)]
  }

  /** Where the images lie, as far as they lie in split folders; a later file of one sample wins. */
  ghost function FolderSplits(files: seq<ImageFile>): map<string, string> {
    if files == [] then map[]
    else
      var front, f := FolderSplits(files[..|files| - 1]), files[|files| - 1];
      match DetectSplit(f.folders)
      case Some(split) => front[f.sample := split]
      case None => front
  }

  /** The split map is passed on only if it is as large as the list of samples. */
  ghost function PassedOn(files: seq<ImageFile>): Option<map<string, string>> {
    var found := FolderSplits(files);
    if |found| > 0 && |found| == |files| then Some(found) else None
  }

  ghost function Imported(files: seq<ImageFile>, byStem: map<string, seq<Annotation>>, known: set<string>): Import {
    Import(Samples(files), Revisions(files, byStem, known), PassedOn(files))
  }

  method Filter(anns: seq<Annotation>, known: set<string>) returns (valid: seq<Annotation>)
    ensures valid == Valid(anns, known)
  {
    valid := [];
    assert anns[0..] == anns;
    for i := 0 to |anns|
      invariant valid + Valid(anns[i..], known) == Valid(anns, known)
    {
      assert anns[i..][1..] == anns[i + 1..];
      ghost var before := valid;
      if anns[i].classKey in known {
        valid := valid + [anns[i]];
        assert before + ([anns[i]] + Valid(anns[i + 1..], known)) == valid + Valid(anns[i + 1..], known);
      } else {
        assert [] + Valid(anns[i + 1..], known) == Valid(anns[i + 1..], known);
      }
    }
    assert valid + [] == valid;
  }

  /** The loop over the images of an import. */
  method ImportImages(files: seq<ImageFile>, byStem: map<string, seq<Annotation>>, known: set<string>)
    returns (result: Import)
    ensures result == Imported(files, byStem, known)
  {
    hide Valid, DetectSplit, Samples, Revisions, FolderSplits;
    NoImages(byStem, known);
    var samples: seq<string> := [];
    var revisions: seq<Revision> := [];
    var found: map<string, string> := map[];
    for i := 0 to |files|
      invariant samples == Samples(files[..i])
      invariant revisions == Revisions(files[..i], byStem, known)
      invariant found == FolderSplits(files[..i])
    {
      var f := files[i];
      OneMoreImage(files, i, byStem, known);
      samples := samples + [f.sample];
      var split := DetectSplit(f.folders);
      if split.Some? { found := found[f.sample := split.value]; }
      var valid := Filter(if f.stem in byStem then byStem[f.stem] else [], known);
      if valid != [] { revisions := revisions + [Revision(f.sample, valid)]; }
    }
    assert files[..|files|] == files;
    assert |Samples(files)| == |files|;
    result := Import(samples, revisions, if |found| > 0 && |found| == |samples| then Some(found) else None);
  }

  lemma NoImages(byStem: map<string, seq<Annotation>>, known: set<string>)
    ensures Samples([]) == [] && Revisions([], byStem, known) == [] && FolderSplits([]) == map[]
  {
  }

  lemma OneMoreImage(files: seq<ImageFile>, i: nat, byStem: map<string, seq<Annotation>>, known: set<string>)
    requires i < |files|
    ensures var f, front, more := files[i], files[..i], files[..i + 1];
      && Samples(more) == Samples(front) + [f.sample]
      && Revisions(more, byStem, known) == Revisions(front, byStem, known)
           + (var valid := Valid(Lookup(byStem, f.stem), known);
              if valid == [] then [] else [Revision(f.sample, valid)])
      && FolderSplits(more) == match DetectSplit(f.folders)
           case Some(split) => FolderSplits(front)[f.sample := split]
           case None => FolderSplits(front)
  {
    hide Valid, DetectSplit, Lookup;
    assert files[..i + 1][..i] == files[..i];
  }

  /** The condition under which an import passes its split map on. */
  ghost predicate SplitsPass(files: seq<ImageFile>) {
    && files != [] && NoDup(Samples(files))
    && forall f :: f in files ==> DetectSplit(f.folders).Some?
  }

  /** Every entry of the split map comes from an image in a split folder. */
  lemma {:induction false} SplitKeys(files: seq<ImageFile>)
    ensures forall s :: s in FolderSplits(files) ==>
      s in Samples(files) && exists f :: f in files && f.sample == s && DetectSplit(f.folders).Some?
  {
    hide DetectSplit;
    if files != [] {
      var n := |files| - 1;
      SplitKeys(files[..n]);
      assert Samples(files) == Samples(files[..n]) + [files[n].sample] && files == files[..n] + [files[n]];
    }
  }

  lemma {:induction false} SplitValues(files: seq<ImageFile>)
    requires NoDup(Samples(files))
    ensures forall f :: f in files ==>
      match DetectSplit(f.folders)
      case Some(split) => f.sample in FolderSplits(files) && FolderSplits(files)[f.sample] == split
      case None => f.sample !in FolderSplits(files)
  {
    hide DetectSplit, NoDup;
    if files != [] {
      var n := |files| - 1;
      var front := files[..n];
      LastSample(files, n);
      SplitValues(front);
      SplitKeys(front);
      assert files == front + [files[n]];
      forall f | f in front ensures f.sample != files[n].sample {
        var i :| 0 <= i < n && front[i] == f;
        assert Samples(front)[i] == f.sample;
      }
    }
  }

  lemma LastIsNew(ids: seq<string>, id: string)
    requires NoDup(ids + [id])
    ensures NoDup(ids) && id !in ids
  {
    var more := ids + [id];
    assert forall i :: 0 <= i < |ids| ==> more[i] == ids[i];
    assert more[|ids|] == id;
  }

  /** The size test is exact: equal sizes mean every file resolved and no sample came twice. */
  lemma PassedOnIff(files: seq<ImageFile>)
    ensures PassedOn(files).Some? <==> SplitsPass(files)
    ensures PassedOn(files).Some? ==> forall f :: f in files ==>
      f.sample in PassedOn(files).value && Some(PassedOn(files).value[f.sample]) == DetectSplit(f.folders)
  {
    var ids, keys := Samples(files), FolderSplits(files).Keys;
    hide DetectSplit, FolderSplits;
    SplitKeys(files);
    if NoDup(ids) { SplitValues(files); }
    ElementsBound(ids);
    SubsetCardinality(keys, Elements(ids));
    forall f | f in files ensures f.sample in Elements(ids) {
      var i :| 0 <= i < |files| && files[i] == f;
      assert ids[i] == f.sample;
    }
    if SplitsPass(files) {
      forall id | id in Elements(ids) ensures id in keys {
        var i :| 0 <= i < |ids| && ids[i] == id;
        assert files[i] in files;
      }
      assert keys == Elements(ids);
      NoDupCardinality(ids);
    }
    if PassedOn(files).Some? {
      FullSizeMeansNoDup(ids);
      assert keys == Elements(ids);
    }
  }

  // ---- The whole archive ----

  /** A row of an exported commit: its sample, split and annotations. */
  datatype Exportable = Exportable(sample: string, split: string, payload: seq<Annotation>)

  ghost function LabelFile(row: Exportable, names: seq<string>, round: real -> nat): TextFile {
    TextFile(["labels", row.split], row.sample, LabelText(row.payload, names, round))
  }

  /** The image of a row; `owner` is the sample that its bytes belong to where they are imported. */
  ghost function ImageOf(row: Exportable, owner: string -> string): ImageFile {
    ImageFile(owner(row.sample), row.sample, ImageFolders(row.split))
  }

  /** The files found are those written for the rows, each once, in any order. */
  ghost predicate LabelsOf(files: seq<TextFile>, rows: set<Exportable>, names: seq<string>, round: real -> nat) {
    NoDup(files) && forall f :: f in files <==> exists row :: row in rows && f == LabelFile(row, names, round)
  }

  ghost predicate ImagesOf(files: seq<ImageFile>, rows: set<Exportable>, owner: string -> string) {
    NoDup(files) && forall f :: f in files <==> exists row :: row in rows && f == ImageOf(row, owner)
  }

  /** Rows of one commit: one per sample, with different images, in one of the three splits. */
  ghost predicate CommitRows(rows: set<Exportable>, owner: string -> string) {
    && (forall a, b :: a in rows && b in rows && owner(a.sample) == owner(b.sample) ==> a == b)
    && forall row :: row in rows ==> SplitName(row.split)
  }

  lemma LabelsRead(texts: seq<TextFile>, rows: set<Exportable>, names: seq<string>, round: real -> nat,
                   owner: string -> string, rd: Reader)
    requires Standard(rd) && CommitRows(rows, owner) && LabelsOf(texts, rows, names, round)
    ensures ByStem(texts, names, rd).Ok?
    ensures forall row :: row in rows ==>
      Lookup(ByStem(texts, names, rd).value, row.sample) == Survivors(row.payload, names, round)
  {
    hide LabelText, ReadText, Survivors, Standard, ByStem;
    forall f | f in texts ensures UnderLabels(f) && ReadText(f.text, names, rd).Ok? {
      var row :| row in rows && f == LabelFile(row, names, round);
      LabelsReadBack(row.payload, names, round, rd);
    }
    forall i, j | 0 <= i < j < |texts| ensures texts[i].stem != texts[j].stem {
      assert texts[i] in texts && texts[j] in texts;
    }
    ByStemExact(texts, names, rd);
    forall row | row in rows
      ensures Lookup(ByStem(texts, names, rd).value, row.sample) == Survivors(row.payload, names, round)
    {
      assert LabelFile(row, names, round) in texts;
      LabelsReadBack(row.payload, names, round, rd);
    }
  }

  lemma ImagesPass(images: seq<ImageFile>, rows: set<Exportable>, owner: string -> string)
    requires rows != {} && CommitRows(rows, owner) && ImagesOf(images, rows, owner)
    ensures NoDup(Samples(images)) && SplitsPass(images)
    ensures forall row :: row in rows ==> DetectSplit(ImageOf(row, owner).folders) == Some(row.split)
  {
    hide DetectSplit, ImageFolders;
    forall row | row in rows ensures DetectSplit(ImageOf(row, owner).folders) == Some(row.split) {
      SplitReadsBackIff(row.split);
    }
    forall i, j | 0 <= i < j < |images| ensures Samples(images)[i] != Samples(images)[j] {
      assert images[i] in images && images[j] in images;
    }
    var row :| row in rows;
    assert ImageOf(row, owner) in images;
  }

  /** The revisions stored for one sample. */
  ghost function StoredFor(revisions: seq<Revision>, sample: string): seq<seq<Annotation>> {
    if revisions == [] then []
    else
      var n := |revisions| - 1;
      StoredFor(revisions[..n], sample) + if revisions[n].sample == sample then [revisions[n].payload] else []
  }

  lemma StoredOneMore(revisions: seq<Revision>, r: Revision, sample: string)
    ensures StoredFor(revisions + [r], sample)
         == StoredFor(revisions, sample) + if r.sample == sample then [r.payload] else []
  {
    assert (revisions + [r])[..|revisions|] == revisions;
  }

  lemma {:induction false} StoredNone(files: seq<ImageFile>, byStem: map<string, seq<Annotation>>,
                                      known: set<string>, sample: string)
    requires sample !in Samples(files)
    ensures StoredFor(Revisions(files, byStem, known), sample) == []
  {
    if files != [] {
      var n := |files| - 1;
      assert Samples(files)[n] == files[n].sample;
      assert forall i :: 0 <= i < n ==> Samples(files[..n])[i] == Samples(files)[i];
      StoredNone(files[..n], byStem, known, sample);
      hide Revisions, StoredFor;
      StoredNext(files, byStem, known, sample);
    }
  }

  /** What an image adds to the revisions. */
  ghost function OwnRevision(f: ImageFile, byStem: map<string, seq<Annotation>>, known: set<string>)
    : seq<seq<Annotation>>
  {
    var valid := Valid(Lookup(byStem, f.stem), known);
    if valid == [] then [] else [valid]
  }

  lemma StoredNext(files: seq<ImageFile>, byStem: map<string, seq<Annotation>>, known: set<string>, sample: string)
    requires files != []
    ensures var n := |files| - 1;
      StoredFor(Revisions(files, byStem, known), sample)
      == StoredFor(Revisions(files[..n], byStem, known), sample)
         + if files[n].sample == sample then OwnRevision(files[n], byStem, known) else []
  {
    var n := |files| - 1;
    var before, f := Revisions(files[..n], byStem, known), files[n];
    var valid := Valid(Lookup(byStem, f.stem), known);
    assert Revisions(files, byStem, known) == before + if valid == [] then [] else [Revision(f.sample, valid)];
    hide Revisions, Valid, Lookup, StoredFor;
    StoredOneMore(before, Revision(f.sample, valid), sample);
    assert before + [] == before;
  }

  /** Where no sample comes twice, each has at most the one revision of its own file. */
  lemma {:induction false} StoredOnce(files: seq<ImageFile>, byStem: map<string, seq<Annotation>>,
                                      known: set<string>, k: nat)
    requires NoDup(Samples(files)) && k < |files|
    ensures StoredFor(Revisions(files, byStem, known), files[k].sample) == OwnRevision(files[k], byStem, known)
  {
    hide StoredFor, NoDup, Revisions, OwnRevision;
    var n := |files| - 1;
    LastSample(files, k);
    StoredNext(files, byStem, known, files[k].sample);
    if k < n {
      assert files[..n][k] == files[k];
      StoredOnce(files[..n], byStem, known, k);
    } else {
      StoredNone(files[..n], byStem, known, files[n].sample);
    }
  }

  lemma LastSample(files: seq<ImageFile>, k: nat)
    requires NoDup(Samples(files)) && k < |files|
    ensures var n := |files| - 1;
      && NoDup(Samples(files[..n])) && files[n].sample !in Samples(files[..n])
      && (k < n ==> files[k].sample != files[n].sample)
  {
    var n := |files| - 1;
    assert Samples(files) == Samples(files[..n]) + [files[n].sample];
    LastIsNew(Samples(files[..n]), files[n].sample);
    assert k < n ==> Samples(files)[k] != Samples(files)[n];
  }

  lemma {:induction false} SurvivorsAreValid(payload: seq<Annotation>, names: seq<string>, round: real -> nat,
                                             known: set<string>)
    requires forall key :: key in names ==> key in known
    ensures Valid(Survivors(payload, names, round), known) == Survivors(payload, names, round)
  {
    if payload != [] {
      SurvivorsAreValid(payload[1..], names, round, known);
      hide Exported, Rounded;
      var rest := Survivors(payload[1..], names, round);
      if Exported(payload[0], names) {
        ExportedIsNamed(payload[0], names);
        var b := AtPrecision(payload[0], round);
        assert ([b] + rest)[0] == b && ([b] + rest)[1..] == rest;
      } else {
        assert [] + rest == rest;
      }
    }
  }

  lemma ExportedIsNamed(a: Annotation, names: seq<string>)
    requires Exported(a, names)
    ensures a.classKey in names && |a.coords| == 4
  {
    IndexIsPosition(names, a.classKey);
  }

  /**
   * The archive round trip. Importing the files of an exported commit, found in any order, into an
   * ontology that has its classes never fails; it stores for each sample one revision with exactly
   * its surviving boxes, or none if there are none, and returns a split map that gives each sample
   * its split and names no other.
   */
  lemma ArchiveRoundTrip(texts: seq<TextFile>, images: seq<ImageFile>, rows: set<Exportable>, names: seq<string>,
                         round: real -> nat, owner: string -> string, known: set<string>, rd: Reader)
    requires Standard(rd) && rows != {} && CommitRows(rows, owner)
    requires LabelsOf(texts, rows, names, round) && ImagesOf(images, rows, owner)
    requires forall key :: key in names ==> key in known
    ensures ByStem(texts, names, rd).Ok?
    ensures var result := Imported(images, ByStem(texts, names, rd).value, known);
      && result.splits.Some? && result.splits.value.Keys == (set row | row in rows :: owner(row.sample))
      && forall row :: row in rows ==>
           var boxes := Survivors(row.payload, names, round);
           && StoredFor(result.revisions, owner(row.sample)) == (if boxes == [] then [] else [boxes])
           && result.splits.value[owner(row.sample)] == row.split
  {
    hide Standard, ByStem, Survivors, StoredFor, Revisions, FolderSplits, DetectSplit, Valid, Lookup, SplitName;
    LabelsRead(texts, rows, names, round, owner, rd);
    ImagesPass(images, rows, owner);
    PassedOnIff(images);
    SplitKeys(images);
    var byStem := ByStem(texts, names, rd).value;
    forall row | row in rows
      ensures var boxes := Survivors(row.payload, names, round);
        && StoredFor(Revisions(images, byStem, known), owner(row.sample)) == (if boxes == [] then [] else [boxes])
        && owner(row.sample) in PassedOn(images).value && PassedOn(images).value[owner(row.sample)] == row.split
    {
      SurvivorsAreValid(row.payload, names, round, known);
      assert ImageOf(row, owner) in images;
      RowStored(images, row, byStem, Survivors(row.payload, names, round), owner, known);
    }
    OnlyOwners(images, rows, owner);
  }

  lemma RowStored(images: seq<ImageFile>, row: Exportable, byStem: map<string, seq<Annotation>>,
                  boxes: seq<Annotation>, owner: string -> string, known: set<string>)
    requires NoDup(Samples(images)) && ImageOf(row, owner) in images
    requires Lookup(byStem, row.sample) == boxes && Valid(boxes, known) == boxes
    ensures StoredFor(Revisions(images, byStem, known), owner(row.sample)) == if boxes == [] then [] else [boxes]
  {
    var k :| 0 <= k < |images| && images[k] == ImageOf(row, owner);
    StoredOnce(images, byStem, known, k);
  }

  lemma OnlyOwners(images: seq<ImageFile>, rows: set<Exportable>, owner: string -> string)
    requires ImagesOf(images, rows, owner)
    ensures forall s :: s in FolderSplits(images) ==> exists row :: row in rows && owner(row.sample) == s
  {
    hide FolderSplits, DetectSplit;
    SplitKeys(images);
    forall s | s in FolderSplits(images) ensures exists row :: row in rows && owner(row.sample) == s {
      var f :| f in images && f.sample == s;
      var row :| row in rows && f == ImageOf(row, owner);
    }
  }
}
