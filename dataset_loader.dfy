/** The dataset loader's pairing logic (utils/dataset_loader.py): file names are reduced to a base name,
    files of a document-type directory are grouped by it, and a pair is reported for every base name that
    has both a scan and a reference file. The directory listing is an input. */
module DatasetLoader {
  import opened Text
  import opened Ranking

  const ImageExts: set<string> := {".pdf", ".jpg", ".jpeg", ".png", ".bmp"}
  const ReferenceExts: set<string> := {".doc", ".docx", ".txt", ".xlsx"}

  // ---------------------------------------------------------------- base names

  /** `_get_base_name`: a leading all-digit word is dropped and the remaining words are re-joined with single
      spaces; any other name is kept as it is. */
  function BaseName(stem: string): string {
    var parts := Words(stem);
    if parts != [] && AllDigits(parts[0]) then Join(" ", parts[1..]) else stem
  }

  lemma FirstWordOfJoin(w: string, rest: string)
    requires w != [] && NoSpace(w)
    ensures FirstWord(w + rest) == w || (rest != [] && !IsSpace(rest[0]))
    ensures rest == [] || IsSpace(rest[0]) ==> FirstWord(w + rest) == w
    decreases |w|
  {
    if |w| > 1 {
      assert (w + rest)[1..] == w[1..] + rest;
      FirstWordOfJoin(w[1..], rest);
    } else {
      assert (w + rest)[1..] == rest;
    }
  }

  /** A word followed by a space splits into that word and the words after the space. */
  lemma WordsAfterWord(w: string, rest: string)
    requires w != [] && NoSpace(w)
    ensures Words(w + " " + rest) == [w] + Words(rest)
  {
    var tail := " " + rest;
    var s := w + tail;
    assert w + " " + rest == s;
    FirstWordOfJoin(w, tail);
    assert s[0] == w[0];
    assert s[|w|..] == tail;
    assert tail[1..] == rest;
  }

  /** Words joined by single spaces split back into the same words. */
  lemma {:induction false} WordsOfJoin(ws: seq<string>)
    requires forall k :: 0 <= k < |ws| ==> ws[k] != [] && NoSpace(ws[k])
    ensures Words(Join(" ", ws)) == ws
  {
    if |ws| == 1 {
      FirstWordOfJoin(ws[0], []);
      assert ws[0] + [] == ws[0];
      assert Join(" ", ws)[|ws[0]|..] == [];
    } else if |ws| > 1 {
      WordsAfterWord(ws[0], Join(" ", ws[1..]));
      WordsOfJoin(ws[1..]);
      assert ws == [ws[0]] + ws[1..];
    }
  }

  /** The base name keeps the name when its first word is not a number; otherwise its words are the name's
      words after the first, so a bare number gives "". */
  lemma BaseNameSpec(stem: string)
    ensures Words(stem) == [] || !AllDigits(Words(stem)[0]) ==> BaseName(stem) == stem
    ensures Words(stem) != [] && AllDigits(Words(stem)[0]) ==> Words(BaseName(stem)) == Words(stem)[1..]
    ensures |Words(stem)| == 1 && AllDigits(Words(stem)[0]) ==> BaseName(stem) == ""
  {
    var ws := Words(stem);
    if ws != [] && AllDigits(ws[0]) {
      WordsOfJoin(ws[1..]);
    }
  }

  // ---------------------------------------------------------------- grouping

  /** A directory entry as listed: its full path, `Path.stem` and `Path.suffix`. */
  datatype FileEntry = FileEntry(path: string, stem: string, suffix: string)

  datatype Kind = ImageFile | ReferenceFile | OtherFile

  /** Classification by lower-cased extension; scans win over references, other extensions are ignored. */
  function KindOf(f: FileEntry): Kind {
    var ext := Lower(f.suffix);
    if ext in ImageExts then ImageFile else if ext in ReferenceExts then ReferenceFile else OtherFile
  }

  function BaseOf(f: FileEntry): string { BaseName(f.stem) }

  /** The scan and the reference kept for one base name. */
  datatype Slot = Slot(image: Option<FileEntry>, reference: Option<FileEntry>)

  /** `file_groups` as its keys in insertion order and its contents. */
  datatype Groups = Groups(keys: seq<string>, slots: map<string, Slot>)

  /** One pass of the grouping loop: open the group if needed, then the file replaces the slot of its kind. */
  function AddFile(g: Groups, f: FileEntry): Groups {
    var b := BaseOf(f);
    var keys := if b in g.slots then g.keys else g.keys + [b];
    var slot := if b in g.slots then g.slots[b] else Slot(None, None);
    var slot2 := match KindOf(f)
      case ImageFile => slot.(image := Some(f))
      case ReferenceFile => slot.(reference := Some(f))
      case OtherFile => slot;
    Groups(keys, g.slots[b := slot2])
  }

  /** The same pass as the loop performs it: first the group is opened, then its slot is replaced. */
  lemma AddFileInTwoSteps(g: Groups, f: FileEntry)
    ensures var b := BaseOf(f);
      var grouped := if b in g.slots then g else Groups(g.keys + [b], g.slots[b := Slot(None, None)]);
      AddFile(g, f) == match KindOf(f)
        case ImageFile => grouped.(slots := grouped.slots[b := grouped.slots[b].(image := Some(f))])
        case ReferenceFile => grouped.(slots := grouped.slots[b := grouped.slots[b].(reference := Some(f))])
        case OtherFile => grouped
  {
  }

  function GroupFiles(files: seq<FileEntry>): Groups {
    if files == [] then Groups([], map[]) else AddFile(GroupFiles(files[..|files| - 1]), files[|files| - 1])
  }

  /** `kept` is the last of `files` satisfying `p`, or None when there is none. */
  ghost predicate LastWith(kept: Option<FileEntry>, files: seq<FileEntry>, p: FileEntry -> bool) {
    && (kept.None? <==> forall i :: 0 <= i < |files| ==> !p(files[i]))
    && (kept.Some? ==>
          exists i :: (0 <= i < |files| && files[i] == kept.value && p(files[i])
                       && forall j :: i < j < |files| ==> !p(files[j])))
  }

  /** The test for a file with base name `b` and kind `k`. */
  function IsKind(b: string, k: Kind): FileEntry -> bool {
    f => BaseOf(f) == b && KindOf(f) == k
  }

  /** `kept` is the last of `files` with base name `b` and kind `k`, or None when there is none. */
  ghost predicate LastOfKind(kept: Option<FileEntry>, files: seq<FileEntry>, b: string, k: Kind) {
    LastWith(kept, files, IsKind(b, k))
  }

  /** The keys are distinct and are exactly the base names of the files. */
  ghost predicate KeysExact(g: Groups, files: seq<FileEntry>) {
    && (forall i, j :: 0 <= i < j < |g.keys| ==> g.keys[i] != g.keys[j])
    && (forall b :: b in g.slots <==> b in g.keys)
    && (forall b :: b in g.slots <==> exists i :: 0 <= i < |files| && BaseOf(files[i]) == b)
  }

  /** Every group keeps the last scan and the last reference with its base name. */
  ghost predicate SlotsExact(g: Groups, files: seq<FileEntry>) {
    forall b :: b in g.slots ==>
      LastOfKind(g.slots[b].image, files, b, ImageFile) && LastOfKind(g.slots[b].reference, files, b, ReferenceFile)
  }

  lemma KeysStep(g: Groups, files: seq<FileEntry>, f: FileEntry)
    requires KeysExact(g, files)
    ensures KeysExact(AddFile(g, f), files + [f])
  {
    var fs := files + [f];
    var g2 := AddFile(g, f);
    assert fs[|files|] == f;
    forall b ensures b in g2.slots <==> exists i :: 0 <= i < |fs| && BaseOf(fs[i]) == b {
      if b in g.slots {
        var i :| 0 <= i < |files| && BaseOf(files[i]) == b;
        assert fs[i] == files[i];
      }
      if exists i :: 0 <= i < |fs| && BaseOf(fs[i]) == b {
        var i :| 0 <= i < |fs| && BaseOf(fs[i]) == b;
        if i < |files| {
          assert fs[i] == files[i];
        }
      }
    }
  }

  /** Appending a file keeps the last match: the file itself when it matches, otherwise the previous one. */
  lemma LastWithStep(kept: Option<FileEntry>, files: seq<FileEntry>, p: FileEntry -> bool, f: FileEntry)
    requires LastWith(kept, files, p)
    ensures LastWith(if p(f) then Some(f) else kept, files + [f], p)
  {
    var fs := files + [f];
    if !p(f) {
      assert forall i :: 0 <= i < |files| ==> fs[i] == files[i];
      if kept.Some? {
        var i :| 0 <= i < |files| && files[i] == kept.value && p(files[i])
          && forall j :: i < j < |files| ==> !p(files[j]);
        assert fs[i] == files[i];
      }
    } else {
      assert fs[|files|] == f;
    }
  }

  lemma LastOfKindStep(kept: Option<FileEntry>, files: seq<FileEntry>, b: string, k: Kind, f: FileEntry)
    requires LastOfKind(kept, files, b, k)
    ensures LastOfKind(if BaseOf(f) == b && KindOf(f) == k then Some(f) else kept, files + [f], b, k)
  {
    LastWithStep(kept, files, IsKind(b, k), f);
  }

  lemma {:induction false} GroupFilesExact(files: seq<FileEntry>)
    ensures KeysExact(GroupFiles(files), files)
    ensures SlotsExact(GroupFiles(files), files)
  {
    if files != [] {
      var init := files[..|files| - 1];
      var f := files[|files| - 1];
      GroupFilesExact(init);
      var g := GroupFiles(init);
      assert init + [f] == files;
      KeysStep(g, init, f);
      var g2 := AddFile(g, f);
      forall b | b in g2.slots
        ensures LastOfKind(g2.slots[b].image, files, b, ImageFile)
        ensures LastOfKind(g2.slots[b].reference, files, b, ReferenceFile)
      {
        var prior := if b in g.slots then g.slots[b] else Slot(None, None);
        if b !in g.slots {
          assert forall i :: 0 <= i < |init| ==> BaseOf(init[i]) != b;
        }
        LastOfKindStep(prior.image, init, b, ImageFile, f);
        LastOfKindStep(prior.reference, init, b, ReferenceFile, f);
      }
    }
  }

  // ---------------------------------------------------------------- pairs

  datatype Pair = Pair(documentType: string, baseName: string, imagePath: string, referencePath: string,
                       imageExt: string, referenceExt: string)

  /** A group yields a pair when it has both a scan and a reference. */
  predicate Complete(s: Slot) { s.image.Some? && s.reference.Some? }

  function PairOf(dirName: string, b: string, s: Slot): Pair
    requires Complete(s)
  {
    Pair(dirName, b, s.image.value.path, s.reference.value.path, Lower(s.image.value.suffix),
         Lower(s.reference.value.suffix))
  }

  /** The pairs of the groups under the first keys, in key order. */
  function PairsOf(dirName: string, keys: seq<string>, slots: map<string, Slot>): seq<Pair>
    requires forall b :: b in keys ==> b in slots
  {
    if keys == [] then []
    else
      var b := keys[|keys| - 1];
      PairsOf(dirName, keys[..|keys| - 1], slots) + (if Complete(slots[b]) then [PairOf(dirName, b, slots[b])] else [])
  }

  lemma {:induction false} PairsOfExact(dirName: string, keys: seq<string>, slots: map<string, Slot>)
    requires forall b :: b in keys ==> b in slots
    ensures forall p :: p in PairsOf(dirName, keys, slots) <==>
      exists b :: b in keys && Complete(slots[b]) && p == PairOf(dirName, b, slots[b])
  {
    if keys != [] {
      var init := keys[..|keys| - 1];
      assert forall b :: b in keys <==> b in init || b == keys[|keys| - 1];
      PairsOfExact(dirName, init, slots);
    }
  }

  /** A directory's pairs: its files grouped, then the complete groups in insertion order. */
  function DirectoryPairs(dirName: string, files: seq<FileEntry>): seq<Pair> {
    var g := GroupFiles(files);
    GroupFilesExact(files);
    PairsOf(dirName, g.keys, g.slots)
  }

  /** A kept file is one of the files, with the base name and kind asked for. */
  lemma KeptIsFile(kept: Option<FileEntry>, files: seq<FileEntry>, b: string, k: Kind)
    requires LastOfKind(kept, files, b, k) && kept.Some?
    ensures exists i :: 0 <= i < |files| && files[i] == kept.value && BaseOf(files[i]) == b && KindOf(files[i]) == k
                        && forall j :: i < j < |files| ==> !(BaseOf(files[j]) == b && KindOf(files[j]) == k)
  {
    var i :| 0 <= i < |files| && files[i] == kept.value && IsKind(b, k)(files[i])
      && forall j :: i < j < |files| ==> !IsKind(b, k)(files[j]);
  }

  /** A file with the base name and kind asked for means something is kept. */
  lemma KeptWhenPresent(kept: Option<FileEntry>, files: seq<FileEntry>, b: string, k: Kind, i: nat)
    requires LastOfKind(kept, files, b, k)
    requires i < |files| && BaseOf(files[i]) == b && KindOf(files[i]) == k
    ensures kept.Some?
  {
    assert IsKind(b, k)(files[i]);
  }

  /** Every directory pair names a base name with both kinds of file and carries the last scan and the last
      reference with that base name. */
  lemma DirectoryPairsSound(dirName: string, files: seq<FileEntry>)
    ensures forall p :: p in DirectoryPairs(dirName, files) ==>
      && p.documentType == dirName
      && (exists i :: 0 <= i < |files| && BaseOf(files[i]) == p.baseName && KindOf(files[i]) == ImageFile
            && files[i].path == p.imagePath && Lower(files[i].suffix) == p.imageExt
            && forall j :: i < j < |files| ==> !(BaseOf(files[j]) == p.baseName && KindOf(files[j]) == ImageFile))
      && (exists i :: 0 <= i < |files| && BaseOf(files[i]) == p.baseName && KindOf(files[i]) == ReferenceFile
            && files[i].path == p.referencePath && Lower(files[i].suffix) == p.referenceExt
            && forall j :: i < j < |files| ==> !(BaseOf(files[j]) == p.baseName && KindOf(files[j]) == ReferenceFile))
  {
    var g := GroupFiles(files);
    GroupFilesExact(files);
    PairsOfExact(dirName, g.keys, g.slots);
    forall p | p in DirectoryPairs(dirName, files)
      ensures p.documentType == dirName
      ensures exists i :: 0 <= i < |files| && BaseOf(files[i]) == p.baseName && KindOf(files[i]) == ImageFile
                && files[i].path == p.imagePath && Lower(files[i].suffix) == p.imageExt
                && forall j :: i < j < |files| ==> !(BaseOf(files[j]) == p.baseName && KindOf(files[j]) == ImageFile)
      ensures exists i :: 0 <= i < |files| && BaseOf(files[i]) == p.baseName && KindOf(files[i]) == ReferenceFile
                && files[i].path == p.referencePath && Lower(files[i].suffix) == p.referenceExt
                && forall j :: i < j < |files| ==> !(BaseOf(files[j]) == p.baseName && KindOf(files[j]) == ReferenceFile)
    {
      var b :| b in g.keys && Complete(g.slots[b]) && p == PairOf(dirName, b, g.slots[b]);
      KeptIsFile(g.slots[b].image, files, b, ImageFile);
      KeptIsFile(g.slots[b].reference, files, b, ReferenceFile);
    }
  }

  /** Every base name with a scan and a reference yields a pair. */
  lemma DirectoryPairsComplete(dirName: string, files: seq<FileEntry>)
    ensures forall i, j ::
      (0 <= i < |files| && 0 <= j < |files| && BaseOf(files[i]) == BaseOf(files[j])
       && KindOf(files[i]) == ImageFile && KindOf(files[j]) == ReferenceFile) ==>
      exists p :: p in DirectoryPairs(dirName, files) && p.baseName == BaseOf(files[i])
  {
    var g := GroupFiles(files);
    GroupFilesExact(files);
    PairsOfExact(dirName, g.keys, g.slots);
    assert DirectoryPairs(dirName, files) == PairsOf(dirName, g.keys, g.slots);
    forall i, j | 0 <= i < |files| && 0 <= j < |files| && BaseOf(files[i]) == BaseOf(files[j])
      && KindOf(files[i]) == ImageFile && KindOf(files[j]) == ReferenceFile
      ensures exists p :: p in DirectoryPairs(dirName, files) && p.baseName == BaseOf(files[i])
    {
      var b := BaseOf(files[i]);
      assert b in g.slots;
      KeptWhenPresent(g.slots[b].image, files, b, ImageFile, i);
      KeptWhenPresent(g.slots[b].reference, files, b, ReferenceFile, j);
      assert b in g.keys && Complete(g.slots[b]);
      assert PairOf(dirName, b, g.slots[b]) in PairsOf(dirName, g.keys, g.slots);
    }
  }

  /** A directory pair names a base name with both kinds of file, and carries the last scan and the last
      reference with that base name and their lower-cased extensions; every such base name yields one. */
  lemma DirectoryPairsSpec(dirName: string, files: seq<FileEntry>)
    ensures forall p :: p in DirectoryPairs(dirName, files) ==>
      && p.documentType == dirName
      && (exists i :: 0 <= i < |files| && BaseOf(files[i]) == p.baseName && KindOf(files[i]) == ImageFile
            && files[i].path == p.imagePath && Lower(files[i].suffix) == p.imageExt
            && forall j :: i < j < |files| ==> !(BaseOf(files[j]) == p.baseName && KindOf(files[j]) == ImageFile))
      && (exists i :: 0 <= i < |files| && BaseOf(files[i]) == p.baseName && KindOf(files[i]) == ReferenceFile
            && files[i].path == p.referencePath && Lower(files[i].suffix) == p.referenceExt
            && forall j :: i < j < |files| ==> !(BaseOf(files[j]) == p.baseName && KindOf(files[j]) == ReferenceFile))
    ensures forall i, j ::
      (0 <= i < |files| && 0 <= j < |files| && BaseOf(files[i]) == BaseOf(files[j])
       && KindOf(files[i]) == ImageFile && KindOf(files[j]) == ReferenceFile) ==>
      exists p :: p in DirectoryPairs(dirName, files) && p.baseName == BaseOf(files[i])
  {
    DirectoryPairsSound(dirName, files);
    DirectoryPairsComplete(dirName, files);
  }

  // ---------------------------------------------------------------- the dataset

  /** An entry of the documents directory: its name, whether it is a directory, and its listing. */
  datatype DirEntry = DirEntry(name: string, isDir: bool, files: seq<FileEntry>)

  /** A directory is scanned when no type is asked for (None or "") or its name contains the type. */
  predicate Scanned(e: DirEntry, documentType: Option<string>) {
    e.isDir && (documentType.None? || documentType.value == "" || Contains(e.name, documentType.value))
  }

  function DatasetPairs(entries: seq<DirEntry>, documentType: Option<string>): seq<Pair> {
    if entries == [] then []
    else
      var e := entries[|entries| - 1];
      DatasetPairs(entries[..|entries| - 1], documentType)
        + (if Scanned(e, documentType) then DirectoryPairs(e.name, e.files) else [])
  }

  /** Every reported pair comes from a scanned directory, so with a type given its directory name contains it. */
  lemma {:induction false} DatasetPairsFiltered(entries: seq<DirEntry>, documentType: Option<string>)
    ensures forall p :: p in DatasetPairs(entries, documentType) ==>
      exists i :: 0 <= i < |entries| && Scanned(entries[i], documentType) && p.documentType == entries[i].name
  {
    if entries != [] {
      var init := entries[..|entries| - 1];
      DatasetPairsFiltered(init, documentType);
      var e := entries[|entries| - 1];
      DirectoryPairsSpec(e.name, e.files);
      forall p | p in DatasetPairs(entries, documentType)
        ensures exists i :: 0 <= i < |entries| && Scanned(entries[i], documentType) && p.documentType == entries[i].name
      {
        if p in DatasetPairs(init, documentType) {
          var i :| 0 <= i < |init| && Scanned(init[i], documentType) && p.documentType == init[i].name;
          assert init[i] == entries[i];
        } else {
          assert entries[|entries| - 1] == e;
        }
      }
    }
  }

  /** The grouping loop for one directory. */
  method GroupDirectory(files: seq<FileEntry>) returns (g: Groups)
    ensures g == GroupFiles(files)
  {
    g := Groups([], map[]);
    for i := 0 to |files|
      invariant g == GroupFiles(files[..i])
    {
      assert files[..i + 1][..i] == files[..i];
      var f := files[i];
      AddFileInTwoSteps(g, f);
      var b := BaseOf(f);
      if b !in g.slots {
        g := Groups(g.keys + [b], g.slots[b := Slot(None, None)]);
      }
      var ext := Lower(f.suffix);
      if ext in ImageExts {
        g := g.(slots := g.slots[b := g.slots[b].(image := Some(f))]);
      } else if ext in ReferenceExts {
        g := g.(slots := g.slots[b := g.slots[b].(reference := Some(f))]);
      }
    }
    assert files[..|files|] == files;
  }

  /** The pair-collecting loop for one directory. */
  method CollectPairs(dirName: string, g: Groups) returns (pairs: seq<Pair>)
    requires forall b :: b in g.keys ==> b in g.slots
    ensures pairs == PairsOf(dirName, g.keys, g.slots)
  {
    pairs := [];
    for i := 0 to |g.keys|
      invariant pairs == PairsOf(dirName, g.keys[..i], g.slots)
    {
      assert g.keys[..i + 1][..i] == g.keys[..i];
      var b := g.keys[i];
      var s := g.slots[b];
      if s.image.Some? && s.reference.Some? {
        pairs := pairs + [PairOf(dirName, b, s)];
      }
    }
    assert g.keys[..|g.keys|] == g.keys;
  }

  /** `find_document_pairs`: nothing when the documents directory is missing, otherwise the pairs of each
      scanned directory in listing order. */
  method FindDocumentPairs(rootExists: bool, entries: seq<DirEntry>, documentType: Option<string>)
    returns (pairs: seq<Pair>)
    ensures !rootExists ==> pairs == []
    ensures rootExists ==> pairs == DatasetPairs(entries, documentType)
  {
    pairs := [];
    if !rootExists {
      return;
    }
    for i := 0 to |entries|
      invariant pairs == DatasetPairs(entries[..i], documentType)
    {
      assert entries[..i + 1][..i] == entries[..i];
      var e := entries[i];
      if !e.isDir {
        continue;
      }
      if documentType.Some? && documentType.value != "" && !Contains(e.name, documentType.value) {
        continue;
      }
      var g := GroupDirectory(e.files);
      GroupFilesExact(e.files);
      var found := CollectPairs(e.name, g);
      pairs := pairs + found;
    }
    assert entries[..|entries|] == entries;
  }

  // ---------------------------------------------------------------- document types

  function DirNames(entries: seq<DirEntry>): seq<string> {
    if entries == [] then []
    else
      var e := entries[|entries| - 1];
      DirNames(entries[..|entries| - 1]) + (if e.isDir then [e.name] else [])
  }

  /** `get_all_document_types`: the directory names, sorted; nothing when the documents directory is missing. */
  function DocumentTypes(rootExists: bool, entries: seq<DirEntry>): seq<string> {
    if rootExists then SortStrings(DirNames(entries)) else []
  }

  /** The types are sorted and are the directory names, each as often as it is listed. */
  lemma DocumentTypesSpec(entries: seq<DirEntry>)
    ensures SortedStrings(DocumentTypes(true, entries))
    ensures multiset(DocumentTypes(true, entries)) == multiset(DirNames(entries))
  {
    SortStringsSpec(DirNames(entries));
  }

  lemma {:induction false} DirNamesExact(entries: seq<DirEntry>)
    ensures forall n :: n in DirNames(entries) <==> exists i :: 0 <= i < |entries| && entries[i].isDir && entries[i].name == n
  {
    if entries != [] {
      var init := entries[..|entries| - 1];
      DirNamesExact(init);
      assert forall i :: 0 <= i < |init| ==> init[i] == entries[i];
    }
  }
}
