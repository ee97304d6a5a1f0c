/**
 * Attachment selection. The ask-question page and the answer form on the
 * question page share one rule: oversized files are dropped from a picked
 * batch, a batch that would take the list above five files is rejected
 * whole, and otherwise the batch is appended. The question editor on the
 * profile page has a rule of its own that counts the existing attachments
 * and replaces the selection instead of appending to it.
 */
module Attachments {
  import Seqs
  const MaxFileBytes := 5 * 1024 * 1024
  const MaxFiles := 5

  /** A browser `File`, as far as the selection logic looks at it. */
  datatype PickedFile = PickedFile(name: string, size: nat)

  predicate SmallEnough(f: PickedFile) {
    f.size <= MaxFileBytes
  }

  /** The files of a batch that pass the 5 MB filter, in order. */
  function KeepSmall(batch: seq<PickedFile>): (r: seq<PickedFile>)
    ensures |r| <= |batch|
    ensures forall i :: 0 <= i < |r| ==> SmallEnough(r[i])
    ensures forall f :: f in r ==> f in batch
  {
    if batch == [] then []
    else
      var init := batch[..|batch| - 1];
      var last := batch[|batch| - 1];
      assert batch == init + [last];
      KeepSmall(init) + (if SmallEnough(last) then [last] else [])
  }

  /** The size filter drops exactly the oversized files, every copy of them, and keeps every copy of the others. */
  lemma {:induction false} KeepSmallCounts(batch: seq<PickedFile>)
    ensures forall f :: multiset(KeepSmall(batch))[f] == if SmallEnough(f) then multiset(batch)[f] else 0
  {
    if batch != [] {
      var init, last := batch[..|batch| - 1], batch[|batch| - 1];
      assert batch == init + [last];
      KeepSmallCounts(init);
    }
  }

  /** The size filter keeps order: filtering two runs of files one after the other is filtering them joined. */
  lemma {:induction false} KeepSmallConcat(a: seq<PickedFile>, b: seq<PickedFile>)
    ensures KeepSmall(a + b) == KeepSmall(a) + KeepSmall(b)
  {
    if b == [] {
      assert a + b == a;
    } else {
      var init, last := b[..|b| - 1], b[|b| - 1];
      assert b == init + [last] && a + b == (a + init) + [last];
      Seqs.SnocParts(a + init, last);
      Seqs.SnocParts(init, last);
      KeepSmallConcat(a, init);
    }
  }

  /** The names of the dropped files, in order: one error toast each. */
  function OversizedNames(batch: seq<PickedFile>): (r: seq<string>)
    ensures |r| <= |batch|
    ensures forall f :: f in batch && !SmallEnough(f) ==> f.name in r
    ensures forall n :: n in r ==> exists f :: f in batch && !SmallEnough(f) && f.name == n
  {
    if batch == [] then []
    else
      var init := batch[..|batch| - 1];
      var last := batch[|batch| - 1];
      assert batch == init + [last];
      var r := OversizedNames(init) + (if SmallEnough(last) then [] else [last.name]);
      assert forall n :: n in OversizedNames(init) ==> exists f :: f in batch && !SmallEnough(f) && f.name == n by {
        forall n | n in OversizedNames(init)
          ensures exists f :: f in batch && !SmallEnough(f) && f.name == n
        {
          var f :| f in init && !SmallEnough(f) && f.name == n;
          assert f in batch;
        }
      }
      r
  }

  /** The toasts keep the order of the files: reporting two runs one after the other is reporting them joined. */
  lemma {:induction false} OversizedNamesConcat(a: seq<PickedFile>, b: seq<PickedFile>)
    ensures OversizedNames(a + b) == OversizedNames(a) + OversizedNames(b)
  {
    if b == [] {
      assert a + b == a;
    } else {
      var init, last := b[..|b| - 1], b[|b| - 1];
      assert b == init + [last] && a + b == (a + init) + [last];
      OversizedNamesConcat(a, init);
      OversizedNamesSnoc(a + init, last);
      OversizedNamesSnoc(init, last);
    }
  }

  /** Reporting one more file appends at most its name. */
  lemma OversizedNamesSnoc(s: seq<PickedFile>, f: PickedFile)
    ensures OversizedNames(s + [f]) == OversizedNames(s) + (if SmallEnough(f) then [] else [f.name])
  {
    Seqs.SnocParts(s, f);
  }

  /** Every file of the batch ends up either kept or reported by name, and never both counted. */
  lemma {:induction false} KeptAndReportedPartition(batch: seq<PickedFile>)
    ensures |KeepSmall(batch)| + |OversizedNames(batch)| == |batch|
    ensures forall i :: 0 <= i < |batch| ==>
              if SmallEnough(batch[i]) then batch[i] in KeepSmall(batch) else batch[i].name in OversizedNames(batch)
  {
    if batch != [] {
      KeptAndReportedPartition(batch[..|batch| - 1]);
      forall i | 0 <= i < |batch| && SmallEnough(batch[i])
        ensures batch[i] in KeepSmall(batch)
      {
        KeepsEverySmallFile(batch, i);
      }
    }
  }

  /** No file within the size limit is dropped. */
  lemma {:induction false} KeepsEverySmallFile(batch: seq<PickedFile>, i: int)
    requires 0 <= i < |batch| && SmallEnough(batch[i])
    ensures batch[i] in KeepSmall(batch)
  {
    var n := |batch| - 1;
    if i < n {
      KeepsEverySmallFile(batch[..n], i);
    }
  }

  /** The filter pass of the file-change handler, with its per-file toasts. */
  method SplitBySize(batch: seq<PickedFile>) returns (valid: seq<PickedFile>, oversized: seq<string>)
    ensures valid == KeepSmall(batch)
    ensures oversized == OversizedNames(batch)
  {
    valid, oversized := [], [];
    var i := 0;
    while i < |batch|
      invariant 0 <= i <= |batch|
      invariant valid == KeepSmall(batch[..i])
      invariant oversized == OversizedNames(batch[..i])
    {
      assert batch[..i + 1][..i] == batch[..i];
      if batch[i].size > MaxFileBytes {
        oversized := oversized + [batch[i].name];
      } else {
        valid := valid + [batch[i]];
      }
      i := i + 1;
    }
    assert batch[..i] == batch;
  }

  /** The selection a picked batch leads to: unchanged when too many, else appended. */
  function SelectAfter(current: seq<PickedFile>, batch: seq<PickedFile>): (r: seq<PickedFile>)
    ensures |current| + |KeepSmall(batch)| > MaxFiles ==> r == current
    ensures |current| + |KeepSmall(batch)| <= MaxFiles ==> r == current + KeepSmall(batch)
  {
    var valid := KeepSmall(batch);
    if |current| + |valid| > MaxFiles then current else current + valid
  }

  /** At most five files, none above 5 MB. */
  predicate WithinLimits(files: seq<PickedFile>) {
    |files| <= MaxFiles && forall i :: 0 <= i < |files| ==> SmallEnough(files[i])
  }

  /** Picking files never breaks the limits. */
  lemma SelectKeepsLimits(current: seq<PickedFile>, batch: seq<PickedFile>)
    requires WithinLimits(current)
    ensures WithinLimits(SelectAfter(current, batch))
  {
    var r := SelectAfter(current, batch);
    var valid := KeepSmall(batch);
    if |current| + |valid| <= MaxFiles {
      forall i | 0 <= i < |r|
        ensures SmallEnough(r[i])
      {
        if i >= |current| {
          assert r[i] == valid[i - |current|];
        }
      }
    }
  }

  /** `prev.filter((_, i) => i !== index)`: exactly position `index` goes, the rest keep their order. */
  function RemoveAt<T>(files: seq<T>, index: int): (r: seq<T>)
    ensures !(0 <= index < |files|) ==> r == files
    ensures 0 <= index < |files| ==> |r| == |files| - 1
    ensures 0 <= index < |files| ==> forall j :: 0 <= j < index ==> r[j] == files[j]
    ensures 0 <= index < |files| ==> forall j :: index <= j < |r| ==> r[j] == files[j + 1]
  {
    if 0 <= index < |files| then files[..index] + files[index + 1..] else files
  }

  /** Removing a file never breaks the limits. */
  lemma RemoveKeepsLimits(files: seq<PickedFile>, index: int)
    requires WithinLimits(files)
    ensures WithinLimits(RemoveAt(files, index))
  {
    var r := RemoveAt(files, index);
    if 0 <= index < |files| {
      forall j | 0 <= j < |r|
        ensures SmallEnough(r[j])
      {
        if j >= index {
          assert r[j] == files[j + 1];
        }
      }
    }
  }

  /** The `selectedFiles` state of the ask-question page and of the answer form. */
  class FileSelection {
    var files: seq<PickedFile>

    predicate Valid()
      reads this
    {
      WithinLimits(files)
    }

    constructor ()
      ensures files == [] && Valid()
    {
      files := [];
    }

    /** `handleFileChange`: filter, reject a batch that is too large as a whole, else append. */
    method HandleFileChange(batch: seq<PickedFile>) returns (oversized: seq<string>, tooMany: bool)
      requires Valid()
      modifies this
      ensures Valid()
      ensures oversized == OversizedNames(batch)
      ensures tooMany <==> |old(files)| + |KeepSmall(batch)| > MaxFiles
      ensures files == SelectAfter(old(files), batch)
    {
      var valid;
      valid, oversized := SplitBySize(batch);
      SelectKeepsLimits(files, batch);
      if |files| + |valid| > MaxFiles {
        tooMany := true;
        return;
      }
      tooMany := false;
      files := files + valid;
    }

    /** `removeFile(index)` */
    method RemoveFile(index: int)
      requires Valid()
      modifies this
      ensures Valid()
      ensures files == RemoveAt(old(files), index)
    {
      RemoveKeepsLimits(files, index);
      files := RemoveAt(files, index);
    }

    /** `setSelectedFiles([])` after a successful submission. */
    method Clear()
      modifies this
      ensures Valid() && files == []
    {
      files := [];
    }
  }

  /** What the question editor does with a picked batch. */
  datatype EditPick =
    | Replaced(files: seq<PickedFile>)
    | OverLimit(maxAllowed: int)   // "Maksimum <maxAllowed> dosya daha ekleyebilirsin"
    | TooLarge                     // "Dosya boyutu 5MB'den küçük olmalı"

  /** Room left: five minus the existing attachments not marked for removal. */
  function MaxAllowed(existingCount: int, removingCount: int): int {
    MaxFiles - (existingCount - removingCount)
  }

  /**
   * The editor's rule: the count is checked first against the room left,
   * then any oversized file rejects the batch; otherwise the batch replaces
   * the selection.
   */
  function EditPickOutcome(existingCount: int, removingCount: int, batch: seq<PickedFile>): (p: EditPick)
    ensures p.Replaced? <==> |batch| <= MaxAllowed(existingCount, removingCount) && forall i :: 0 <= i < |batch| ==> SmallEnough(batch[i])
    ensures p.Replaced? ==> p.files == batch
    ensures p.OverLimit? <==> |batch| > MaxAllowed(existingCount, removingCount)
    ensures p.OverLimit? ==> p.maxAllowed == MaxAllowed(existingCount, removingCount)
  {
    var maxAllowed := MaxAllowed(existingCount, removingCount);
    if |batch| > maxAllowed then OverLimit(maxAllowed)
    else if exists i :: 0 <= i < |batch| && !SmallEnough(batch[i]) then TooLarge
    else Replaced(batch)
  }

  /** An accepted batch keeps the question at five attachments or fewer once saved. */
  lemma EditPickRespectsTotal(existingCount: int, removingCount: int, batch: seq<PickedFile>)
    requires EditPickOutcome(existingCount, removingCount, batch).Replaced?
    ensures (existingCount - removingCount) + |batch| <= MaxFiles
    ensures WithinLimits(batch) || existingCount - removingCount < 0
  {
  }

  /** `attachments.filter(file => !filesToRemove.includes(file))` */
  function VisibleExisting(attachments: seq<string>, toRemove: seq<string>): (r: seq<string>)
    ensures forall x :: x in r <==> x in attachments && x !in toRemove
    ensures |r| <= |attachments|
  {
    if attachments == [] then []
    else
      var init := VisibleExisting(attachments[..|attachments| - 1], toRemove);
      var last := attachments[|attachments| - 1];
      assert attachments == attachments[..|attachments| - 1] + [last];
      init + (if last in toRemove then [] else [last])
  }

  /** Marking a file for removal hides that file, and only that file, from the list. */
  lemma {:induction false} MarkHidesOnlyThatFile(attachments: seq<string>, toRemove: seq<string>, file: string)
    ensures VisibleExisting(attachments, toRemove + [file])
         == VisibleExisting(VisibleExisting(attachments, toRemove), [file])
  {
    if attachments != [] {
      var n := |attachments| - 1;
      MarkHidesOnlyThatFile(attachments[..n], toRemove, file);
      var v := VisibleExisting(attachments, toRemove);
      var vInit := VisibleExisting(attachments[..n], toRemove);
      var last := attachments[n];
      if last in toRemove {
        assert v == vInit;
      } else {
        assert v == vInit + [last];
        assert v[..|v| - 1] == vInit;
      }
    }
  }

  /** The question editor's attachment state: the new files and the existing ones marked for removal. */
  class QuestionEdit {
    const existing: seq<string>
    var selected: seq<PickedFile>
    var toRemove: seq<string>

    /** Opening a question for editing resets both lists. */
    constructor (existing: seq<string>)
      ensures this.existing == existing && selected == [] && toRemove == []
    {
      this.existing := existing;
      selected := [];
      toRemove := [];
    }

    /** The existing attachments still listed. */
    function Visible(): (r: seq<string>)
      reads this
      ensures forall x :: x in r <==> x in existing && x !in toRemove
    {
      VisibleExisting(existing, toRemove)
    }

    /** The file input's change handler. */
    method PickFiles(batch: seq<PickedFile>) returns (outcome: EditPick)
      modifies this
      ensures outcome == EditPickOutcome(|existing|, |toRemove|, batch)
      ensures selected == (if outcome.Replaced? then batch else old(selected))
      ensures toRemove == old(toRemove)
    {
      outcome := EditPickOutcome(|existing|, |toRemove|, batch);
      if outcome.Replaced? {
        selected := batch;
      }
    }

    /** The remove button next to a newly selected file. */
    method Unselect(index: int)
      modifies this
      ensures selected == RemoveAt(old(selected), index)
      ensures toRemove == old(toRemove)
    {
      selected := RemoveAt(selected, index);
    }

    /** Closing the editor or a successful save empties both lists. */
    method Reset()
      modifies this
      ensures selected == [] && toRemove == []
    {
      selected, toRemove := [], [];
    }

    /** The remove button next to a listed existing attachment. */
    method MarkForRemoval(file: string)
      modifies this
      ensures toRemove == old(toRemove) + [file]
      ensures selected == old(selected)
      ensures Visible() == VisibleExisting(old(Visible()), [file])
    {
      MarkHidesOnlyThatFile(existing, toRemove, file);
      toRemove := toRemove + [file];
    }
  }
  /**
   * A `FormData` body: named entries in the order they were appended. A
   * list sent as `JSON.stringify(list)` is kept as the list it encodes.
   */
  datatype FormValue = Text(text: string) | Upload(file: PickedFile) | JsonList(items: seq<string>)
  type FormData = seq<(string, FormValue)>

  /** `values.forEach(v => formData.append(key, v))` for strings. */
  function TextEntries(key: string, values: seq<string>): (fd: FormData)
    ensures |fd| == |values|
    ensures forall i :: 0 <= i < |fd| ==> fd[i] == (key, Text(values[i]))
  {
    seq(|values|, i requires 0 <= i < |values| => (key, Text(values[i])))
  }

  /** `files.forEach(f => formData.append(key, f))` */
  function FileEntries(key: string, files: seq<PickedFile>): (fd: FormData)
    ensures |fd| == |files|
    ensures forall i :: 0 <= i < |fd| ==> fd[i] == (key, Upload(files[i]))
  {
    seq(|files|, i requires 0 <= i < |files| => (key, Upload(files[i])))
  }

  /** `formData.getAll(key)` */
  function ValuesUnder(fd: FormData, key: string): (vs: seq<FormValue>)
    ensures |vs| <= |fd|
  {
    if fd == [] then []
    else
      var init := fd[..|fd| - 1];
      var last := fd[|fd| - 1];
      ValuesUnder(init, key) + (if last.0 == key then [last.1] else [])
  }

  lemma {:induction false} ValuesUnderConcat(a: FormData, b: FormData, key: string)
    ensures ValuesUnder(a + b, key) == ValuesUnder(a, key) + ValuesUnder(b, key)
  {
    if b == [] {
      assert a + b == a;
    } else {
      assert (a + b)[..|a + b| - 1] == a + b[..|b| - 1];
      ValuesUnderConcat(a, b[..|b| - 1], key);
    }
  }

  /** Two entries hold the first value under its key and the second under its key, in that order. */
  lemma PairUnder(k1: string, v1: FormValue, k2: string, v2: FormValue, key: string)
    ensures ValuesUnder([(k1, v1), (k2, v2)], key) == (if key == k1 then [v1] else []) + (if key == k2 then [v2] else [])
  {
    var fd: FormData := [(k1, v1), (k2, v2)];
    assert fd[..1] == [(k1, v1)];
    assert fd[..1][..0] == [];
  }

  lemma ConcatFour(a: FormData, b: FormData, c: FormData, d: FormData, key: string)
    ensures ValuesUnder(a + b + c + d, key)
         == ValuesUnder(a, key) + ValuesUnder(b, key) + ValuesUnder(c, key) + ValuesUnder(d, key)
  {
    ValuesUnderConcat(a + b + c, d, key);
    ValuesUnderConcat(a + b, c, key);
    ValuesUnderConcat(a, b, key);
  }

  function Texts(values: seq<string>): (r: seq<FormValue>)
    ensures |r| == |values| && forall i :: 0 <= i < |r| ==> r[i] == Text(values[i])
  {
    seq(|values|, i requires 0 <= i < |values| => Text(values[i]))
  }

  function Uploads(files: seq<PickedFile>): (r: seq<FormValue>)
    ensures |r| == |files| && forall i :: 0 <= i < |r| ==> r[i] == Upload(files[i])
  {
    seq(|files|, i requires 0 <= i < |files| => Upload(files[i]))
  }

  /** Reading back the entries appended under a key gives the values in order; other keys see none. */
  lemma {:induction false} TextEntriesReadBack(key: string, values: seq<string>, other: string)
    requires other != key
    ensures ValuesUnder(TextEntries(key, values), key) == Texts(values)
    ensures ValuesUnder(TextEntries(key, values), other) == []
  {
    if values != [] {
      var n := |values| - 1;
      assert TextEntries(key, values)[..n] == TextEntries(key, values[..n]);
      TextEntriesReadBack(key, values[..n], other);
      assert Texts(values) == Texts(values[..n]) + [Text(values[n])];
    }
  }

  lemma {:induction false} FileEntriesReadBack(key: string, files: seq<PickedFile>, other: string)
    requires other != key
    ensures ValuesUnder(FileEntries(key, files), key) == Uploads(files)
    ensures ValuesUnder(FileEntries(key, files), other) == []
  {
    if files != [] {
      var n := |files| - 1;
      assert FileEntries(key, files)[..n] == FileEntries(key, files[..n]);
      FileEntriesReadBack(key, files[..n], other);
      assert Uploads(files) == Uploads(files[..n]) + [Upload(files[n])];
    }
  }

  /** The `forEach` append loop for strings. */
  method AppendTexts(fd: FormData, key: string, values: seq<string>) returns (r: FormData)
    ensures r == fd + TextEntries(key, values)
  {
    r := fd;
    var i := 0;
    while i < |values|
      invariant 0 <= i <= |values|
      invariant r == fd + TextEntries(key, values[..i])
    {
      assert TextEntries(key, values[..i + 1]) == TextEntries(key, values[..i]) + [(key, Text(values[i]))];
      r := r + [(key, Text(values[i]))];
      i := i + 1;
    }
    assert values[..i] == values;
  }

  /** The `forEach` append loop for files. */
  method AppendFiles(fd: FormData, key: string, files: seq<PickedFile>) returns (r: FormData)
    ensures r == fd + FileEntries(key, files)
  {
    r := fd;
    var i := 0;
    while i < |files|
      invariant 0 <= i <= |files|
      invariant r == fd + FileEntries(key, files[..i])
    {
      assert FileEntries(key, files[..i + 1]) == FileEntries(key, files[..i]) + [(key, Upload(files[i]))];
      r := r + [(key, Upload(files[i]))];
      i := i + 1;
    }
    assert files[..i] == files;
  }
}
