/** The browser front end's state logic (src/App.jsx): editing the list of
    files to combine, the guards on the merge and combine actions, and
    remembering the chosen letterhead in the browser's key/value store. */
module App {

  import opened Base

  /** The key the letterhead is remembered under. */
  const LetterheadKey: string := "letterhead"

  const MergeAlert: string := "Selecione o PDF de conteúdo e o de timbrado"
  const CombineAlert: string := "Selecione arquivos para combinar"

  /** The component state the handlers read and write. `store` is the
      browser's file store (IndexedDB), seen as a map. */
  datatype AppState = AppState(
    contentFile: Option<File>,
    letterheadFile: Option<File>,
    isMerging: bool,
    filesToCombine: seq<File>,
    isCombining: bool,
    store: map<string, File>)

  /** The state on first render, before the stored letterhead is restored. */
  function Initial(store: map<string, File>): AppState {
    AppState(None, None, false, [], false, store)
  }

  /** `moveUp(index)`: swap the file with its predecessor; the first file
      stays where it is. The list only offers indices of its own entries. */
  function MoveUp(files: seq<File>, index: nat): (r: seq<File>)
    requires index < |files|
    ensures |r| == |files| && multiset(r) == multiset(files)
    ensures index == 0 ==> r == files
    ensures index > 0 ==> r[index - 1] == files[index] && r[index] == files[index - 1]
    ensures forall k :: 0 <= k < |files| && k != index && k != index - 1 ==> r[k] == files[k]
  {
    if index == 0 then files
    else files[index - 1 := files[index]][index := files[index - 1]]
  }

  /** `moveDown(index)`: swap the file with its successor; the last file
      stays where it is. */
  function MoveDown(files: seq<File>, index: nat): (r: seq<File>)
    requires index < |files|
    ensures |r| == |files| && multiset(r) == multiset(files)
    ensures index == |files| - 1 ==> r == files
    ensures index < |files| - 1 ==> r[index + 1] == files[index] && r[index] == files[index + 1]
    ensures forall k :: 0 <= k < |files| && k != index && k != index + 1 ==> r[k] == files[k]
  {
    if index == |files| - 1 then files
    else files[index + 1 := files[index]][index := files[index + 1]]
  }

  /** Moving a file down and then back up restores the list, and so does
      moving it up and then back down. */
  lemma MoveDownThenUp(files: seq<File>, index: nat)
    requires index + 1 < |files|
    ensures MoveUp(MoveDown(files, index), index + 1) == files
    ensures MoveDown(MoveUp(files, index + 1), index) == files
  {
  }

  /** `removeFile(index)`: `filter((_, i) => i !== index)`, a pass over the
      list that keeps every entry whose position differs from `index`. */
  function RemoveFile(files: seq<File>, index: int): (r: seq<File>)
    ensures 0 <= index < |files| ==> |r| == |files| - 1
    ensures 0 <= index < |files| ==> forall k :: 0 <= k < index ==> r[k] == files[k]
    ensures 0 <= index < |files| ==> forall k :: index <= k < |r| ==> r[k] == files[k + 1]
    ensures !(0 <= index < |files|) ==> r == files
  {
    if |files| == 0 then []
    else
      var last := |files| - 1;
      RemoveFile(files[..last], index) + (if last == index then [] else [files[last]])
  }

  /** Removing position `index` removes exactly one occurrence of that file. */
  lemma RemoveFileMultiset(files: seq<File>, index: nat)
    requires index < |files|
    ensures multiset(RemoveFile(files, index)) + multiset{files[index]} == multiset(files)
  {
    DropOneMultiset(files, RemoveFile(files, index), index);
  }

  /** A list equal to `files` with position `index` left out has the same
      elements less one occurrence of `files[index]`. */
  lemma DropOneMultiset<T>(files: seq<T>, r: seq<T>, index: nat)
    requires index < |files| && |r| == |files| - 1
    requires forall k :: 0 <= k < index ==> r[k] == files[k]
    requires forall k :: index <= k < |r| ==> r[k] == files[k + 1]
    ensures multiset(r) + multiset{files[index]} == multiset(files)
  {
    var front, back := files[..index], files[index + 1..];
    assert r == front + back;
    assert files == front + [files[index]] + back;
  }

  /** Choosing files in the picker appends them, in picker order, after the
      files already listed; a picker that returns nothing adds nothing. */
  function AppendSelected(files: seq<File>, picked: Option<seq<File>>): (r: seq<File>)
    ensures picked.None? ==> r == files
    ensures picked.Some? ==> |r| == |files| + |picked.value|
    ensures r[..|files|] == files
    ensures picked.Some? ==> r[|files|..] == picked.value
  {
    match picked
    case None => files
    case Some(more) => files + more
  }

  /** `e.target.files?.[0] || null`: the first picked file, if any. */
  function FirstPicked(picked: Option<seq<File>>): (f: Option<File>)
    ensures f.Some? <==> picked.Some? && |picked.value| > 0
    ensures f.Some? ==> f.value == picked.value[0]
  {
    if picked.Some? && |picked.value| > 0 then Some(picked.value[0]) else None
  }

  /** The `disabled` expression of the merge button. */
  predicate MergeDisabled(s: AppState) {
    s.contentFile.None? || s.letterheadFile.None? || s.isMerging
  }

  /** The `disabled` expression of the combine button. */
  predicate CombineDisabled(s: AppState) {
    |s.filesToCombine| == 0 || s.isCombining
  }

  /** What a click handler does first: alert and stop, or start the job on
      the given inputs. */
  datatype MergeStart = MergeRefused(alert: string) | MergeStarted(content: File, letterhead: File)
  datatype CombineStart = CombineRefused(alert: string) | CombineStarted(files: seq<File>)

  /** `handleMerge`: without both files, alert and do nothing; otherwise
      run the overlay on those two files. */
  function HandleMerge(s: AppState): (r: MergeStart)
    ensures r.MergeStarted? <==> s.contentFile.Some? && s.letterheadFile.Some?
    ensures r.MergeStarted? ==> r.content == s.contentFile.value && r.letterhead == s.letterheadFile.value
    ensures r.MergeRefused? ==> r.alert == MergeAlert
  {
    if s.contentFile.None? || s.letterheadFile.None? then MergeRefused(MergeAlert)
    else MergeStarted(s.contentFile.value, s.letterheadFile.value)
  }

  /** `handleCombine`: with an empty list, alert and do nothing; otherwise
      combine the listed files in list order. */
  function HandleCombine(s: AppState): (r: CombineStart)
    ensures r.CombineStarted? <==> |s.filesToCombine| > 0
    ensures r.CombineStarted? ==> r.files == s.filesToCombine
    ensures r.CombineRefused? ==> r.alert == CombineAlert
  {
    if |s.filesToCombine| == 0 then CombineRefused(CombineAlert)
    else CombineStarted(s.filesToCombine)
  }

  /** The merge button is enabled exactly when both files are chosen and no
      merge is running, and a click on an enabled button starts a merge. */
  lemma MergeButtonGuard(s: AppState)
    ensures !MergeDisabled(s) <==> s.contentFile.Some? && s.letterheadFile.Some? && !s.isMerging
    ensures !MergeDisabled(s) ==> HandleMerge(s).MergeStarted?
  {
  }

  /** The combine button is enabled exactly when the list is non-empty and
      no combine is running, and a click on an enabled button starts one. */
  lemma CombineButtonGuard(s: AppState)
    ensures !CombineDisabled(s) <==> |s.filesToCombine| > 0 && !s.isCombining
    ensures !CombineDisabled(s) ==> HandleCombine(s).CombineStarted?
  {
  }

  /** Both buttons start out disabled. */
  lemma InitiallyDisabled(store: map<string, File>)
    ensures MergeDisabled(Initial(store)) && CombineDisabled(Initial(store))
  {
  }

  /** `handleLetterheadChange`: always take the new choice; remember it in
      the store only when a file was actually chosen. */
  function HandleLetterheadChange(s: AppState, file: Option<File>): (t: AppState)
    ensures t.letterheadFile == file
    ensures file.Some? ==> t.store == s.store[LetterheadKey := file.value]
    ensures file.None? ==> t.store == s.store
    ensures t.contentFile == s.contentFile && t.filesToCombine == s.filesToCombine
    ensures t.isMerging == s.isMerging && t.isCombining == s.isCombining
  {
    var store := if file.Some? then s.store[LetterheadKey := file.value] else s.store;
    s.(letterheadFile := file, store := store)
  }

  /** The mount effect: a letterhead found in the store becomes the
      selected letterhead; otherwise nothing changes. */
  function RestoreLetterhead(s: AppState): (t: AppState)
    ensures LetterheadKey in s.store ==> t == s.(letterheadFile := Some(s.store[LetterheadKey]))
    ensures LetterheadKey !in s.store ==> t == s
  {
    if LetterheadKey in s.store then s.(letterheadFile := Some(s.store[LetterheadKey])) else s
  }

  /** A letterhead chosen in one session is selected again when the page is
      next opened with the same store. */
  lemma LetterheadRemembered(s: AppState, f: File)
    ensures RestoreLetterhead(Initial(HandleLetterheadChange(s, Some(f)).store)).letterheadFile == Some(f)
  {
  }

  /** Clearing the letterhead picker does not forget the remembered file. */
  lemma ClearingKeepsRemembered(s: AppState)
    requires LetterheadKey in s.store
    ensures RestoreLetterhead(Initial(HandleLetterheadChange(s, None).store)).letterheadFile
      == Some(s.store[LetterheadKey])
  {
  }
}
