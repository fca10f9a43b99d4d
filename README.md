# ExcelFileLocator core, modelled in Dafny

ExcelFileLocator is a small WPF tool. It watches the cell selected in a running Excel. When a
single cell with new, non-blank content is selected, it looks in a chosen folder for files whose
name without extension equals that content, ignoring case. For each folder holding matches it
then selects the folder's first match in Windows Explorer: it brings forward an Explorer window
already showing that folder, or opens a new one. Further matches in the same folder are only
counted, not selected. Cell texts for which no file was found are collected in a
case-insensitive record. The user can copy the record, sorted, to the clipboard, or clear it.

This project models the logic of `MainWindow` with its WPF, COM and Win32 calls removed.

- `Text`: the string operations the window relies on. These are ASCII case folding, .NET's
  white-space test, `TrimEnd`, `Replace`, `string.Join` with `"\r\n"`, and line counting.
- `Paths`: `Path.GetFileName`, `GetFileNameWithoutExtension` and `GetDirectoryName`.
- `Matcher`: the LINQ `Where` that keeps the listed files whose stem equals the cell text.
- `Explorer`: `FindExplorerWindow`. It normalises the target folder and each window's
  `file:///` location URL, then returns the first window whose normal form is equal.
- `Dispatch`: `SelectMultipleFilesInExplorer`. It is a loop over the matches grouped by
  directory, and it produces one Explorer action per directory.
- `Unmatched`: the record of unmatched cell texts. This is the `HashSet` keyed by
  `OrdinalIgnoreCase`, its sorted rendering, the copy and the clearing.
- `Monitor`: the change detector (`Step`) over one sampled selection, and the `Locator` class.
  `Locator` holds the window's state and its Start, Stop, tick, search and clear handlers.
- `Scenarios`: concrete runs, such as the `Invoice1.pdf` / `invoice1.docx` / `other.txt` search.

Excel, the file system and the shell are inputs:

- One tick's reading of Excel is a `Sample`: nothing selected, a selection, a COM fault or
  another fault.
- The folder listing is an `Option<seq<string>>`; `None` means the listing threw.
- The open Explorer windows are an `Option<seq<LocationUrl>>`. `None` means the shell object
  could not be created. `Unreadable` marks a window whose URL could not be read.
- The Excel attach attempt is an `Attach` value.

Explorer actions are returned as a trace of `Activate(window, file)` / `OpenNew(file)` values.

A blank cell is remembered like any other cell:

- Each tick first compares the sample with the remembered (address, content) pair
  (`ExcelFileLocator.xaml.cs:191-194`). If they differ, the pair is overwritten, even when the
  new content is blank. Only then is blankness checked.
- So emptying a searched cell and typing the same text back searches a second time
  (`Monitor.BlankInBetweenSearchesAgain`).
- A blank cell that stays selected clears the match panel only once.

Only the exact stem match exists. The include-subfolders checkbox only chooses which listing is
searched, and here that listing is an input.

## Model

| member | source | states |
|---|---|---|
| Text.LowerTrimEnd | ExcelFileLocator.xaml.cs:496-498 | trimming trailing `\` and lower-casing commute, so the order of the normalisation steps does not matter |
| Text.TrimEndOfAppended | ExcelFileLocator.xaml.cs:484 | a trailing separator added to a path disappears again under `TrimEnd('\\')` |
| Text.ReplaceAllAbsent | ExcelFileLocator.xaml.cs:497 | `Replace` leaves a string without the pattern unchanged |
| Text.JoinLineCount | ExcelFileLocator.xaml.cs:229 | joining n single-line strings with `"\r\n"` yields exactly n-1 line feeds |
| Paths.LastIndexWhereIsLast | ExcelFileLocator.xaml.cs:347 | the split point found is the last separator or dot, and none follows it |
| Paths.CombineSplits | ExcelFileLocator.xaml.cs:407 | the directory and file name of a listed path are the folder and the name it was built from |
| Paths.StemOfCombined | ExcelFileLocator.xaml.cs:347 | the name without extension of `dir\stem.ext` is `stem` |
| Matcher.WhereMembership | ExcelFileLocator.xaml.cs:347-349 | `Where` keeps exactly the listed elements that satisfy the predicate |
| Matcher.WhereOccurrences | ExcelFileLocator.xaml.cs:347-349 | `Where` keeps every satisfying element as many times as it is listed and drops the others |
| Matcher.WhereIsSubsequence | ExcelFileLocator.xaml.cs:347-349 | `Where` keeps enumeration order |
| Matcher.WhereCongruent | ExcelFileLocator.xaml.cs:347-349 | two predicates that agree on the listing select the same files |
| Matcher.MatchIsStemFilter | ExcelFileLocator.xaml.cs:346-349 | a file is matched iff it is listed and its extension-less name equals the term ignoring case; multiplicities and listing order are kept |
| Matcher.MatchIgnoresTermCase | ExcelFileLocator.xaml.cs:347-348 | terms that differ only in case match the same files |
| Matcher.ExtensionIrrelevant | ExcelFileLocator.xaml.cs:347-348 | whether `dir\stem.ext` matches does not depend on the extension |
| Explorer.FirstWindowFor | ExcelFileLocator.xaml.cs:486-510 | the result is the first window showing the target; no result means no window shows it |
| Explorer.FindExplorerWindow | ExcelFileLocator.xaml.cs:477-520 | the loop returns the first window whose URL starts with `file:///` and normalises to the target, skipping empty and unreadable URLs, and returns null when the shell fails or nothing matches |
| Explorer.WindowOfFolderShowsIt | ExcelFileLocator.xaml.cs:494-500 | the `file:///` URL Explorer reports for a folder is recognised as showing that folder |
| Explorer.NormalizeTargetForgets | ExcelFileLocator.xaml.cs:484 | the target's normal form ignores trailing `\` and case |
| Explorer.FindWindowIgnoresSpelling | ExcelFileLocator.xaml.cs:484-503 | the lookup finds the same window whatever trailing `\` or case the folder is written with |
| Explorer.SameNormalFormSameWindow | ExcelFileLocator.xaml.cs:484-503 | targets with the same normal form find the same window |
| Dispatch.DedupSpec | ExcelFileLocator.xaml.cs:407 | `GroupBy` keys are the distinct directories, listed in the order they first appear |
| Dispatch.InFolderStartsWithFirst | ExcelFileLocator.xaml.cs:412-421 | a directory's group is non-empty and starts with that directory's first match |
| Dispatch.GroupByFolder | ExcelFileLocator.xaml.cs:407 | there is one non-empty group per distinct directory |
| Dispatch.GroupByFolderSpec | ExcelFileLocator.xaml.cs:407-412 | the groups partition the matches by directory: distinct folders in first-appearance order, each file in its own directory's group, order kept within a group |
| Dispatch.SelectMultipleFilesInExplorer | ExcelFileLocator.xaml.cs:404-442 | the loop emits, group by group, the activate-or-open action for the group's first file |
| Dispatch.OneActionPerFolder | ExcelFileLocator.xaml.cs:407-428 | exactly one action per distinct directory, in first-appearance order, aimed at its first match; it activates iff a window was found, and that window |
| Unmatched.OrderBySpec | ExcelFileLocator.xaml.cs:624 | ordering yields a sorted permutation of the stored strings |
| Unmatched.SortedUnique | ExcelFileLocator.xaml.cs:229 | two sorted sequences of the same strings are equal |
| Unmatched.OrderByIgnoresEnumerationOrder | ExcelFileLocator.xaml.cs:229 | the rendered list does not depend on the set's enumeration order |
| Unmatched.FoldKeysCount | ExcelFileLocator.xaml.cs:24 | with no two strings equal ignoring case, the number of keys is the number of strings |
| Unmatched.ListTextLineCount | ExcelFileLocator.xaml.cs:622-625 | the rendered record has one line per stored string, given no string holds a line break |
| Unmatched.UnmatchedRegistry.constructor | ExcelFileLocator.xaml.cs:24 | the record starts empty, with an empty box |
| Unmatched.UnmatchedRegistry.Add | ExcelFileLocator.xaml.cs:612-614 | `Add` returns true iff no string equal ignoring case was stored; only then is the term appended; the keys become the old keys plus the term's |
| Unmatched.UnmatchedRegistry.UpdateDisplay | ExcelFileLocator.xaml.cs:622-625 | the box shows the sorted, line-joined record |
| Unmatched.UnmatchedRegistry.AddUnmatchedFile | ExcelFileLocator.xaml.cs:612-619 | as `Add`; the box is redrawn when the set grew and untouched otherwise, and it stays current |
| Unmatched.UnmatchedRegistry.ClearRecords | ExcelFileLocator.xaml.cs:256-257 | the set and its box are emptied |
| Unmatched.UnmatchedRegistry.Export | ExcelFileLocator.xaml.cs:229 | the exported lines are sorted, a permutation of the stored strings, cover every key, and number exactly the set's size |
| Unmatched.UnmatchedRegistry.CopyUnmatched | ExcelFileLocator.xaml.cs:219-240 | nothing is copied iff the set is empty; otherwise the sorted list is copied and the set's size reported |
| Monitor.StepSearches | ExcelFileLocator.xaml.cs:180-198 | a tick searches iff one cell is selected, its text is not blank, and address or text differs from the remembered pair; it then searches that text and remembers the cell |
| Monitor.StepBlank | ExcelFileLocator.xaml.cs:191-204 | a changed blank cell clears the panel and is remembered; it does not search |
| Monitor.StepDisconnects | ExcelFileLocator.xaml.cs:207-211 | only a COM fault disconnects, and it forgets the remembered cell |
| Monitor.StepSettles | ExcelFileLocator.xaml.cs:191 | re-reading the same selection right after a tick only refreshes status and keeps the baseline |
| Monitor.SettledStaysQuiet | ExcelFileLocator.xaml.cs:191-205 | a selection that matches the baseline can be held for any number of ticks without a search or a baseline change |
| Monitor.HeldSelectionSearchesOnce | ExcelFileLocator.xaml.cs:186-199 | a selection held for n ticks searches at most once, on the first tick |
| Monitor.QuietTicksKeepBaseline | ExcelFileLocator.xaml.cs:160-184 | ticks with nothing selected, a range selected or a non-COM fault never search and never move the baseline |
| Monitor.FirstCellAfterConnectSearches | ExcelFileLocator.xaml.cs:186-198 | with nothing remembered, the first non-blank single cell is searched |
| Monitor.BlankInBetweenSearchesAgain | ExcelFileLocator.xaml.cs:191-198 | blank, then the same text in the same cell, searches that text again |
| Monitor.SearchResultSpec | ExcelFileLocator.xaml.cs:346-379 | a search locates files iff some listed file has the term as its stem; then it locates all such files with one action per folder; otherwise it records the term, as new iff its key was absent; a failed listing is reported as such |
| Monitor.StartVerdictSpec | ExcelFileLocator.xaml.cs:96-135 | monitoring starts iff a folder is chosen, exists, and Excel is found; a null instance and a COM error both report that Excel is not running |
| Monitor.Locator.constructor | ExcelFileLocator.xaml.cs:20-31 | no folder, not connected, nothing remembered, empty record |
| Monitor.Locator.BrowseFolder | ExcelFileLocator.xaml.cs:80-94 | a confirmed dialog sets the folder; a cancelled one leaves it |
| Monitor.Locator.StartMonitoring | ExcelFileLocator.xaml.cs:96-135 | the outcome follows the folder, existence and attach checks in order; the timer runs and Excel is held exactly when started; nothing is remembered yet |
| Monitor.Locator.StopMonitoring | ExcelFileLocator.xaml.cs:137-154 | the timer stops, Excel is released, the baseline and panel are cleared, and the folder and unmatched record are untouched |
| Monitor.Locator.SearchAndSelectFile | ExcelFileLocator.xaml.cs:334-385 | the outcome is the search result; the record grows only on a new unmatched term; the panel shows the pattern and the matches, or no match, or keeps its old result when the listing fails |
| Monitor.Locator.MonitorTick | ExcelFileLocator.xaml.cs:156-216 | a disconnected tick does nothing; otherwise the reaction and new baseline are `Step`'s; a COM fault stops monitoring; a searching tick yields the search result, grows the record only by a new unmatched term and sets the panel per outcome; any other tick leaves the record untouched |
| Monitor.Locator.ClearAll | ExcelFileLocator.xaml.cs:243-260 | only a confirmed request empties the record and its box; otherwise nothing changes |
| Scenarios.InvoiceScenario | ExcelFileLocator.xaml.cs:346-349 | in any folder holding `Invoice1.pdf`, `invoice1.docx` and `other.txt`, searching `Invoice1` finds the first two, in that order |
| Scenarios.RecordScenario | ExcelFileLocator.xaml.cs:612-625 | recording `b`, `A`, then `a` refuses `a` as a duplicate of `A` ignoring case, and the record exports as `A`, `b` |
| Scenarios.RecordFoldsCaseScenario | ExcelFileLocator.xaml.cs:24 | `Foo` and `foo` are one key of the record |

## Left out

- Presentation: status lines, the log and its timestamps, message boxes, window chrome, and
  `CustomMessageBox`. `ClearAll` also clears the log, and this is not modelled.
- Excel COM: `GetActiveObject`, `Workbooks`, `ActiveSheet` and `Selection` are replaced by the
  `Sample` and `Attach` inputs. `Value?.ToString()` is given as text already.
- `Directory.Exists` and `Directory.GetFiles` are inputs. The include-subfolders choice only
  decides which listing is given.
- `Shell.Application`: the window list is an input, and `ReleaseComObject` is not modelled.
  Every group's lookup sees the same window list, so a window opened for an earlier group is not
  seen by a later one.
- `Path.GetFullPath` and `Uri.UnescapeDataString` are taken as the identity, so paths are
  assumed absolute and URLs unescaped.
- `Paths.DirName` and `Paths.FileName` split at the last `\` or `/` only. The `:` volume
  separator and the null that `GetDirectoryName` returns for a root are not modelled.
- `Paths.DirName`: for a file at a drive root it gives `D:` where `GetDirectoryName` gives
  `D:\`. The window lookup trims the trailing `\` anyway, and grouping treats both forms alike.
- `Text.Lower` and `Text.EqualsIgnoreCase` fold ASCII letters only. `ToLower` and
  `OrdinalIgnoreCase` also fold non-ASCII letters.
- `Unmatched.OrderBy`: sorts by ordinal character order. `OrderBy(f => f)` uses the current
  culture's comparer, which may place `a` before `A`.
- `ActivateExplorerAndSelectFile`, `ForceWindowToForeground` and `SelectFileUsingShellAPI` are
  represented by one `Activate(window, file)` action. The model does not show their fallback to
  opening a new window when activation fails.
- `Dispatch.SelectMultipleFilesInExplorer`: assumes `explorer.exe` always starts. If
  `Process.Start` threw, the search's handler would skip the remaining groups.
- `GetRelativePath`: the match panel lists the full matched paths, not paths relative to the
  folder.
- The 300 ms and 200 ms sleeps and the 500 ms `DispatcherTimer`: a tick is one call of
  `MonitorTick`.
- `SelectFileInExplorer` is never called. `OnClosed` only releases resources.
