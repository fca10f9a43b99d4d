/**
 * The monitoring loop of the main window: starting and stopping the connection to Excel, the
 * 500 ms timer tick that samples the selection and decides whether to search, the search itself
 * (listing, stem filter, explorer dispatch, unmatched record) and clearing the records.
 *
 * A tick's decision is the pure function `Step` over what the tick read from Excel and the
 * remembered cell; `Locator` is the window's state and its event handlers.
 */
module Monitor {
  import opened Wrappers
  import opened Text
  import opened Matcher
  import opened Explorer
  import opened Dispatch
  import opened Unmatched

  /** What one tick reads from Excel before acting. */
  datatype Sample =
    | NoSelection        // no workbook, no active sheet, or the selection is not a range
    | Cells(address: string, value: Option<string>, count: nat)
                         // the selection's address, its value as text (None for null) and cell count
    | ComFault           // a COMException while reading: Excel has gone away
    | OtherFault         // any other exception while reading

  /** `_lastCellAddress` and `_lastCellContent`; None is null. */
  datatype Baseline = Baseline(address: Option<string>, content: Option<string>)

  const NO_BASELINE := Baseline(None, None)

  /** What a tick does. */
  datatype Reaction =
    | Ignore             // returns early, or logs a non-COM fault
    | StatusOnly         // refreshes the status lines only
    | ShowBlank          // clears the match panel: the selected cell is blank
    | Search(term: string)
    | Disconnect         // stops monitoring

  /** `selection.Value?.ToString() ?? ""`. */
  function CellText(value: Option<string>): string
  {
    if value.Some? then value.value else ""
  }

  /** One tick: its reaction and the baseline it leaves behind. */
  function Step(last: Baseline, s: Sample): (Reaction, Baseline)
  {
    match s
    case NoSelection => (Ignore, last)
    case OtherFault => (Ignore, last)
    case ComFault => (Disconnect, NO_BASELINE)
    case Cells(address, value, count) =>
      if count > 1 then (StatusOnly, last)
      else
        var now := Baseline(Some(address), Some(CellText(value)));
        if now == last then (StatusOnly, last)
        else if IsBlank(CellText(value)) then (ShowBlank, now)
        else (Search(CellText(value)), now)
  }

  /**
   * A tick searches exactly when one cell is selected, its text is not blank, and its address or
   * text differs from the remembered one; it then searches for that text and remembers the cell.
   */
  lemma StepSearches(last: Baseline, s: Sample, term: string)
    ensures Step(last, s).0 == Search(term) <==>
      s.Cells? && s.count <= 1 && term == CellText(s.value) && !IsBlank(term)
      && Baseline(Some(s.address), Some(term)) != last
    ensures Step(last, s).0.Search? ==> Step(last, s).1 == Baseline(Some(s.address), Some(Step(last, s).0.term))
  {
  }

  /** A blank single cell that differs from the remembered one clears the panel and is remembered. */
  lemma StepBlank(last: Baseline, s: Sample)
    ensures Step(last, s).0.ShowBlank? <==>
      s.Cells? && s.count <= 1 && IsBlank(CellText(s.value))
      && Baseline(Some(s.address), Some(CellText(s.value))) != last
    ensures Step(last, s).0.ShowBlank? ==> Step(last, s).1 == Baseline(Some(s.address), Some(CellText(s.value)))
  {
  }

  /** Only a COM fault disconnects, and it forgets the remembered cell. */
  lemma StepDisconnects(last: Baseline, s: Sample)
    ensures Step(last, s).0.Disconnect? <==> s.ComFault?
    ensures s.ComFault? ==> Step(last, s).1 == NO_BASELINE
  {
  }

  /** Reading the same selection again right after a tick does nothing but refresh the status. */
  lemma StepSettles(last: Baseline, s: Sample)
    requires s.Cells?
    ensures Step(Step(last, s).1, s) == (StatusOnly, Step(last, s).1)
  {
  }

  /** The terms searched over a series of ticks, in order, and the final baseline. */
  function Run(last: Baseline, samples: seq<Sample>): (Baseline, seq<string>)
    decreases |samples|
  {
    if samples == [] then (last, [])
    else
      var step := Step(last, samples[0]);
      var rest := Run(step.1, samples[1..]);
      (rest.0, (if step.0.Search? then [step.0.term] else []) + rest.1)
  }

  function Repeat(s: Sample, n: nat): seq<Sample>
  {
    seq(n, _ => s)
  }

  lemma {:induction false} SettledStaysQuiet(b: Baseline, s: Sample, n: nat)
    requires Step(b, s) == (StatusOnly, b)
    ensures Run(b, Repeat(s, n)) == (b, [])
  {
    if n > 0 {
      var xs := Repeat(s, n);
      assert xs[0] == s && xs[1..] == Repeat(s, n - 1);
      SettledStaysQuiet(b, s, n - 1);
      var step := Step(b, xs[0]);
      assert step == (StatusOnly, b);
      var rest := Run(step.1, xs[1..]);
      assert rest == (b, []);
      assert Run(b, xs) == (rest.0, [] + rest.1);
      assert [] + rest.1 == rest.1;
    }
  }

  /**
   * Holding the same selection for any number of ticks searches at most once: on the first tick,
   * if that one searches.
   */
  lemma HeldSelectionSearchesOnce(last: Baseline, s: Sample, n: nat)
    requires s.Cells? && n > 0
    ensures Run(last, Repeat(s, n)).1 == if Step(last, s).0.Search? then [Step(last, s).0.term] else []
  {
    var b := Step(last, s).1;
    StepSettles(last, s);
    assert Repeat(s, n)[1..] == Repeat(s, n - 1);
    SettledStaysQuiet(b, s, n - 1);
  }

  /** Samples that never touch the baseline: nothing selected, a range, a non-COM fault. */
  predicate Quiet(s: Sample)
  {
    s.NoSelection? || s.OtherFault? || (s.Cells? && s.count > 1)
  }

  /** Range selections and failed reads never search and never move the baseline. */
  lemma {:induction false} QuietTicksKeepBaseline(last: Baseline, samples: seq<Sample>)
    requires forall i :: 0 <= i < |samples| ==> Quiet(samples[i])
    ensures Run(last, samples) == (last, [])
  {
    if samples != [] {
      QuietTicksKeepBaseline(last, samples[1..]);
      assert Step(last, samples[0]) == (Step(last, samples[0]).0, last);
      var rest := Run(last, samples[1..]);
      assert Run(last, samples) == (rest.0, [] + rest.1);
      assert [] + rest.1 == rest.1;
    }
  }

  /** Right after connecting nothing is remembered, so the first non-blank single cell is searched. */
  lemma FirstCellAfterConnectSearches(address: string, value: Option<string>)
    requires !IsBlank(CellText(value))
    ensures Step(NO_BASELINE, Cells(address, value, 1)).0 == Search(CellText(value))
  {
  }

  /**
   * A blank cell is remembered like any other, so emptying a searched cell and typing the same
   * text back searches for it a second time.
   */
  lemma BlankInBetweenSearchesAgain(address: string, term: string)
    requires !IsBlank(term)
    ensures Run(Baseline(Some(address), Some(term)),
                [Cells(address, Some(""), 1), Cells(address, Some(term), 1)]).1 == [term]
  {
    assert IsBlank("");
    var blank := Baseline(Some(address), Some(""));
    var s := [Cells(address, Some(""), 1), Cells(address, Some(term), 1)];
    assert Step(Baseline(Some(address), Some(term)), s[0]) == (ShowBlank, blank);
    assert Step(blank, s[1]) == (Search(term), Baseline(Some(address), Some(term)));
    assert s[1..][1..] == [];
    assert Run(blank, s[1..]).1 == [term] + [];
  }

  /** What `SearchAndSelectFile` did. */
  datatype SearchOutcome =
    | ListingFailed                                               // the listing threw
    | Located(matches: seq<string>, actions: seq<ExplorerAction>)
    | NotFound(recorded: bool)                                    // true when the term was new to the record

  /** The outcome of a search, given the listing (None when it throws), the shell's windows and the record's keys. */
  function SearchResult(term: string, listing: Option<seq<string>>, shell: Option<seq<LocationUrl>>, keys: set<string>): SearchOutcome
  {
    if listing.None? then ListingFailed
    else
      var matches := MatchFiles(listing.value, term);
      if matches != [] then Located(matches, PlannedActions(GroupByFolder(matches), shell))
      else NotFound(Lower(term) !in keys)
  }

  /**
   * A search locates files exactly when some listed file has the term as its stem, ignoring case;
   * it then locates all of them, opening one explorer per folder; otherwise it records the term.
   */
  lemma SearchResultSpec(term: string, listing: Option<seq<string>>, shell: Option<seq<LocationUrl>>, keys: set<string>)
    ensures var r := SearchResult(term, listing, shell, keys);
      && (r.ListingFailed? <==> listing.None?)
      && (r.Located? <==> listing.Some? && exists f :: f in listing.value && StemMatches(f, term))
      && (r.Located? ==> forall f :: f in r.matches <==> f in listing.value && StemMatches(f, term))
      && (r.Located? ==> |r.actions| == |Folders(r.matches)|)
      && (r.NotFound? <==> listing.Some? && forall f :: f in listing.value ==> !StemMatches(f, term))
      && (r.NotFound? ==> (r.recorded <==> Lower(term) !in keys))
  {
    if listing.Some? {
      var matches := MatchFiles(listing.value, term);
      MatchIsStemFilter(listing.value, term);
      if matches != [] {
        assert matches[0] in matches;
      }
    }
  }

  /** The match result line. */
  datatype MatchResult = NoResult | FoundCount(n: nat) | NoMatch

  /** The match panel: the searched text, the result line and the listed files. */
  datatype Panel = Panel(pattern: Option<string>, result: MatchResult, items: seq<string>)

  /** `ClearMatchInfo`. */
  const CLEARED := Panel(None, NoResult, [])

  /** What `Marshal2.GetActiveObject("Excel.Application")` gives. */
  datatype Attach = Instance | NullInstance | ComError | OtherError

  /** The outcome of `StartMonitoring_Click`. */
  datatype StartOutcome = NoFolderSelected | FolderMissing | ExcelNotRunning | ConnectFailed | Started

  function StartVerdict(folder: string, folderExists: bool, attach: Attach): StartOutcome
  {
    if folder == "" then NoFolderSelected
    else if !folderExists then FolderMissing
    else match attach
      case Instance => Started
      case NullInstance => ExcelNotRunning
      case ComError => ExcelNotRunning
      case OtherError => ConnectFailed
  }

  /** Monitoring starts only with a chosen, existing folder and a running Excel. */
  lemma StartVerdictSpec(folder: string, folderExists: bool, attach: Attach)
    ensures StartVerdict(folder, folderExists, attach).Started? <==> folder != "" && folderExists && attach.Instance?
    ensures StartVerdict(folder, folderExists, attach).ExcelNotRunning? <==>
      folder != "" && folderExists && (attach.NullInstance? || attach.ComError?)
  {
  }

  class Locator {
    /** `_targetFolder`; "" stands for null or empty. */
    var targetFolder: string
    /** `_excelApp != null`. */
    var excelConnected: bool
    /** The monitor timer is running. */
    var timerRunning: bool
    var last: Baseline
    var panel: Panel
    const unmatched: UnmatchedRegistry

    ghost predicate Valid()
      reads this, unmatched
    {
      && timerRunning == excelConnected
      && (!excelConnected ==> last == NO_BASELINE)
      && (last.address.Some? <==> last.content.Some?)
      && unmatched.Valid()
      && unmatched.DisplayCurrent()
    }

    constructor ()
      ensures Valid() && fresh(unmatched)
      ensures targetFolder == "" && !excelConnected && last == NO_BASELINE && panel == CLEARED
      ensures unmatched.entries == []
    {
      targetFolder := "";
      excelConnected := false;
      timerRunning := false;
      last := NO_BASELINE;
      panel := CLEARED;
      unmatched := new UnmatchedRegistry();
    }

    /** `BrowseFolder_Click`: `choice` is the dialog's path when it was confirmed. */
    method BrowseFolder(choice: Option<string>)
      requires Valid()
      modifies this`targetFolder
      ensures Valid()
      ensures targetFolder == if choice.Some? then choice.value else old(targetFolder)
    {
      if choice.Some? {
        targetFolder := choice.value;
      }
    }

    /** `StartMonitoring_Click`; the start button is disabled while monitoring. */
    method StartMonitoring(folderExists: bool, attach: Attach) returns (outcome: StartOutcome)
      requires Valid() && !timerRunning
      modifies this`excelConnected, this`timerRunning
      ensures Valid()
      ensures outcome == StartVerdict(targetFolder, folderExists, attach)
      ensures timerRunning == excelConnected == outcome.Started?
      ensures last == NO_BASELINE
    {
      if targetFolder == "" {
        return NoFolderSelected;
      }
      if !folderExists {
        return FolderMissing;
      }
      match attach {
        case Instance =>
          excelConnected := true;
          timerRunning := true;
          outcome := Started;
        case NullInstance =>
          excelConnected := false;
          outcome := ExcelNotRunning;
        case ComError =>
          outcome := ExcelNotRunning;
        case OtherError =>
          outcome := ConnectFailed;
      }
    }

    /** `StopMonitoring_Click`: the folder and the unmatched record survive. */
    method StopMonitoring()
      requires Valid()
      modifies this`excelConnected, this`timerRunning, this`last, this`panel
      ensures Valid()
      ensures !timerRunning && !excelConnected && last == NO_BASELINE && panel == CLEARED
    {
      timerRunning := false;
      excelConnected := false;
      last := NO_BASELINE;
      panel := CLEARED;
    }

    /**
     * `SearchAndSelectFile`: `listing` is what listing the target folder gives (None when it
     * throws) and `shell` the open explorer windows.
     */
    method SearchAndSelectFile(term: string, listing: Option<seq<string>>, shell: Option<seq<LocationUrl>>)
      returns (outcome: SearchOutcome)
      requires Valid()
      modifies this`panel, unmatched
      ensures Valid()
      ensures outcome == SearchResult(term, listing, shell, old(unmatched.Keys))
      ensures unmatched.entries ==
        if outcome.NotFound? && outcome.recorded then old(unmatched.entries) + [term] else old(unmatched.entries)
      ensures outcome.ListingFailed? ==> panel == old(panel).(pattern := Some(term))
      ensures outcome.Located? ==> panel == Panel(Some(term), FoundCount(|outcome.matches|), outcome.matches)
      ensures outcome.NotFound? ==> panel == Panel(Some(term), NoMatch, [])
    {
      panel := panel.(pattern := Some(term));
      if listing.None? {
        return ListingFailed;
      }
      var matches := MatchFiles(listing.value, term);
      panel := panel.(items := []);
      if matches != [] {
        panel := panel.(result := FoundCount(|matches|), items := matches);
        var actions := SelectMultipleFilesInExplorer(matches, shell);
        outcome := Located(matches, actions);
      } else {
        panel := panel.(result := NoMatch);
        var recorded := unmatched.AddUnmatchedFile(term);
        outcome := NotFound(recorded);
      }
    }

    /**
     * `MonitorTimer_Tick`: `sample` is what the tick reads from Excel; `listing` and `shell` are
     * used only when it searches.
     */
    method MonitorTick(sample: Sample, listing: Option<seq<string>>, shell: Option<seq<LocationUrl>>)
      returns (reaction: Reaction, search: Option<SearchOutcome>)
      requires Valid()
      modifies this`excelConnected, this`timerRunning, this`last, this`panel, unmatched
      ensures Valid()
      ensures !old(excelConnected) ==> reaction == Ignore && unchanged(this) && unchanged(unmatched)
      ensures old(excelConnected) ==> reaction == Step(old(last), sample).0 && last == Step(old(last), sample).1
      ensures excelConnected == (old(excelConnected) && !reaction.Disconnect?)
      ensures reaction.Disconnect? || reaction.ShowBlank? ==> panel == CLEARED
      ensures reaction.Ignore? || reaction.StatusOnly? ==> panel == old(panel)
      ensures search.Some? <==> reaction.Search?
      ensures reaction.Search? ==> search.value == SearchResult(reaction.term, listing, shell, old(unmatched.Keys))
      ensures !reaction.Search? ==> unchanged(unmatched)
      ensures reaction.Search? ==>
        (unmatched.entries ==
           if search.value.NotFound? && search.value.recorded then old(unmatched.entries) + [reaction.term]
           else old(unmatched.entries))
      ensures reaction.Search? && search.value.ListingFailed? ==> panel == old(panel).(pattern := Some(reaction.term))
      ensures reaction.Search? && search.value.Located? ==>
        panel == Panel(Some(reaction.term), FoundCount(|search.value.matches|), search.value.matches)
      ensures reaction.Search? && search.value.NotFound? ==> panel == Panel(Some(reaction.term), NoMatch, [])
    {
      search := None;
      if !excelConnected {
        return Ignore, None;
      }
      var step := Step(last, sample);
      reaction := step.0;
      match reaction {
        case Ignore =>
        case StatusOnly =>
        case Disconnect =>
          StopMonitoring();
        case ShowBlank =>
          last := step.1;
          panel := CLEARED;
        case Search(term) =>
          last := step.1;
          var outcome := SearchAndSelectFile(term, listing, shell);
          search := Some(outcome);
      }
    }

    /** `ClearAll_Click`: only a confirmed request clears the unmatched record and its box. */
    method ClearAll(confirmed: bool)
      requires Valid()
      modifies unmatched
      ensures Valid()
      ensures confirmed ==> unmatched.entries == [] && unmatched.Keys == {} && unmatched.shown == ""
      ensures !confirmed ==> unchanged(unmatched)
    {
      if confirmed {
        unmatched.ClearRecords();
      }
    }
  }
}
