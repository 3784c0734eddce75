/** The state machine of bkmk's terminal interface (internal/tui/handlers.go
    and the helpers of internal/tui/model.go): one `Model` whose key handlers
    move between list, search, history and form screens and call the
    bookmark store. Text inputs are plain strings, and everything the
    interface asks of the outside world during one key press (the new text of
    the input the key went to, the fuzzy matcher, the history file, saving,
    renaming a group, the clipboard) is an `Env` parameter. */
module Tui {
  import opened Wrappers
  import opened ConfigStore
  import H = History
  import Views

  /** The screens (`viewMode`). `AllCommands` is drawn by the views but no
      key handler enters it. */
  datatype Mode =
    | Groups
    | Commands
    | Search
    | AllCommands
    | AddGroup
    | EditGroup
    | AddCommand
    | EditCommand
    | DeleteConfirm
    | HistoryBrowser
    | HistorySelectGroup
    | HistoryAddDetails
    | ActionSelect

  datatype DeleteTarget = DeleteCommand | DeleteGroup

  /** The form screens, each with its fixed number of text fields. */
  predicate IsForm(m: Mode)
  {
    m.AddGroup? || m.EditGroup? || m.AddCommand? || m.EditCommand? || m.HistoryAddDetails?
  }

  function FieldCount(m: Mode): nat
  {
    if m.AddGroup? || m.EditGroup? then 1
    else if m.AddCommand? || m.EditCommand? then 3
    else if m.HistoryAddDetails? then 2
    else 0
  }

  /** The screens `previousMode` is ever set to. */
  predicate IsReturnMode(m: Mode)
  {
    m.Groups? || m.Commands? || m.Search? || m.HistorySelectGroup?
  }

  /** The screens `handleKey` handles itself rather than by a screen's own
      handler. */
  predicate IsListMode(m: Mode)
  {
    m.Groups? || m.Commands? || m.Search? || m.AllCommands?
  }

  // ---------------------------------------------------------------------
  // The fields of the model, grouped as the source's struct groups them

  /** The store's groups as last read, the selected group's commands, every
      bookmark flattened, and the bookmarks the search shows. */
  datatype Lists = Lists(groups: seq<Group>, commands: seq<Command>, flatCommands: seq<FlatCommand>,
                         filtered: seq<FlatCommand>)

  /** The add and edit forms: the fields' values, the focused field, the
      error line, and what is being edited. */
  datatype Form = Form(values: seq<string>, focus: int, error: string, editingCmd: Option<Command>,
                       editingCmdIdx: int, editingGroup: string)

  /** What the delete confirmation would remove: a group by name, or a
      command, shown by its name and removed by its ID. */
  datatype Deletion = Deletion(target: DeleteTarget, groupName: string, cmdName: string, cmdID: int)

  /** The history browser: every entry read, the entries the query shows,
      the query, the command picked for saving, and the read error. */
  datatype HistoryView = HistoryView(entries: seq<H.Entry>, filtered: seq<H.Entry>, query: string,
                                     selectedCmd: string, error: string)

  /** The action screen: the chosen bookmark, the menu row, and the outcome. */
  datatype ActionState = ActionState(cmd: Option<FlatCommand>, cursor: int, result: string, error: string)

  /** Every field of a `Model`, as one value. */
  datatype State = State(lists: Lists, cursor: int, selectedGroup: int, mode: Mode, previousMode: Mode,
                         searchQuery: string, selected: Option<FlatCommand>, quitting: bool, form: Form,
                         deletion: Deletion, history: HistoryView, startInHistory: bool, action: ActionState)

  /** The form's error line set to `msg`, nothing else changed. */
  function FormFailed(s: State, msg: string): State
  {
    s.(form := s.form.(error := msg))
  }

  /** The part of `Valid` that depends on the screen. */
  predicate ScreenValid(mode: Mode, form: Form, cursor: int)
  {
    && (IsForm(mode) ==> |form.values| == FieldCount(mode) && 0 <= form.focus < |form.values|)
    && (mode == EditCommand ==> form.editingCmd.Some?)
    && (mode == HistoryBrowser ==> cursor >= 0)
  }

  // ---------------------------------------------------------------------
  // The outside world

  /** `fuzzy.Find(query, items)`: the indices of the matching items, best
      first. */
  type Matcher = (string, seq<string>) -> seq<int>

  /** The only thing assumed of the matcher: it returns indices of items. */
  ghost predicate MatcherValid(find: Matcher)
  {
    forall q: string, items: seq<string>, k: int :: 0 <= k < |find(q, items)| ==> 0 <= find(q, items)[k] < |items|
  }

  /** What the world answers during one key press: the value of the text
      input the key went to once the input has handled it, the matcher, the
      result of reading the history file, the history page size, the error of
      `Save` (if any), the groups after `RenameGroup` or its error, and the
      clipboard's error (if any). */
  datatype Env = Env(typed: string, find: Matcher, loaded: Result<seq<H.Entry>, string>, pageSize: int,
                     saveErr: Option<string>, renamed: Result<seq<Group>, string>, clipboardErr: Option<string>)

  ghost predicate EnvValid(env: Env)
  {
    env.pageSize > 0 && MatcherValid(env.find)
  }

  // ---------------------------------------------------------------------
  // Cursor and focus arithmetic

  function Min(a: int, b: int): int { if a <= b then a else b }

  /** The cursor once the list it points into has `n` rows: pulled back to
      the last row (or 0) when it is past the end. */
  function ClampCursor(c: int, n: int): (r: int)
    ensures c >= n ==> r == Max(0, n - 1)
    ensures c < n ==> r == c
  {
    if c >= n then Max(0, n - 1) else c
  }

  /** A cursor that was not negative stays on the list (or at 0 when the list
      is empty), and one already on the list does not move. */
  lemma ClampKeepsCursorOnList(c: int, n: int)
    requires 0 <= c
    ensures 0 <= ClampCursor(c, n)
    ensures n > 0 ==> ClampCursor(c, n) < n
    ensures c < n ==> ClampCursor(c, n) == c
  {
  }

  /** Tab: the next field, wrapping to the first. */
  function NextFocus(f: int, n: int): (r: int)
    requires 0 <= f < n
    ensures 0 <= r < n
    ensures f < n - 1 ==> r == f + 1
    ensures f == n - 1 ==> r == 0
  {
    (f + 1) % n
  }

  /** Shift+tab: the previous field, wrapping to the last. */
  function PrevFocus(f: int, n: int): (r: int)
    requires 0 <= f < n
    ensures 0 <= r < n
    ensures f > 0 ==> r == f - 1
    ensures f == 0 ==> r == n - 1
  {
    (f - 1 + n) % n
  }

  /** Tab and shift+tab undo each other. */
  lemma FocusRoundTrip(f: int, n: int)
    requires 0 <= f < n
    ensures PrevFocus(NextFocus(f, n), n) == f
    ensures NextFocus(PrevFocus(f, n), n) == f
  {
  }

  /** Page down on the history list as the source writes it. */
  function PageDownAsWritten(c: int, pageSize: int, n: int): int
  {
    Min(c + pageSize, n - 1)
  }

  /** Page down with the result kept at 0 or above. */
  function PageDown(c: int, pageSize: int, n: int): int
  {
    Max(0, Min(c + pageSize, n - 1))
  }

  function PageUp(c: int, pageSize: int): int
  {
    Max(c - pageSize, 0)
  }

  /** The chain the written page down opens: a query that matches nothing
      empties the history list and leaves the cursor at 0; page down then
      sets it to -1; clearing the query refills the list without pulling the
      cursor back, so the enter guard (`len > 0 && cursor < len`) admits -1,
      which is no index of the list. */
  lemma PageDownAsWrittenEscapes(s: State, find: Matcher, pageSize: int)
    requires MatcherValid(find) && pageSize > 0
    requires s.cursor == 0 && s.history.query != "" && |s.history.entries| > 0
    requires find(s.history.query, EntryCommands(s.history.entries)) == []
    ensures var emptied := HistoryFiltered(s, find);
            var moved := emptied.(cursor := PageDownAsWritten(emptied.cursor, pageSize, |emptied.history.filtered|));
            var refilled := HistoryFiltered(moved.(history := moved.history.(query := "")), find);
            && emptied.history.filtered == [] && emptied.cursor == 0
            && moved.cursor == -1
            && refilled.history.filtered == s.history.entries
            && |refilled.history.filtered| > 0 && refilled.cursor < |refilled.history.filtered|
            && !(0 <= refilled.cursor < |refilled.history.filtered|)
  {
    HistoryFilteredMeaning(s, find);
  }

  /** The corrected page keys keep a cursor that was on the list (or at 0)
      there, move it forward or back by at most a page, and agree with the
      source whenever the list is not empty. */
  lemma PageKeysStayInRange(c: int, pageSize: int, n: int)
    requires pageSize > 0 && 0 <= c <= Max(0, n - 1)
    ensures 0 <= PageDown(c, pageSize, n) <= Max(0, n - 1)
    ensures c <= PageDown(c, pageSize, n) <= c + pageSize
    ensures n > 0 ==> PageDown(c, pageSize, n) == PageDownAsWritten(c, pageSize, n)
    ensures 0 <= PageUp(c, pageSize) <= c
    ensures c - pageSize <= PageUp(c, pageSize)
    ensures c > 0 ==> PageUp(c, pageSize) < c
  {
  }

  /** The keys that move the history browser's cursor. */
  predicate IsHistoryMove(key: string)
  {
    key in {"ctrl+n", "down", "ctrl+p", "up", "pgdown", "ctrl+down", "pgup", "ctrl+up"}
  }

  /** Where a movement key puts the history cursor on a list of `n`
      entries: one row down or up, or a page down or up. */
  function HistoryCursor(key: string, c: int, pageSize: int, n: int): int
  {
    if key == "ctrl+n" || key == "down" then (if c < n - 1 then c + 1 else c)
    else if key == "ctrl+p" || key == "up" then (if c > 0 then c - 1 else c)
    else if key == "pgdown" || key == "ctrl+down" then PageDown(c, pageSize, n)
    else PageUp(c, pageSize)
  }

  /** Every movement key keeps a cursor that is on the list (or at 0 on an
      empty one) there, and moves it by at most a page. */
  lemma {:induction false} HistoryCursorStaysOnList(key: string, c: int, pageSize: int, n: int)
    requires IsHistoryMove(key) && pageSize > 0 && 0 <= c <= Max(0, n - 1)
    ensures 0 <= HistoryCursor(key, c, pageSize, n) <= Max(0, n - 1)
    ensures c - pageSize <= HistoryCursor(key, c, pageSize, n) <= c + pageSize
  {
    PageKeysStayInRange(c, pageSize, n);
  }

  // ---------------------------------------------------------------------
  // Filtering

  /** The text the fuzzy matcher searches for each bookmark. */
  function SearchKey(c: FlatCommand): string
  {
    c.groupName + " " + c.name + " " + c.command + " " + c.description
  }

  function SearchItems(fs: seq<FlatCommand>): seq<string>
  {
    seq(|fs|, i requires 0 <= i < |fs| => SearchKey(fs[i]))
  }

  function EntryCommands(es: seq<H.Entry>): seq<string>
  {
    seq(|es|, i requires 0 <= i < |es| => es[i].command)
  }

  /** The items at the matcher's indices, in the matcher's order. */
  function Pick<T>(xs: seq<T>, idx: seq<int>): (r: seq<T>)
    requires forall k :: 0 <= k < |idx| ==> 0 <= idx[k] < |xs|
    ensures |r| == |idx|
    ensures forall x :: x in r ==> x in xs
  {
    seq(|idx|, k requires 0 <= k < |idx| => xs[idx[k]])
  }

  /** `updateFilter`. */
  function Filtered(s: State, find: Matcher): State
    requires MatcherValid(find)
  {
    if s.searchQuery == "" then s.(lists := s.lists.(filtered := s.lists.flatCommands))
    else
      var r := Pick(s.lists.flatCommands, find(s.searchQuery, SearchItems(s.lists.flatCommands)));
      s.(lists := s.lists.(filtered := r), cursor := ClampCursor(s.cursor, |r|))
  }

  /** `updateHistoryFilter`. */
  function HistoryFiltered(s: State, find: Matcher): State
    requires MatcherValid(find)
  {
    if s.history.query == "" then s.(history := s.history.(filtered := s.history.entries))
    else
      var r := Pick(s.history.entries, find(s.history.query, EntryCommands(s.history.entries)));
      s.(history := s.history.(filtered := r), cursor := ClampCursor(s.cursor, |r|))
  }

  /** With no query every bookmark is shown and the cursor stays; otherwise
      the shown bookmarks are exactly those at the matcher's indices into the
      search keys, and the cursor is pulled back onto the result. Nothing
      else changes. */
  lemma FilteredMeaning(s: State, find: Matcher)
    requires MatcherValid(find)
    ensures var t := Filtered(s, find);
            && (s.searchQuery == "" ==> t.lists.filtered == s.lists.flatCommands && t.cursor == s.cursor)
            && (s.searchQuery != "" ==>
                  var idx := find(s.searchQuery, SearchItems(s.lists.flatCommands));
                  && |t.lists.filtered| == |idx|
                  && (forall k :: 0 <= k < |idx| ==>
                        0 <= idx[k] < |s.lists.flatCommands| && t.lists.filtered[k] == s.lists.flatCommands[idx[k]])
                  && t.cursor == ClampCursor(s.cursor, |t.lists.filtered|))
            && t.(lists := s.lists, cursor := s.cursor) == s
            && t.lists.(filtered := s.lists.filtered) == s.lists
  {
  }

  /** The same for the history list and its query. */
  lemma HistoryFilteredMeaning(s: State, find: Matcher)
    requires MatcherValid(find)
    ensures var t := HistoryFiltered(s, find);
            && (s.history.query == "" ==> t.history.filtered == s.history.entries && t.cursor == s.cursor)
            && (s.history.query != "" ==>
                  var idx := find(s.history.query, EntryCommands(s.history.entries));
                  && |t.history.filtered| == |idx|
                  && (forall k :: 0 <= k < |idx| ==>
                        0 <= idx[k] < |s.history.entries| && t.history.filtered[k] == s.history.entries[idx[k]])
                  && t.cursor == ClampCursor(s.cursor, |t.history.filtered|))
            && t.(history := s.history, cursor := s.cursor) == s
            && t.history.(filtered := s.history.filtered) == s.history
  {
  }

  method BuildSearchItems(fs: seq<FlatCommand>) returns (items: seq<string>)
    ensures items == SearchItems(fs)
  {
    items := [];
    var i := 0;
    while i < |fs|
      invariant 0 <= i <= |fs|
      invariant |items| == i
      invariant forall k :: 0 <= k < i ==> items[k] == SearchKey(fs[k])
    {
      items := items + [SearchKey(fs[i])];
      i := i + 1;
    }
  }

  method BuildEntryCommands(es: seq<H.Entry>) returns (items: seq<string>)
    ensures items == EntryCommands(es)
  {
    items := [];
    var i := 0;
    while i < |es|
      invariant 0 <= i <= |es|
      invariant |items| == i
      invariant forall k :: 0 <= k < i ==> items[k] == es[k].command
    {
      items := items + [es[i].command];
      i := i + 1;
    }
  }

  method PickEach<T>(xs: seq<T>, idx: seq<int>) returns (r: seq<T>)
    requires forall k :: 0 <= k < |idx| ==> 0 <= idx[k] < |xs|
    ensures r == Pick(xs, idx)
  {
    r := [];
    var i := 0;
    while i < |idx|
      invariant 0 <= i <= |idx|
      invariant |r| == i
      invariant forall k :: 0 <= k < i ==> r[k] == xs[idx[k]]
    {
      r := r + [xs[idx[i]]];
      i := i + 1;
    }
  }

  // ---------------------------------------------------------------------
  // Forms, refresh and actions, as functions of the state

  /** One text value per field, taken from `values` where it has one. */
  function Prefilled(n: nat, values: seq<string>): seq<string>
  {
    seq(n, i requires 0 <= i < n => if i < |values| then values[i] else "")
  }

  method PrefillValues(n: nat, values: seq<string>) returns (vals: seq<string>)
    ensures vals == Prefilled(n, values)
  {
    vals := [];
    var i := 0;
    while i < n
      invariant 0 <= i <= n
      invariant |vals| == i
      invariant forall k :: 0 <= k < i ==> vals[k] == (if k < |values| then values[k] else "")
    {
      vals := vals + [if i < |values| then values[i] else ""];
      i := i + 1;
    }
  }

  /** `refreshData`: the store's groups, their flattening as both the full
      and the filtered list, and the selected group's commands when the
      selection is still a group. */
  function Refreshed(s: State, gs: seq<Group>): State
  {
    s.(lists := Lists(gs, if 0 <= s.selectedGroup < |gs| then gs[s.selectedGroup].commands else s.lists.commands,
                      Flatten(gs), Flatten(gs)))
  }

  /** After a refresh the lists show exactly the store's bookmarks: the
      flat list (shown in full by the search) holds every command of the
      store in order with its group's name attached, and the commands shown
      are those of the still-selected group. Nothing but the lists changes. */
  lemma RefreshedMeaning(s: State, gs: seq<Group>)
    ensures var t := Refreshed(s, gs);
            && t.lists.groups == gs
            && t.lists.filtered == t.lists.flatCommands == Flatten(gs)
            && |t.lists.flatCommands| == |AllOf(gs)|
            && (forall k :: 0 <= k < |t.lists.flatCommands| ==> Unflat(t.lists.flatCommands[k]) == AllOf(gs)[k])
            && (0 <= s.selectedGroup < |gs| ==> t.lists.commands == gs[s.selectedGroup].commands)
            && t.(lists := s.lists) == s
  {
    FlattenMatchesAllOf(gs);
  }

  /** `executeAction`. */
  function Executed(s: State, action: string, clipboardErr: Option<string>): State
  {
    if s.action.cmd.None? then s
    else if action == ActionCopy then
      if clipboardErr.Some? then s.(action := s.action.(error := clipboardErr.value))
      else s.(selected := s.action.cmd, action := s.action.(result := "Copied to clipboard"), quitting := true)
    else if action == ActionRun then s.(selected := s.action.cmd, action := s.action.(result := "run"), quitting := true)
    else s
  }

  /** The interface quits with the chosen command exactly when there is one
      and it is run or successfully copied; a failed copy only records the
      clipboard's error; and the screen never changes. */
  lemma ExecutedMeaning(s: State, action: string, clipboardErr: Option<string>)
    ensures var t := Executed(s, action, clipboardErr);
            var done := s.action.cmd.Some? && (action == ActionRun || (action == ActionCopy && clipboardErr.None?));
            && t.mode == s.mode
            && (done ==> t.quitting && t.selected == s.action.cmd
                         && t.action.result == (if action == ActionRun then "run" else "Copied to clipboard"))
            && (!done ==> t.quitting == s.quitting && t.selected == s.selected)
            && (s.action.cmd.Some? && action == ActionCopy && clipboardErr.Some? ==>
                  t == s.(action := s.action.(error := clipboardErr.value)))
  {
  }

  /** Choosing bookmark `fc` from screen `from`: a default action of copy or
      run is carried out at once; any other shows the action screen. */
  function Offer(s: State, fc: FlatCommand, from: Mode, clipboardErr: Option<string>): State
  {
    var t := s.(action := s.action.(cmd := Some(fc)));
    if fc.defaultAction == ActionCopy then Executed(t, ActionCopy, clipboardErr)
    else if fc.defaultAction == ActionRun then Executed(t, ActionRun, clipboardErr)
    else t.(previousMode := from, mode := ActionSelect, action := ActionState(Some(fc), 0, "", ""))
  }

  /** The default-action bypass: with copy or run as default the action
      screen is skipped (and a run always quits with the bookmark); with
      any other default the action screen opens on its first row with the
      result and error cleared and the screen it came from remembered. */
  lemma OfferMeaning(s: State, fc: FlatCommand, from: Mode, clipboardErr: Option<string>)
    ensures var t := Offer(s, fc, from, clipboardErr);
            && t.action.cmd == Some(fc)
            && ((fc.defaultAction == ActionCopy || fc.defaultAction == ActionRun) ==>
                  t.mode == s.mode && t.previousMode == s.previousMode)
            && (fc.defaultAction == ActionRun ==> t.quitting && t.selected == Some(fc) && t.action.result == "run")
            && (fc.defaultAction != ActionCopy && fc.defaultAction != ActionRun ==>
                  t == s.(previousMode := from, mode := ActionSelect, action := ActionState(Some(fc), 0, "", "")))
  {
  }

  /** What enter does on each row of the action screen: run, copy, or cancel
      (the empty action). */
  function MenuAction(i: int): string
  {
    if i == 0 then ActionRun else if i == 1 then ActionCopy else ""
  }

  /** The rows of the action screen are in the order enter dispatches them:
      the row labelled with the run key runs, the one labelled with the copy
      key copies, and the unlabelled row cancels. */
  lemma MenuOrderMatches()
    ensures |Views.ActionMenu| == 3
    ensures forall i :: 0 <= i < 3 ==>
              && (Views.ActionMenu[i].key == "r" <==> MenuAction(i) == ActionRun)
              && (Views.ActionMenu[i].key == "c" <==> MenuAction(i) == ActionCopy)
              && (Views.ActionMenu[i].key == "" <==> MenuAction(i) == "")
  {
    assert Views.ActionMenu[0].key == "r" && Views.ActionMenu[1].key == "c" && Views.ActionMenu[2].key == "";
  }

  /** The error the store reports for a confirmed deletion, if any. */
  function DeleteError(gs: seq<Group>, d: Deletion): Option<ConfigError>
  {
    if d.target == DeleteGroup then RemoveGroupError(gs, d.groupName) else RemoveByIdError(gs, d.cmdID)
  }

  /** The groups once a confirmed deletion is made. */
  function Removed(gs: seq<Group>, d: Deletion): seq<Group>
    requires DeleteError(gs, d) == None
  {
    if d.target == DeleteGroup then RemoveAt(gs, GroupIndex(gs, d.groupName))
    else WithoutId(gs, d.cmdID)
  }

  /** The keys that can change the bookmarks: enter on a form (it submits
      from the last field) and yes on the delete confirmation. */
  predicate SubmitKey(mode: Mode, key: string)
  {
    (IsForm(mode) && key == "enter") || (mode == DeleteConfirm && key in {"y", "Y", "enter"})
  }

  // ---------------------------------------------------------------------
  // The model

  class Model {
    const store: Config

    var lists: Lists
    var cursor: int
    var selectedGroup: int
    var mode: Mode
    var previousMode: Mode
    var searchQuery: string
    var selected: Option<FlatCommand>
    var quitting: bool
    var form: Form
    var deletion: Deletion
    var history: HistoryView
    var startInHistory: bool
    var action: ActionState

    function Snapshot(): State
      reads this
    {
      State(lists, cursor, selectedGroup, mode, previousMode, searchQuery, selected, quitting, form,
            deletion, history, startInHistory, action)
    }

    /** What every handler keeps: the action cursor on one of the three
        rows, a previous screen that a handler can return to, a form screen
        showing its own fields with the focus on one of them, an edited
        command while editing, and a history cursor that is not negative. */
    predicate Valid()
      reads this
    {
      && 0 <= action.cursor <= 2
      && IsReturnMode(previousMode)
      && ScreenValid(mode, form, cursor)
    }

    /** `maxCursor`: the last row of the list on screen (0 when it is empty),
        the "create new group" row below the groups when picking a group for
        a history command, and 0 on any other screen. */
    function MaxCursor(): (r: int)
      reads this
      ensures r >= 0
      ensures mode == Groups ==> r == Max(0, |lists.groups| - 1)
      ensures mode == Commands ==> r == Max(0, |lists.commands| - 1)
      ensures mode == Search ==> r == Max(0, |lists.filtered| - 1)
      ensures mode == HistoryBrowser ==> r == Max(0, |history.filtered| - 1)
      ensures mode == HistorySelectGroup ==> r == |lists.groups|
      ensures !(mode in {Groups, Commands, Search, HistoryBrowser, HistorySelectGroup}) ==> r == 0
    {
      match mode
      case Groups => Max(0, |lists.groups| - 1)
      case Commands => Max(0, |lists.commands| - 1)
      case Search => Max(0, |lists.filtered| - 1)
      case HistoryBrowser => Max(0, |history.filtered| - 1)
      case HistorySelectGroup => |lists.groups|
      case _ => 0
    }

    predicate CursorInRange()
      reads this
    {
      0 <= cursor <= MaxCursor()
    }

    /** `New`: the group list screen over the store's groups, with every
        bookmark shown. */
    constructor New(cfg: Config)
      ensures store == cfg
      ensures Snapshot() == State(Lists(cfg.groups, [], Flatten(cfg.groups), Flatten(cfg.groups)), 0, 0, Groups,
                                  Groups, "", None, false, Form([], 0, "", None, 0, ""), Deletion(DeleteCommand, "", "", 0),
                                  HistoryView([], [], "", "", ""), false, ActionState(None, 0, "", ""))
      ensures Valid()
    {
      var all := cfg.FlatCommands();
      store := cfg;
      lists := Lists(cfg.groups, [], all, all);
      cursor, selectedGroup, mode, previousMode := 0, 0, Groups, Groups;
      searchQuery, selected, quitting := "", None, false;
      form := Form([], 0, "", None, 0, "");
      deletion := Deletion(DeleteCommand, "", "", 0);
      history := HistoryView([], [], "", "", "");
      startInHistory := false;
      action := ActionState(None, 0, "", "");
    }

    /** `NewWithLastCommand`, whose body is not part of this model, as its
        tests describe it: the group picker for `lastCmd`, cursor on the
        first row. */
    constructor NewWithLastCommand(cfg: Config, lastCmd: string)
      ensures store == cfg
      ensures Snapshot() == State(Lists(cfg.groups, [], Flatten(cfg.groups), Flatten(cfg.groups)), 0, 0,
                                  HistorySelectGroup, Groups, "", None, false, Form([], 0, "", None, 0, ""),
                                  Deletion(DeleteCommand, "", "", 0), HistoryView([], [], "", lastCmd, ""), false,
                                  ActionState(None, 0, "", ""))
      ensures Valid()
    {
      var all := cfg.FlatCommands();
      store := cfg;
      lists := Lists(cfg.groups, [], all, all);
      cursor, selectedGroup, mode, previousMode := 0, 0, HistorySelectGroup, Groups;
      searchQuery, selected, quitting := "", None, false;
      form := Form([], 0, "", None, 0, "");
      deletion := Deletion(DeleteCommand, "", "", 0);
      history := HistoryView([], [], "", lastCmd, "");
      startInHistory := false;
      action := ActionState(None, 0, "", "");
    }

    // -------------------------------------------------------------------
    // Helpers of model.go

    method RefreshData()
      modifies this
      ensures Snapshot() == Refreshed(old(Snapshot()), store.groups)
    {
      var gs := store.groups;
      var all := store.FlatCommands();
      lists := Lists(gs, if 0 <= selectedGroup < |gs| then gs[selectedGroup].commands else lists.commands, all, all);
    }

    /** `Save` after a store change: its error on the form, or on success
        the lists read again from the store. */
    method SaveAndRefresh(env: Env) returns (saved: bool)
      modifies this
      ensures saved == env.saveErr.None?
      ensures !saved ==> Snapshot() == FormFailed(old(Snapshot()), "Failed to save: " + env.saveErr.value)
      ensures saved ==> Snapshot() == Refreshed(old(Snapshot()), store.groups)
    {
      if env.saveErr.Some? {
        form := form.(error := "Failed to save: " + env.saveErr.value);
        return false;
      }
      RefreshData();
      return true;
    }

    /** `createFormInputs`: one text field per label, prefilled from
        `values` where it has one, focus on the first and no error. */
    method CreateFormInputs(fields: seq<string>, values: seq<string>)
      modifies this
      ensures Snapshot() == old(Snapshot()).(form := old(form).(values := Prefilled(|fields|, values), focus := 0, error := ""))
      ensures |form.values| == |fields|
      ensures forall i :: 0 <= i < |fields| ==> form.values[i] == (if i < |values| then values[i] else "")
    {
      var vals := PrefillValues(|fields|, values);
      form := form.(values := vals, focus := 0, error := "");
    }

    method UpdateFilter(find: Matcher)
      requires MatcherValid(find)
      modifies this
      ensures Snapshot() == Filtered(old(Snapshot()), find)
    {
      if searchQuery == "" {
        lists := lists.(filtered := lists.flatCommands);
        return;
      }
      var items := BuildSearchItems(lists.flatCommands);
      var matches := find(searchQuery, items);
      var picked := PickEach(lists.flatCommands, matches);
      lists := lists.(filtered := picked);
      if cursor >= |picked| {
        cursor := Max(0, |picked| - 1);
      }
    }

    method UpdateHistoryFilter(find: Matcher)
      requires MatcherValid(find)
      modifies this
      ensures Snapshot() == HistoryFiltered(old(Snapshot()), find)
    {
      if history.query == "" {
        history := history.(filtered := history.entries);
        return;
      }
      var items := BuildEntryCommands(history.entries);
      var matches := find(history.query, items);
      var picked := PickEach(history.entries, matches);
      history := history.(filtered := picked);
      if cursor >= |picked| {
        cursor := Max(0, |picked| - 1);
      }
    }

    // -------------------------------------------------------------------
    // The list screens (the body of handleKey)

    method Quit()
      requires Valid()
      modifies this
      ensures Valid()
      ensures Snapshot() == old(Snapshot()).(quitting := true)
    {
      quitting := true;
    }

    /** A key that goes to the search input, followed by `updateFilter`. */
    method TypeSearch(env: Env)
      requires Valid() && EnvValid(env) && mode == Search
      modifies this
      ensures Valid()
      ensures Snapshot() == Filtered(old(Snapshot()).(searchQuery := env.typed), env.find)
    {
      searchQuery := env.typed;
      UpdateFilter(env.find);
    }

    /** Esc leaves search (clearing its query) or a group's commands (with
        the cursor back on that group). */
    method Escape()
      requires Valid()
      modifies this
      ensures Valid()
      ensures old(mode) == Search ==> Snapshot() == old(Snapshot()).(mode := Groups, searchQuery := "", cursor := 0)
      ensures old(mode) == Commands ==> Snapshot() == old(Snapshot()).(mode := Groups, cursor := old(selectedGroup))
      ensures old(mode) != Search && old(mode) != Commands ==> Snapshot() == old(Snapshot())
    {
      if mode == Search {
        mode, searchQuery, cursor := Groups, "", 0;
      } else if mode == Commands {
        mode, cursor := Groups, selectedGroup;
      }
    }

    method StartSearch(env: Env)
      requires Valid() && EnvValid(env) && IsListMode(mode)
      modifies this
      ensures Valid()
      ensures Snapshot() == Filtered(old(Snapshot()).(mode := Search, cursor := 0), env.find)
    {
      mode, cursor := Search, 0;
      UpdateFilter(env.find);
    }

    /** `h`: the history browser over the entries read from the history file
        (or its error), with an empty query. */
    method OpenHistory(env: Env)
      requires Valid() && (mode == Groups || mode == Commands)
      modifies this
      ensures Valid()
      ensures env.loaded.Ok? ==>
        Snapshot() == old(Snapshot()).(previousMode := old(mode), mode := HistoryBrowser, cursor := 0,
                                       history := old(history).(entries := env.loaded.value,
                                                                filtered := env.loaded.value, query := "", error := ""))
      ensures env.loaded.Err? ==>
        Snapshot() == old(Snapshot()).(previousMode := old(mode), mode := HistoryBrowser, cursor := 0,
                                       history := old(history).(query := "", error := env.loaded.error))
    {
      previousMode, mode, cursor := mode, HistoryBrowser, 0;
      match env.loaded
      case Ok(entries) =>
        history := history.(entries := entries, filtered := entries, query := "", error := "");
      case Err(e) =>
        history := history.(query := "", error := e);
    }

    /** `a`: the add-group form (one field) from the groups, the add-command
        form (three fields) from a group's commands. */
    method StartAdd()
      requires Valid() && (mode == Groups || mode == Commands)
      modifies this
      ensures Valid()
      ensures old(mode) == Groups ==>
        Snapshot() == old(Snapshot()).(previousMode := Groups, mode := AddGroup,
                                       form := old(form).(values := [""], focus := 0, error := ""))
      ensures old(mode) == Commands ==>
        Snapshot() == old(Snapshot()).(previousMode := Commands, mode := AddCommand,
                                       form := old(form).(values := ["", "", ""], focus := 0, error := ""))
    {
      if mode == Groups {
        previousMode, mode := Groups, AddGroup;
        CreateFormInputs(["Group name"], []);
      } else {
        previousMode, mode := Commands, AddCommand;
        CreateFormInputs(["Command name", "Command to run", "Description (optional)"], []);
      }
    }

    /** `e`: the edit form, prefilled with the group's name or the command's
        name, text and description. */
    method StartEdit()
      requires Valid()
      requires (mode == Groups && 0 <= cursor < |lists.groups|) || (mode == Commands && 0 <= cursor < |lists.commands|)
      modifies this
      ensures Valid()
      ensures old(mode) == Groups ==>
        var name := old(lists.groups)[old(cursor)].name;
        Snapshot() == old(Snapshot()).(previousMode := Groups, mode := EditGroup,
                                       form := old(form).(values := [name], focus := 0, error := "", editingGroup := name))
      ensures old(mode) == Commands ==>
        var c := old(lists.commands)[old(cursor)];
        Snapshot() == old(Snapshot()).(previousMode := Commands, mode := EditCommand,
                                       form := old(form).(values := [c.name, c.command, c.description], focus := 0,
                                                          error := "", editingCmd := Some(c), editingCmdIdx := old(cursor)))
    {
      if mode == Groups {
        var name := lists.groups[cursor].name;
        form := form.(editingGroup := name);
        previousMode, mode := Groups, EditGroup;
        CreateFormInputs(["Group name"], [name]);
      } else {
        var c := lists.commands[cursor];
        form := form.(editingCmd := Some(c), editingCmdIdx := cursor);
        previousMode, mode := Commands, EditCommand;
        CreateFormInputs(["Command name", "Command to run", "Description (optional)"], [c.name, c.command, c.description]);
      }
    }

    /** `d`: the delete confirmation for the group under the cursor, or for
        the command under the cursor in the selected group. */
    method StartDelete()
      requires Valid()
      requires (mode == Groups && 0 <= cursor < |lists.groups|)
            || (mode == Commands && 0 <= cursor < |lists.commands| && 0 <= selectedGroup < |lists.groups|)
      modifies this
      ensures Valid()
      ensures old(mode) == Groups ==>
        Snapshot() == old(Snapshot()).(previousMode := Groups, mode := DeleteConfirm,
                                       deletion := old(deletion).(target := DeleteGroup,
                                                                  groupName := old(lists.groups)[old(cursor)].name))
      ensures old(mode) == Commands ==>
        Snapshot() == old(Snapshot()).(previousMode := Commands, mode := DeleteConfirm,
                                       deletion := Deletion(DeleteCommand, old(lists.groups)[old(selectedGroup)].name,
                                                            old(lists.commands)[old(cursor)].name,
                                                            old(lists.commands)[old(cursor)].id))
    {
      if mode == Groups {
        deletion := deletion.(target := DeleteGroup, groupName := lists.groups[cursor].name);
        previousMode := Groups;
      } else {
        var c := lists.commands[cursor];
        deletion := Deletion(DeleteCommand, lists.groups[selectedGroup].name, c.name, c.id);
        previousMode := Commands;
      }
      mode := DeleteConfirm;
    }

    /** Up: one row back unless on the first. */
    method CursorUp()
      requires Valid()
      modifies this
      ensures Valid()
      ensures Snapshot() == old(Snapshot()).(cursor := if old(cursor) > 0 then old(cursor) - 1 else old(cursor))
      ensures old(CursorInRange()) ==> CursorInRange()
    {
      if cursor > 0 {
        cursor := cursor - 1;
      }
    }

    /** Down: one row on unless already on the last one `maxCursor` allows. */
    method CursorDown()
      requires Valid()
      modifies this
      ensures Valid()
      ensures Snapshot() == old(Snapshot()).(cursor := if old(cursor) < old(MaxCursor()) then old(cursor) + 1 else old(cursor))
      ensures old(CursorInRange()) ==> CursorInRange()
    {
      if cursor < MaxCursor() {
        cursor := cursor + 1;
      }
    }

    /** Ctrl+n in search: one row on, bounded by the filtered list. */
    method SearchNext()
      requires Valid() && mode == Search
      modifies this
      ensures Valid()
      ensures Snapshot() == old(Snapshot()).(cursor := if old(cursor) < |old(lists.filtered)| - 1 then old(cursor) + 1 else old(cursor))
      ensures old(CursorInRange()) ==> CursorInRange()
    {
      if cursor < |lists.filtered| - 1 {
        cursor := cursor + 1;
      }
    }

    /** Enter or tab on a group: its commands, cursor on the first. */
    method OpenGroup()
      requires Valid() && mode == Groups
      modifies this
      ensures Valid()
      ensures 0 <= old(cursor) < |old(lists.groups)| ==>
        Snapshot() == old(Snapshot()).(mode := Commands, selectedGroup := old(cursor), cursor := 0,
                                       lists := old(lists).(commands := old(lists.groups)[old(cursor)].commands))
      ensures !(0 <= old(cursor) < |old(lists.groups)|) ==> Snapshot() == old(Snapshot())
    {
      if 0 <= cursor < |lists.groups| {
        lists := lists.(commands := lists.groups[cursor].commands);
        mode, selectedGroup, cursor := Commands, cursor, 0;
      }
    }

    method ExecuteAction(act: string, clipboardErr: Option<string>)
      requires Valid()
      modifies this
      ensures Valid()
      ensures Snapshot() == Executed(old(Snapshot()), act, clipboardErr)
    {
      if action.cmd.None? {
        return;
      }
      if act == ActionCopy {
        if clipboardErr.Some? {
          action := action.(error := clipboardErr.value);
          return;
        }
        selected, quitting := action.cmd, true;
        action := action.(result := "Copied to clipboard");
      } else if act == ActionRun {
        selected, quitting := action.cmd, true;
        action := action.(result := "run");
      }
    }

    method OfferCommand(fc: FlatCommand, from: Mode, clipboardErr: Option<string>)
      requires Valid() && IsReturnMode(from)
      modifies this
      ensures Valid()
      ensures Snapshot() == Offer(old(Snapshot()), fc, from, clipboardErr)
    {
      if fc.defaultAction == ActionCopy {
        action := action.(cmd := Some(fc));
        ExecuteAction(ActionCopy, clipboardErr);
      } else if fc.defaultAction == ActionRun {
        action := action.(cmd := Some(fc));
        ExecuteAction(ActionRun, clipboardErr);
      } else {
        previousMode, mode := from, ActionSelect;
        action := ActionState(Some(fc), 0, "", "");
      }
    }

    /** `handleSelect`: enter opens a group, or chooses the command under
        the cursor in a group or in the search results. */
    method HandleSelect(env: Env)
      requires Valid()
      modifies this
      ensures Valid()
      ensures old(mode) == Groups && 0 <= old(cursor) < |old(lists.groups)| ==>
        Snapshot() == old(Snapshot()).(mode := Commands, selectedGroup := old(cursor), cursor := 0,
                                       lists := old(lists).(commands := old(lists.groups)[old(cursor)].commands))
      ensures (old(mode) == Commands && 0 <= old(cursor) < |old(lists.commands)|
               && 0 <= old(selectedGroup) < |old(lists.groups)|) ==>
        Snapshot() == Offer(old(Snapshot()), Flat(old(lists.groups)[old(selectedGroup)].name, old(lists.commands)[old(cursor)]),
                            Commands, env.clipboardErr)
      ensures old(mode) == Search && 0 <= old(cursor) < |old(lists.filtered)| ==>
        Snapshot() == Offer(old(Snapshot()), old(lists.filtered)[old(cursor)], Search, env.clipboardErr)
      ensures !((old(mode) == Groups && 0 <= old(cursor) < |old(lists.groups)|)
                || (old(mode) == Commands && 0 <= old(cursor) < |old(lists.commands)|
                    && 0 <= old(selectedGroup) < |old(lists.groups)|)
                || (old(mode) == Search && 0 <= old(cursor) < |old(lists.filtered)|)) ==>
        Snapshot() == old(Snapshot())
    {
      if mode == Groups {
        OpenGroup();
      } else if mode == Commands {
        if 0 <= cursor < |lists.commands| && 0 <= selectedGroup < |lists.groups| {
          OfferCommand(Flat(lists.groups[selectedGroup].name, lists.commands[cursor]), Commands, env.clipboardErr);
        }
      } else if mode == Search {
        if 0 <= cursor < |lists.filtered| {
          OfferCommand(lists.filtered[cursor], Search, env.clipboardErr);
        }
      }
    }

    /** The key switch of `handleKey` on the group, command, search and
        all-bookmarks screens. */
    method ListKey(key: string, env: Env)
      requires Valid() && EnvValid(env) && IsListMode(mode)
      modifies this
      ensures Valid()
      ensures key == "ctrl+c" ==> Snapshot() == old(Snapshot()).(quitting := true)
      ensures key == "q" && old(mode) != Search ==> Snapshot() == old(Snapshot()).(quitting := true)
      ensures old(mode) == Search && !(key in {"ctrl+c", "esc", "ctrl+n", "ctrl+p", "enter", "tab"}) ==>
        Snapshot() == Filtered(old(Snapshot()).(searchQuery := env.typed), env.find)
    {
      if key == "ctrl+c" {
        Quit();
      } else if key == "q" {
        if mode == Search { TypeSearch(env); } else { Quit(); }
      } else if key == "esc" {
        Escape();
      } else if key == "/" {
        if mode != Search { StartSearch(env); } else { TypeSearch(env); }
      } else if key == "h" {
        if mode == Groups || mode == Commands { OpenHistory(env); }
        else if mode == Search { TypeSearch(env); }
      } else if key == "o" {
        // Opening the configuration in an editor runs another process and
        // leaves the model as it is.
        if mode == Search { TypeSearch(env); }
      } else if key == "a" {
        if mode == Groups || mode == Commands { StartAdd(); }
        else if mode == Search { TypeSearch(env); }
      } else if key == "e" {
        if (mode == Groups && 0 <= cursor < |lists.groups|) || (mode == Commands && 0 <= cursor < |lists.commands|) {
          StartEdit();
        } else if mode == Search {
          TypeSearch(env);
        }
      } else if key == "d" || key == "backspace" || key == "delete" {
        if (mode == Groups && 0 <= cursor < |lists.groups|)
           || (mode == Commands && 0 <= cursor < |lists.commands| && 0 <= selectedGroup < |lists.groups|) {
          StartDelete();
        } else if mode == Search {
          TypeSearch(env);
        }
      } else if key == "up" || key == "k" {
        if mode == Search { TypeSearch(env); } else { CursorUp(); }
      } else if key == "down" || key == "j" {
        if mode == Search { TypeSearch(env); } else { CursorDown(); }
      } else if key == "ctrl+n" {
        if mode == Search { SearchNext(); }
      } else if key == "ctrl+p" {
        if mode == Search { CursorUp(); }
      } else if key == "enter" {
        HandleSelect(env);
      } else if key == "tab" {
        if mode == Groups && |lists.groups| > 0 { OpenGroup(); }
      } else if mode == Search {
        TypeSearch(env);
      }
    }

    // -------------------------------------------------------------------
    // Form fields

    method FocusNextField()
      requires Valid() && IsForm(mode)
      modifies this
      ensures Valid()
      ensures Snapshot() == old(Snapshot()).(form := old(form).(focus := NextFocus(old(form.focus), |old(form.values)|)))
    {
      form := form.(focus := (form.focus + 1) % |form.values|);
    }

    method FocusPrevField()
      requires Valid() && IsForm(mode)
      modifies this
      ensures Valid()
      ensures Snapshot() == old(Snapshot()).(form := old(form).(focus := PrevFocus(old(form.focus), |old(form.values)|)))
    {
      form := form.(focus := (form.focus - 1 + |form.values|) % |form.values|);
    }

    /** Enter on a field other than the last: on to the next field. */
    method FocusForward()
      requires Valid() && IsForm(mode) && form.focus < |form.values| - 1
      modifies this
      ensures Valid()
      ensures Snapshot() == old(Snapshot()).(form := old(form).(focus := old(form.focus) + 1))
    {
      form := form.(focus := form.focus + 1);
    }

    /** A key that goes to the focused field. */
    method TypeIntoField(typed: string)
      requires Valid() && IsForm(mode)
      modifies this
      ensures Valid()
      ensures Snapshot() == old(Snapshot()).(form := old(form).(values := old(form.values)[old(form.focus) := typed]))
    {
      form := form.(values := form.values[form.focus := typed]);
    }

    // -------------------------------------------------------------------
    // History browser and its add flow

    /** The history browser's movement keys. */
    method HistoryMove(key: string, pageSize: int)
      requires Valid() && mode == HistoryBrowser && pageSize > 0 && IsHistoryMove(key)
      modifies this
      ensures Valid()
      ensures Snapshot() == old(Snapshot()).(cursor := HistoryCursor(key, old(cursor), pageSize, |old(history.filtered)|))
    {
      if key == "ctrl+n" || key == "down" {
        if cursor < |history.filtered| - 1 {
          cursor := cursor + 1;
        }
      } else if key == "ctrl+p" || key == "up" {
        if cursor > 0 {
          cursor := cursor - 1;
        }
      } else if key == "pgdown" || key == "ctrl+down" {
        cursor := Max(0, Min(cursor + pageSize, |history.filtered| - 1));
      } else {
        cursor := Max(cursor - pageSize, 0);
      }
    }

    /** A key that goes to the history query, followed by
        `updateHistoryFilter`. */
    method TypeHistory(env: Env)
      requires Valid() && EnvValid(env) && mode == HistoryBrowser
      modifies this
      ensures Valid()
      ensures Snapshot() == HistoryFiltered(old(Snapshot()).(history := old(history).(query := env.typed)), env.find)
    {
      history := history.(query := env.typed);
      UpdateHistoryFilter(env.find);
    }

    method HistoryKey(key: string, env: Env)
      requires Valid() && EnvValid(env) && mode == HistoryBrowser
      modifies this
      ensures Valid()
      ensures key == "ctrl+c" ==> Snapshot() == old(Snapshot()).(quitting := true)
      ensures key == "esc" ==>
        Snapshot() == old(Snapshot()).(mode := old(previousMode), cursor := 0, history := old(history).(query := ""))
      ensures IsHistoryMove(key) ==>
        Snapshot() == old(Snapshot()).(cursor := HistoryCursor(key, old(cursor), env.pageSize, |old(history.filtered)|))
      ensures key == "enter" && old(cursor) < |old(history.filtered)| ==>
        Snapshot() == old(Snapshot()).(mode := HistorySelectGroup, cursor := 0,
                                       history := old(history).(selectedCmd := old(history.filtered)[old(cursor)].command))
      ensures !(key in {"ctrl+c", "esc"}) && !IsHistoryMove(key) && !(key == "enter" && old(cursor) < |old(history.filtered)|) ==>
        Snapshot() == HistoryFiltered(old(Snapshot()).(history := old(history).(query := env.typed)), env.find)
    {
      if key == "ctrl+c" {
        Quit();
      } else if key == "esc" {
        mode, cursor, history := previousMode, 0, history.(query := "");
      } else if IsHistoryMove(key) {
        HistoryMove(key, env.pageSize);
      } else if key == "enter" && |history.filtered| > 0 && cursor < |history.filtered| {
        mode, cursor, history := HistorySelectGroup, 0, history.(selectedCmd := history.filtered[cursor].command);
      } else {
        TypeHistory(env);
      }
    }

    /** Enter on the group picker: the add-group form on the extra "create
        new group" row, else the details form for the group under the
        cursor. */
    method ChooseHistoryGroup()
      requires Valid() && mode == HistorySelectGroup
      modifies this
      ensures Valid()
      ensures old(cursor) == |old(lists.groups)| ==>
        Snapshot() == old(Snapshot()).(mode := AddGroup, previousMode := HistorySelectGroup,
                                       form := old(form).(values := [""], focus := 0, error := ""))
      ensures old(cursor) != |old(lists.groups)| ==>
        Snapshot() == old(Snapshot()).(selectedGroup := old(cursor), mode := HistoryAddDetails,
                                       form := old(form).(values := ["", ""], focus := 0, error := ""))
    {
      if cursor == |lists.groups| {
        mode, previousMode := AddGroup, HistorySelectGroup;
        CreateFormInputs(["Group name"], []);
      } else {
        selectedGroup, mode := cursor, HistoryAddDetails;
        CreateFormInputs(["Command name", "Description (optional)"], []);
      }
    }

    method HistorySelectGroupKey(key: string)
      requires Valid() && mode == HistorySelectGroup
      modifies this
      ensures Valid()
      ensures key == "ctrl+c" ==> Snapshot() == old(Snapshot()).(quitting := true)
      ensures key == "esc" ==> Snapshot() == old(Snapshot()).(mode := HistoryBrowser, cursor := 0)
      ensures key in {"up", "k"} ==>
        Snapshot() == old(Snapshot()).(cursor := if old(cursor) > 0 then old(cursor) - 1 else old(cursor))
      ensures key in {"down", "j"} ==>
        Snapshot() == old(Snapshot()).(cursor := if old(cursor) < |old(lists.groups)| then old(cursor) + 1 else old(cursor))
      ensures key == "enter" && old(cursor) == |old(lists.groups)| ==>
        Snapshot() == old(Snapshot()).(mode := AddGroup, previousMode := HistorySelectGroup,
                                       form := old(form).(values := [""], focus := 0, error := ""))
      ensures key == "enter" && old(cursor) != |old(lists.groups)| ==>
        Snapshot() == old(Snapshot()).(selectedGroup := old(cursor), mode := HistoryAddDetails,
                                       form := old(form).(values := ["", ""], focus := 0, error := ""))
      ensures !(key in {"ctrl+c", "esc", "up", "k", "down", "j", "enter"}) ==> Snapshot() == old(Snapshot())
    {
      if key == "ctrl+c" {
        Quit();
      } else if key == "esc" {
        mode, cursor := HistoryBrowser, 0;
      } else if key == "up" || key == "k" {
        CursorUp();
      } else if key == "down" || key == "j" {
        CursorDown();
      } else if key == "enter" {
        ChooseHistoryGroup();
      }
    }

    /** Submitting the name and description for the chosen history
        command: validation, then `AddCommand` on the selected group, then
        `Save`; only when both succeed does the screen move to that group's
        commands with the cursor on the new last row. */
    method SubmitHistoryDetails(env: Env)
      requires Valid() && mode == HistoryAddDetails
      modifies this, store
      ensures Valid()
      ensures old(form.values[0]) == "" ==>
        Snapshot() == FormFailed(old(Snapshot()), "Command name cannot be empty")
        && store.groups == old(store.groups) && store.nextID == old(store.nextID)
      ensures old(form.values[0]) != "" && !(0 <= old(selectedGroup) < |old(lists.groups)|) ==>
        Snapshot() == FormFailed(old(Snapshot()), "No group selected")
        && store.groups == old(store.groups) && store.nextID == old(store.nextID)
      ensures old(form.values[0]) != "" && 0 <= old(selectedGroup) < |old(lists.groups)| ==>
        var gname := old(lists.groups)[old(selectedGroup)].name;
        var e := AddCommandError(old(store.groups), gname, old(form.values[0]));
        && (e.Some? ==>
              Snapshot() == FormFailed(old(Snapshot()), ErrorText(e.value))
              && store.groups == old(store.groups) && store.nextID == old(store.nextID))
        && (e.None? ==>
              && store.groups == WithAppended(old(store.groups), gname,
                   Command(old(store.nextID), old(form.values[0]), old(history.selectedCmd), old(form.values[1]), ActionNone))
              && store.nextID == old(store.nextID) + 1)
        && (e.None? && env.saveErr.Some? ==>
              Snapshot() == FormFailed(old(Snapshot()), "Failed to save: " + env.saveErr.value))
        && (e.None? && env.saveErr.None? ==>
              var r := Refreshed(old(Snapshot()), store.groups);
              Snapshot() == r.(mode := Commands, cursor := |r.lists.commands| - 1,
                               history := r.history.(selectedCmd := "")))
      ensures ValidIds(old(store.groups), old(store.nextID)) ==> ValidIds(store.groups, store.nextID)
    {
      var name := form.values[0];
      var description := form.values[1];
      if name == "" {
        form := form.(error := "Command name cannot be empty");
        return;
      }
      if !(0 <= selectedGroup < |lists.groups|) {
        form := form.(error := "No group selected");
        return;
      }
      var groupName := lists.groups[selectedGroup].name;
      var err := store.AddCommand(groupName, name, history.selectedCmd, description);
      if err.Some? {
        form := form.(error := ErrorText(err.value));
        return;
      }
      HistoryCommandAdded(env);
    }

    /** The screen once the history command is in the store: `Save`, then
        the group's commands with the cursor on the new last row. */
    method HistoryCommandAdded(env: Env)
      requires Valid() && mode == HistoryAddDetails
      modifies this
      ensures Valid()
      ensures env.saveErr.Some? ==> Snapshot() == FormFailed(old(Snapshot()), "Failed to save: " + env.saveErr.value)
      ensures env.saveErr.None? ==>
        var r := Refreshed(old(Snapshot()), store.groups);
        Snapshot() == r.(mode := Commands, cursor := |r.lists.commands| - 1, history := r.history.(selectedCmd := ""))
    {
      var saved := SaveAndRefresh(env);
      if saved {
        mode, cursor, history := Commands, |lists.commands| - 1, history.(selectedCmd := "");
      }
    }

    method HistoryAddDetailsKey(key: string, env: Env)
      requires Valid() && mode == HistoryAddDetails
      modifies this, store
      ensures Valid()
      ensures key == "ctrl+c" ==> Snapshot() == old(Snapshot()).(quitting := true)
      ensures key == "esc" ==>
        Snapshot() == FormFailed(old(Snapshot()), "").(mode := HistorySelectGroup, cursor := old(selectedGroup))
      ensures key == "enter" && old(form.focus) < |old(form.values)| - 1 ==>
        Snapshot() == old(Snapshot()).(form := old(form).(focus := old(form.focus) + 1))
      ensures key == "tab" ==> Snapshot() == old(Snapshot()).(form := old(form).(focus := NextFocus(old(form.focus), 2)))
      ensures key == "shift+tab" ==> Snapshot() == old(Snapshot()).(form := old(form).(focus := PrevFocus(old(form.focus), 2)))
      ensures !(key in {"ctrl+c", "esc", "enter", "tab", "shift+tab"}) ==>
        Snapshot() == old(Snapshot()).(form := old(form).(values := old(form.values)[old(form.focus) := env.typed]))
      ensures !(key == "enter" && old(form.focus) == |old(form.values)| - 1) ==>
        store.groups == old(store.groups) && store.nextID == old(store.nextID)
      ensures ValidIds(old(store.groups), old(store.nextID)) ==> ValidIds(store.groups, store.nextID)
    {
      if key == "ctrl+c" {
        Quit();
      } else if key == "esc" {
        mode, cursor := HistorySelectGroup, selectedGroup;
        form := form.(error := "");
      } else if key == "enter" {
        if form.focus < |form.values| - 1 {
          FocusForward();
        } else {
          SubmitHistoryDetails(env);
        }
      } else {
        DetailsFieldKey(key, env);
      }
    }

    /** The keys of the details form that only move between or edit its
        two fields. */
    method DetailsFieldKey(key: string, env: Env)
      requires Valid() && mode == HistoryAddDetails
      requires !(key in {"ctrl+c", "esc", "enter"})
      modifies this
      ensures Valid()
      ensures key == "tab" ==> Snapshot() == old(Snapshot()).(form := old(form).(focus := NextFocus(old(form.focus), 2)))
      ensures key == "shift+tab" ==> Snapshot() == old(Snapshot()).(form := old(form).(focus := PrevFocus(old(form.focus), 2)))
      ensures !(key in {"tab", "shift+tab"}) ==>
        Snapshot() == old(Snapshot()).(form := old(form).(values := old(form.values)[old(form.focus) := env.typed]))
    {
      if key == "tab" {
        FocusNextField();
      } else if key == "shift+tab" {
        FocusPrevField();
      } else {
        TypeIntoField(env.typed);
      }
    }

    // -------------------------------------------------------------------
    // Group forms

    /** Submitting a new group name: validation, `AddGroup`, `Save`; then
        either on to the history command's details (when the form was opened
        from the group picker) with the new group selected, or back to the
        groups with the cursor on the new last group. */
    method SubmitAddGroup(env: Env)
      requires Valid() && mode == AddGroup
      modifies this, store
      ensures Valid()
      ensures store.nextID == old(store.nextID)
      ensures old(form.values[0]) == "" ==>
        Snapshot() == FormFailed(old(Snapshot()), "Group name cannot be empty") && store.groups == old(store.groups)
      ensures old(form.values[0]) != "" ==>
        var e := AddGroupError(old(store.groups), old(form.values[0]));
        && (e.Some? ==>
              Snapshot() == FormFailed(old(Snapshot()), ErrorText(e.value)) && store.groups == old(store.groups))
        && (e.None? ==> store.groups == old(store.groups) + [Group(old(form.values[0]), [])])
        && (e.None? && env.saveErr.Some? ==>
              Snapshot() == FormFailed(old(Snapshot()), "Failed to save: " + env.saveErr.value))
        && (e.None? && env.saveErr.None? && old(previousMode) == HistorySelectGroup ==>
              Snapshot() == Refreshed(old(Snapshot()), store.groups).(selectedGroup := |store.groups| - 1,
                              mode := HistoryAddDetails, form := old(form).(values := ["", ""], focus := 0, error := "")))
        && (e.None? && env.saveErr.None? && old(previousMode) != HistorySelectGroup ==>
              Snapshot() == Refreshed(old(Snapshot()), store.groups).(mode := Groups, cursor := |store.groups| - 1))
      ensures ValidIds(old(store.groups), old(store.nextID)) ==> ValidIds(store.groups, store.nextID)
    {
      var name := form.values[0];
      if name == "" {
        form := form.(error := "Group name cannot be empty");
        return;
      }
      var err := store.AddGroup(name);
      if err.Some? {
        form := form.(error := ErrorText(err.value));
        return;
      }
      GroupAdded(env);
    }

    /** The screen once the new group is in the store: `Save`, then on to
        the history command's details with the new group selected when the
        form was opened from the group picker, or back to the groups with
        the cursor on the new last group. */
    method GroupAdded(env: Env)
      requires Valid() && mode == AddGroup
      modifies this
      ensures Valid()
      ensures env.saveErr.Some? ==> Snapshot() == FormFailed(old(Snapshot()), "Failed to save: " + env.saveErr.value)
      ensures env.saveErr.None? && old(previousMode) == HistorySelectGroup ==>
        Snapshot() == Refreshed(old(Snapshot()), store.groups).(selectedGroup := |store.groups| - 1,
                        mode := HistoryAddDetails, form := old(form).(values := ["", ""], focus := 0, error := ""))
      ensures env.saveErr.None? && old(previousMode) != HistorySelectGroup ==>
        Snapshot() == Refreshed(old(Snapshot()), store.groups).(mode := Groups, cursor := |store.groups| - 1)
    {
      var saved := SaveAndRefresh(env);
      if !saved {
        return;
      }
      if previousMode == HistorySelectGroup {
        OnToHistoryDetails();
        return;
      }
      mode, cursor := Groups, |lists.groups| - 1;
    }

    /** The history command's details form, with the last group selected. */
    method OnToHistoryDetails()
      modifies this
      ensures Snapshot() == old(Snapshot()).(selectedGroup := |old(lists.groups)| - 1,
                mode := HistoryAddDetails, form := old(form).(values := ["", ""], focus := 0, error := ""))
    {
      selectedGroup, mode := |lists.groups| - 1, HistoryAddDetails;
      CreateFormInputs(["Command name", "Description (optional)"], []);
    }

    method AddGroupKey(key: string, env: Env)
      requires Valid() && mode == AddGroup
      modifies this, store
      ensures Valid()
      ensures key == "ctrl+c" ==> Snapshot() == old(Snapshot()).(quitting := true)
      ensures key == "esc" ==> Snapshot() == FormFailed(old(Snapshot()), "").(mode := old(previousMode))
      ensures key in {"tab", "shift+tab"} ==> Snapshot() == old(Snapshot())
      ensures !(key in {"ctrl+c", "esc", "enter", "tab", "shift+tab"}) ==>
        Snapshot() == old(Snapshot()).(form := old(form).(values := old(form.values)[old(form.focus) := env.typed]))
      ensures key != "enter" ==> store.groups == old(store.groups) && store.nextID == old(store.nextID)
      ensures ValidIds(old(store.groups), old(store.nextID)) ==> ValidIds(store.groups, store.nextID)
    {
      if key == "ctrl+c" {
        Quit();
      } else if key == "esc" {
        mode := previousMode;
        form := form.(error := "");
      } else if key == "enter" {
        SubmitAddGroup(env);
      } else if key == "tab" || key == "shift+tab" {
      } else {
        TypeIntoField(env.typed);
      }
    }

    /** Submitting a group's new name: validation, the store's rename (whose
        body is not part of this model, so its outcome comes from `env`),
        `Save`, then back to the groups. */
    method SubmitEditGroup(env: Env)
      requires Valid() && mode == EditGroup
      modifies this, store
      ensures Valid()
      ensures store.nextID == old(store.nextID)
      ensures old(form.values[0]) == "" ==>
        Snapshot() == FormFailed(old(Snapshot()), "Group name cannot be empty") && store.groups == old(store.groups)
      ensures old(form.values[0]) != "" && env.renamed.Err? ==>
        Snapshot() == FormFailed(old(Snapshot()), env.renamed.error) && store.groups == old(store.groups)
      ensures old(form.values[0]) != "" && env.renamed.Ok? ==> store.groups == env.renamed.value
      ensures old(form.values[0]) != "" && env.renamed.Ok? && env.saveErr.Some? ==>
        Snapshot() == FormFailed(old(Snapshot()), "Failed to save: " + env.saveErr.value)
      ensures old(form.values[0]) != "" && env.renamed.Ok? && env.saveErr.None? ==>
        Snapshot() == Refreshed(old(Snapshot()), env.renamed.value).(mode := Groups,
                                                                      form := old(form).(editingGroup := ""))
    {
      var newName := form.values[0];
      if newName == "" {
        form := form.(error := "Group name cannot be empty");
        return;
      }
      match env.renamed
      case Err(e) =>
        form := form.(error := e);
        return;
      case Ok(gs) =>
        store.groups := gs;
      var saved := SaveAndRefresh(env);
      if !saved {
        return;
      }
      mode := Groups;
      form := form.(editingGroup := "");
    }

    method EditGroupKey(key: string, env: Env)
      requires Valid() && mode == EditGroup
      modifies this, store
      ensures Valid()
      ensures key == "ctrl+c" ==> Snapshot() == old(Snapshot()).(quitting := true)
      ensures key == "esc" ==>
        Snapshot() == old(Snapshot()).(mode := old(previousMode), form := old(form).(error := "", editingGroup := ""))
      ensures key in {"tab", "shift+tab"} ==> Snapshot() == old(Snapshot())
      ensures !(key in {"ctrl+c", "esc", "enter", "tab", "shift+tab"}) ==>
        Snapshot() == old(Snapshot()).(form := old(form).(values := old(form.values)[old(form.focus) := env.typed]))
      ensures key != "enter" ==> store.groups == old(store.groups) && store.nextID == old(store.nextID)
    {
      if key == "ctrl+c" {
        Quit();
      } else if key == "esc" {
        mode := previousMode;
        form := form.(error := "", editingGroup := "");
      } else if key == "enter" {
        SubmitEditGroup(env);
      } else if key == "tab" || key == "shift+tab" {
      } else {
        TypeIntoField(env.typed);
      }
    }

    // -------------------------------------------------------------------
    // Command forms

    /** Submitting a new command: name, then command text, then the
        selected group are checked, then `AddCommand` and `Save`; on success
        the group's commands are shown with the cursor on the new one. */
    method SubmitAddCommand(env: Env)
      requires Valid() && mode == AddCommand
      modifies this, store
      ensures Valid()
      ensures (old(form.values[0]) == "" || old(form.values[1]) == "" || !(0 <= old(selectedGroup) < |old(lists.groups)|)) ==>
        store.groups == old(store.groups) && store.nextID == old(store.nextID)
      ensures old(form.values[0]) == "" ==> Snapshot() == FormFailed(old(Snapshot()), "Command name cannot be empty")
      ensures old(form.values[0]) != "" && old(form.values[1]) == "" ==>
        Snapshot() == FormFailed(old(Snapshot()), "Command cannot be empty")
      ensures old(form.values[0]) != "" && old(form.values[1]) != "" && !(0 <= old(selectedGroup) < |old(lists.groups)|) ==>
        Snapshot() == FormFailed(old(Snapshot()), "No group selected")
      ensures old(form.values[0]) != "" && old(form.values[1]) != "" && 0 <= old(selectedGroup) < |old(lists.groups)| ==>
        var gname := old(lists.groups)[old(selectedGroup)].name;
        var e := AddCommandError(old(store.groups), gname, old(form.values[0]));
        && (e.Some? ==>
              Snapshot() == FormFailed(old(Snapshot()), ErrorText(e.value))
              && store.groups == old(store.groups) && store.nextID == old(store.nextID))
        && (e.None? ==>
              && store.groups == WithAppended(old(store.groups), gname,
                   Command(old(store.nextID), old(form.values[0]), old(form.values[1]), old(form.values[2]), ActionNone))
              && store.nextID == old(store.nextID) + 1)
        && (e.None? && env.saveErr.Some? ==>
              Snapshot() == FormFailed(old(Snapshot()), "Failed to save: " + env.saveErr.value))
        && (e.None? && env.saveErr.None? ==>
              var r := Refreshed(old(Snapshot()), store.groups);
              Snapshot() == r.(mode := Commands, cursor := |r.lists.commands| - 1))
      ensures ValidIds(old(store.groups), old(store.nextID)) ==> ValidIds(store.groups, store.nextID)
    {
      var name := form.values[0];
      var command := form.values[1];
      var description := form.values[2];
      if name == "" {
        form := form.(error := "Command name cannot be empty");
        return;
      }
      if command == "" {
        form := form.(error := "Command cannot be empty");
        return;
      }
      if !(0 <= selectedGroup < |lists.groups|) {
        form := form.(error := "No group selected");
        return;
      }
      var groupName := lists.groups[selectedGroup].name;
      var err := store.AddCommand(groupName, name, command, description);
      if err.Some? {
        form := form.(error := ErrorText(err.value));
        return;
      }
      CommandAdded(env);
    }

    /** The screen once the new command is in the store: `Save`, then the
        group's commands with the cursor on the new last row. */
    method CommandAdded(env: Env)
      requires Valid() && mode == AddCommand
      modifies this
      ensures Valid()
      ensures env.saveErr.Some? ==> Snapshot() == FormFailed(old(Snapshot()), "Failed to save: " + env.saveErr.value)
      ensures env.saveErr.None? ==>
        var r := Refreshed(old(Snapshot()), store.groups);
        Snapshot() == r.(mode := Commands, cursor := |r.lists.commands| - 1)
    {
      var saved := SaveAndRefresh(env);
      if saved {
        mode, cursor := Commands, |lists.commands| - 1;
      }
    }

    /** Submitting an edited command: the same checks, then the update of
        the command being edited, found by its ID (so its ID and place are
        kept), then `Save`. The source passes the command's name to
        `UpdateCommand` instead, which an earlier command whose ID reads as
        that name intercepts (see `ConfigStore.NameKeyMissesChosen`). */
    method SubmitEditCommand(env: Env)
      requires Valid() && mode == EditCommand
      modifies this, store
      ensures Valid()
      ensures store.nextID == old(store.nextID)
      ensures (old(form.values[0]) == "" || old(form.values[1]) == "" || !(0 <= old(selectedGroup) < |old(lists.groups)|)) ==>
        store.groups == old(store.groups)
      ensures old(form.values[0]) == "" ==> Snapshot() == FormFailed(old(Snapshot()), "Command name cannot be empty")
      ensures old(form.values[0]) != "" && old(form.values[1]) == "" ==>
        Snapshot() == FormFailed(old(Snapshot()), "Command cannot be empty")
      ensures old(form.values[0]) != "" && old(form.values[1]) != "" && !(0 <= old(selectedGroup) < |old(lists.groups)|) ==>
        Snapshot() == FormFailed(old(Snapshot()), "No group selected")
      ensures old(form.values[0]) != "" && old(form.values[1]) != "" && 0 <= old(selectedGroup) < |old(lists.groups)| ==>
        var id := old(form.editingCmd).value.id;
        var e := UpdateByIdError(old(store.groups), id, old(form.values[0]));
        && (e.Some? ==> Snapshot() == FormFailed(old(Snapshot()), ErrorText(e.value)) && store.groups == old(store.groups))
        && (e.None? ==>
              store.groups == WithUpdatedById(old(store.groups), id, old(form.values[0]), old(form.values[1]),
                                              old(form.values[2])))
        && (e.None? && env.saveErr.Some? ==>
              Snapshot() == FormFailed(old(Snapshot()), "Failed to save: " + env.saveErr.value))
        && (e.None? && env.saveErr.None? ==>
              Snapshot() == Refreshed(old(Snapshot()), store.groups).(mode := Commands,
                                                                      form := old(form).(editingCmd := None)))
      ensures ValidIds(old(store.groups), old(store.nextID)) ==> ValidIds(store.groups, store.nextID)
    {
      var newName := form.values[0];
      var newCommand := form.values[1];
      var newDescription := form.values[2];
      if newName == "" {
        form := form.(error := "Command name cannot be empty");
        return;
      }
      if newCommand == "" {
        form := form.(error := "Command cannot be empty");
        return;
      }
      if !(0 <= selectedGroup < |lists.groups|) {
        form := form.(error := "No group selected");
        return;
      }
      var err := store.UpdateCommandByID(form.editingCmd.value.id, newName, newCommand, newDescription);
      if err.Some? {
        form := form.(error := ErrorText(err.value));
        return;
      }
      CommandUpdated(env);
    }

    /** The screen once the edit is in the store: `Save`, then back to the
        group's commands with nothing being edited. */
    method CommandUpdated(env: Env)
      requires Valid() && mode == EditCommand
      modifies this
      ensures Valid()
      ensures env.saveErr.Some? ==> Snapshot() == FormFailed(old(Snapshot()), "Failed to save: " + env.saveErr.value)
      ensures env.saveErr.None? ==>
        Snapshot() == Refreshed(old(Snapshot()), store.groups).(mode := Commands, form := old(form).(editingCmd := None))
    {
      var saved := SaveAndRefresh(env);
      if saved {
        mode, form := Commands, form.(editingCmd := None);
      }
    }

    /** The key switch shared by the two command forms. */
    method CommandFormKey(key: string, env: Env)
      requires Valid() && (mode == AddCommand || mode == EditCommand)
      modifies this, store
      ensures Valid()
      ensures key == "ctrl+c" ==> Snapshot() == old(Snapshot()).(quitting := true)
      ensures key == "esc" ==>
        Snapshot() == old(Snapshot()).(mode := old(previousMode),
                                       form := old(form).(error := "",
                                                          editingCmd := if old(mode) == EditCommand then None else old(form.editingCmd)))
      ensures key == "enter" && old(form.focus) < |old(form.values)| - 1 ==>
        Snapshot() == old(Snapshot()).(form := old(form).(focus := old(form.focus) + 1))
      ensures key == "tab" ==> Snapshot() == old(Snapshot()).(form := old(form).(focus := NextFocus(old(form.focus), 3)))
      ensures key == "shift+tab" ==> Snapshot() == old(Snapshot()).(form := old(form).(focus := PrevFocus(old(form.focus), 3)))
      ensures !(key in {"ctrl+c", "esc", "enter", "tab", "shift+tab"}) ==>
        Snapshot() == old(Snapshot()).(form := old(form).(values := old(form.values)[old(form.focus) := env.typed]))
      ensures !(key == "enter" && old(form.focus) == |old(form.values)| - 1) ==>
        store.groups == old(store.groups) && store.nextID == old(store.nextID)
      ensures ValidIds(old(store.groups), old(store.nextID)) ==> ValidIds(store.groups, store.nextID)
    {
      if key == "ctrl+c" {
        Quit();
      } else if key == "esc" {
        if mode == EditCommand {
          form := form.(editingCmd := None);
        }
        mode := previousMode;
        form := form.(error := "");
      } else if key == "enter" {
        if form.focus < |form.values| - 1 {
          FocusForward();
        } else if mode == AddCommand {
          SubmitAddCommand(env);
        } else {
          SubmitEditCommand(env);
        }
      } else if key == "tab" {
        FocusNextField();
      } else if key == "shift+tab" {
        FocusPrevField();
      } else {
        TypeIntoField(env.typed);
      }
    }

    // -------------------------------------------------------------------
    // Delete confirmation

    /** Yes: remove the group, or the command from its group, then `Save`;
        on success back to that list with the cursor pulled onto it. */
    method ConfirmDelete(env: Env)
      requires Valid() && mode == DeleteConfirm
      modifies this, store
      ensures Valid()
      ensures store.nextID == old(store.nextID)
      ensures var e := DeleteError(old(store.groups), old(deletion));
        && (e.Some? ==> Snapshot() == FormFailed(old(Snapshot()), ErrorText(e.value)) && store.groups == old(store.groups))
        && (e.None? ==> store.groups == Removed(old(store.groups), old(deletion)))
        && (e.None? && env.saveErr.Some? ==>
              Snapshot() == FormFailed(old(Snapshot()), "Failed to save: " + env.saveErr.value))
        && (e.None? && env.saveErr.None? && old(deletion.target) == DeleteGroup ==>
              var r := Refreshed(old(Snapshot()), store.groups);
              Snapshot() == r.(mode := Groups, cursor := ClampCursor(old(cursor), |r.lists.groups|)))
        && (e.None? && env.saveErr.None? && old(deletion.target) == DeleteCommand ==>
              var r := Refreshed(old(Snapshot()), store.groups);
              Snapshot() == r.(mode := Commands, cursor := ClampCursor(old(cursor), |r.lists.commands|)))
      ensures ValidIds(old(store.groups), old(store.nextID)) ==> ValidIds(store.groups, store.nextID)
    {
      if deletion.target == DeleteGroup {
        ConfirmGroupDelete(env);
      } else {
        ConfirmCommandDelete(env);
      }
    }

    /** Yes on deleting a group: `RemoveGroup`, then `Save`. */
    method ConfirmGroupDelete(env: Env)
      requires Valid() && mode == DeleteConfirm && deletion.target == DeleteGroup
      modifies this, store
      ensures Valid()
      ensures store.nextID == old(store.nextID)
      ensures var e := RemoveGroupError(old(store.groups), old(deletion.groupName));
        && (e.Some? ==> Snapshot() == FormFailed(old(Snapshot()), ErrorText(e.value)) && store.groups == old(store.groups))
        && (e.None? ==> store.groups == RemoveAt(old(store.groups), GroupIndex(old(store.groups), old(deletion.groupName))))
        && (e.None? && env.saveErr.Some? ==>
              Snapshot() == FormFailed(old(Snapshot()), "Failed to save: " + env.saveErr.value))
        && (e.None? && env.saveErr.None? ==>
              var r := Refreshed(old(Snapshot()), store.groups);
              Snapshot() == r.(mode := Groups, cursor := ClampCursor(old(cursor), |r.lists.groups|)))
      ensures ValidIds(old(store.groups), old(store.nextID)) ==> ValidIds(store.groups, store.nextID)
    {
      var err := store.RemoveGroup(deletion.groupName);
      if err.Some? {
        form := form.(error := ErrorText(err.value));
        return;
      }
      Deleted(env);
    }

    /** Yes on deleting a command: `RemoveCommandByID` on the chosen
        command's ID, then `Save`. The source passes the command's name to
        `RemoveCommand`, with the same flaw as the edit. */
    method ConfirmCommandDelete(env: Env)
      requires Valid() && mode == DeleteConfirm && deletion.target == DeleteCommand
      modifies this, store
      ensures Valid()
      ensures store.nextID == old(store.nextID)
      ensures var e := RemoveByIdError(old(store.groups), old(deletion.cmdID));
        && (e.Some? ==> Snapshot() == FormFailed(old(Snapshot()), ErrorText(e.value)) && store.groups == old(store.groups))
        && (e.None? ==> store.groups == WithoutId(old(store.groups), old(deletion.cmdID)))
        && (e.None? && env.saveErr.Some? ==>
              Snapshot() == FormFailed(old(Snapshot()), "Failed to save: " + env.saveErr.value))
        && (e.None? && env.saveErr.None? ==>
              var r := Refreshed(old(Snapshot()), store.groups);
              Snapshot() == r.(mode := Commands, cursor := ClampCursor(old(cursor), |r.lists.commands|)))
      ensures ValidIds(old(store.groups), old(store.nextID)) ==> ValidIds(store.groups, store.nextID)
    {
      var err := store.RemoveCommandByID(deletion.cmdID);
      if err.Some? {
        form := form.(error := ErrorText(err.value));
        return;
      }
      Deleted(env);
    }

    /** The screen once the removal is in the store: `Save`, then back to the
        list the item left, with the cursor pulled onto what remains. */
    method Deleted(env: Env)
      requires Valid() && mode == DeleteConfirm
      modifies this
      ensures Valid()
      ensures env.saveErr.Some? ==> Snapshot() == FormFailed(old(Snapshot()), "Failed to save: " + env.saveErr.value)
      ensures env.saveErr.None? && old(deletion.target) == DeleteGroup ==>
        var r := Refreshed(old(Snapshot()), store.groups);
        Snapshot() == r.(mode := Groups, cursor := ClampCursor(old(cursor), |r.lists.groups|))
      ensures env.saveErr.None? && old(deletion.target) == DeleteCommand ==>
        var r := Refreshed(old(Snapshot()), store.groups);
        Snapshot() == r.(mode := Commands, cursor := ClampCursor(old(cursor), |r.lists.commands|))
    {
      var saved := SaveAndRefresh(env);
      if !saved {
        return;
      }
      if deletion.target == DeleteGroup {
        mode := Groups;
        if cursor >= |lists.groups| {
          cursor := Max(0, |lists.groups| - 1);
        }
      } else {
        mode := Commands;
        if cursor >= |lists.commands| {
          cursor := Max(0, |lists.commands| - 1);
        }
      }
    }

    method DeleteConfirmKey(key: string, env: Env)
      requires Valid() && mode == DeleteConfirm
      modifies this, store
      ensures Valid()
      ensures key == "ctrl+c" ==> Snapshot() == old(Snapshot()).(quitting := true)
      ensures key in {"esc", "n", "N"} ==> Snapshot() == old(Snapshot()).(mode := old(previousMode))
      ensures !(key in {"ctrl+c", "esc", "n", "N", "y", "Y", "enter"}) ==> Snapshot() == old(Snapshot())
      ensures !(key in {"y", "Y", "enter"}) ==> store.groups == old(store.groups) && store.nextID == old(store.nextID)
      ensures ValidIds(old(store.groups), old(store.nextID)) ==> ValidIds(store.groups, store.nextID)
    {
      if key == "ctrl+c" {
        Quit();
      } else if key == "esc" || key == "n" || key == "N" {
        mode := previousMode;
      } else if key == "y" || key == "Y" || key == "enter" {
        ConfirmDelete(env);
      }
    }

    // -------------------------------------------------------------------
    // Action screen

    /** Back to the screen the action menu was opened from, with no
        bookmark chosen. */
    method CancelAction()
      requires Valid() && mode == ActionSelect
      modifies this
      ensures Valid()
      ensures Snapshot() == old(Snapshot()).(mode := old(previousMode), action := old(action).(cmd := None))
    {
      mode := previousMode;
      action := action.(cmd := None);
    }

    method ActionSelectKey(key: string, env: Env)
      requires Valid() && mode == ActionSelect
      modifies this
      ensures Valid()
      ensures key == "ctrl+c" ==> Snapshot() == old(Snapshot()).(quitting := true)
      ensures key == "esc" || (key == "enter" && MenuAction(old(action.cursor)) == "") ==>
        Snapshot() == old(Snapshot()).(mode := old(previousMode), action := old(action).(cmd := None))
      ensures key in {"up", "k"} ==>
        Snapshot() == old(Snapshot()).(action := old(action).(cursor := if old(action.cursor) > 0 then old(action.cursor) - 1
                                                                       else old(action.cursor)))
      ensures key in {"down", "j"} ==>
        Snapshot() == old(Snapshot()).(action := old(action).(cursor := if old(action.cursor) < 2 then old(action.cursor) + 1
                                                                       else old(action.cursor)))
      ensures key == "r" || (key == "enter" && MenuAction(old(action.cursor)) == ActionRun) ==>
        Snapshot() == Executed(old(Snapshot()), ActionRun, env.clipboardErr)
      ensures key == "c" || (key == "enter" && MenuAction(old(action.cursor)) == ActionCopy) ==>
        Snapshot() == Executed(old(Snapshot()), ActionCopy, env.clipboardErr)
      ensures !(key in {"ctrl+c", "esc", "up", "k", "down", "j", "r", "c", "enter"}) ==> Snapshot() == old(Snapshot())
    {
      if key == "ctrl+c" {
        Quit();
      } else if key == "esc" {
        CancelAction();
      } else if key == "up" || key == "k" {
        if action.cursor > 0 {
          action := action.(cursor := action.cursor - 1);
        }
      } else if key == "down" || key == "j" {
        if action.cursor < 2 {
          action := action.(cursor := action.cursor + 1);
        }
      } else if key == "r" {
        ExecuteAction(ActionRun, env.clipboardErr);
      } else if key == "c" {
        ExecuteAction(ActionCopy, env.clipboardErr);
      } else if key == "enter" {
        if action.cursor == 0 {
          ExecuteAction(ActionRun, env.clipboardErr);
        } else if action.cursor == 1 {
          ExecuteAction(ActionCopy, env.clipboardErr);
        } else {
          CancelAction();
        }
      }
    }

    // -------------------------------------------------------------------
    // Dispatch

    /** `handleKey`: form, history and action screens go to their own
        handlers; the list screens share one key switch. Ctrl+c quits from
        every screen without touching the store, and only a submitting key
        can change the bookmarks. */
    method HandleKey(key: string, env: Env)
      requires Valid() && EnvValid(env)
      modifies this, store
      ensures Valid()
      ensures key == "ctrl+c" ==> Snapshot() == old(Snapshot()).(quitting := true)
      ensures !SubmitKey(old(mode), key) ==> store.groups == old(store.groups) && store.nextID == old(store.nextID)
      ensures old(mode) != EditGroup && ValidIds(old(store.groups), old(store.nextID)) ==>
        ValidIds(store.groups, store.nextID)
    {
      match mode
      case AddGroup => AddGroupKey(key, env);
      case EditGroup => EditGroupKey(key, env);
      case AddCommand => CommandFormKey(key, env);
      case EditCommand => CommandFormKey(key, env);
      case DeleteConfirm => DeleteConfirmKey(key, env);
      case HistoryBrowser => HistoryKey(key, env);
      case HistorySelectGroup => HistorySelectGroupKey(key);
      case HistoryAddDetails => HistoryAddDetailsKey(key, env);
      case ActionSelect => ActionSelectKey(key, env);
      case _ => ListKey(key, env);
    }
  }
}
