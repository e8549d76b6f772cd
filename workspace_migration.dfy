/** `migrate_workspaces` of migrators.py: the nested walk over workspaces,
    boards, lists and cards, each level visited last to first, with the
    "transferred" counters and the closing reconciliation warning.
    What Trello returns (`get_workspaces`, `get_boards`, `get_lists`,
    `get_cards`, and the lengths of `get_card_attachments` and
    `get_card_comments`) is given as data; Planka's creations are recorded
    as events. */
module WorkspaceMigration {
  import opened Wrappers
  import opened Sequences

  /** A Trello card, with the number of attachments and comments Trello
      returned for it. */
  datatype Card = Card(name: string, attachments: nat, comments: nat)

  datatype TrelloList = TrelloList(name: string, cards: seq<Card>)

  /** What `get_lists` gave for a board: its lists, or an HTTP error with
      its status code. */
  datatype ListsAnswer = Fetched(lists: seq<TrelloList>) | HttpError(status: int)

  datatype Board = Board(name: string, lists: ListsAnswer)

  datatype Workspace = Workspace(displayName: string, boards: seq<Board>)

  /** The six tallies of the migration report. */
  datatype Counts = Counts(workspaces: nat, boards: nat, lists: nat, cards: nat, attachments: nat, comments: nat)

  /** What the walk asks Planka to create, in order. `MigrateCard` stands
      for `create_card` followed by the card's attachment, label, task and
      comment migration. */
  datatype Event =
    | CreateProject(name: string)
    | CreateBoard(name: string)
    | CreateList(name: string)
    | MigrateCard(name: string)

  /** The walk's state: the counters, the events so far, and the status of
      the HTTP error that was re-raised, if any. */
  datatype Tally = Tally(counts: Counts, events: seq<Event>, raised: Option<int>)

  /** How a run ends: with the report (counts and whether the warning is
      shown), or with the re-raised HTTP error. */
  datatype Outcome =
    | Completed(migrated: Counts, events: seq<Event>, warning: bool)
    | Aborted(status: int, events: seq<Event>)

  const NotFound: int := 404

  const Zero: Counts := Counts(0, 0, 0, 0, 0, 0)

  function Plus(a: Counts, b: Counts): Counts {
    Counts(a.workspaces + b.workspaces, a.boards + b.boards, a.lists + b.lists,
           a.cards + b.cards, a.attachments + b.attachments, a.comments + b.comments)
  }

  /** The reconciliation test: only cards, attachments and comments are
      compared, and only a shortfall warns. */
  predicate UnderCounted(found: Counts, migrated: Counts) {
    || found.cards > migrated.cards
    || found.attachments > migrated.attachments
    || found.comments > migrated.comments
  }

  /** A board whose `get_lists` failed with a status other than 404. */
  predicate Fatal(board: Board) {
    board.lists.HttpError? && board.lists.status != NotFound
  }

  predicate NoFatalBoard(boards: seq<Board>) {
    forall j :: 0 <= j < |boards| ==> !Fatal(boards[j])
  }

  predicate NoFatalWorkspace(workspaces: seq<Workspace>) {
    forall i :: 0 <= i < |workspaces| ==> NoFatalBoard(workspaces[i].boards)
  }

  // The walk, one function per loop of the source. Each `...Run` visits
  // its sequence from the last element to the first, as `reversed` does.

  function CardStep(t: Tally, card: Card): Tally {
    t.(counts := t.counts.(attachments := t.counts.attachments + card.attachments,
                           comments := t.counts.comments + card.comments),
       events := t.events + [MigrateCard(card.name)])
  }

  function CardsRun(t: Tally, cards: seq<Card>): Tally
    decreases |cards|
  {
    if cards == [] then t
    else CardsRun(CardStep(t, cards[|cards| - 1]), cards[..|cards| - 1])
  }

  function ListStep(t: Tally, list: TrelloList): Tally {
    CardsRun(t.(counts := t.counts.(cards := t.counts.cards + |list.cards|),
                events := t.events + [CreateList(list.name)]), list.cards)
  }

  function ListsRun(t: Tally, lists: seq<TrelloList>): Tally
    decreases |lists|
  {
    if lists == [] then t
    else ListsRun(ListStep(t, lists[|lists| - 1]), lists[..|lists| - 1])
  }

  /** The Planka board is created before `get_lists` is asked, so a board
      Trello no longer has still leaves an empty board behind. */
  function BoardStep(t: Tally, board: Board): Tally {
    var created := t.(events := t.events + [CreateBoard(board.name)]);
    match board.lists
    case Fetched(lists) => ListsRun(created.(counts := created.counts.(lists := created.counts.lists + |lists|)), lists)
    case HttpError(status) => if status == NotFound then created else created.(raised := Some(status))
  }

  /** Stops at the first board whose error is re-raised. */
  function BoardsRun(t: Tally, boards: seq<Board>): Tally
    decreases |boards|
  {
    if boards == [] || t.raised.Some? then t
    else BoardsRun(BoardStep(t, boards[|boards| - 1]), boards[..|boards| - 1])
  }

  /** All boards of the workspace are counted before any of them is walked. */
  function WorkspaceStep(t: Tally, workspace: Workspace): Tally {
    BoardsRun(t.(counts := t.counts.(boards := t.counts.boards + |workspace.boards|),
                 events := t.events + [CreateProject(workspace.displayName)]), workspace.boards)
  }

  function WorkspacesRun(t: Tally, workspaces: seq<Workspace>): Tally
    decreases |workspaces|
  {
    if workspaces == [] || t.raised.Some? then t
    else WorkspacesRun(WorkspaceStep(t, workspaces[|workspaces| - 1]), workspaces[..|workspaces| - 1])
  }

  /** `migrate_workspaces` given what Trello holds and the tallies
      `count_trello_items` found. */
  function Migrate(workspaces: seq<Workspace>, found: Counts): Outcome {
    var t := WorkspacesRun(Tally(Zero.(workspaces := |workspaces|), [], None), workspaces);
    if t.raised.Some? then Aborted(t.raised.value, t.events)
    else Completed(t.counts, t.events, UnderCounted(found, t.counts))
  }

  // Reference totals, summed in source order.

  function SumOf<T>(xs: seq<T>, f: T -> Counts): Counts
    decreases |xs|
  {
    if xs == [] then Zero else Plus(f(xs[0]), SumOf(xs[1..], f))
  }

  function CardTotal(card: Card): Counts {
    Zero.(attachments := card.attachments, comments := card.comments)
  }

  function ListTotal(list: TrelloList): Counts {
    Plus(Zero.(cards := |list.cards|), SumOf(list.cards, CardTotal))
  }

  /** A board whose lists could not be fetched contributes nothing. */
  function BoardTotal(board: Board): Counts {
    match board.lists
    case Fetched(lists) => Plus(Zero.(lists := |lists|), SumOf(lists, ListTotal))
    case HttpError(_) => Zero
  }

  function WorkspaceTotal(workspace: Workspace): Counts {
    Plus(Zero.(boards := |workspace.boards|), SumOf(workspace.boards, BoardTotal))
  }

  /** What a completed run reports: every workspace, every board of every
      workspace, and the lists, cards, attachments and comments of the
      boards whose lists were fetched. */
  function Total(workspaces: seq<Workspace>): Counts {
    Plus(Zero.(workspaces := |workspaces|), SumOf(workspaces, WorkspaceTotal))
  }

  /** The four kinds of Planka entity the walk creates. */
  datatype Level = Projects | Boards | Lists | Cards

  predicate CreatesAt(e: Event, level: Level) {
    match level
    case Projects => e.CreateProject?
    case Boards => e.CreateBoard?
    case Lists => e.CreateList?
    case Cards => e.MigrateCard?
  }

  /** The names of the entities of one kind created, in creation order. */
  function NamesAt(events: seq<Event>, level: Level): seq<string>
    decreases |events|
  {
    if events == [] then []
    else
      var last := events[|events| - 1];
      NamesAt(events[..|events| - 1], level) + (if CreatesAt(last, level) then [last.name] else [])
  }

  /** The names of `xs`, in order. */
  function Names<T>(xs: seq<T>, name: T -> string): (r: seq<string>)
    ensures |r| == |xs| && forall i :: 0 <= i < |xs| ==> r[i] == name(xs[i])
  {
    seq(|xs|, i requires 0 <= i < |xs| => name(xs[i]))
  }

  function WorkspaceName(w: Workspace): string { w.displayName }
  function BoardName(b: Board): string { b.name }
  function ListName(l: TrelloList): string { l.name }
  function CardName(c: Card): string { c.name }

  // Counting lemmas.

  /** Summing in source order equals adding the last element's total to the
      sum of the others: the order of the walk does not change a sum. */
  lemma {:induction false} SumOfSplitLast<T>(xs: seq<T>, f: T -> Counts)
    requires xs != []
    ensures SumOf(xs, f) == Plus(SumOf(xs[..|xs| - 1], f), f(xs[|xs| - 1]))
    decreases |xs|
  {
    if |xs| > 1 {
      SumOfSplitLast(xs[1..], f);
      assert xs[1..][..|xs[1..]| - 1] == xs[..|xs| - 1][1..];
    }
  }

  lemma {:induction false} CardsRunCounts(t: Tally, cards: seq<Card>)
    ensures CardsRun(t, cards).counts == Plus(t.counts, SumOf(cards, CardTotal))
    ensures CardsRun(t, cards).raised == t.raised
    decreases |cards|
  {
    if cards != [] {
      CardsRunCounts(CardStep(t, cards[|cards| - 1]), cards[..|cards| - 1]);
      SumOfSplitLast(cards, CardTotal);
    }
  }

  /** Adding two totals in turn is adding their sum. */
  lemma PlusRegroup(a: Counts, b: Counts, c: Counts)
    ensures Plus(Plus(a, b), c) == Plus(a, Plus(c, b))
  {
  }

  lemma ListStepCounts(t: Tally, list: TrelloList)
    ensures ListStep(t, list).counts == Plus(t.counts, ListTotal(list))
    ensures ListStep(t, list).raised == t.raised
  {
    var entered := t.(counts := t.counts.(cards := t.counts.cards + |list.cards|),
                      events := t.events + [CreateList(list.name)]);
    CardsRunCounts(entered, list.cards);
  }

  lemma {:induction false} ListsRunCounts(t: Tally, lists: seq<TrelloList>)
    ensures ListsRun(t, lists).counts == Plus(t.counts, SumOf(lists, ListTotal))
    ensures ListsRun(t, lists).raised == t.raised
    decreases |lists|
  {
    if lists != [] {
      var list := lists[|lists| - 1];
      var rest := lists[..|lists| - 1];
      ListStepCounts(t, list);
      ListsRunCounts(ListStep(t, list), rest);
      SumOfSplitLast(lists, ListTotal);
      PlusRegroup(t.counts, ListTotal(list), SumOf(rest, ListTotal));
    }
  }

  /** Counting `n` and then adding `s` is adding `n` plus `s`. */
  lemma PlusAfterCount(a: Counts, n: Counts, s: Counts)
    ensures Plus(Plus(a, n), s) == Plus(a, Plus(n, s))
  {
  }

  lemma BoardStepCounts(t: Tally, board: Board)
    requires !Fatal(board)
    ensures BoardStep(t, board).counts == Plus(t.counts, BoardTotal(board))
    ensures BoardStep(t, board).raised == t.raised
  {
    match board.lists
    case Fetched(lists) =>
      var entered := t.(events := t.events + [CreateBoard(board.name)],
                        counts := Plus(t.counts, Zero.(lists := |lists|)));
      assert BoardStep(t, board) == ListsRun(entered, lists);
      ListsRunCounts(entered, lists);
      PlusAfterCount(t.counts, Zero.(lists := |lists|), SumOf(lists, ListTotal));
    case HttpError(_) =>
  }

  lemma {:induction false} BoardsRunCounts(t: Tally, boards: seq<Board>)
    requires t.raised.None? && NoFatalBoard(boards)
    ensures BoardsRun(t, boards).counts == Plus(t.counts, SumOf(boards, BoardTotal))
    ensures BoardsRun(t, boards).raised.None?
    decreases |boards|
  {
    if boards != [] {
      var board := boards[|boards| - 1];
      var rest := boards[..|boards| - 1];
      BoardStepCounts(t, board);
      BoardsRunCounts(BoardStep(t, board), rest);
      SumOfSplitLast(boards, BoardTotal);
      PlusRegroup(t.counts, BoardTotal(board), SumOf(rest, BoardTotal));
    }
  }

  lemma WorkspaceStepCounts(t: Tally, workspace: Workspace)
    requires t.raised.None? && NoFatalBoard(workspace.boards)
    ensures WorkspaceStep(t, workspace).counts == Plus(t.counts, WorkspaceTotal(workspace))
    ensures WorkspaceStep(t, workspace).raised.None?
  {
    var entered := t.(counts := Plus(t.counts, Zero.(boards := |workspace.boards|)),
                      events := t.events + [CreateProject(workspace.displayName)]);
    assert WorkspaceStep(t, workspace) == BoardsRun(entered, workspace.boards);
    BoardsRunCounts(entered, workspace.boards);
    PlusAfterCount(t.counts, Zero.(boards := |workspace.boards|), SumOf(workspace.boards, BoardTotal));
  }

  lemma {:induction false} WorkspacesRunCounts(t: Tally, workspaces: seq<Workspace>)
    requires t.raised.None? && NoFatalWorkspace(workspaces)
    ensures WorkspacesRun(t, workspaces).counts == Plus(t.counts, SumOf(workspaces, WorkspaceTotal))
    ensures WorkspacesRun(t, workspaces).raised.None?
    decreases |workspaces|
  {
    if workspaces != [] {
      var workspace := workspaces[|workspaces| - 1];
      var rest := workspaces[..|workspaces| - 1];
      assert NoFatalBoard(workspace.boards);
      WorkspaceStepCounts(t, workspace);
      assert NoFatalWorkspace(rest) by {
        forall i | 0 <= i < |rest| ensures NoFatalBoard(rest[i].boards) {
          assert rest[i] == workspaces[i];
        }
      }
      WorkspacesRunCounts(WorkspaceStep(t, workspace), rest);
      SumOfSplitLast(workspaces, WorkspaceTotal);
      PlusRegroup(t.counts, WorkspaceTotal(workspace), SumOf(rest, WorkspaceTotal));
    }
  }

  /** Without a re-raised error the run completes, its counters are the
      totals of what Trello returned, and the warning compares those
      totals with the tallies found beforehand. */
  lemma CompletedCountsAreTotals(workspaces: seq<Workspace>, found: Counts)
    requires NoFatalWorkspace(workspaces)
    ensures Migrate(workspaces, found).Completed?
    ensures Migrate(workspaces, found).migrated == Total(workspaces)
    ensures Migrate(workspaces, found).warning == UnderCounted(found, Total(workspaces))
  {
    var start := Tally(Zero.(workspaces := |workspaces|), [], None);
    WorkspacesRunCounts(start, workspaces);
    PlusAfterCount(Zero, Zero.(workspaces := |workspaces|), SumOf(workspaces, WorkspaceTotal));
  }

  /** When the tallies found beforehand match what the walk returned, no
      warning is shown. */
  lemma NoWarningWhenNothingIsMissing(workspaces: seq<Workspace>)
    requires NoFatalWorkspace(workspaces)
    ensures Migrate(workspaces, Total(workspaces)).Completed?
    ensures !Migrate(workspaces, Total(workspaces)).warning
  {
    CompletedCountsAreTotals(workspaces, Total(workspaces));
  }

  /** A board Trello answers with 404 is skipped after it was counted: its
      Planka board is created, it adds one to the boards and nothing else,
      and the walk goes on. */
  lemma DeletedBoardCountedButSkipped(t: Tally, workspaceName: string, name: string)
    requires t.raised.None?
    ensures WorkspaceStep(t, Workspace(workspaceName, [Board(name, HttpError(NotFound))]))
         == Tally(t.counts.(boards := t.counts.boards + 1),
                  t.events + [CreateProject(workspaceName), CreateBoard(name)], None)
  {
    var boards := [Board(name, HttpError(NotFound))];
    var entered := t.(counts := t.counts.(boards := t.counts.boards + 1),
                      events := t.events + [CreateProject(workspaceName)]);
    assert boards[..0] == [];
    assert BoardsRun(entered, boards) == BoardStep(entered, boards[0]);
    assert entered.events + [CreateBoard(name)] == t.events + [CreateProject(workspaceName), CreateBoard(name)];
  }

  /** The warning ignores boards and lists: two reports that agree on
      cards, attachments and comments warn alike. */
  lemma WarningIgnoresBoardsAndLists(found: Counts, a: Counts, b: Counts)
    requires a.cards == b.cards && a.attachments == b.attachments && a.comments == b.comments
    ensures UnderCounted(found, a) == UnderCounted(found, b)
  {
  }

  /** Ten cards, five attachments and three comments found, one attachment
      short in the report: the warning is shown; with equal tallies it is
      not, and more migrated than found does not warn either. */
  lemma UnderCountExamples()
    ensures UnderCounted(Counts(1, 2, 4, 10, 5, 3), Counts(1, 2, 4, 10, 4, 3))
    ensures !UnderCounted(Counts(1, 2, 4, 10, 5, 3), Counts(1, 2, 4, 10, 5, 3))
    ensures !UnderCounted(Counts(1, 2, 4, 10, 5, 3), Counts(0, 0, 0, 11, 5, 3))
  {
  }

  // Errors.

  lemma BoardStepRaises(t: Tally, board: Board)
    requires t.raised.None?
    ensures BoardStep(t, board).raised.Some? <==> Fatal(board)
  {
    if !Fatal(board) {
      BoardStepCounts(t, board);
    }
  }

  lemma {:induction false} BoardsRunRaises(t: Tally, boards: seq<Board>)
    requires t.raised.None?
    ensures BoardsRun(t, boards).raised.Some? <==> !NoFatalBoard(boards)
    decreases |boards|
  {
    if boards != [] {
      var last := boards[|boards| - 1];
      var rest := boards[..|boards| - 1];
      BoardStepRaises(t, last);
      if !Fatal(last) {
        BoardsRunRaises(BoardStep(t, last), rest);
        assert NoFatalBoard(boards) <==> NoFatalBoard(rest) by {
          if NoFatalBoard(rest) {
            forall j | 0 <= j < |boards| ensures !Fatal(boards[j]) {
              if j < |rest| { assert boards[j] == rest[j]; }
            }
          }
        }
      }
    }
  }

  lemma {:induction false} WorkspacesRunRaises(t: Tally, workspaces: seq<Workspace>)
    requires t.raised.None?
    ensures WorkspacesRun(t, workspaces).raised.Some? <==> !NoFatalWorkspace(workspaces)
    decreases |workspaces|
  {
    if workspaces != [] {
      var last := workspaces[|workspaces| - 1];
      var rest := workspaces[..|workspaces| - 1];
      var entered := t.(counts := t.counts.(boards := t.counts.boards + |last.boards|),
                       events := t.events + [CreateProject(last.displayName)]);
      BoardsRunRaises(entered, last.boards);
      if NoFatalBoard(last.boards) {
        WorkspacesRunRaises(WorkspaceStep(t, last), rest);
        assert NoFatalWorkspace(workspaces) <==> NoFatalWorkspace(rest) by {
          if NoFatalWorkspace(rest) {
            forall i | 0 <= i < |workspaces| ensures NoFatalBoard(workspaces[i].boards) {
              if i < |rest| { assert workspaces[i] == rest[i]; }
            }
          }
        }
      } else {
        assert !NoFatalWorkspace(workspaces) by {
          assert workspaces[|workspaces| - 1] == last;
        }
      }
    }
  }

  /** The run is aborted exactly when some board's lists could not be
      fetched for a reason other than 404. */
  lemma AbortedIffFatalBoard(workspaces: seq<Workspace>, found: Counts)
    ensures Migrate(workspaces, found).Aborted? <==> !NoFatalWorkspace(workspaces)
  {
    WorkspacesRunRaises(Tally(Zero.(workspaces := |workspaces|), [], None), workspaces);
  }

  // Order.

  lemma NamesAtAppend(events: seq<Event>, e: Event, level: Level)
    ensures NamesAt(events + [e], level) == NamesAt(events, level) + (if CreatesAt(e, level) then [e.name] else [])
  {
    assert (events + [e])[..|events|] == events;
  }

  /** The card loop migrates the cards last to first and creates nothing
      else. */
  lemma {:induction false} CardsRunNames(t: Tally, cards: seq<Card>, level: Level)
    ensures NamesAt(CardsRun(t, cards).events, level)
         == NamesAt(t.events, level) + (if level == Cards then Reversed(Names(cards, CardName)) else [])
    decreases |cards|
  {
    if cards != [] {
      var last := cards[|cards| - 1];
      var rest := cards[..|cards| - 1];
      NamesAtAppend(t.events, MigrateCard(last.name), level);
      CardsRunNames(CardStep(t, last), rest, level);
      assert Reversed(Names(cards, CardName)) == [last.name] + Reversed(Names(rest, CardName)) by {
        assert Names(cards, CardName)[..|cards| - 1] == Names(rest, CardName);
      }
    }
  }

  /** One list: the list is created, then its cards are migrated last to
      first; no project or board is created. */
  lemma ListStepNames(t: Tally, list: TrelloList, level: Level)
    ensures NamesAt(ListStep(t, list).events, level)
         == NamesAt(t.events, level) + (if level == Lists then [list.name]
                                        else if level == Cards then Reversed(Names(list.cards, CardName))
                                        else [])
  {
    NamesAtAppend(t.events, CreateList(list.name), level);
    CardsRunNames(t.(counts := t.counts.(cards := t.counts.cards + |list.cards|),
                     events := t.events + [CreateList(list.name)]), list.cards, level);
  }

  /** The list loop creates the lists last to first and no project or
      board. */
  lemma {:induction false} ListsRunNames(t: Tally, lists: seq<TrelloList>, level: Level)
    requires level != Cards
    ensures NamesAt(ListsRun(t, lists).events, level)
         == NamesAt(t.events, level) + (if level == Lists then Reversed(Names(lists, ListName)) else [])
    decreases |lists|
  {
    if lists != [] {
      var last := lists[|lists| - 1];
      var rest := lists[..|lists| - 1];
      ListStepNames(t, last, level);
      ListsRunNames(ListStep(t, last), rest, level);
      assert Reversed(Names(lists, ListName)) == [last.name] + Reversed(Names(rest, ListName)) by {
        assert Names(lists, ListName)[..|lists| - 1] == Names(rest, ListName);
      }
    }
  }

  /** One board: the board is created and no project; when its lists were
      fetched they are created last to first. */
  lemma BoardStepNames(t: Tally, board: Board, level: Level)
    ensures level == Projects || level == Boards ==>
      NamesAt(BoardStep(t, board).events, level)
      == NamesAt(t.events, level) + (if level == Boards then [board.name] else [])
    ensures board.lists.Fetched? ==>
      NamesAt(BoardStep(t, board).events, Lists) == NamesAt(t.events, Lists) + Reversed(Names(board.lists.lists, ListName))
  {
    NamesAtAppend(t.events, CreateBoard(board.name), level);
    NamesAtAppend(t.events, CreateBoard(board.name), Lists);
    match board.lists {
      case Fetched(lists) =>
        var created := t.(events := t.events + [CreateBoard(board.name)],
                          counts := t.counts.(lists := t.counts.lists + |lists|));
        if level == Projects || level == Boards {
          ListsRunNames(created, lists, level);
        }
        ListsRunNames(created, lists, Lists);
      case HttpError(_) =>
    }
  }

  /** With no fatal board, the board loop creates the boards last to first
      and no project. */
  lemma {:induction false} BoardsRunNames(t: Tally, boards: seq<Board>, level: Level)
    requires t.raised.None? && NoFatalBoard(boards)
    requires level == Projects || level == Boards
    ensures NamesAt(BoardsRun(t, boards).events, level)
         == NamesAt(t.events, level) + (if level == Boards then Reversed(Names(boards, BoardName)) else [])
    decreases |boards|
  {
    if boards != [] {
      var last := boards[|boards| - 1];
      var rest := boards[..|boards| - 1];
      var next := BoardStep(t, last);
      BoardsRunUnfolds(t, boards);
      BoardStepNames(t, last, level);
      BoardsRunNames(next, rest, level);
      if level == Boards {
        assert Reversed(Names(boards, BoardName)) == [last.name] + Reversed(Names(rest, BoardName)) by {
          assert Names(boards, BoardName)[..|boards| - 1] == Names(rest, BoardName);
        }
      }
    }
  }

  /** With no fatal board, the board loop goes on after its last board
      with the others. */
  lemma BoardsRunUnfolds(t: Tally, boards: seq<Board>)
    requires t.raised.None? && NoFatalBoard(boards) && boards != []
    ensures var next := BoardStep(t, boards[|boards| - 1]);
      && next.raised.None?
      && NoFatalBoard(boards[..|boards| - 1])
      && BoardsRun(t, boards) == BoardsRun(next, boards[..|boards| - 1])
  {
    var rest := boards[..|boards| - 1];
    assert !Fatal(boards[|boards| - 1]);
    BoardStepRaises(t, boards[|boards| - 1]);
    assert NoFatalBoard(rest) by {
      forall j | 0 <= j < |rest| ensures !Fatal(rest[j]) {
        assert rest[j] == boards[j];
      }
    }
  }

  /** One workspace with no fatal board: its project is created, then its
      boards last to first. */
  lemma WorkspaceStepNames(t: Tally, workspace: Workspace, level: Level)
    requires t.raised.None? && NoFatalBoard(workspace.boards)
    requires level == Projects || level == Boards
    ensures NamesAt(WorkspaceStep(t, workspace).events, level)
         == NamesAt(t.events, level) + (if level == Projects then [workspace.displayName]
                                        else Reversed(Names(workspace.boards, BoardName)))
  {
    NamesAtAppend(t.events, CreateProject(workspace.displayName), level);
    BoardsRunNames(t.(counts := t.counts.(boards := t.counts.boards + |workspace.boards|),
                      events := t.events + [CreateProject(workspace.displayName)]), workspace.boards, level);
  }

  lemma {:induction false} WorkspacesRunProjects(t: Tally, workspaces: seq<Workspace>)
    requires t.raised.None? && NoFatalWorkspace(workspaces)
    ensures NamesAt(WorkspacesRun(t, workspaces).events, Projects)
         == NamesAt(t.events, Projects) + Reversed(Names(workspaces, WorkspaceName))
    decreases |workspaces|
  {
    if workspaces != [] {
      var last := workspaces[|workspaces| - 1];
      var rest := workspaces[..|workspaces| - 1];
      assert NoFatalBoard(last.boards);
      assert NoFatalWorkspace(rest) by {
        forall i | 0 <= i < |rest| ensures NoFatalBoard(rest[i].boards) {
          assert rest[i] == workspaces[i];
        }
      }
      WorkspaceStepNames(t, last, Projects);
      WorkspaceStepCounts(t, last);
      WorkspacesRunProjects(WorkspaceStep(t, last), rest);
      assert Reversed(Names(workspaces, WorkspaceName)) == [last.displayName] + Reversed(Names(rest, WorkspaceName)) by {
        assert Names(workspaces, WorkspaceName)[..|workspaces| - 1] == Names(rest, WorkspaceName);
      }
    }
  }

  /** In a completed run, the Planka projects are created in the reverse
      of the order Trello lists the workspaces in. */
  lemma ProjectsInReverseOrder(workspaces: seq<Workspace>, found: Counts)
    requires NoFatalWorkspace(workspaces)
    ensures NamesAt(Migrate(workspaces, found).events, Projects) == Reversed(Names(workspaces, WorkspaceName))
  {
    WorkspacesRunProjects(Tally(Zero.(workspaces := |workspaces|), [], None), workspaces);
    WorkspacesRunCounts(Tally(Zero.(workspaces := |workspaces|), [], None), workspaces);
  }

  /** The local counters of `migrate_workspaces` and the creations made so
      far. */
  class Walk {
    var counts: Counts
    var events: seq<Event>

    constructor (workspaceCount: nat)
      ensures counts == Zero.(workspaces := workspaceCount) && events == []
    {
      counts := Zero.(workspaces := workspaceCount);
      events := [];
    }

    function Current(raised: Option<int>): Tally
      reads this
    {
      Tally(counts, events, raised)
    }

    /** One card: created, its attachments and comments counted. */
    method MigrateCard(card: Card)
      modifies this
      ensures Current(None) == CardStep(old(Current(None)), card)
    {
      events := events + [Event.MigrateCard(card.name)];
      counts := counts.(attachments := counts.attachments + card.attachments);
      counts := counts.(comments := counts.comments + card.comments);
    }

    /** One list: created, its cards counted, then walked last to first. */
    method MigrateList(list: TrelloList)
      modifies this
      ensures Current(None) == ListStep(old(Current(None)), list)
    {
      events := events + [CreateList(list.name)];
      counts := counts.(cards := counts.cards + |list.cards|);
      ghost var start := Current(None);
      var i := |list.cards|;
      assert list.cards[..i] == list.cards;
      while i > 0
        invariant 0 <= i <= |list.cards|
        invariant CardsRun(Current(None), list.cards[..i]) == CardsRun(start, list.cards)
      {
        i := i - 1;
        assert list.cards[..i + 1][..i] == list.cards[..i];
        MigrateCard(list.cards[i]);
      }
      assert list.cards[..0] == [];
    }

    /** One board: created, then its lists fetched; a 404 skips it, any
        other error is re-raised. */
    method MigrateBoard(board: Board) returns (raised: Option<int>)
      modifies this
      ensures Current(raised) == BoardStep(old(Current(None)), board)
    {
      events := events + [CreateBoard(board.name)];
      raised := None;
      match board.lists
      case HttpError(status) =>
        if status != NotFound {
          raised := Some(status);
        }
      case Fetched(lists) =>
        counts := counts.(lists := counts.lists + |lists|);
        ghost var start := Current(None);
        var i := |lists|;
        assert lists[..i] == lists;
        while i > 0
          invariant 0 <= i <= |lists|
          invariant ListsRun(Current(None), lists[..i]) == ListsRun(start, lists)
        {
          i := i - 1;
          assert lists[..i + 1][..i] == lists[..i];
          MigrateList(lists[i]);
        }
        assert lists[..0] == [];
    }

    /** One workspace: its project created, all its boards counted, then
        walked last to first until an error is re-raised. */
    method MigrateWorkspace(workspace: Workspace) returns (raised: Option<int>)
      modifies this
      ensures Current(raised) == WorkspaceStep(old(Current(None)), workspace)
    {
      events := events + [CreateProject(workspace.displayName)];
      counts := counts.(boards := counts.boards + |workspace.boards|);
      ghost var start := Current(None);
      raised := None;
      var i := |workspace.boards|;
      assert workspace.boards[..i] == workspace.boards;
      while i > 0
        invariant 0 <= i <= |workspace.boards|
        invariant raised.None?
        invariant BoardsRun(Current(None), workspace.boards[..i]) == BoardsRun(start, workspace.boards)
      {
        i := i - 1;
        assert workspace.boards[..i + 1][..i] == workspace.boards[..i];
        ghost var before := Current(None);
        raised := MigrateBoard(workspace.boards[i]);
        assert BoardsRun(before, workspace.boards[..i + 1])
            == BoardsRun(BoardStep(before, workspace.boards[i]), workspace.boards[..i]);
        if raised.Some? {
          return;
        }
      }
      assert workspace.boards[..0] == [];
    }
  }

  /** `migrate_workspaces`: the outcome is the one `Migrate` describes. */
  method MigrateWorkspaces(workspaces: seq<Workspace>, found: Counts) returns (outcome: Outcome)
    ensures outcome == Migrate(workspaces, found)
  {
    var walk := new Walk(|workspaces|);
    ghost var start := walk.Current(None);
    var i := |workspaces|;
    assert workspaces[..i] == workspaces;
    while i > 0
      invariant 0 <= i <= |workspaces|
      invariant WorkspacesRun(walk.Current(None), workspaces[..i]) == WorkspacesRun(start, workspaces)
    {
      i := i - 1;
      assert workspaces[..i + 1][..i] == workspaces[..i];
      var raised := walk.MigrateWorkspace(workspaces[i]);
      if raised.Some? {
        return Aborted(raised.value, walk.events);
      }
    }
    assert workspaces[..0] == [];
    outcome := Completed(walk.counts, walk.events, UnderCounted(found, walk.counts));
  }
}
