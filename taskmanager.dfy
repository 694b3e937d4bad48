/** The server-backed kanban board: three columns of cards keyed 'to-do',
    'in-progress' and 'done', filled from the task list the server returns,
    rearranged by drag and drop, and filtered by priority for display.
    Each handler's request is reduced to what it tells the page: whether the
    request threw, and the record the server sent back. */
module TaskManager {
  import opened Common

  datatype Column = ToDo | InProgressColumn | Done
  const AllColumns: seq<Column> := [ToDo, InProgressColumn, Done]

  /** The status strings the server and the droppables use for the columns. */
  function ColumnName(c: Column): string
  {
    match c
    case ToDo => "to-do"
    case InProgressColumn => "in-progress"
    case Done => "done"
  }

  /** `tasksByStatus[status]`: only the three column names select a column. */
  function ColumnOf(status: string): (r: Option<Column>)
    ensures r.Some? <==> status in {"to-do", "in-progress", "done"}
    ensures r.Some? ==> ColumnName(r.value) == status
  {
    if status == "to-do" then Some(ToDo)
    else if status == "in-progress" then Some(InProgressColumn)
    else if status == "done" then Some(Done)
    else None
  }

  lemma ColumnNameRoundTrip(c: Column)
    ensures ColumnOf(ColumnName(c)) == Some(c)
  {
  }

  /** A card as the board keeps it. Cards built on fetch have no `status`
      field; a drag writes one. The id is the server's `_id`, which a failed
      save leaves undefined. */
  datatype Card = Card(id: Option<string>, content: string, priority: string, status: Option<Column>)

  /** A task as the server lists it. */
  datatype ApiTask = ApiTask(id: string, content: string, priority: string, status: string)

  function CardOf(t: ApiTask): Card
  {
    Card(Some(t.id), t.content, t.priority, None)
  }

  /** The three columns of the board. */
  datatype Columns = Columns(todo: seq<Card>, inProgress: seq<Card>, done: seq<Card>)
  {
    function Get(c: Column): seq<Card>
    {
      match c
      case ToDo => todo
      case InProgressColumn => inProgress
      case Done => done
    }

    function With(c: Column, cards: seq<Card>): (r: Columns)
      ensures r.Get(c) == cards
      ensures forall d :: d != c ==> r.Get(d) == Get(d)
    {
      match c
      case ToDo => this.(todo := cards)
      case InProgressColumn => this.(inProgress := cards)
      case Done => this.(done := cards)
    }

    function Total(): nat
    {
      |todo| + |inProgress| + |done|
    }
  }

  const EmptyColumns := Columns([], [], [])

  // ---------------------------------------------------------------------
  // Grouping the fetched list
  // ---------------------------------------------------------------------

  /** The columns `fetchTasks` builds from the server's list, pushing each task
      in turn; `None` when some task's status names no column (the push then
      throws and the fetch is abandoned). */
  function Grouped(data: seq<ApiTask>): (r: Option<Columns>)
    ensures r.Some? ==> r.value.Total() == |data|
  {
    if data == [] then Some(EmptyColumns)
    else
      var last := data[|data| - 1];
      match Grouped(data[..|data| - 1])
      case None => None
      case Some(g) =>
        match ColumnOf(last.status)
        case None => None
        case Some(c) => Some(g.With(c, g.Get(c) + [CardOf(last)]))
  }

  /** The cards of the fetched tasks whose status is `name`, in server order. */
  function CardsWithStatus(data: seq<ApiTask>, name: string): seq<Card>
  {
    if data == [] then []
    else
      var last := data[|data| - 1];
      CardsWithStatus(data[..|data| - 1], name) + (if last.status == name then [CardOf(last)] else [])
  }

  /** Grouping succeeds exactly when every status names a column, and then
      each column holds that column's tasks in the order the server sent them. */
  lemma {:induction false} GroupedPartitions(data: seq<ApiTask>)
    ensures Grouped(data).Some? <==> forall t :: t in data ==> ColumnOf(t.status).Some?
    ensures Grouped(data).Some? ==>
      forall c :: Grouped(data).value.Get(c) == CardsWithStatus(data, ColumnName(c))
  {
    if data != [] {
      var init := data[..|data| - 1];
      var last := data[|data| - 1];
      assert data == init + [last];
      GroupedPartitions(init);
      if Grouped(init).Some? && ColumnOf(last.status).Some? {
        var g := Grouped(init).value;
        var c := ColumnOf(last.status).value;
        forall d ensures Grouped(data).value.Get(d) == CardsWithStatus(data, ColumnName(d)) {
          if d != c {
            assert ColumnName(d) != ColumnName(c);
          }
        }
      }
    }
  }

  /** One push of the grouping loop. */
  lemma GroupedStep(data: seq<ApiTask>, i: nat, g: Columns)
    requires i < |data| && Grouped(data[..i]) == Some(g)
    ensures ColumnOf(data[i].status).None? ==> Grouped(data[..i + 1]).None?
    ensures ColumnOf(data[i].status).Some? ==>
      var c := ColumnOf(data[i].status).value;
      Grouped(data[..i + 1]) == Some(g.With(c, g.Get(c) + [CardOf(data[i])]))
  {
    assert data[..i + 1][..i] == data[..i];
    assert data[..i + 1][i] == data[i];
  }

  /** Once a prefix fails to group, the whole list fails. */
  lemma {:induction false} GroupedFailureExtends(data: seq<ApiTask>, k: nat)
    requires k <= |data| && Grouped(data[..k]).None?
    ensures Grouped(data).None?
    decreases |data| - k
  {
    if k < |data| {
      assert data[..k + 1][..k] == data[..k];
      GroupedFailureExtends(data, k + 1);
    } else {
      assert data[..k] == data;
    }
  }

  // ---------------------------------------------------------------------
  // Drag and drop
  // ---------------------------------------------------------------------

  /** Where a drag ended: the droppable and the index within it. */
  datatype Location = Location(column: Column, index: nat)

  /** `onDragEnd`'s splices: the card at the source index leaves its column,
      takes the destination column's status, and is spliced into the
      destination at the destination index (at the end if past it). Within
      one column the second splice works on the already shortened list.
      `None` when the source index holds no card: writing `status` on
      `undefined` throws before the state is set. */
  function Moved(cols: Columns, source: Location, destination: Location): (r: Option<Columns>)
    ensures r.Some? <==> source.index < |cols.Get(source.column)|
    ensures r.Some? && source.column != destination.column ==>
      r.value.Get(source.column) == RemoveAt(cols.Get(source.column), source.index) &&
      r.value.Get(destination.column) ==
        InsertAt(cols.Get(destination.column), destination.index,
                 cols.Get(source.column)[source.index].(status := Some(destination.column)))
    ensures r.Some? && source.column == destination.column ==>
      r.value.Get(source.column) ==
        InsertAt(RemoveAt(cols.Get(source.column), source.index), destination.index,
                 cols.Get(source.column)[source.index].(status := Some(destination.column)))
    ensures r.Some? ==>
      forall d :: d != source.column && d != destination.column ==> r.value.Get(d) == cols.Get(d)
  {
    var sourceCards := cols.Get(source.column);
    if source.index >= |sourceCards| then None
    else
      var card := sourceCards[source.index].(status := Some(destination.column));
      var remaining := RemoveAt(sourceCards, source.index);
      if source.column == destination.column then
        Some(cols.With(source.column, InsertAt(remaining, destination.index, card)))
      else
        var withoutCard := cols.With(source.column, remaining);
        Some(withoutCard.With(destination.column,
                              InsertAt(cols.Get(destination.column), destination.index, card)))
  }

  /** A move neither loses nor duplicates a card: the total is unchanged, the
      moved card now sits at the destination index (clamped to the end), and
      every other column is untouched. */
  lemma MoveKeepsCards(cols: Columns, source: Location, destination: Location)
    requires source.index < |cols.Get(source.column)|
    ensures var r := Moved(cols, source, destination).value;
      r.Total() == cols.Total() &&
      |r.Get(destination.column)| > 0 &&
      r.Get(destination.column)[if destination.index < |r.Get(destination.column)| then destination.index
                                else |r.Get(destination.column)| - 1]
        == cols.Get(source.column)[source.index].(status := Some(destination.column)) &&
      forall d :: d != source.column && d != destination.column ==> r.Get(d) == cols.Get(d)
  {
    var r := Moved(cols, source, destination).value;
    if source.column == destination.column {
      assert |r.Get(source.column)| == |cols.Get(source.column)|;
    } else {
      assert |r.Get(source.column)| == |cols.Get(source.column)| - 1;
      assert |r.Get(destination.column)| == |cols.Get(destination.column)| + 1;
    }
    match source.column {
      case ToDo =>
      case InProgressColumn =>
      case Done =>
    }
  }

  /** Dropping a card back where it came from only records its column on it. */
  lemma DropInPlaceKeepsOrder(cols: Columns, at: Location)
    requires at.index < |cols.Get(at.column)|
    ensures var r := Moved(cols, at, at).value;
      r == cols.With(at.column, cols.Get(at.column)[at.index := cols.Get(at.column)[at.index].(status := Some(at.column))])
  {
    var cards := cols.Get(at.column);
    var card := cards[at.index].(status := Some(at.column));
    var back := InsertAt(RemoveAt(cards, at.index), at.index, card);
    assert back == cards[at.index := card] by {
      forall k | 0 <= k < |cards| ensures back[k] == cards[at.index := card][k] {
        if k > at.index {
          assert back[k] == RemoveAt(cards, at.index)[k - 1];
        }
      }
    }
  }

  // ---------------------------------------------------------------------
  // Views
  // ---------------------------------------------------------------------

  /** `filteredTasks(columnTasks)`: every card for 'all', otherwise the cards
      of that priority, in column order. */
  function FilteredTasks(cards: seq<Card>, filter: string): (r: seq<Card>)
    ensures filter == "all" ==> r == cards
    ensures filter != "all" ==> forall c :: c in r <==> c in cards && c.priority == filter
    ensures Subseq(r, cards)
  {
    if filter == "all" then
      FilterIsSubseq(cards, (c: Card) => true);
      cards
    else
      FilterIsSubseq(cards, (c: Card) => c.priority == filter);
      Filter(cards, (c: Card) => c.priority == filter)
  }

  /** The drag library reports positions in the filtered list, while the
      splice uses them as positions in the whole column: with a priority
      filter on, dragging the only shown 'low' card out of a column whose first
      card is 'high' moves the hidden 'high' card instead. */
  lemma FilteredDragMovesHiddenCard()
    ensures var high := Card(Some("a"), "dishes", "high", None);
      var low := Card(Some("b"), "homework", "low", None);
      var cols := Columns([high, low], [], []);
      FilteredTasks(cols.todo, "low") == [low] &&
      Moved(cols, Location(ToDo, 0), Location(InProgressColumn, 0)).value
        == Columns([low], [high.(status := Some(InProgressColumn))], [])
  {
    var high := Card(Some("a"), "dishes", "high", None);
    var low := Card(Some("b"), "homework", "low", None);
    assert Filter([high, low], (c: Card) => c.priority == "low") == [low] by {
      assert [high, low][1..] == [low];
    }
  }

  /** One column's `filter((task) => task.id !== taskId)`. */
  function WithoutCard(cards: seq<Card>, taskId: Option<string>): (r: seq<Card>)
    ensures forall c :: c in r <==> c in cards && c.id != taskId
    ensures Subseq(r, cards)
  {
    FilterIsSubseq(cards, (c: Card) => c.id != taskId);
    Filter(cards, (c: Card) => c.id != taskId)
  }

  /** `calculateProgress()`: the share of all cards that are in 'done'. */
  function CalculateProgress(cols: Columns): (r: real)
    ensures 0.0 <= r <= 100.0
    ensures r == 0.0 <==> cols.done == []
    ensures cols.Total() > 0 ==> IsPercentOf(r, |cols.done|, cols.Total())
    ensures r == 100.0 <==> cols.done != [] && cols.todo == [] && cols.inProgress == []
  {
    Progress(|cols.done|, cols.Total())
  }

  // ---------------------------------------------------------------------
  // The page state
  // ---------------------------------------------------------------------

  /** What a POST that creates a task reports: it threw, or the server answered
      with a record whose `_id` may be missing. */
  datatype SaveOutcome = RequestFailed | Saved(id: Option<string>)

  class Kanban {
    var columns: Columns
    var filter: string

    constructor ()
      ensures columns == EmptyColumns && filter == "all"
    {
      columns := EmptyColumns;
      filter := "all";
    }

    /** `fetchTasks`: the board is replaced by the grouped server list; a
        missing list or an unknown status leaves it as it was. */
    method FetchTasks(data: Option<seq<ApiTask>>)
      modifies this
      ensures data.None? ==> columns == old(columns)
      ensures data.Some? && Grouped(data.value).None? ==> columns == old(columns)
      ensures data.Some? && Grouped(data.value).Some? ==> columns == Grouped(data.value).value
      ensures filter == old(filter)
    {
      if data.None? {
        return;
      }
      var tasks := data.value;
      var grouped := EmptyColumns;
      var i := 0;
      while i < |tasks|
        invariant 0 <= i <= |tasks|
        invariant Grouped(tasks[..i]) == Some(grouped)
        invariant columns == old(columns) && filter == old(filter)
      {
        GroupedStep(tasks, i, grouped);
        var column := ColumnOf(tasks[i].status);
        if column.None? {
          GroupedFailureExtends(tasks, i + 1);
          return;
        }
        grouped := grouped.With(column.value, grouped.Get(column.value) + [CardOf(tasks[i])]);
        i := i + 1;
      }
      assert tasks[..i] == tasks;
      columns := grouped;
    }

    /** `addTask`: the saved card goes at the end of 'to-do' unless the request threw. */
    method AddTask(outcome: SaveOutcome, content: string, priority: string)
      modifies this
      ensures outcome.RequestFailed? ==> columns == old(columns)
      ensures outcome.Saved? ==>
        columns == old(columns).(todo := old(columns).todo + [Card(outcome.id, content, priority, None)])
      ensures filter == old(filter)
    {
      if outcome.Saved? {
        columns := columns.(todo := columns.todo + [Card(outcome.id, content, priority, None)]);
      }
    }

    /** `deleteAllDoneTasks`: clears 'done' unless the request threw. */
    method DeleteAllDoneTasks(requestFailed: bool)
      modifies this
      ensures requestFailed ==> columns == old(columns)
      ensures !requestFailed ==> columns == old(columns).(done := []) && CalculateProgress(columns) == 0.0
      ensures filter == old(filter)
    {
      if !requestFailed {
        columns := columns.(done := []);
      }
    }

    /** `deleteTask`: every column drops the cards with that id. */
    method DeleteTask(requestFailed: bool, taskId: Option<string>)
      modifies this
      ensures requestFailed ==> columns == old(columns)
      ensures !requestFailed ==> forall c ::
        columns.Get(c) == WithoutCard(old(columns).Get(c), taskId)
      ensures filter == old(filter)
    {
      if requestFailed {
        return;
      }
      var updated := columns;
      var k := 0;
      while k < |AllColumns|
        invariant 0 <= k <= |AllColumns|
        invariant forall j :: 0 <= j < k ==>
          updated.Get(AllColumns[j]) == WithoutCard(columns.Get(AllColumns[j]), taskId)
        invariant forall j :: k <= j < |AllColumns| ==> updated.Get(AllColumns[j]) == columns.Get(AllColumns[j])
      {
        var status := AllColumns[k];
        updated := updated.With(status, WithoutCard(updated.Get(status), taskId));
        k := k + 1;
      }
      forall c ensures updated.Get(c) == WithoutCard(columns.Get(c), taskId) {
        if c == ToDo {
          assert AllColumns[0] == c;
        } else if c == InProgressColumn {
          assert AllColumns[1] == c;
        } else {
          assert AllColumns[2] == c;
        }
      }
      columns := updated;
    }

    /** `onDragEnd`: nothing without a destination; otherwise the splices of `Moved`. */
    method OnDragEnd(source: Location, destination: Option<Location>)
      modifies this
      ensures destination.None? ==> columns == old(columns)
      ensures destination.Some? ==>
        columns == match Moved(old(columns), source, destination.value)
                   case Some(r) => r
                   case None => old(columns)
      ensures destination.Some? ==> columns.Total() == old(columns).Total()
      ensures filter == old(filter)
    {
      if destination.None? {
        return;
      }
      var moved := Moved(columns, source, destination.value);
      if moved.Some? {
        MoveKeepsCards(columns, source, destination.value);
        columns := moved.value;
      }
    }

    method SetFilter(value: string)
      modifies this
      ensures filter == value && columns == old(columns)
    {
      filter := value;
    }
  }
}
