/** The simulation as functions on its whole state (simpleworld/simpleworld.cpp): the grid, the
    database rows, and the lists of foods, eggs and bugs. A deletion drops the row. */
module Simulation {
  import opened Options
  import opened Words
  import opened Movement
  import opened WorldModel

  type Energy = Word

  /** A row of an element: for food `size` is the food, for eggs and bugs the length of the code;
      `time` is when food appeared, an egg was laid or a bug was born. */
  datatype Row = Row(kind: Kind, position: Position, orientation: Orientation,
                     energy: Energy, size: Energy, time: Time, lastAction: Option<Time>)

  datatype Sim = Sim(size: Position, grid: Grid, rows: map<nat, Row>,
                     foods: seq<nat>, eggs: seq<nat>, bugs: seq<nat>, next: nat)

  // ----- Agreement of the grid, the rows and the lists

  predicate NoDuplicates(list: seq<nat>) {
    forall i, j :: 0 <= i < j < |list| ==> list[i] != list[j]
  }

  function ListOf(s: Sim, kind: Kind): seq<nat> {
    match kind case Food => s.foods case Egg => s.eggs case Bug => s.bugs
  }

  predicate Lists(s: Sim, kind: Kind) {
    && NoDuplicates(ListOf(s, kind))
    && (forall r :: r in ListOf(s, kind) ==> r in s.rows && s.rows[r].kind == kind)
  }

  /** Every row is in the list of its kind. */
  predicate Listed(s: Sim) {
    forall r :: r in s.rows ==> r in ListOf(s, s.rows[r].kind)
  }

  /** Every row is on the cell it says. */
  predicate Placed(s: Sim) {
    forall r :: r in s.rows ==>
      s.rows[r].position in s.grid && s.grid[s.rows[r].position] == Element(r, s.rows[r].kind)
  }

  /** Every cell that holds an element is inside the world and the position of a row. */
  predicate Backed(s: Sim) {
    forall p :: p in s.grid ==> Inside(p, s.size) && s.grid[p].id in s.rows && s.rows[s.grid[p].id].position == p
  }

  /** Identities not yet given out. */
  predicate Numbered(s: Sim) {
    forall r :: r in s.rows ==> r < s.next
  }

  /** Grid, rows and lists say the same, and there are as many elements in the lists as on cells. */
  predicate Agreement(s: Sim) {
    && Lists(s, Food) && Lists(s, Egg) && Lists(s, Bug)
    && Listed(s) && Placed(s) && Backed(s) && Numbered(s)
    && |s.grid| == |s.foods| + |s.eggs| + |s.bugs|
  }

  /** Living bugs and eggs have energy left. */
  predicate Alive(s: Sim) {
    forall r :: r in s.rows && !s.rows[r].kind.Food? ==> s.rows[r].energy > 0
  }

  /** A cell holds an element exactly when the element is in one of the lists and says so; and no
      element is in two lists. */
  lemma CellMeans(s: Sim, p: Position, r: nat)
    requires Agreement(s)
    ensures (p in s.grid && s.grid[p].id == r) <==>
              (r in s.foods || r in s.eggs || r in s.bugs) && s.rows[r].position == p
    ensures !(r in s.foods && r in s.eggs) && !(r in s.eggs && r in s.bugs) && !(r in s.foods && r in s.bugs)
  {
  }

  // ----- Matter

  function Weight(row: Row): nat {
    row.size + if row.kind.Food? then 0 else row.energy
  }

  function Sum(list: seq<nat>, rows: map<nat, Row>): nat
    requires forall r :: r in list ==> r in rows
  {
    if list == [] then 0 else Sum(list[..|list| - 1], rows) + Weight(rows[list[|list| - 1]])
  }

  /** All food, all code and all energy of bugs and eggs. */
  function Total(s: Sim): nat
    requires Agreement(s)
  {
    Sum(s.foods, s.rows) + Sum(s.eggs, s.rows) + Sum(s.bugs, s.rows)
  }

  // ----- The four elementary changes

  /** `std::list::remove`. */
  function Without(list: seq<nat>, r: nat): seq<nat> {
    if list == [] then []
    else Without(list[..|list| - 1], r) + if list[|list| - 1] == r then [] else [list[|list| - 1]]
  }

  function WithList(s: Sim, kind: Kind, list: seq<nat>): Sim {
    match kind case Food => s.(foods := list) case Egg => s.(eggs := list) case Bug => s.(bugs := list)
  }

  /** Columns of a row other than its kind and position. */
  function Update(s: Sim, r: nat, row: Row): Sim {
    s.(rows := s.rows[r := row])
  }

  /** A new element on a free cell. */
  function Insert(s: Sim, row: Row): Sim {
    WithList(s, row.kind, ListOf(s, row.kind) + [s.next])
      .(rows := s.rows[s.next := row], grid := s.grid[row.position := Element(s.next, row.kind)], next := s.next + 1)
  }

  function Delete(s: Sim, r: nat): Sim
    requires r in s.rows
  {
    var row := s.rows[r];
    WithList(s, row.kind, Without(ListOf(s, row.kind), r)).(rows := s.rows - {r}, grid := s.grid - {row.position})
  }

  function Relocate(s: Sim, r: nat, to: Position): Sim
    requires r in s.rows
  {
    var row := s.rows[r];
    s.(rows := s.rows[r := row.(position := to)],
       grid := (s.grid - {row.position})[to := Element(r, row.kind)])
  }

  lemma Appended(list: seq<nat>, r: nat)
    requires NoDuplicates(list) && r !in list
    ensures NoDuplicates(list + [r])
    ensures forall q :: q in list + [r] <==> q in list || q == r
  {
  }

  lemma LastSplit(list: seq<nat>)
    requires NoDuplicates(list) && list != []
    ensures var init, last := list[..|list| - 1], list[|list| - 1];
            && NoDuplicates(init) && last !in init
            && forall q :: q in list <==> q in init || q == last
  {
    assert list == list[..|list| - 1] + [list[|list| - 1]];
  }

  lemma {:induction false} WithoutMeans(list: seq<nat>, r: nat)
    requires NoDuplicates(list)
    ensures NoDuplicates(Without(list, r))
    ensures forall q :: q in Without(list, r) <==> q in list && q != r
    ensures |Without(list, r)| == |list| - if r in list then 1 else 0
    decreases |list|
  {
    hide NoDuplicates;
    if list == [] {
      assert Without(list, r) == list;
    } else {
      var init, last := list[..|list| - 1], list[|list| - 1];
      LastSplit(list);
      WithoutMeans(init, r);
      if last == r {
        assert Without(list, r) == Without(init, r);
      } else {
        Appended(Without(init, r), last);
      }
    }
  }

  lemma UpdateLists(s: Sim, r: nat, row: Row, kind: Kind)
    requires Lists(s, kind)
    requires r in s.rows && row.kind == s.rows[r].kind && row.position == s.rows[r].position
    ensures Lists(Update(s, r, row), kind)
  {
    hide NoDuplicates;
  }

  lemma UpdatePlaced(s: Sim, r: nat, row: Row)
    requires Listed(s) && Placed(s) && Numbered(s)
    requires r in s.rows && row.kind == s.rows[r].kind && row.position == s.rows[r].position
    ensures Listed(Update(s, r, row)) && Placed(Update(s, r, row)) && Numbered(Update(s, r, row))
  {
  }

  lemma UpdateBacked(s: Sim, r: nat, row: Row)
    requires Backed(s) && r in s.rows && row.position == s.rows[r].position
    ensures Backed(Update(s, r, row))
  {
    hide Inside;
  }

  /** Changing columns other than kind and position keeps the agreement. */
  lemma UpdateAgrees(s: Sim, r: nat, row: Row)
    requires Agreement(s)
    requires r in s.rows && row.kind == s.rows[r].kind && row.position == s.rows[r].position
    ensures Agreement(Update(s, r, row))
  {
    hide Lists, Listed, Placed, Backed, Numbered, Inside;
    UpdateLists(s, r, row, Food);
    UpdateLists(s, r, row, Egg);
    UpdateLists(s, r, row, Bug);
    UpdatePlaced(s, r, row);
    UpdateBacked(s, r, row);
  }

  lemma InsertLists(s: Sim, row: Row, kind: Kind)
    requires Lists(s, kind) && s.next !in s.rows
    ensures Lists(Insert(s, row), kind)
  {
    hide NoDuplicates;
    Appended(ListOf(s, kind), s.next);
  }

  lemma InsertListed(s: Sim, row: Row)
    requires Listed(s) && s.next !in s.rows
    ensures Listed(Insert(s, row))
  {
    var n := Insert(s, row);
    forall q | q in n.rows
      ensures q in ListOf(n, n.rows[q].kind)
    {
    }
  }

  lemma InsertPlaces(s: Sim, row: Row)
    requires Placed(s) && Backed(s) && Numbered(s) && row.position !in s.grid && Inside(row.position, s.size)
    ensures Placed(Insert(s, row)) && Backed(Insert(s, row)) && Numbered(Insert(s, row))
  {
    hide Inside;
  }

  lemma InsertCounts(s: Sim, row: Row)
    requires row.position !in s.grid
    ensures var n := Insert(s, row);
            |n.grid| == |s.grid| + 1 && |n.foods| + |n.eggs| + |n.bugs| == |s.foods| + |s.eggs| + |s.bugs| + 1
  {
    SizeAdded(s.grid, row.position, Element(s.next, row.kind));
  }

  /** A new element on a free cell of the world keeps the agreement. */
  lemma InsertAgrees(s: Sim, row: Row)
    requires Agreement(s) && Inside(row.position, s.size) && row.position !in s.grid
    ensures Agreement(Insert(s, row))
  {
    assert s.next !in s.rows;
    hide Insert, Lists, Listed, Placed, Backed, Numbered, Inside;
    InsertLists(s, row, Food);
    InsertLists(s, row, Egg);
    InsertLists(s, row, Bug);
    InsertListed(s, row);
    InsertPlaces(s, row);
    InsertCounts(s, row);
  }

  lemma DeleteLists(s: Sim, r: nat, kind: Kind)
    requires Lists(s, kind) && r in s.rows && r in ListOf(s, s.rows[r].kind)
    ensures Lists(Delete(s, r), kind)
  {
    hide NoDuplicates, Without;
    WithoutMeans(ListOf(s, kind), r);
  }

  lemma DeleteListed(s: Sim, r: nat)
    requires Listed(s) && r in s.rows && Lists(s, s.rows[r].kind)
    ensures Listed(Delete(s, r))
  {
    hide NoDuplicates, Without;
    WithoutMeans(ListOf(s, s.rows[r].kind), r);
  }

  lemma DeletePlaces(s: Sim, r: nat)
    requires Placed(s) && Backed(s) && Numbered(s) && r in s.rows
    ensures Placed(Delete(s, r)) && Backed(Delete(s, r)) && Numbered(Delete(s, r))
  {
    hide Inside, Without;
  }

  lemma DeleteCounts(s: Sim, r: nat)
    requires r in s.rows && Lists(s, s.rows[r].kind) && r in ListOf(s, s.rows[r].kind) && s.rows[r].position in s.grid
    ensures var n := Delete(s, r);
            && |n.grid| == |s.grid| - 1
            && |n.foods| + |n.eggs| + |n.bugs| == |s.foods| + |s.eggs| + |s.bugs| - 1
  {
    hide Without;
    WithoutMeans(ListOf(s, s.rows[r].kind), r);
    SizeRemoved(s.grid, s.rows[r].position);
  }

  /** Deleting an element keeps the agreement. */
  lemma DeleteAgrees(s: Sim, r: nat)
    requires Agreement(s) && r in s.rows
    ensures Agreement(Delete(s, r))
  {
    assert Lists(s, s.rows[r].kind) && r in ListOf(s, s.rows[r].kind) && s.rows[r].position in s.grid;
    hide Lists, Listed, Placed, Backed, Numbered, Inside;
    DeleteLists(s, r, Food);
    DeleteLists(s, r, Egg);
    DeleteLists(s, r, Bug);
    DeleteListed(s, r);
    DeletePlaces(s, r);
    DeleteCounts(s, r);
  }

  lemma RelocateLists(s: Sim, r: nat, to: Position, kind: Kind)
    requires Lists(s, kind) && r in s.rows
    ensures Lists(Relocate(s, r, to), kind)
  {
    hide NoDuplicates;
  }

  lemma RelocatePlaced(s: Sim, r: nat, to: Position)
    requires Listed(s) && Placed(s) && Numbered(s) && r in s.rows && to !in s.grid
    ensures Listed(Relocate(s, r, to)) && Placed(Relocate(s, r, to)) && Numbered(Relocate(s, r, to))
  {
  }

  lemma RelocateBacked(s: Sim, r: nat, to: Position)
    requires Placed(s) && Backed(s) && r in s.rows && Inside(to, s.size) && to !in s.grid
    ensures Backed(Relocate(s, r, to))
  {
    hide Inside;
  }

  /** Moving an element to a free cell of the world keeps the agreement. */
  lemma RelocateAgrees(s: Sim, r: nat, to: Position)
    requires Agreement(s) && r in s.rows && Inside(to, s.size) && to !in s.grid
    ensures Agreement(Relocate(s, r, to))
  {
    assert s.rows[r].position in s.grid;
    hide Lists, Listed, Placed, Backed, Numbered, Inside;
    RelocateLists(s, r, to, Food);
    RelocateLists(s, r, to, Egg);
    RelocateLists(s, r, to, Bug);
    RelocatePlaced(s, r, to);
    RelocateBacked(s, r, to);
    SizeRemoved(s.grid, s.rows[r].position);
    SizeAdded(s.grid - {s.rows[r].position}, to, Element(r, s.rows[r].kind));
  }

  // ----- Matter under the elementary changes

  lemma {:induction false} SumSame(list: seq<nat>, rows: map<nat, Row>, rows': map<nat, Row>)
    requires forall r :: r in list ==> r in rows && r in rows' && Weight(rows'[r]) == Weight(rows[r])
    ensures Sum(list, rows') == Sum(list, rows)
  {
    if list == [] {
    } else {
      SumSame(list[..|list| - 1], rows, rows');
    }
  }

  lemma {:induction false} SumChanged(list: seq<nat>, rows: map<nat, Row>, r: nat, row: Row)
    requires NoDuplicates(list) && r in list && forall q :: q in list ==> q in rows
    ensures Sum(list, rows[r := row]) == Sum(list, rows) - Weight(rows[r]) + Weight(row)
  {
    hide NoDuplicates, Weight;
    LastSplit(list);
    var init, last := list[..|list| - 1], list[|list| - 1];
    if last == r {
      SumSame(init, rows, rows[r := row]);
    } else {
      SumChanged(init, rows, r, row);
    }
  }

  lemma {:induction false} SumWithout(list: seq<nat>, rows: map<nat, Row>, r: nat)
    requires NoDuplicates(list) && r in list && forall q :: q in list ==> q in rows
    ensures forall q :: q in Without(list, r) ==> q in rows
    ensures Sum(Without(list, r), rows) == Sum(list, rows) - Weight(rows[r])
  {
    hide NoDuplicates;
    WithoutMeans(list, r);
    LastSplit(list);
    var init, last := list[..|list| - 1], list[|list| - 1];
    if last == r {
      WithoutAbsent(init, r);
      assert Without(list, r) == init;
    } else {
      SumWithout(init, rows, r);
      assert Without(list, r) == Without(init, r) + [last];
      assert Without(list, r)[..|Without(list, r)| - 1] == Without(init, r);
    }
  }

  lemma {:induction false} WithoutAbsent(list: seq<nat>, r: nat)
    requires r !in list
    ensures Without(list, r) == list
  {
    if list == [] {
    } else {
      WithoutAbsent(list[..|list| - 1], r);
      assert list[|list| - 1] in list && list[|list| - 1] != r;
      assert list == list[..|list| - 1] + [list[|list| - 1]];
    }
  }

  lemma SumAppended(list: seq<nat>, rows: map<nat, Row>, r: nat)
    requires r in rows && forall q :: q in list ==> q in rows
    ensures forall q :: q in list + [r] ==> q in rows
    ensures Sum(list + [r], rows) == Sum(list, rows) + Weight(rows[r])
  {
    assert (list + [r])[..|list|] == list;
  }

  /** What a list weighs after a row changed. */
  lemma ListUpdated(s: Sim, r: nat, row: Row, kind: Kind)
    requires Lists(s, kind) && r in s.rows && r in ListOf(s, s.rows[r].kind) && Lists(s, s.rows[r].kind)
    ensures Sum(ListOf(s, kind), s.rows[r := row]) ==
            Sum(ListOf(s, kind), s.rows) + if kind == s.rows[r].kind then Weight(row) - Weight(s.rows[r]) else 0
  {
    hide Weight, NoDuplicates;
    if kind == s.rows[r].kind {
      SumChanged(ListOf(s, kind), s.rows, r, row);
    } else {
      SumSame(ListOf(s, kind), s.rows, s.rows[r := row]);
    }
  }

  /** Changing a row changes the total by the change of its weight. */
  lemma TotalUpdated(s: Sim, r: nat, row: Row)
    requires Agreement(s) && r in s.rows && row.kind == s.rows[r].kind && row.position == s.rows[r].position
    ensures Agreement(Update(s, r, row))
    ensures Total(Update(s, r, row)) == Total(s) - Weight(s.rows[r]) + Weight(row)
  {
    hide Weight, Placed, Backed, Numbered, Lists, Sum;
    UpdateAgrees(s, r, row);
    ListUpdated(s, r, row, Food);
    ListUpdated(s, r, row, Egg);
    ListUpdated(s, r, row, Bug);
  }

  /** What a list weighs after an element came in. */
  lemma ListInserted(s: Sim, row: Row, kind: Kind)
    requires Lists(s, kind) && s.next !in s.rows
    ensures Lists(Insert(s, row), kind)
    ensures Sum(ListOf(Insert(s, row), kind), s.rows[s.next := row]) ==
            Sum(ListOf(s, kind), s.rows) + if kind == row.kind then Weight(row) else 0
  {
    hide Weight, NoDuplicates;
    InsertLists(s, row, kind);
    var rows := s.rows[s.next := row];
    SumSame(ListOf(s, kind), s.rows, rows);
    SumAppended(ListOf(s, kind), rows, s.next);
  }

  /** A new element adds its weight. */
  lemma TotalInserted(s: Sim, row: Row)
    requires Agreement(s) && Inside(row.position, s.size) && row.position !in s.grid
    ensures Agreement(Insert(s, row))
    ensures Total(Insert(s, row)) == Total(s) + Weight(row)
  {
    assert s.next !in s.rows;
    hide Weight, Placed, Backed, Numbered, Lists, Listed, Sum;
    InsertAgrees(s, row);
    ListInserted(s, row, Food);
    ListInserted(s, row, Egg);
    ListInserted(s, row, Bug);
  }

  /** What a list weighs after an element was dropped. */
  lemma ListDeleted(s: Sim, r: nat, kind: Kind)
    requires Lists(s, kind) && r in s.rows && r in ListOf(s, s.rows[r].kind) && Lists(s, s.rows[r].kind)
    ensures Lists(Delete(s, r), kind)
    ensures Sum(ListOf(Delete(s, r), kind), s.rows - {r}) ==
            Sum(ListOf(s, kind), s.rows) - if kind == s.rows[r].kind then Weight(s.rows[r]) else 0
  {
    hide Weight, NoDuplicates, Without;
    DeleteLists(s, r, kind);
    WithoutMeans(ListOf(s, kind), r);
    if kind == s.rows[r].kind {
      SumWithout(ListOf(s, kind), s.rows, r);
    }
    SumSame(ListOf(Delete(s, r), kind), s.rows, s.rows - {r});
  }

  lemma DeletedParts(s: Sim, r: nat)
    requires r in s.rows
    ensures Delete(s, r).rows == s.rows - {r} && Delete(s, r).grid == s.grid - {s.rows[r].position}
  {
    hide Without;
  }

  lemma ListedParts(s: Sim, r: nat)
    requires Agreement(s) && r in s.rows
    ensures Lists(s, Food) && Lists(s, Egg) && Lists(s, Bug)
    ensures Lists(s, s.rows[r].kind) && r in ListOf(s, s.rows[r].kind)
  {
    hide Lists;
  }

  /** Deleting an element takes its weight away. */
  lemma TotalDeleted(s: Sim, r: nat)
    requires Agreement(s) && r in s.rows
    ensures Agreement(Delete(s, r))
    ensures Total(Delete(s, r)) == Total(s) - Weight(s.rows[r])
  {
    hide Agreement, Delete, Weight, Sum, Lists;
    ListedParts(s, r);
    DeletedParts(s, r);
    DeleteAgrees(s, r);
    ListDeleted(s, r, Food);
    ListDeleted(s, r, Egg);
    ListDeleted(s, r, Bug);
  }

  /** Moving an element changes no weight. */
  lemma TotalRelocated(s: Sim, r: nat, to: Position)
    requires Agreement(s) && r in s.rows && Inside(to, s.size) && to !in s.grid
    ensures Agreement(Relocate(s, r, to))
    ensures Total(Relocate(s, r, to)) == Total(s)
  {
    hide Placed, Backed, Numbered, Sum, NoDuplicates;
    RelocateAgrees(s, r, to);
    var rows := Relocate(s, r, to).rows;
    SumSame(s.foods, s.rows, rows);
    SumSame(s.eggs, s.rows, rows);
    SumSame(s.bugs, s.rows, rows);
  }
}
