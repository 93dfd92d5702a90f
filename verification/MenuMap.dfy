/** The front page menu: two columns of indices over one table of forms. */
module MenuMap {
  import opened Wrappers

  const UNUSED_INDEX := 0xFFFF

  type UInt16 = n: int | 0 <= n < 0x1_0000

  datatype Column = Full | Limited

  datatype Row = Row(fullMenuIndex: UInt16, limitedMenuIndex: UInt16, menuString: UInt16, formId: UInt16) {

    function Index(c: Column): UInt16 {
      if c.Full? then fullMenuIndex else limitedMenuIndex
    }

    predicate Used(c: Column) {
      Index(c) != UNUSED_INDEX
    }
  }

  /** A row before row i carries the string and an index of its own in column c. */
  predicate RemovedBefore(rows: seq<Row>, c: Column, menuId: UInt16, i: nat)
    requires i <= |rows|
  {
    exists j :: 0 <= j < i && rows[j].menuString == menuId && rows[j].Used(c)
  }

  /** The index row i holds after a removal: 16-bit subtraction below the removed row. */
  function NewIndex(rows: seq<Row>, c: Column, menuId: UInt16, i: nat): UInt16
    requires i < |rows|
  {
    if !rows[i].Used(c) || rows[i].menuString == menuId then UNUSED_INDEX
    else if RemovedBefore(rows, c, menuId, i) then (rows[i].Index(c) - 1) % 0x1_0000
    else rows[i].Index(c)
  }

  function Removed(rows: seq<Row>, menuId: UInt16): (r: seq<Row>)
    ensures |r| == |rows|
    ensures forall i :: 0 <= i < |rows| ==>
      r[i] == rows[i].(fullMenuIndex := NewIndex(rows, Full, menuId, i),
                       limitedMenuIndex := NewIndex(rows, Limited, menuId, i))
  {
    seq(|rows|, i requires 0 <= i < |rows| =>
      rows[i].(fullMenuIndex := NewIndex(rows, Full, menuId, i),
               limitedMenuIndex := NewIndex(rows, Limited, menuId, i)))
  }

  method RemoveMenuFromList(formMap: array<Row>, menuId: UInt16)
    modifies formMap
    ensures formMap[..] == Removed(old(formMap[..]), menuId)
  {
    ghost var rows := formMap[..];
    var fullMenuRemoved := false;
    var limitedMenuRemoved := false;
    for count := 0 to formMap.Length
      invariant fullMenuRemoved == RemovedBefore(rows, Full, menuId, count)
      invariant limitedMenuRemoved == RemovedBefore(rows, Limited, menuId, count)
      invariant forall i :: 0 <= i < count ==> formMap[i] == Removed(rows, menuId)[i]
      invariant forall i :: count <= i < formMap.Length ==> formMap[i] == rows[i]
    {
      if formMap[count].menuString == menuId {
        if formMap[count].fullMenuIndex != UNUSED_INDEX {
          fullMenuRemoved := true;
          formMap[count] := formMap[count].(fullMenuIndex := UNUSED_INDEX);
        }
        if formMap[count].limitedMenuIndex != UNUSED_INDEX {
          limitedMenuRemoved := true;
          formMap[count] := formMap[count].(limitedMenuIndex := UNUSED_INDEX);
        }
      }
      if fullMenuRemoved && formMap[count].fullMenuIndex != UNUSED_INDEX {
        formMap[count] := formMap[count].(fullMenuIndex := (formMap[count].fullMenuIndex - 1) % 0x1_0000);
      }
      if limitedMenuRemoved && formMap[count].limitedMenuIndex != UNUSED_INDEX {
        formMap[count] := formMap[count].(limitedMenuIndex := (formMap[count].limitedMenuIndex - 1) % 0x1_0000);
      }
    }
  }

  // ---- compactness ----

  /** How many of the first i rows are in the menu of column c. */
  function UsedBelow(rows: seq<Row>, c: Column, i: nat): (n: nat)
    requires i <= |rows|
    ensures n <= i
  {
    if i == 0 then 0 else UsedBelow(rows, c, i - 1) + if rows[i - 1].Used(c) then 1 else 0
  }

  /** The used indices, in table order, are 0, 1, 2, ... */
  predicate Compact(rows: seq<Row>, c: Column) {
    forall i :: 0 <= i < |rows| && rows[i].Used(c) ==> rows[i].Index(c) == UsedBelow(rows, c, i)
  }

  /** How many of the first i rows a removal takes out of column c. */
  function HitsBelow(rows: seq<Row>, c: Column, menuId: UInt16, i: nat): (n: nat)
    requires i <= |rows|
  {
    if i == 0 then 0
    else HitsBelow(rows, c, menuId, i - 1)
         + if rows[i - 1].Used(c) && rows[i - 1].menuString == menuId then 1 else 0
  }

  lemma {:induction false} HitsAndRemoved(rows: seq<Row>, c: Column, menuId: UInt16, i: nat)
    requires i <= |rows|
    ensures RemovedBefore(rows, c, menuId, i) <==> HitsBelow(rows, c, menuId, i) > 0
    ensures HitsBelow(rows, c, menuId, i) <= UsedBelow(rows, c, i)
  {
    if i > 0 {
      HitsAndRemoved(rows, c, menuId, i - 1);
    }
  }

  /** In a compact column the subtraction never wraps. */
  lemma IndexWithoutWrap(rows: seq<Row>, c: Column, menuId: UInt16, i: nat)
    requires |rows| < UNUSED_INDEX && Compact(rows, c) && i < |rows|
    requires rows[i].Used(c) && rows[i].menuString != menuId
    ensures NewIndex(rows, c, menuId, i) == rows[i].Index(c) - if HitsBelow(rows, c, menuId, i) > 0 then 1 else 0
    ensures NewIndex(rows, c, menuId, i) < UNUSED_INDEX
  {
    HitsAndRemoved(rows, c, menuId, i);
    var x := rows[i].Index(c);
    assert x == UsedBelow(rows, c, i) <= i;
    if HitsBelow(rows, c, menuId, i) > 0 {
      NoWrap(x);
    }
  }

  /** Removals change indices and nothing else: every row keeps its string and its form. */
  lemma RemovalKeepsForms(rows: seq<Row>, menuId: UInt16, i: nat)
    requires i < |rows|
    ensures |Removed(rows, menuId)| == |rows|
    ensures Removed(rows, menuId)[i].menuString == rows[i].menuString
    ensures Removed(rows, menuId)[i].formId == rows[i].formId
  {
  }

  lemma RemovedIndex(rows: seq<Row>, c: Column, menuId: UInt16, i: nat)
    requires i < |rows|
    ensures Removed(rows, menuId)[i].Index(c) == NewIndex(rows, c, menuId, i)
  {
  }

  /** The rows outside the removal, no others, stay in the menu. */
  lemma SurvivorStays(rows: seq<Row>, c: Column, menuId: UInt16, i: nat)
    requires |rows| < UNUSED_INDEX && Compact(rows, c) && i < |rows|
    ensures Removed(rows, menuId)[i].Used(c) <==> rows[i].Used(c) && rows[i].menuString != menuId
    ensures rows[i].Used(c) && rows[i].menuString != menuId ==>
      NewIndex(rows, c, menuId, i) == rows[i].Index(c) - if HitsBelow(rows, c, menuId, i) > 0 then 1 else 0
  {
    RemovedIndex(rows, c, menuId, i);
    if rows[i].Used(c) && rows[i].menuString != menuId {
      IndexWithoutWrap(rows, c, menuId, i);
    }
  }

  lemma NoWrap(x: UInt16)
    requires x > 0
    ensures (x - 1) % 0x1_0000 == x - 1
  {
  }

  lemma {:induction false} UsedAfter(rows: seq<Row>, c: Column, menuId: UInt16, i: nat)
    requires |rows| < UNUSED_INDEX && Compact(rows, c) && i <= |rows|
    ensures UsedBelow(Removed(rows, menuId), c, i) == UsedBelow(rows, c, i) - HitsBelow(rows, c, menuId, i)
  {
    hide Removed, NewIndex, Compact;
    if i > 0 {
      UsedAfter(rows, c, menuId, i - 1);
      SurvivorStays(rows, c, menuId, i - 1);
    }
  }

  /** No row that stays in the menu has two removed rows before it. */
  predicate AtMostOneHitAbove(rows: seq<Row>, c: Column, menuId: UInt16) {
    forall i :: 0 <= i < |rows| && rows[i].Used(c) && rows[i].menuString != menuId ==>
      HitsBelow(rows, c, menuId, i) <= 1
  }

  /** A removal keeps a column gap-free exactly when no surviving row has two removed rows above it. */
  lemma RemovalKeepsCompactIff(rows: seq<Row>, c: Column, menuId: UInt16)
    requires |rows| < UNUSED_INDEX && Compact(rows, c)
    ensures Compact(Removed(rows, menuId), c) <==> AtMostOneHitAbove(rows, c, menuId)
  {
    var after := Removed(rows, menuId);
    forall i | 0 <= i < |rows| && after[i].Used(c)
      ensures after[i].Index(c) == UsedBelow(after, c, i) <==> HitsBelow(rows, c, menuId, i) <= 1
    {
      SurvivorStays(rows, c, menuId, i);
      UsedAfter(rows, c, menuId, i);
    }
    forall i | 0 <= i < |rows|
      ensures after[i].Used(c) <==> rows[i].Used(c) && rows[i].menuString != menuId
    {
      SurvivorStays(rows, c, menuId, i);
    }
    if Compact(after, c) {
      forall i | 0 <= i < |rows| && rows[i].Used(c) && rows[i].menuString != menuId
        ensures HitsBelow(rows, c, menuId, i) <= 1
      {
        assert after[i].Used(c);
      }
    }
  }

  predicate DistinctStrings(rows: seq<Row>) {
    forall i, j :: 0 <= i < j < |rows| ==> rows[i].menuString != rows[j].menuString
  }

  lemma {:induction false} DistinctHits(rows: seq<Row>, c: Column, menuId: UInt16, i: nat)
    requires DistinctStrings(rows) && i <= |rows|
    ensures HitsBelow(rows, c, menuId, i) <= 1
    ensures (forall j :: 0 <= j < i ==> rows[j].menuString != menuId) ==> HitsBelow(rows, c, menuId, i) == 0
  {
    if i > 0 {
      DistinctHits(rows, c, menuId, i - 1);
    }
  }

  function RemovedAll(rows: seq<Row>, menuIds: seq<UInt16>): seq<Row> {
    if menuIds == [] then rows
    else Removed(RemovedAll(rows, menuIds[..|menuIds| - 1]), menuIds[|menuIds| - 1])
  }

  /** The strings of a column's menu, in table order. */
  function Menu(rows: seq<Row>, c: Column): seq<UInt16> {
    if rows == [] then []
    else
      var last := |rows| - 1;
      var m := Menu(rows[..last], c);
      if rows[last].Used(c) then m + [rows[last].menuString] else m
  }

  function Without(strings: seq<UInt16>, menuIds: seq<UInt16>): seq<UInt16> {
    if strings == [] then []
    else
      var last := |strings| - 1;
      var w := Without(strings[..last], menuIds);
      if strings[last] in menuIds then w else w + [strings[last]]
  }

  /** A table with distinct strings whose column is gap-free. */
  predicate Sound(rows: seq<Row>, c: Column) {
    |rows| < UNUSED_INDEX && DistinctStrings(rows) && Compact(rows, c)
  }

  lemma {:induction false} RemovalsKeepSound(rows: seq<Row>, menuIds: seq<UInt16>, c: Column)
    requires Sound(rows, c)
    ensures |RemovedAll(rows, menuIds)| == |rows| && Sound(RemovedAll(rows, menuIds), c)
  {
    if menuIds != [] {
      var last := |menuIds| - 1;
      RemovalsKeepSound(rows, menuIds[..last], c);
      OneRemovalKeepsMenu(RemovedAll(rows, menuIds[..last]), menuIds[last], c);
    }
  }

  /** Any sequence of removals from a table with distinct strings leaves both columns gap-free, and
      the menu is the old menu without the removed strings, in the old order. */
  lemma {:induction false} RemovalsKeepMenu(rows: seq<Row>, menuIds: seq<UInt16>, c: Column)
    requires Sound(rows, c)
    ensures |RemovedAll(rows, menuIds)| == |rows| && Sound(RemovedAll(rows, menuIds), c)
    ensures Menu(RemovedAll(rows, menuIds), c) == Without(Menu(rows, c), menuIds)
  {
    RemovalsKeepSound(rows, menuIds, c);
    if menuIds == [] {
      WithoutNothing(Menu(rows, c));
    } else {
      var last := |menuIds| - 1;
      RemovalsKeepSound(rows, menuIds[..last], c);
      RemovalsKeepMenu(rows, menuIds[..last], c);
      OneRemovalKeepsMenu(RemovedAll(rows, menuIds[..last]), menuIds[last], c);
      WithoutTwice(Menu(rows, c), menuIds[..last], menuIds[last]);
      assert menuIds[..last] + [menuIds[last]] == menuIds;
    }
  }

  lemma OneRemovalKeepsMenu(rows: seq<Row>, menuId: UInt16, c: Column)
    requires Sound(rows, c)
    ensures Sound(Removed(rows, menuId), c)
    ensures Menu(Removed(rows, menuId), c) == Without(Menu(rows, c), [menuId])
  {
    forall i | 0 <= i < |rows|
      ensures HitsBelow(rows, c, menuId, i) <= 1
    {
      DistinctHits(rows, c, menuId, i);
    }
    RemovalKeepsCompactIff(rows, c, menuId);
    MenuAfter(rows, c, menuId, |rows|);
    assert rows[..|rows|] == rows;
    assert Removed(rows, menuId)[..|rows|] == Removed(rows, menuId);
  }

  lemma {:induction false} MenuAfter(rows: seq<Row>, c: Column, menuId: UInt16, k: nat)
    requires |rows| < UNUSED_INDEX && Compact(rows, c) && k <= |rows|
    ensures Menu(Removed(rows, menuId)[..k], c) == Without(Menu(rows[..k], c), [menuId])
  {
    if k > 0 {
      MenuAfter(rows, c, menuId, k - 1);
      SurvivorStays(rows, c, menuId, k - 1);
      var after := Removed(rows, menuId);
      assert after[..k][..k - 1] == after[..k - 1] && rows[..k][..k - 1] == rows[..k - 1];
      if rows[k - 1].Used(c) {
        var m := Menu(rows[..k - 1], c);
        assert (m + [rows[k - 1].menuString])[..|m|] == m;
      }
    }
  }

  lemma {:induction false} WithoutNothing(strings: seq<UInt16>)
    ensures Without(strings, []) == strings
  {
    if strings != [] {
      var last := |strings| - 1;
      WithoutNothing(strings[..last]);
      assert strings == strings[..last] + [strings[last]];
    }
  }

  lemma {:induction false} WithoutTwice(strings: seq<UInt16>, ids: seq<UInt16>, id: UInt16)
    ensures Without(Without(strings, ids), [id]) == Without(strings, ids + [id])
  {
    if strings != [] {
      var last := |strings| - 1;
      WithoutTwice(strings[..last], ids, id);
      var w := Without(strings[..last], ids);
      assert (w + [strings[last]])[..|w|] == w;
      assert w + [] == w;
    }
  }

  // ---- showing the menu and picking from it ----

  /** After the first n rows: one cell per used row, holding its string at its index, then only
      empty cells. */
  predicate Shows(cells: seq<Option<UInt16>>, rows: seq<Row>, c: Column, n: nat)
    requires n <= |rows|
  {
    var k := UsedBelow(rows, c, n);
    && k < |cells|
    && (forall i :: 0 <= i < k ==> cells[i].Some?)
    && (forall i :: k <= i < |cells| ==> cells[i] == None)
    && (forall r :: 0 <= r < n && rows[r].Used(c) ==>
          rows[r].Index(c) < k && cells[rows[r].Index(c)] == Some(rows[r].menuString))
  }

  /** Gap-free, and ended by an empty cell. */
  predicate ShowsMenu(cells: seq<Option<UInt16>>, rows: seq<Row>, c: Column) {
    Shows(cells, rows, c, |rows|)
  }

  lemma ShowNext(cells: seq<Option<UInt16>>, rows: seq<Row>, c: Column, n: nat)
    requires Compact(rows, c) && n < |rows| && |cells| == |rows| + 1
    requires Shows(cells, rows, c, n)
    ensures var k := rows[n].Index(c);
            if rows[n].Used(c) then k < |rows| && Shows(cells[k := Some(rows[n].menuString)], rows, c, n + 1)
            else Shows(cells, rows, c, n + 1)
  {
  }

  /** The text of cell i after the first n rows: that of the last of them with the index. */
  function CellText(rows: seq<Row>, c: Column, i: nat, n: nat): Option<UInt16>
    requires n <= |rows|
  {
    if n == 0 then None
    else if rows[n - 1].Used(c) && rows[n - 1].Index(c) == i && i < |rows| then Some(rows[n - 1].menuString)
    else CellText(rows, c, i, n - 1)
  }

  /** What that means: a cell has a text if and only if some used row among the first n has its index, and the
      text is that of the last such row. */
  lemma {:induction false} CellTextIs(rows: seq<Row>, c: Column, i: nat, n: nat)
    requires n <= |rows| && i < |rows|
    ensures match CellText(rows, c, i, n)
            case None => forall r :: 0 <= r < n && rows[r].Used(c) ==> rows[r].Index(c) != i
            case Some(text) =>
              exists r :: 0 <= r < n && rows[r].Used(c) && rows[r].Index(c) == i && rows[r].menuString == text
                          && forall later :: r < later < n && rows[later].Used(c) ==> rows[later].Index(c) != i
  {
    if n > 0 && !(rows[n - 1].Used(c) && rows[n - 1].Index(c) == i) {
      CellTextIs(rows, c, i, n - 1);
    }
  }

  /** The cells CreateTopMenu fills; None is the zero-initialized cell that ends the list. */
  method CreateTopMenu(formMap: array<Row>, c: Column) returns (cells: array<Option<UInt16>>)
    requires formMap.Length < UNUSED_INDEX
    ensures fresh(cells) && cells.Length == formMap.Length + 1
    ensures forall i :: 0 <= i < cells.Length ==> cells[i] == CellText(formMap[..], c, i, formMap.Length)
    ensures Compact(formMap[..], c) ==> ShowsMenu(cells[..], formMap[..], c)
  {
    ghost var rows := formMap[..];
    cells := new Option<UInt16>[formMap.Length + 1](_ => None);
    for count := 0 to formMap.Length
      invariant forall i :: 0 <= i < cells.Length ==> cells[i] == CellText(rows, c, i, count)
      invariant Compact(rows, c) ==> Shows(cells[..], rows, c, count)
    {
      ghost var before := cells[..];
      var index := formMap[count].Index(c);
      if index != UNUSED_INDEX && index < formMap.Length {
        cells[index] := Some(formMap[count].menuString);
        assert cells[..] == before[index := Some(formMap[count].menuString)];
      }
      if Compact(rows, c) {
        ShowNext(before, rows, c, count);
      }
    }
  }

  /** The first row whose index in the column is the form index, if there is one. */
  predicate Picked(rows: seq<Row>, c: Column, formIndex: nat, r: Option<nat>) {
    match r
    case Some(i) => i < |rows| && rows[i].Index(c) == formIndex
                    && forall j :: 0 <= j < i ==> rows[j].Index(c) != formIndex
    case None => forall i :: 0 <= i < |rows| ==> rows[i].Index(c) != formIndex
  }

  /** The row CallFrontPage opens for a 32-bit form index; None is EFI_NOT_FOUND. */
  method CallFrontPage(formMap: array<Row>, c: Column, formIndex: nat) returns (r: Option<nat>)
    requires formMap.Length > 0 && formIndex < 0x1_0000_0000
    ensures Picked(formMap[..], c, formIndex, r)
    ensures match r
            case Some(i) => i < formMap.Length && formMap[i].Index(c) == formIndex
                            && forall j :: 0 <= j < i ==> formMap[j].Index(c) != formIndex
            case None => forall i :: 0 <= i < formMap.Length ==> formMap[i].Index(c) != formIndex
  {
    var index: UInt16 := 0;
    var count := 0;
    while count < formMap.Length
      invariant 0 <= count <= formMap.Length
      invariant forall i :: 0 <= i < count ==> formMap[i].Index(c) != formIndex
      invariant count > 0 ==> index == formMap[count - 1].Index(c)
    {
      index := formMap[count].Index(c);
      if index == formIndex {
        break;
      }
      count := count + 1;
    }
    if index != formIndex {
      return None;
    }
    return Some(count);
  }

  lemma {:induction false} UsedRowAt(rows: seq<Row>, c: Column, i: nat, n: nat) returns (r: nat)
    requires Compact(rows, c) && n <= |rows| && i < UsedBelow(rows, c, n)
    ensures r < n && rows[r].Used(c) && rows[r].Index(c) == i
  {
    if rows[n - 1].Used(c) && UsedBelow(rows, c, n - 1) == i {
      r := n - 1;
    } else {
      r := UsedRowAt(rows, c, i, n - 1);
    }
  }

  /** The selected cell opens the form whose text it shows; an index past the last cell finds
      nothing, unless it is the unused marker itself and some row is unused. */
  lemma PickMatchesCell(rows: seq<Row>, c: Column, cells: seq<Option<UInt16>>, formIndex: nat, r: Option<nat>)
    requires |rows| < UNUSED_INDEX && Compact(rows, c)
    requires ShowsMenu(cells, rows, c) && Picked(rows, c, formIndex, r)
    ensures formIndex < UsedBelow(rows, c, |rows|) ==>
      r.Some? && cells[formIndex] == Some(rows[r.value].menuString)
    ensures formIndex >= UsedBelow(rows, c, |rows|) ==>
      (r.Some? <==> formIndex == 0xFFFF && exists i :: 0 <= i < |rows| && !rows[i].Used(c))
  {
    if formIndex < UsedBelow(rows, c, |rows|) {
      var i := UsedRowAt(rows, c, formIndex, |rows|);
    }
  }

  /** The table of the source: form ids stand for themselves, strings are numbered 0 to 5. */
  function FormMap(): seq<Row> {
    [ Row(0, 0, 0, 0),
      Row(1, UNUSED_INDEX, 1, 1),
      Row(2, UNUSED_INDEX, 2, 2),
      Row(3, 1, 3, 3),
      Row(4, UNUSED_INDEX, 4, 4),
      Row(5, 2, 5, 5)
    ]
  }

  /** The table the driver starts from meets the conditions above in both columns. */
  lemma FormMapIsCompact(c: Column)
    ensures Sound(FormMap(), c)
  {
    var rows := FormMap();
    assert UsedBelow(rows, c, 0) == 0;
    assert UsedBelow(rows, c, 1) == 1;
    assert UsedBelow(rows, c, 2) == if c.Full? then 2 else 1;
    assert UsedBelow(rows, c, 3) == if c.Full? then 3 else 1;
    assert UsedBelow(rows, c, 4) == if c.Full? then 4 else 2;
    assert UsedBelow(rows, c, 5) == if c.Full? then 5 else 2;
  }

  lemma MenuNext(rows: seq<Row>, c: Column, i: nat)
    requires i < |rows|
    ensures Menu(rows[..i + 1], c) == Menu(rows[..i], c) + if rows[i].Used(c) then [rows[i].menuString] else []
  {
    assert rows[..i + 1][..i] == rows[..i];
  }

  /** And these are the menus it starts with, by string number. */
  lemma FormMapMenu(c: Column)
    ensures Menu(FormMap(), c) == if c.Full? then [0, 1, 2, 3, 4, 5] else [0, 3, 5]
  {
    var rows := FormMap();
    assert Menu(rows[..0], c) == [];
    hide Menu;
    MenuNext(rows, c, 0);
    MenuNext(rows, c, 1);
    MenuNext(rows, c, 2);
    MenuNext(rows, c, 3);
    MenuNext(rows, c, 4);
    MenuNext(rows, c, 5);
    assert rows[..6] == rows;
  }

  /** With a repeated string a removal can leave a gap. */
  lemma RepeatedStringLeavesGap()
    ensures var rows := [Row(0, 0, 7, 0), Row(1, 1, 7, 1), Row(2, 2, 8, 2)];
            Compact(rows, Full) && !Compact(Removed(rows, 7), Full)
  {
    var rows := [Row(0, 0, 7, 0), Row(1, 1, 7, 1), Row(2, 2, 8, 2)];
    assert UsedBelow(rows, Full, 1) == 1 && UsedBelow(rows, Full, 2) == 2;
    assert HitsBelow(rows, Full, 7, 1) == 1 && HitsBelow(rows, Full, 7, 2) == 2;
    RemovalKeepsCompactIff(rows, Full, 7);
    assert rows[2].Used(Full) && rows[2].menuString != 7;
  }
}
