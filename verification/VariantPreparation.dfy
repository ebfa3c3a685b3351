/** The check of a new variant's option values (prepareVariant in products.repository.ts). */
module VariantPreparation {
  import opened Wrappers
  import opened Collections
  import opened CombinationKey
  import opened VariantMatrix

  /** A row of the option-value table joined with its option. */
  datatype ValueRow = ValueRow(id: string, value: string, optionId: string, code: string, productId: string)

  datatype Link = Link(optionId: string, optionValueId: string)

  datatype Prepared = Prepared(combinationKey: string, links: seq<Link>)

  /** The stored rows of this product are exactly the values of its options. */
  ghost predicate Stores(table: map<string, ValueRow>, productId: string, options: seq<ProductOption>)
  {
    && (forall id :: id in table ==> table[id].id == id)
    && (forall i, v :: 0 <= i < |options| && v in options[i].values ==>
          v.id in table && table[v.id] == ValueRow(v.id, v.value, options[i].id, options[i].code, productId))
    && (forall id :: id in table && table[id].productId == productId ==>
          exists i, v :: 0 <= i < |options| && v in options[i].values && v.id == id)
  }

  /** The ids are those of this choice, in some order. */
  ghost predicate Selects(options: seq<ProductOption>, ids: seq<string>, choice: seq<Value>)
  {
    Chooses(options, choice) && multiset(ids) == multiset(IdsOf(choice))
  }

  function RowIds(rows: seq<ValueRow>): (ids: seq<string>)
    ensures |ids| == |rows| && forall k :: 0 <= k < |rows| ==> ids[k] == rows[k].id
  {
    seq(|rows|, k requires 0 <= k < |rows| => rows[k].id)
  }

  function OptionIds(rows: seq<ValueRow>): (ids: seq<string>)
    ensures |ids| == |rows| && forall k :: 0 <= k < |rows| ==> ids[k] == rows[k].optionId
  {
    seq(|rows|, k requires 0 <= k < |rows| => rows[k].optionId)
  }

  function RowParts(rows: seq<ValueRow>): (parts: seq<string>)
    ensures |parts| == |rows| && forall k :: 0 <= k < |rows| ==> parts[k] == Part(rows[k].code, rows[k].value)
  {
    seq(|rows|, k requires 0 <= k < |rows| => Part(rows[k].code, rows[k].value))
  }

  function RowLinks(rows: seq<ValueRow>): (links: seq<Link>)
    ensures |links| == |rows| && forall k :: 0 <= k < |rows| ==> links[k] == Link(rows[k].optionId, rows[k].id)
  {
    seq(|rows|, k requires 0 <= k < |rows| => Link(rows[k].optionId, rows[k].id))
  }

  /** The rows of the chosen values, in the options' order. */
  ghost function ChoiceRows(table: map<string, ValueRow>, choice: seq<Value>): (rows: seq<ValueRow>)
    requires forall i :: 0 <= i < |choice| ==> choice[i].id in table
    ensures |rows| == |choice| && forall i :: 0 <= i < |choice| ==> rows[i] == table[choice[i].id]
  {
    seq(|choice|, i requires 0 <= i < |choice| => table[choice[i].id])
  }

  /** SELECT ... WHERE id IN (ids): each row that is there once, in no particular order. */
  method FindValues(table: map<string, ValueRow>, ids: seq<string>) returns (rows: seq<ValueRow>)
    requires forall id :: id in table ==> table[id].id == id
    ensures Distinct(RowIds(rows))
    ensures forall k :: 0 <= k < |rows| ==> rows[k].id in table && rows[k] == table[rows[k].id]
    ensures SetOf(RowIds(rows)) == SetOf(ids) * table.Keys
  {
    rows := [];
    var rest := SetOf(ids) * table.Keys;
    ghost var wanted := rest;
    while rest != {}
      invariant rest <= wanted
      invariant Distinct(RowIds(rows))
      invariant forall k :: 0 <= k < |rows| ==> rows[k].id in table && rows[k] == table[rows[k].id]
      invariant forall id :: id in RowIds(rows) <==> id in wanted - rest
      decreases rest
    {
      var id :| id in rest;
      assert RowIds(rows + [table[id]]) == RowIds(rows) + [id];
      assert id !in RowIds(rows);
      rows := rows + [table[id]];
      rest := rest - {id};
    }
  }

  /** As many rows as ids come back exactly when every id is known and none is repeated. */
  lemma AllFound(table: map<string, ValueRow>, ids: seq<string>, found: seq<string>)
    requires Distinct(found) && SetOf(found) == SetOf(ids) * table.Keys
    ensures |found| == |ids| <==> Distinct(ids) && SetOf(ids) <= table.Keys
    ensures |found| == |ids| ==> multiset(found) == multiset(ids)
  {
    hide Distinct;
    SetSize(found);
    SetSize(ids);
    if Distinct(ids) && SetOf(ids) <= table.Keys {
      assert SetOf(found) == SetOf(ids);
    }
    if |found| == |ids| {
      assert SetOf(found) <= SetOf(ids);
      SubsetSize(SetOf(found), SetOf(ids));
      SubsetOfSameSize(SetOf(found), SetOf(ids));
      SameElements(found, ids);
    }
  }

  // ---- the checks pass exactly for the ids of a choice

  /** The chosen values' rows, in the options' order. */
  lemma ChosenRows(table: map<string, ValueRow>, productId: string, options: seq<ProductOption>, choice: seq<Value>,
                   i: nat)
    requires Stores(table, productId, options) && Chooses(options, choice) && i < |options|
    ensures choice[i].id in table
    ensures table[choice[i].id] == ValueRow(choice[i].id, choice[i].value, options[i].id, options[i].code, productId)
  {
    assert choice[i] in options[i].values;
  }

  /** Every option is among those of the rows. */
  ghost predicate Covered(options: seq<ProductOption>, optionIds: seq<string>)
  {
    forall i :: 0 <= i < |options| ==> options[i].id in optionIds
  }

  ghost predicate GoodRow(table: map<string, ValueRow>, productId: string, row: ValueRow)
  {
    row.id in table && row == table[row.id] && row.productId == productId
  }

  /** A row of this product belongs to one of its values. */
  lemma RowValue(table: map<string, ValueRow>, productId: string, options: seq<ProductOption>, row: ValueRow)
    returns (i: nat, v: Value)
    requires Stores(table, productId, options) && GoodRow(table, productId, row)
    ensures i < |options| && v in options[i].values && v.id == row.id
    ensures row == ValueRow(v.id, v.value, options[i].id, options[i].code, productId)
  {
    i, v :| 0 <= i < |options| && v in options[i].values && v.id == row.id;
  }

  lemma RowOfOption(table: map<string, ValueRow>, productId: string, options: seq<ProductOption>, rows: seq<ValueRow>,
                    i: nat)
    returns (v: Value, k: nat)
    requires WellFormed(options) && Stores(table, productId, options) && i < |options|
    requires forall k :: 0 <= k < |rows| ==> GoodRow(table, productId, rows[k])
    requires options[i].id in OptionIds(rows)
    ensures v in options[i].values && k < |rows| && rows[k].id == v.id
  {
    k :| 0 <= k < |rows| && OptionIds(rows)[k] == options[i].id;
    var j, w := RowValue(table, productId, options, rows[k]);
    assert i == j;
    v := w;
  }

  /** Rows that cover the options are those of a choice. */
  lemma ChoiceFromRows(table: map<string, ValueRow>, productId: string, options: seq<ProductOption>,
                       rows: seq<ValueRow>, n: nat) returns (choice: seq<Value>)
    requires WellFormed(options) && Stores(table, productId, options) && n <= |options|
    requires forall k :: 0 <= k < |rows| ==> GoodRow(table, productId, rows[k])
    requires Covered(options, OptionIds(rows))
    ensures |choice| == n && forall i :: 0 <= i < n ==> choice[i] in options[i].values && choice[i].id in RowIds(rows)
  {
    hide WellFormed, Stores, GoodRow;
    choice := [];
    for i := 0 to n
      invariant |choice| == i
      invariant forall j :: 0 <= j < i ==> choice[j] in options[j].values && choice[j].id in RowIds(rows)
    {
      var v, k := RowOfOption(table, productId, options, rows, i);
      assert RowIds(rows)[k] == v.id;
      choice := choice + [v];
    }
  }

  lemma ChoiceIdsDistinct(options: seq<ProductOption>, choice: seq<Value>)
    requires WellFormed(options) && Chooses(options, choice)
    ensures Distinct(IdsOf(choice))
  {
    forall i, j | 0 <= i < j < |choice| ensures IdsOf(choice)[i] != IdsOf(choice)[j] {
      assert choice[i] in options[i].values && choice[j] in options[j].values;
    }
  }

  /** As many distinct rows as options, covering them all: their ids are those of a choice. */
  lemma RowsSelect(table: map<string, ValueRow>, productId: string, options: seq<ProductOption>, rows: seq<ValueRow>)
    returns (choice: seq<Value>)
    requires WellFormed(options) && Stores(table, productId, options)
    requires forall k :: 0 <= k < |rows| ==> GoodRow(table, productId, rows[k])
    requires Distinct(RowIds(rows)) && |rows| == |options| && Covered(options, OptionIds(rows))
    ensures Selects(options, RowIds(rows), choice)
  {
    hide WellFormed, Stores, GoodRow, Distinct, Covered;
    choice := ChoiceFromRows(table, productId, options, rows, |options|);
    assert Chooses(options, choice);
    ChoiceIdsDistinct(options, choice);
    var ids, chosen := RowIds(rows), IdsOf(choice);
    SetSize(ids);
    SetSize(chosen);
    assert SetOf(chosen) <= SetOf(ids);
    SubsetOfSameSize(SetOf(chosen), SetOf(ids));
    SameElements(ids, chosen);
  }

  /** The ids of a choice pass every check. */
  lemma SelectedRowsPass(table: map<string, ValueRow>, productId: string, options: seq<ProductOption>,
                         rows: seq<ValueRow>, choice: seq<Value>)
    requires WellFormed(options) && Stores(table, productId, options) && Selects(options, RowIds(rows), choice)
    requires forall k :: 0 <= k < |rows| ==> rows[k].id in table && rows[k] == table[rows[k].id]
    ensures |rows| == |options| && Covered(options, OptionIds(rows)) && |SetOf(OptionIds(rows))| == |options|
    ensures forall k :: 0 <= k < |rows| ==> GoodRow(table, productId, rows[k])
  {
    hide WellFormed, Stores;
    Rearranged(RowIds(rows), IdsOf(choice));
    forall k | 0 <= k < |rows| ensures GoodRow(table, productId, rows[k]) {
      assert RowIds(rows)[k] in SetOf(IdsOf(choice));
      var i :| 0 <= i < |choice| && IdsOf(choice)[i] == rows[k].id;
      ChosenRows(table, productId, options, choice, i);
    }
    forall i | 0 <= i < |options| ensures options[i].id in OptionIds(rows) {
      assert IdsOf(choice)[i] in SetOf(RowIds(rows));
      var k :| 0 <= k < |rows| && RowIds(rows)[k] == choice[i].id;
      ChosenRows(table, productId, options, choice, i);
      assert OptionIds(rows)[k] == options[i].id;
    }
    CoveredSize(options, OptionIds(rows));
  }

  function IdsOfOptions(options: seq<ProductOption>): (ids: seq<string>)
    ensures |ids| == |options| && forall i :: 0 <= i < |options| ==> ids[i] == options[i].id
  {
    seq(|options|, i requires 0 <= i < |options| => options[i].id)
  }

  lemma OptionIdsDiffer(options: seq<ProductOption>)
    requires WellFormed(options)
    ensures Distinct(IdsOfOptions(options))
  {
  }

  lemma CoveredSize(options: seq<ProductOption>, optionIds: seq<string>)
    requires WellFormed(options) && |optionIds| == |options| && Covered(options, optionIds)
    ensures |SetOf(optionIds)| == |options|
  {
    hide WellFormed, Distinct;
    var own := IdsOfOptions(options);
    OptionIdsDiffer(options);
    SetSize(own);
    SetSize(optionIds);
    assert SetOf(own) <= SetOf(optionIds);
    SubsetSize(SetOf(own), SetOf(optionIds));
  }

  // ---- the key is that of the choice

  lemma MovedPart(rows: seq<ValueRow>, k: nat)
    requires k < |rows|
    ensures multiset(RowParts(rows)) ==
            multiset(RowParts(Without(rows, k))) + multiset{Part(rows[k].code, rows[k].value)}
  {
    hide Part;
    var parts := RowParts(rows);
    assert parts == parts[..k] + [parts[k]] + parts[k + 1..];
    assert RowParts(Without(rows, k)) == parts[..k] + parts[k + 1..];
  }

  /** Rearranged rows have rearranged parts. */
  lemma {:induction false} RearrangedParts(a: seq<ValueRow>, b: seq<ValueRow>)
    requires multiset(a) == multiset(b)
    ensures multiset(RowParts(a)) == multiset(RowParts(b))
    decreases |a|
  {
    hide Part, RowParts, Without;
    Rearranged(a, b);
    if |a| > 0 {
      var k := PlaceIn(a[0], b);
      TakenOut(a, b, 0, k);
      MovedPart(a, 0);
      MovedPart(b, k);
      RearrangedParts(Without(a, 0), Without(b, k));
    } else {
      assert a == b;
    }
  }

  lemma PlaceIn(r: ValueRow, rows: seq<ValueRow>) returns (k: nat)
    requires r in SetOf(rows)
    ensures k < |rows| && rows[k] == r
  {
    k :| 0 <= k < |rows| && rows[k] == r;
  }

  lemma SelectedKey(table: map<string, ValueRow>, productId: string, options: seq<ProductOption>,
                    rows: seq<ValueRow>, choice: seq<Value>)
    requires WellFormed(options) && Stores(table, productId, options) && Selects(options, RowIds(rows), choice)
    requires Distinct(RowIds(rows))
    requires forall k :: 0 <= k < |rows| ==> GoodRow(table, productId, rows[k])
    ensures Key(RowParts(rows)) == ChoiceKey(options, choice)
  {
    hide WellFormed, Stores, Key, Part;
    forall i | 0 <= i < |choice|
      ensures choice[i].id in table
      ensures table[choice[i].id] == ValueRow(choice[i].id, choice[i].value, options[i].id, options[i].code, productId)
    {
      ChosenRows(table, productId, options, choice, i);
    }
    var chosen := ChoiceRows(table, choice);
    assert RowIds(chosen) == IdsOf(choice);
    SameRows(table, rows, chosen);
    RearrangedParts(rows, chosen);
    assert RowParts(chosen) == PartsOf(options, choice);
    KeyIgnoresOrder(RowParts(rows), PartsOf(options, choice));
  }

  lemma DistinctRows(rows: seq<ValueRow>)
    requires Distinct(RowIds(rows))
    ensures Distinct(rows)
  {
    forall i, j | 0 <= i < j < |rows| ensures rows[i] != rows[j] {
      assert RowIds(rows)[i] != RowIds(rows)[j];
    }
  }

  lemma RowAmong(table: map<string, ValueRow>, rows: seq<ValueRow>, others: seq<ValueRow>, r: ValueRow)
    requires SetOf(RowIds(rows)) <= SetOf(RowIds(others)) && r in rows
    requires forall k :: 0 <= k < |rows| ==> rows[k].id in table && rows[k] == table[rows[k].id]
    requires forall k :: 0 <= k < |others| ==> others[k].id in table && others[k] == table[others[k].id]
    ensures r in others
  {
    var k :| 0 <= k < |rows| && rows[k] == r;
    assert RowIds(rows)[k] in SetOf(RowIds(others));
    var i :| 0 <= i < |others| && RowIds(others)[i] == r.id;
    assert others[i] == r;
  }

  lemma SameRows(table: map<string, ValueRow>, rows: seq<ValueRow>, others: seq<ValueRow>)
    requires Distinct(RowIds(rows)) && multiset(RowIds(rows)) == multiset(RowIds(others))
    requires forall k :: 0 <= k < |rows| ==> rows[k].id in table && rows[k] == table[rows[k].id]
    requires forall k :: 0 <= k < |others| ==> others[k].id in table && others[k] == table[others[k].id]
    ensures multiset(rows) == multiset(others)
  {
    hide Distinct, RowIds;
    Rearranged(RowIds(rows), RowIds(others));
    SetSize(RowIds(rows));
    SetSize(RowIds(others));
    DistinctRows(rows);
    DistinctRows(others);
    forall r ensures r in rows <==> r in others {
      if r in rows {
        RowAmong(table, rows, others, r);
      }
      if r in others {
        RowAmong(table, others, rows, r);
      }
    }
    SameElements(rows, others);
  }

  /** What is stored for a choice: its key, and a link per option. */
  ghost predicate IsPrepared(options: seq<ProductOption>, choice: seq<Value>, p: Prepared)
  {
    && |choice| == |options| && |p.links| == |options|
    && p.combinationKey == ChoiceKey(options, choice)
    && forall i :: 0 <= i < |options| ==> Link(options[i].id, choice[i].id) in p.links
  }

  /** Every id is known, belongs to this product, and is given once. */
  ghost predicate IdsFit(table: map<string, ValueRow>, productId: string, ids: seq<string>)
  {
    Distinct(ids) && forall id :: id in ids ==> id in table && table[id].productId == productId
  }

  /** Accepted exactly for the ids of a choice, whatever their order, and then stored under its key. */
  ghost predicate ChoiceIsPrepared(options: seq<ProductOption>, ids: seq<string>, reply: Result<Prepared>)
  {
    if reply.Ok? then exists choice :: Selects(options, ids, choice) && IsPrepared(options, choice, reply.value)
    else !exists choice :: Selects(options, ids, choice)
  }

  lemma SelectedLinks(table: map<string, ValueRow>, productId: string, options: seq<ProductOption>,
                      rows: seq<ValueRow>, choice: seq<Value>)
    requires Stores(table, productId, options) && Selects(options, RowIds(rows), choice)
    requires forall k :: 0 <= k < |rows| ==> GoodRow(table, productId, rows[k])
    ensures forall i :: 0 <= i < |options| ==> Link(options[i].id, choice[i].id) in RowLinks(rows)
    ensures |rows| == |options|
  {
    Rearranged(RowIds(rows), IdsOf(choice));
    forall i | 0 <= i < |options| ensures Link(options[i].id, choice[i].id) in RowLinks(rows) {
      assert IdsOf(choice)[i] in SetOf(RowIds(rows));
      var k :| 0 <= k < |rows| && RowIds(rows)[k] == choice[i].id;
      ChosenRows(table, productId, options, choice, i);
      assert RowLinks(rows)[k] == Link(options[i].id, choice[i].id);
    }
  }

  lemma FoundProducts(table: map<string, ValueRow>, productId: string, ids: seq<string>, rows: seq<ValueRow>)
    requires SetOf(RowIds(rows)) == SetOf(ids) && SetOf(ids) <= table.Keys
    requires forall k :: 0 <= k < |rows| ==> rows[k].id in table && rows[k] == table[rows[k].id]
    ensures (forall k :: 0 <= k < |rows| ==> rows[k].productId == productId) <==>
            forall id :: id in ids ==> table[id].productId == productId
  {
    if forall k :: 0 <= k < |rows| ==> rows[k].productId == productId {
      forall id | id in ids ensures table[id].productId == productId {
        assert id in SetOf(RowIds(rows));
        var k :| 0 <= k < |rows| && RowIds(rows)[k] == id;
      }
    } else {
      var k :| 0 <= k < |rows| && rows[k].productId != productId;
      assert RowIds(rows)[k] in SetOf(ids);
    }
  }

  lemma FoundFit(table: map<string, ValueRow>, productId: string, ids: seq<string>, rows: seq<ValueRow>)
    requires Distinct(RowIds(rows)) && SetOf(RowIds(rows)) == SetOf(ids) * table.Keys
    requires forall k :: 0 <= k < |rows| ==> rows[k].id in table && rows[k] == table[rows[k].id]
    ensures |rows| == |ids| && (forall k :: 0 <= k < |rows| ==> rows[k].productId == productId) <==>
            IdsFit(table, productId, ids)
    ensures |rows| == |ids| ==> multiset(RowIds(rows)) == multiset(ids)
  {
    hide Distinct, RowIds;
    AllFound(table, ids, RowIds(rows));
    if SetOf(ids) <= table.Keys {
      assert SetOf(RowIds(rows)) == SetOf(ids);
      FoundProducts(table, productId, ids, rows);
    } else {
      var id :| id in SetOf(ids) && id !in table.Keys;
      assert id in ids;
    }
  }

  lemma SelectedFit(table: map<string, ValueRow>, productId: string, options: seq<ProductOption>,
                    ids: seq<string>, choice: seq<Value>)
    requires WellFormed(options) && Stores(table, productId, options) && Selects(options, ids, choice)
    ensures IdsFit(table, productId, ids)
  {
    hide WellFormed, Stores, Distinct;
    Rearranged(ids, IdsOf(choice));
    ChoiceIdsDistinct(options, choice);
    SetSize(ids);
    SetSize(IdsOf(choice));
    forall id | id in ids ensures id in table && table[id].productId == productId {
      assert id in SetOf(IdsOf(choice));
      var i :| 0 <= i < |choice| && IdsOf(choice)[i] == id;
      ChosenRows(table, productId, options, choice, i);
    }
  }

  /** The part of prepareVariant for a product with options. */
  method PrepareChoice(ghost table: map<string, ValueRow>, ghost productId: string, options: seq<ProductOption>,
                       rows: seq<ValueRow>) returns (reply: Result<Prepared>)
    requires WellFormed(options) && Stores(table, productId, options) && Distinct(RowIds(rows))
    requires forall k :: 0 <= k < |rows| ==> GoodRow(table, productId, rows[k])
    ensures ChoiceIsPrepared(options, RowIds(rows), reply)
    ensures reply.Ok? || reply == Refused("PRODUCT_VARIANT_INCOMPLETE_OPTIONS")
  {
    hide WellFormed, Stores, Selects, GoodRow, Distinct, Key;
    var optionIds := OptionIds(rows);
    forall choice | Selects(options, RowIds(rows), choice)
      ensures |rows| == |options| && Covered(options, optionIds) && |SetOf(optionIds)| == |options|
    {
      GoodRows(table, productId, rows);
      SelectedRowsPass(table, productId, options, rows, choice);
    }
    if |rows| != |options| || |SetOf(optionIds)| != |options| ||
       exists i :: 0 <= i < |options| && options[i].id !in optionIds
    {
      return Refused("PRODUCT_VARIANT_INCOMPLETE_OPTIONS");
    }
    ghost var choice := RowsSelect(table, productId, options, rows);
    SelectedKey(table, productId, options, rows, choice);
    SelectedLinks(table, productId, options, rows, choice);
    SelectedLength(options, RowIds(rows), choice);
    reply := Ok(Prepared(Key(RowParts(rows)), RowLinks(rows)));
    assert IsPrepared(options, choice, reply.value);
  }

  lemma GoodRows(table: map<string, ValueRow>, productId: string, rows: seq<ValueRow>)
    requires forall k :: 0 <= k < |rows| ==> GoodRow(table, productId, rows[k])
    ensures forall k :: 0 <= k < |rows| ==> rows[k].id in table && rows[k] == table[rows[k].id]
    ensures forall k :: 0 <= k < |rows| ==> rows[k].productId == productId
  {
  }

  lemma SelectedLength(options: seq<ProductOption>, ids: seq<string>, choice: seq<Value>)
    requires Selects(options, ids, choice)
    ensures |choice| == |options|
  {
  }

  lemma SameSelection(options: seq<ProductOption>, ids: seq<string>, other: seq<string>, reply: Result<Prepared>)
    requires multiset(ids) == multiset(other) && ChoiceIsPrepared(options, ids, reply)
    ensures ChoiceIsPrepared(options, other, reply)
  {
    hide Chooses, IsPrepared;
    forall choice ensures Selects(options, ids, choice) <==> Selects(options, other, choice) {
    }
  }

  /**
   prepareVariant for a product that is there and a valid price. `others` tells whether the product has
   variants besides the one being prepared.
   */
  method PrepareVariant(table: map<string, ValueRow>, productId: string, options: seq<ProductOption>, others: bool,
                        ids: seq<string>, isDefault: Option<bool>, isActive: Option<bool>)
    returns (reply: Result<Prepared>)
    requires WellFormed(options) && Stores(table, productId, options)
    ensures reply == Refused("PRODUCT_VARIANT_OPTION_VALUE_SCOPE_MISMATCH") <==> !IdsFit(table, productId, ids)
    ensures |options| > 0 ==> ChoiceIsPrepared(options, ids, reply)
    ensures |options| == 0 ==>
              (reply.Ok? <==> ids == [] && !others && isDefault != Some(false) && isActive != Some(false))
    ensures |options| == 0 && reply.Ok? ==> reply.value == Prepared("DEFAULT", [])
  {
    hide WellFormed, Selects, Distinct, Chooses, IdsFit, IsPrepared;
    assert forall id :: id in table ==> table[id].id == id;
    var rows := FindValues(table, ids);
    hide Stores;
    FoundFit(table, productId, ids, rows);
    if |rows| != |ids| || exists k :: 0 <= k < |rows| && rows[k].productId != productId {
      forall choice ensures !Selects(options, ids, choice) {
        if Selects(options, ids, choice) {
          SelectedFit(table, productId, options, ids, choice);
        }
      }
      EmptyFits(table, productId, ids);
      return Refused("PRODUCT_VARIANT_OPTION_VALUE_SCOPE_MISMATCH");
    }
    if |options| == 0 {
      if |rows| > 0 || others || isDefault == Some(false) || isActive == Some(false) {
        return Refused("PRODUCT_SIMPLE_VARIANT_REQUIRED");
      }
      return Ok(Prepared("DEFAULT", []));
    }
    reply := PrepareChoice(table, productId, options, rows);
    SameSelection(options, RowIds(rows), ids, reply);
  }

  lemma EmptyFits(table: map<string, ValueRow>, productId: string, ids: seq<string>)
    ensures ids == [] ==> IdsFit(table, productId, ids)
  {
  }
}
