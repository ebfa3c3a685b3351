/** The preview of all variants of a product (generatePreview in products.repository.ts). */
module VariantMatrix {
  import opened Collections
  import opened CombinationKey
  import Sorting
  import Text

  datatype Value = Value(id: string, title: string, value: string)

  datatype ProductOption = ProductOption(id: string, name: string, code: string, values: seq<Value>)

  /** One row of the matrix while it grows, an entry per option met so far. */
  datatype Combination = Combination(labelParts: seq<string>, keys: seq<string>, ids: seq<string>)

  datatype Item = Item(name: string, combinationKey: string, optionValueIds: seq<string>, isPresent: bool)

  datatype Preview = Matrix(count: nat, items: seq<Item>) | TooLarge(count: nat)

  const MAX_VARIANT_COMBINATIONS: nat := 200

  // ---- the fold over the options

  function Extended(c: Combination, o: ProductOption, v: Value): Combination
  {
    Combination(c.labelParts + [o.name + ": " + v.title], c.keys + [Part(o.code, v.value)], c.ids + [v.id])
  }

  function ExtendedBy(c: Combination, o: ProductOption, values: seq<Value>): (rows: seq<Combination>)
    ensures |rows| == |values| && forall j :: 0 <= j < |values| ==> rows[j] == Extended(c, o, values[j])
  {
    seq(|values|, j requires 0 <= j < |values| => Extended(c, o, values[j]))
  }

  function FlatMap(rows: seq<Combination>, o: ProductOption): seq<Combination>
  {
    if |rows| == 0 then []
    else FlatMap(rows[..|rows| - 1], o) + ExtendedBy(rows[|rows| - 1], o, o.values)
  }

  function Combinations(options: seq<ProductOption>): seq<Combination>
  {
    if |options| == 0 then [Combination([], [], [])]
    else FlatMap(Combinations(options[..|options| - 1]), options[|options| - 1])
  }

  function Count(options: seq<ProductOption>): nat
  {
    if |options| == 0 then 1 else Count(options[..|options| - 1]) * |options[|options| - 1].values|
  }

  // ---- what the rows mean

  /** One value of every option, in the options' order. */
  ghost predicate Chooses(options: seq<ProductOption>, choice: seq<Value>)
  {
    |choice| == |options| && forall i :: 0 <= i < |options| ==> choice[i] in options[i].values
  }

  function RowOf(options: seq<ProductOption>, choice: seq<Value>): Combination
    requires |choice| == |options|
  {
    if |options| == 0 then Combination([], [], [])
    else Extended(RowOf(options[..|options| - 1], choice[..|choice| - 1]), options[|options| - 1], choice[|choice| - 1])
  }

  function PartsOf(options: seq<ProductOption>, choice: seq<Value>): (parts: seq<string>)
    ensures |choice| == |options| ==> |parts| == |options|
    ensures forall i :: 0 <= i < |parts| ==>
              i < |options| && i < |choice| && parts[i] == Part(options[i].code, choice[i].value)
  {
    seq(if |choice| < |options| then |choice| else |options|, i requires 0 <= i < |options| && i < |choice| =>
      Part(options[i].code, choice[i].value))
  }

  function IdsOf(choice: seq<Value>): (ids: seq<string>)
    ensures |ids| == |choice| && forall i :: 0 <= i < |choice| ==> ids[i] == choice[i].id
  {
    seq(|choice|, i requires 0 <= i < |choice| => choice[i].id)
  }

  /** What each chosen value is called, after its option. */
  function LabelsOf(options: seq<ProductOption>, choice: seq<Value>): (labels: seq<string>)
    ensures |choice| == |options| ==> |labels| == |options|
    ensures forall i :: 0 <= i < |labels| ==>
              i < |options| && i < |choice| && labels[i] == options[i].name + ": " + choice[i].title
  {
    seq(if |choice| < |options| then |choice| else |options|, i requires 0 <= i < |options| && i < |choice| =>
      options[i].name + ": " + choice[i].title)
  }

  /** The key under which a choice is stored. */
  function ChoiceKey(options: seq<ProductOption>, choice: seq<Value>): string
  {
    Key(PartsOf(options, choice))
  }

  /** What the unique indexes and primary keys of options and values give. */
  ghost predicate WellFormed(options: seq<ProductOption>)
  {
    && (forall i, j :: 0 <= i < j < |options| ==> options[i].id != options[j].id && options[i].code != options[j].code)
    && (forall i, j, v, w ::
          0 <= i < |options| && 0 <= j < |options| && v in options[i].values && w in options[j].values &&
          v.id == w.id ==>
            i == j && v == w)
    && (forall i :: 0 <= i < |options| ==> Distinct(options[i].values))
    && (forall i, v, w ::
          0 <= i < |options| && v in options[i].values && w in options[i].values && v.value == w.value ==>
            v == w)
  }

  lemma {:induction false} FlatMapMembers(rows: seq<Combination>, o: ProductOption, row: Combination)
    ensures row in FlatMap(rows, o) <==> exists c, v :: c in rows && v in o.values && row == Extended(c, o, v)
  {
    hide Extended;
    if |rows| > 0 {
      var front, last := rows[..|rows| - 1], rows[|rows| - 1];
      FlatMapMembers(front, o, row);
      if row in ExtendedBy(last, o, o.values) {
        var j :| 0 <= j < |o.values| && row == Extended(last, o, o.values[j]);
        assert last in rows && o.values[j] in o.values;
      }
      if c, v :| c in rows && v in o.values && row == Extended(c, o, v) {
        if c == last {
          var j :| 0 <= j < |o.values| && o.values[j] == v;
          assert ExtendedBy(last, o, o.values)[j] == row;
        } else {
          assert c in front;
        }
      }
    }
  }

  lemma {:induction false} FlatMapSize(rows: seq<Combination>, o: ProductOption)
    ensures |FlatMap(rows, o)| == |rows| * |o.values|
  {
    if |rows| > 0 {
      FlatMapSize(rows[..|rows| - 1], o);
      assert |rows| * |o.values| == (|rows| - 1) * |o.values| + |o.values|;
    }
  }

  lemma ExtendedInjective(c: Combination, d: Combination, o: ProductOption, v: Value, w: Value)
    requires Extended(c, o, v) == Extended(d, o, w)
    ensures c == d && v.id == w.id
  {
    var x, y := Extended(c, o, v), Extended(d, o, w);
    assert c.labelParts == x.labelParts[..|x.labelParts| - 1] && d.labelParts == y.labelParts[..|y.labelParts| - 1];
    assert c.keys == x.keys[..|x.keys| - 1] && d.keys == y.keys[..|y.keys| - 1];
    assert c.ids == x.ids[..|x.ids| - 1] && d.ids == y.ids[..|y.ids| - 1];
    assert v.id == x.ids[|x.ids| - 1] && w.id == y.ids[|y.ids| - 1];
  }

  ghost predicate DistinctValueIds(values: seq<Value>)
  {
    forall j, l :: 0 <= j < l < |values| ==> values[j].id != values[l].id
  }

  lemma {:induction false} FlatMapDistinct(rows: seq<Combination>, o: ProductOption)
    requires Distinct(rows) && DistinctValueIds(o.values)
    ensures Distinct(FlatMap(rows, o))
  {
    hide Extended;
    if |rows| > 0 {
      var front, last := rows[..|rows| - 1], rows[|rows| - 1];
      FlatMapDistinct(front, o);
      var earlier, added := FlatMap(front, o), ExtendedBy(last, o, o.values);
      forall i, j | 0 <= i < |earlier| && 0 <= j < |added| ensures earlier[i] != added[j] {
        FlatMapMembers(front, o, earlier[i]);
        var c, v :| c in front && v in o.values && earlier[i] == Extended(c, o, v);
        if earlier[i] == added[j] {
          ExtendedInjective(c, last, o, v, o.values[j]);
        }
      }
      forall j, l | 0 <= j < l < |added| ensures added[j] != added[l] {
        if added[j] == added[l] {
          ExtendedInjective(last, last, o, o.values[j], o.values[l]);
        }
      }
    }
  }

  lemma {:induction false} RowFields(options: seq<ProductOption>, choice: seq<Value>)
    requires |choice| == |options|
    ensures RowOf(options, choice).keys == PartsOf(options, choice)
    ensures RowOf(options, choice).ids == IdsOf(choice)
  {
    if |options| > 0 {
      RowFields(options[..|options| - 1], choice[..|choice| - 1]);
    }
  }

  lemma {:induction false} RowLabels(options: seq<ProductOption>, choice: seq<Value>)
    requires |choice| == |options|
    ensures RowOf(options, choice).labelParts == LabelsOf(options, choice)
  {
    hide Part;
    if |options| > 0 {
      RowLabels(options[..|options| - 1], choice[..|choice| - 1]);
    }
  }

  lemma {:induction false} RowOfChoice(options: seq<ProductOption>, choice: seq<Value>)
    requires Chooses(options, choice)
    ensures RowOf(options, choice) in Combinations(options)
  {
    if |options| > 0 {
      var front, last := options[..|options| - 1], options[|options| - 1];
      RowOfChoice(front, choice[..|choice| - 1]);
      FlatMapMembers(Combinations(front), last, RowOf(options, choice));
    }
  }

  lemma {:induction false} OneMore(options: seq<ProductOption>, rest: seq<Value>, v: Value)
    requires |options| > 0 && v in options[|options| - 1].values && Chooses(options[..|options| - 1], rest)
    ensures Chooses(options, rest + [v]) && |rest| == |options| - 1
    ensures RowOf(options, rest + [v]) == Extended(RowOf(options[..|options| - 1], rest), options[|options| - 1], v)
  {
    assert (rest + [v])[..|rest|] == rest;
  }

  lemma {:induction false} ChoiceOfRow(options: seq<ProductOption>, row: Combination) returns (choice: seq<Value>)
    requires row in Combinations(options)
    ensures Chooses(options, choice) && row == RowOf(options, choice)
  {
    if |options| == 0 {
      choice := [];
    } else {
      hide Extended;
      var front, last := options[..|options| - 1], options[|options| - 1];
      FlatMapMembers(Combinations(front), last, row);
      var c, v :| c in Combinations(front) && v in last.values && row == Extended(c, last, v);
      choice := ChoiceOfRow(front, c);
      OneMore(options, choice, v);
      choice := choice + [v];
    }
  }

  lemma WellFormedFront(options: seq<ProductOption>)
    requires WellFormed(options) && |options| > 0
    ensures WellFormed(options[..|options| - 1]) && DistinctValueIds(options[|options| - 1].values)
  {
    var front, last := options[..|options| - 1], options[|options| - 1];
    forall j, l | 0 <= j < l < |last.values| ensures last.values[j].id != last.values[l].id {
      assert last.values[j] in last.values && last.values[l] in last.values;
    }
    forall i, j, v, w | 0 <= i < |front| && 0 <= j < |front| && v in front[i].values && w in front[j].values &&
        v.id == w.id
      ensures i == j && v == w
    {
      assert v in options[i].values && w in options[j].values;
    }
  }

  /** The matrix has as many rows as there are choices, none twice. */
  lemma {:induction false} MatrixSize(options: seq<ProductOption>)
    requires WellFormed(options)
    ensures |Combinations(options)| == Count(options) && Distinct(Combinations(options))
  {
    hide WellFormed;
    if |options| > 0 {
      WellFormedFront(options);
      MatrixSize(options[..|options| - 1]);
      FlatMapSize(Combinations(options[..|options| - 1]), options[|options| - 1]);
      FlatMapDistinct(Combinations(options[..|options| - 1]), options[|options| - 1]);
    }
  }

  /** Different choices are different rows, told apart by their value ids. */
  lemma IdsTellChoices(options: seq<ProductOption>, a: seq<Value>, b: seq<Value>)
    requires WellFormed(options) && Chooses(options, a) && Chooses(options, b)
    requires IdsOf(a) == IdsOf(b)
    ensures a == b
  {
    forall i | 0 <= i < |options| ensures a[i] == b[i] {
      assert IdsOf(a)[i] == IdsOf(b)[i];
    }
  }

  /** Codes without an equals sign or a bar, values without a bar. */
  ghost predicate PlainCodes(options: seq<ProductOption>)
  {
    && (forall i :: 0 <= i < |options| ==> '=' !in options[i].code && '|' !in options[i].code)
    && (forall i, v :: 0 <= i < |options| && v in options[i].values ==> '|' !in v.value)
  }

  lemma PartsAreBarFree(options: seq<ProductOption>, choice: seq<Value>)
    requires PlainCodes(options) && Chooses(options, choice)
    ensures BarFree(PartsOf(options, choice))
  {
  }

  lemma PartTells(options: seq<ProductOption>, a: seq<Value>, b: seq<Value>, i: nat, j: nat)
    requires WellFormed(options) && PlainCodes(options) && Chooses(options, a) && Chooses(options, b)
    requires i < |options| && j < |options|
    requires Part(options[i].code, a[i].value) == Part(options[j].code, b[j].value)
    ensures i == j && a[i] == b[i]
  {
    hide Part;
    PartInjective(options[i].code, a[i].value, options[j].code, b[j].value);
    assert i == j;
    assert a[i] in options[i].values && b[i] in options[i].values;
  }

  /** Under plain codes the stored key identifies the choice. */
  lemma KeysTellChoices(options: seq<ProductOption>, a: seq<Value>, b: seq<Value>)
    requires WellFormed(options) && PlainCodes(options) && |options| > 0
    requires Chooses(options, a) && Chooses(options, b)
    requires ChoiceKey(options, a) == ChoiceKey(options, b)
    ensures a == b
  {
    hide Part, Key, WellFormed, PlainCodes, BarFree;
    PartsAreBarFree(options, a);
    PartsAreBarFree(options, b);
    var partsA, partsB := PartsOf(options, a), PartsOf(options, b);
    KeyInjective(partsA, partsB);
    forall i | 0 <= i < |options| ensures a[i] == b[i] {
      assert partsA[i] in multiset(partsA);
      assert partsA[i] in multiset(partsB);
      var j :| 0 <= j < |partsB| && partsB[j] == partsA[i];
      PartTells(options, a, b, i, j);
    }
  }

  /** What the validation of codes is for: were a bar let into a value, it could imitate another option's part. */
  lemma BarsConfuseKeys(options: seq<ProductOption>, a: seq<Value>, b: seq<Value>)
    requires options == [
      ProductOption("1", "A", "A", [Value("11", "x", "x"), Value("12", "x and y", "x" + "|" + Part("B", "y"))]),
      ProductOption("2", "B", "B", [Value("21", "y", "y"), Value("22", "y and y", "y" + "|" + Part("B", "y"))])]
    requires a == [options[0].values[0], options[1].values[1]] && b == [options[0].values[1], options[1].values[0]]
    ensures Chooses(options, a) && Chooses(options, b) && a != b && ChoiceKey(options, a) == ChoiceKey(options, b)
  {
    var p, q := Part("A", "x"), Part("B", "y");
    assert a[0].id != b[0].id;
    assert PartsOf(options, a)[1] == q + "|" + q;
    assert PartsOf(options, b)[0] == p + "|" + q;
    assert PartsOf(options, a) == [p, q + "|" + q] && PartsOf(options, b) == [p + "|" + q, q];
    TwoParts(p, q + "|" + q);
    TwoParts(p + "|" + q, q);
    assert p + "|" + (q + "|" + q) == (p + "|" + q) + "|" + q;
  }

  lemma TwoParts(x: string, y: string)
    requires |x| > 0 && |y| > 0 && x[0] < y[0]
    ensures Key([x, y]) == x + "|" + y
  {
    assert Text.Le(x, y);
    hide Text.Le;
    assert [x, y][..1] == [x] && [x][..0] == [];
    assert Sorting.Sort(Text.Le, [x]) == [x];
    assert Sorting.Sort(Text.Le, [x, y]) == [x, y];
    assert Text.Join("|", [x]) == x;
  }

  // ---- the preview

  function ItemOf(row: Combination, existing: set<string>): Item
  {
    Item(Text.Join(" · ", row.labelParts), Key(row.keys), row.ids, Key(row.keys) in existing)
  }

  /** An item tells of a choice: its ids, its label, its key, and whether the key is taken. */
  ghost predicate IsItemOf(options: seq<ProductOption>, existing: set<string>, item: Item, choice: seq<Value>)
  {
    && item.optionValueIds == IdsOf(choice) && item.combinationKey == ChoiceKey(options, choice)
    && item.name == Text.Join(" · ", LabelsOf(options, choice))
    && (item.isPresent <==> ChoiceKey(options, choice) in existing)
  }

  ghost predicate TellsAChoice(options: seq<ProductOption>, existing: set<string>, item: Item)
  {
    exists choice :: Chooses(options, choice) && IsItemOf(options, existing, item, choice)
  }

  ghost predicate Told(options: seq<ProductOption>, existing: set<string>, items: seq<Item>, choice: seq<Value>)
  {
    exists k :: 0 <= k < |items| && IsItemOf(options, existing, items[k], choice)
  }

  /** The preview as it should be: an item for every choice, once, and for nothing else. */
  ghost predicate PreviewIsRight(options: seq<ProductOption>, existing: set<string>, items: seq<Item>)
  {
    && |items| == Count(options)
    && (forall k :: 0 <= k < |items| ==> TellsAChoice(options, existing, items[k]))
    && (forall choice :: Chooses(options, choice) ==> Told(options, existing, items, choice))
    && (forall k, l :: 0 <= k < l < |items| ==> items[k].optionValueIds != items[l].optionValueIds)
  }

  function ItemsOf(rows: seq<Combination>, existing: set<string>): (items: seq<Item>)
    ensures |items| == |rows| && forall k :: 0 <= k < |rows| ==> items[k] == ItemOf(rows[k], existing)
  {
    seq(|rows|, k requires 0 <= k < |rows| => ItemOf(rows[k], existing))
  }

  lemma RowIds(options: seq<ProductOption>, row: Combination, other: Combination)
    requires WellFormed(options) && row in Combinations(options) && other in Combinations(options)
    requires row.ids == other.ids
    ensures row == other
  {
    hide WellFormed, Chooses;
    var a := ChoiceOfRow(options, row);
    var b := ChoiceOfRow(options, other);
    SameLength(options, a);
    SameLength(options, b);
    RowFields(options, a);
    RowFields(options, b);
    IdsTellChoices(options, a, b);
  }

  lemma SameLength(options: seq<ProductOption>, choice: seq<Value>)
    requires Chooses(options, choice)
    ensures |choice| == |options|
  {
  }

  lemma ItemOfRow(options: seq<ProductOption>, existing: set<string>, row: Combination)
    requires row in Combinations(options)
    ensures TellsAChoice(options, existing, ItemOf(row, existing))
  {
    hide Combinations, Key, Text.Join, RowOf, Chooses;
    var choice := ChoiceOfRow(options, row);
    SameLength(options, choice);
    RowFields(options, choice);
    RowLabels(options, choice);
    assert IsItemOf(options, existing, ItemOf(row, existing), choice);
  }

  lemma ItemOfChoice(options: seq<ProductOption>, existing: set<string>, choice: seq<Value>)
    requires Chooses(options, choice)
    ensures Told(options, existing, ItemsOf(Combinations(options), existing), choice)
  {
    hide Combinations, Key, Text.Join, RowOf, Chooses;
    var rows := Combinations(options);
    SameLength(options, choice);
    RowOfChoice(options, choice);
    RowFields(options, choice);
    RowLabels(options, choice);
    var k :| 0 <= k < |rows| && rows[k] == RowOf(options, choice);
    assert IsItemOf(options, existing, ItemsOf(rows, existing)[k], choice);
  }

  lemma ItemsAreRight(options: seq<ProductOption>, existing: set<string>)
    requires WellFormed(options)
    ensures PreviewIsRight(options, existing, ItemsOf(Combinations(options), existing))
  {
    hide WellFormed, Combinations, Key, Text.Join, RowOf, Count, Chooses, Told, TellsAChoice;
    var rows, items := Combinations(options), ItemsOf(Combinations(options), existing);
    MatrixSize(options);
    forall k | 0 <= k < |items| ensures TellsAChoice(options, existing, items[k]) {
      ItemOfRow(options, existing, rows[k]);
    }
    forall choice | Chooses(options, choice) ensures Told(options, existing, items, choice) {
      ItemOfChoice(options, existing, choice);
    }
    forall k, l | 0 <= k < l < |items| ensures items[k].optionValueIds != items[l].optionValueIds {
      if rows[k].ids == rows[l].ids {
        RowIds(options, rows[k], rows[l]);
      }
    }
  }

  lemma {:induction false} EmptyOption(options: seq<ProductOption>, i: nat)
    requires i < |options| && |options[i].values| == 0
    ensures Count(options) == 0
  {
    if i < |options| - 1 {
      EmptyOption(options[..|options| - 1], i);
    }
  }

  /** The one item of a product without options. */
  function DefaultOnly(existing: set<string>): Preview
  {
    Matrix(1, [Item("Mặc định", "DEFAULT", [], "DEFAULT" in existing)])
  }

  /** What a request for a preview is owed: the default item, the matrix, or the count of one that is too large. */
  ghost predicate Answers(options: seq<ProductOption>, existing: set<string>, preview: Preview)
  {
    if |options| == 0 then
      && preview.Matrix? && preview.count == 1 && |preview.items| == 1
      && preview.items[0].combinationKey == "DEFAULT" && preview.items[0].optionValueIds == []
      && (preview.items[0].isPresent <==> "DEFAULT" in existing)
    else
      && preview.count == Count(options)
      && (preview.TooLarge? <==> preview.count > 200)
      && (preview.Matrix? ==> PreviewIsRight(options, existing, preview.items))
  }

  /** generatePreview for a product that is there. */
  method GeneratePreview(options: seq<ProductOption>, existing: set<string>) returns (preview: Preview)
    requires WellFormed(options)
    ensures Answers(options, existing, preview)
  {
    hide WellFormed, PreviewIsRight;
    if |options| == 0 {
      return DefaultOnly(existing);
    }
    ItemsAreRight(options, existing);
    MatrixSize(options);
    if exists i :: 0 <= i < |options| && |options[i].values| == 0 {
      var i :| 0 <= i < |options| && |options[i].values| == 0;
      EmptyOption(options, i);
      assert ItemsOf(Combinations(options), existing) == [];
      return Matrix(0, []);
    }
    var count := Count(options);
    if count > MAX_VARIANT_COMBINATIONS {
      return TooLarge(count);
    }
    var rows := [Combination([], [], [])];
    for n := 0 to |options|
      invariant rows == Combinations(options[..n])
    {
      assert options[..n + 1][..n] == options[..n];
      rows := FlatMap(rows, options[n]);
    }
    assert options[..|options|] == options;
    preview := Matrix(count, ItemsOf(rows, existing));
  }

  // ---- the flag

  /** The key of a stored variant: of the parts it was made from, under whatever options it was made, or none. */
  function StoredKey(parts: seq<string>): string
  {
    if |parts| == 0 then "DEFAULT" else Key(parts)
  }

  /** The stored keys are those of these variants, each given by its parts. */
  ghost predicate KeysOf(stored: set<seq<string>>, existing: set<string>)
  {
    forall key :: key in existing <==> exists parts :: parts in stored && StoredKey(parts) == key
  }

  /**
   Where no stored part holds a bar, an item is marked as present exactly when some stored variant was made
   from exactly its choice's parts; a variant made under fewer or other options never marks it.
   */
  lemma PresentExactly(options: seq<ProductOption>, stored: set<seq<string>>, existing: set<string>, choice: seq<Value>)
    requires PlainCodes(options) && |options| > 0 && Chooses(options, choice)
    requires KeysOf(stored, existing) && forall parts :: parts in stored ==> BarFree(parts)
    ensures ChoiceKey(options, choice) in existing <==>
            exists parts :: parts in stored && multiset(parts) == multiset(PartsOf(options, choice))
  {
    hide Key, PlainCodes, BarFree;
    var own := PartsOf(options, choice);
    PartsHaveEquals(options, choice);
    PartsAreBarFree(options, choice);
    NotDefault(own);
    if parts :| parts in stored && StoredKey(parts) == ChoiceKey(options, choice) {
      KeyInjective(parts, own);
    }
    if parts :| parts in stored && multiset(parts) == multiset(own) {
      assert |multiset(parts)| == |multiset(own)|;
      KeyIgnoresOrder(parts, own);
    }
  }

  /** So under these options the flag tells exactly whether this very choice was made. */
  lemma MadeExactly(options: seq<ProductOption>, made: set<seq<Value>>, older: set<seq<string>>, existing: set<string>,
                    choice: seq<Value>)
    requires WellFormed(options) && PlainCodes(options) && |options| > 0 && Chooses(options, choice)
    requires forall c :: c in made ==> Chooses(options, c)
    requires forall parts :: parts in older ==> BarFree(parts) && |parts| != |options|
    requires KeysOf((set c | c in made :: PartsOf(options, c)) + older, existing)
    ensures ChoiceKey(options, choice) in existing <==> choice in made
  {
    hide Key, WellFormed, PlainCodes, BarFree, KeysOf;
    var stored := (set c | c in made :: PartsOf(options, c)) + older;
    var own := PartsOf(options, choice);
    forall parts | parts in stored ensures BarFree(parts) {
      if c :| c in made && parts == PartsOf(options, c) {
        PartsAreBarFree(options, c);
      }
    }
    PresentExactly(options, stored, existing, choice);
    if parts :| parts in stored && multiset(parts) == multiset(own) {
      assert |multiset(parts)| == |multiset(own)|;
      assert parts !in older;
      var c :| c in made && parts == PartsOf(options, c);
      KeyIgnoresOrder(parts, own);
      KeysTellChoices(options, c, choice);
    }
  }

  // ---- validated codes

  predicate Upper(c: char)
  {
    'A' <= c <= 'Z'
  }

  predicate UpperOrDigit(c: char)
  {
    Upper(c) || '0' <= c <= '9'
  }

  predicate WordFollows(code: string, i: nat)
  {
    i + 1 < |code| && UpperOrDigit(code[i + 1])
  }

  /** CODE_PATTERN: a capital, then capitals and digits, with single underscores between words. */
  ghost predicate CodeShaped(code: string)
  {
    && |code| > 0 && Upper(code[0])
    && (forall i :: 0 <= i < |code| ==> UpperOrDigit(code[i]) || code[i] == '_')
    && (forall i :: 0 <= i < |code| && code[i] == '_' ==> WordFollows(code, i))
  }

  /** What the validation of options and values lets into their tables. */
  ghost predicate Validated(options: seq<ProductOption>)
  {
    forall i :: 0 <= i < |options| ==>
      CodeShaped(options[i].code) && forall v :: v in options[i].values ==> CodeShaped(v.value)
  }

  lemma CodeHasNoSeparator(code: string)
    requires CodeShaped(code)
    ensures '=' !in code && '|' !in code
  {
    assert forall i :: 0 <= i < |code| ==> code[i] != '=' && code[i] != '|';
  }

  /** Validated codes and values hold neither separator. */
  lemma ValidatedIsPlain(options: seq<ProductOption>)
    requires Validated(options)
    ensures PlainCodes(options)
  {
    hide CodeShaped;
    forall i | 0 <= i < |options| ensures '=' !in options[i].code && '|' !in options[i].code {
      CodeHasNoSeparator(options[i].code);
    }
    forall i, v | 0 <= i < |options| && v in options[i].values ensures '|' !in v.value {
      CodeHasNoSeparator(v.value);
    }
  }

  /** The parts of a variant made, under any options, from validated codes and values. */
  ghost predicate ValidatedParts(parts: seq<string>)
  {
    forall i :: 0 <= i < |parts| ==>
      exists code, value :: CodeShaped(code) && CodeShaped(value) && parts[i] == Part(code, value)
  }

  lemma ValidatedPartsAreBarFree(parts: seq<string>)
    requires ValidatedParts(parts)
    ensures BarFree(parts)
  {
    hide CodeShaped;
    forall i | 0 <= i < |parts| ensures '|' !in parts[i] {
      var code, value :| CodeShaped(code) && CodeShaped(value) && parts[i] == Part(code, value);
      CodeHasNoSeparator(code);
      CodeHasNoSeparator(value);
    }
  }

  /** Of validated options no two choices share a key. */
  lemma ValidatedKeysTellChoices(options: seq<ProductOption>, a: seq<Value>, b: seq<Value>)
    requires WellFormed(options) && Validated(options) && |options| > 0
    requires Chooses(options, a) && Chooses(options, b)
    ensures ChoiceKey(options, a) == ChoiceKey(options, b) <==> a == b
  {
    hide WellFormed, PlainCodes, Validated, ChoiceKey;
    ValidatedIsPlain(options);
    if ChoiceKey(options, a) == ChoiceKey(options, b) {
      KeysTellChoices(options, a, b);
    }
  }

  /** With validated variants in store, the flag is exact. */
  lemma ValidatedPresentExactly(options: seq<ProductOption>, stored: set<seq<string>>, existing: set<string>,
                                choice: seq<Value>)
    requires Validated(options) && |options| > 0 && Chooses(options, choice)
    requires KeysOf(stored, existing) && forall parts :: parts in stored ==> ValidatedParts(parts)
    ensures ChoiceKey(options, choice) in existing <==>
            exists parts :: parts in stored && multiset(parts) == multiset(PartsOf(options, choice))
  {
    hide PlainCodes, Validated, ChoiceKey, BarFree, ValidatedParts, KeysOf;
    ValidatedIsPlain(options);
    forall parts | parts in stored ensures BarFree(parts) {
      ValidatedPartsAreBarFree(parts);
    }
    PresentExactly(options, stored, existing, choice);
  }

  lemma PartsHaveEquals(options: seq<ProductOption>, choice: seq<Value>)
    requires |choice| == |options|
    ensures forall i :: 0 <= i < |options| ==> '=' in PartsOf(options, choice)[i]
  {
    forall i | 0 <= i < |options| ensures '=' in PartsOf(options, choice)[i] {
      assert PartsOf(options, choice)[i][|options[i].code|] == '=';
    }
  }
}
