/** The label-map utilities: validating a parsed label map, building the
    category list and the category index from it, and the name -> id
    dictionary with its id -> name inverse. A parsed StringIntLabelMap is a
    sequence of items; the text-format parsing itself is outside the model. */
module LabelMap {
  import opened Common
  import opened Text
  import opened Dicts

  /** One `item` of a StringIntLabelMap: its name, id and optional display_name. */
  datatype Item = Item(name: string, id: int, displayName: Option<string>)

  /** A category dict `{'id': id, 'name': name}`. */
  datatype Category = Category(id: int, name: string)

  const InvalidIdMessage: string := "Label map ids should be >= 1."
  const DefaultNamePrefix: string := "category_"

  // ---------------------------------------------------------------- validation

  /** Every id is at least 1. */
  predicate ValidIds(items: seq<Item>) {
    forall i :: 0 <= i < |items| ==> items[i].id >= 1
  }

  /** `_validate_label_map`: raises ValueError at the first item whose id is
      below 1, and passes otherwise. */
  method ValidateLabelMap(items: seq<Item>) returns (r: Outcome)
    ensures r.Fail? <==> exists i :: 0 <= i < |items| && items[i].id < 1
    ensures r.Pass? <==> ValidIds(items)
    ensures r.Fail? ==> r.error == ValueError(InvalidIdMessage)
  {
    for i := 0 to |items|
      invariant forall j :: 0 <= j < i ==> items[j].id >= 1
    {
      if items[i].id < 1 {
        return Fail(ValueError(InvalidIdMessage));
      }
    }
    return Pass;
  }

  // ---------------------------------------------------------------- categories

  /** The name a category takes: the display name when asked for and present,
      the plain name otherwise. */
  function CategoryName(item: Item, useDisplayName: bool): (name: string)
    ensures useDisplayName && item.displayName.Some? ==> name == item.displayName.value
    ensures !useDisplayName || item.displayName.None? ==> name == item.name
  {
    if useDisplayName && item.displayName.Some? then item.displayName.value else item.name
  }

  predicate InRange(id: int, maxNumClasses: int) {
    0 < id <= maxNumClasses
  }

  /** Item `i` is the first item carrying its id. */
  ghost predicate FirstWithId(items: seq<Item>, i: int)
    requires 0 <= i < |items|
  {
    forall j :: 0 <= j < i ==> items[j].id != items[i].id
  }

  /** Item `i` contributes a category: its id is in range and no earlier item
      has the same id. */
  ghost predicate Contributes(items: seq<Item>, i: int, maxNumClasses: int)
    requires 0 <= i < |items|
  {
    InRange(items[i].id, maxNumClasses) && FirstWithId(items, i)
  }

  /** Reference definition of the category list of a label map: one category
      per contributing item, in item order. */
  ghost function Categories(items: seq<Item>, maxNumClasses: int, useDisplayName: bool): seq<Category>
    decreases |items|
  {
    if items == [] then []
    else
      var n := |items| - 1;
      Categories(items[..n], maxNumClasses, useDisplayName)
        + (if Contributes(items, n, maxNumClasses)
           then [Category(items[n].id, CategoryName(items[n], useDisplayName))]
           else [])
  }

  /** The category list used when there is no label map. */
  function DefaultCategories(maxNumClasses: int): (cats: seq<Category>)
    ensures |cats| == Max0(maxNumClasses)
    ensures forall i :: 0 <= i < |cats| ==> cats[i] == Category(i + 1, DefaultNamePrefix + NatToString(i + 1))
  {
    seq(Max0(maxNumClasses), i requires 0 <= i => Category(i + 1, DefaultNamePrefix + NatToString(i + 1)))
  }

  /** `convert_label_map_to_categories`. Without a label map the categories
      are `category_1 .. category_{max_num_classes}`; with one, items whose id
      is out of `(0, max_num_classes]` are skipped and only the first item of
      each id is kept. */
  method ConvertLabelMapToCategories(labelMap: Option<seq<Item>>, maxNumClasses: int, useDisplayName: bool)
    returns (categories: seq<Category>)
    ensures labelMap.None? ==> categories == DefaultCategories(maxNumClasses)
    ensures labelMap.Some? ==> categories == Categories(labelMap.value, maxNumClasses, useDisplayName)
  {
    categories := [];
    var idsAlreadyAdded: seq<int> := [];
    if labelMap.None? {
      var labelIdOffset := 1;
      for classId := 0 to Max0(maxNumClasses)
        invariant categories == DefaultCategories(classId)
      {
        categories := categories + [Category(classId + labelIdOffset, DefaultNamePrefix + NatToString(classId + labelIdOffset))];
      }
      return;
    }
    var items := labelMap.value;
    for i := 0 to |items|
      invariant categories == Categories(items[..i], maxNumClasses, useDisplayName)
      invariant forall j :: 0 <= j < i && InRange(items[j].id, maxNumClasses) ==> items[j].id in idsAlreadyAdded
      invariant forall x :: x in idsAlreadyAdded ==> exists j :: 0 <= j < i && items[j].id == x
    {
      var item := items[i];
      assert items[..i + 1][..i] == items[..i];
      if !InRange(item.id, maxNumClasses) {
        assert !Contributes(items[..i + 1], i, maxNumClasses);
        continue;
      }
      var name := CategoryName(item, useDisplayName);
      if item.id !in idsAlreadyAdded {
        assert Contributes(items[..i + 1], i, maxNumClasses);
        idsAlreadyAdded := idsAlreadyAdded + [item.id];
        categories := categories + [Category(item.id, name)];
      } else {
        assert !FirstWithId(items[..i + 1], i);
      }
    }
    assert items[..|items|] == items;
  }

  lemma CategoriesPrefix(items: seq<Item>, n: int, maxNumClasses: int, useDisplayName: bool)
    requires 0 <= n < |items|
    ensures Categories(items[..n + 1], maxNumClasses, useDisplayName)
      == Categories(items[..n], maxNumClasses, useDisplayName)
         + (if Contributes(items, n, maxNumClasses)
            then [Category(items[n].id, CategoryName(items[n], useDisplayName))]
            else [])
  {
    var p := items[..n + 1];
    assert p[..n] == items[..n];
    assert Contributes(p, n, maxNumClasses) == Contributes(items, n, maxNumClasses);
  }

  /** Every category comes from a contributing item. */
  lemma {:induction false} CategoriesSound(items: seq<Item>, maxNumClasses: int, useDisplayName: bool, c: Category)
    requires c in Categories(items, maxNumClasses, useDisplayName)
    ensures exists i :: 0 <= i < |items| && Contributes(items, i, maxNumClasses)
                        && c == Category(items[i].id, CategoryName(items[i], useDisplayName))
    decreases |items|
  {
    var n := |items| - 1;
    CategoriesPrefix(items, n, maxNumClasses, useDisplayName);
    assert items[..n + 1] == items;
    if c in Categories(items[..n], maxNumClasses, useDisplayName) {
      CategoriesSound(items[..n], maxNumClasses, useDisplayName, c);
      var i :| 0 <= i < n && Contributes(items[..n], i, maxNumClasses)
               && c == Category(items[..n][i].id, CategoryName(items[..n][i], useDisplayName));
      assert items[..n][i] == items[i];
      assert Contributes(items, i, maxNumClasses);
    } else {
      assert Contributes(items, n, maxNumClasses);
    }
  }

  /** Every contributing item gives a category, named as `CategoryName` says. */
  lemma {:induction false} CategoriesComplete(items: seq<Item>, maxNumClasses: int, useDisplayName: bool, i: int)
    requires 0 <= i < |items| && Contributes(items, i, maxNumClasses)
    ensures Category(items[i].id, CategoryName(items[i], useDisplayName)) in Categories(items, maxNumClasses, useDisplayName)
    decreases |items|
  {
    var n := |items| - 1;
    CategoriesPrefix(items, n, maxNumClasses, useDisplayName);
    assert items[..n + 1] == items;
    if i < n {
      assert items[..n][i] == items[i];
      assert Contributes(items[..n], i, maxNumClasses);
      CategoriesComplete(items[..n], maxNumClasses, useDisplayName, i);
    }
  }

  /** The ids of the categories are all in range and pairwise distinct. */
  lemma {:induction false} CategoriesDistinctInRange(items: seq<Item>, maxNumClasses: int, useDisplayName: bool)
    ensures forall c :: c in Categories(items, maxNumClasses, useDisplayName) ==> InRange(c.id, maxNumClasses)
    ensures var cats := Categories(items, maxNumClasses, useDisplayName);
            forall a, b :: 0 <= a < b < |cats| ==> cats[a].id != cats[b].id
    decreases |items|
  {
    var cats := Categories(items, maxNumClasses, useDisplayName);
    forall c | c in cats ensures InRange(c.id, maxNumClasses) {
      CategoriesSound(items, maxNumClasses, useDisplayName, c);
    }
    if items != [] {
      var n := |items| - 1;
      var front := Categories(items[..n], maxNumClasses, useDisplayName);
      CategoriesDistinctInRange(items[..n], maxNumClasses, useDisplayName);
      CategoriesPrefix(items, n, maxNumClasses, useDisplayName);
      assert items[..n + 1] == items;
      if Contributes(items, n, maxNumClasses) {
        forall a | 0 <= a < |front| ensures front[a].id != items[n].id {
          assert front[a] in front;
          CategoriesSound(items[..n], maxNumClasses, useDisplayName, front[a]);
          var i :| 0 <= i < n && Contributes(items[..n], i, maxNumClasses)
                   && front[a] == Category(items[..n][i].id, CategoryName(items[..n][i], useDisplayName));
          assert items[..n][i] == items[i];
        }
      }
    }
  }

  /** Every in-range id of the label map has a category. */
  lemma CategoriesCoverIds(items: seq<Item>, maxNumClasses: int, useDisplayName: bool, i: int)
    requires 0 <= i < |items| && InRange(items[i].id, maxNumClasses)
    ensures exists c :: c in Categories(items, maxNumClasses, useDisplayName) && c.id == items[i].id
  {
    var f := FirstIndexOfId(items, i);
    CategoriesComplete(items, maxNumClasses, useDisplayName, f);
  }

  /** The first item with the same id as item `i`. */
  ghost function FirstIndexOfId(items: seq<Item>, i: int): (f: int)
    requires 0 <= i < |items|
    ensures 0 <= f <= i && items[f].id == items[i].id && FirstWithId(items, f)
    decreases i
  {
    if FirstWithId(items, i) then i
    else
      var j :| 0 <= j < i && items[j].id == items[i].id;
      FirstIndexOfId(items, j)
  }

  // ---------------------------------------------------------------- category index

  /** The writes `category_index[cat['id']] = cat` in list order. */
  function CategoryWrites(categories: seq<Category>): (ws: seq<(int, Category)>)
    ensures |ws| == |categories|
    ensures forall i :: 0 <= i < |ws| ==> ws[i] == (categories[i].id, categories[i])
  {
    seq(|categories|, i requires 0 <= i < |categories| => (categories[i].id, categories[i]))
  }

  /** `create_category_index`: keys are the category ids; on a repeated id
      the later category wins. */
  method CreateCategoryIndex(categories: seq<Category>) returns (index: map<int, Category>)
    ensures LastWriteWins(CategoryWrites(categories), index)
  {
    index := map[];
    ghost var ws := CategoryWrites(categories);
    for i := 0 to |categories|
      invariant LastWriteWins(ws[..i], index)
    {
      var cat := categories[i];
      assert ws[..i + 1] == ws[..i] + [(cat.id, cat)];
      LastWriteWinsAppend(ws[..i], index, cat.id, cat);
      index := index[cat.id := cat];
    }
    assert ws[..|categories|] == ws;
  }

  /** With distinct ids (as the category list has), the index maps each id to
      exactly its category and holds nothing else. */
  lemma CategoryIndexOfDistinct(categories: seq<Category>, index: map<int, Category>)
    requires LastWriteWins(CategoryWrites(categories), index)
    requires forall a, b :: 0 <= a < b < |categories| ==> categories[a].id != categories[b].id
    ensures forall c :: c in categories ==> c.id in index && index[c.id] == c
    ensures forall k :: k in index ==> index[k].id == k && index[k] in categories
  {
    var ws := CategoryWrites(categories);
    forall c | c in categories ensures c.id in index && index[c.id] == c {
      var i :| 0 <= i < |categories| && categories[i] == c;
      LastWriteWinsDistinct(ws, index, i);
    }
    forall k | k in index ensures index[k].id == k && index[k] in categories {
      var i :| 0 <= i < |ws| && ws[i].0 == k;
      LastWriteWinsDistinct(ws, index, i);
    }
  }

  // ---------------------------------------------------------------- name -> id dictionaries

  /** The writes `label_map_dict[item.name] = item.id` in item order. */
  function NameIdWrites(items: seq<Item>): (ws: seq<(string, int)>)
    ensures |ws| == |items|
    ensures forall i :: 0 <= i < |ws| ==> ws[i] == (items[i].name, items[i].id)
  {
    seq(|items|, i requires 0 <= i < |items| => (items[i].name, items[i].id))
  }

  /** The loop of `get_label_map_dict`: each item's name maps to its id, the
      last item winning for a repeated name; names are ordered by first
      occurrence. */
  method GetLabelMapDict(items: seq<Item>) returns (d: Dict<string, int>)
    ensures d.Valid()
    ensures LastWriteWins(NameIdWrites(items), d.entries)
    ensures d.keys == Dedup(WrittenKeys(NameIdWrites(items)))
  {
    d := EmptyDict();
    ghost var ws := NameIdWrites(items);
    for i := 0 to |items|
      invariant d.Valid()
      invariant LastWriteWins(ws[..i], d.entries)
      invariant d.keys == Dedup(WrittenKeys(ws[..i]))
    {
      var item := items[i];
      TakeOneMore(ws, i);
      LastWriteWinsAppend(ws[..i], d.entries, item.name, item.id);
      WrittenOrderAppend(ws[..i], (item.name, item.id), d);
      d := d.Put(item.name, item.id);
    }
    assert ws[..|items|] == ws;
  }

  /** The writes `labels[element['id']] = element['name']` for the elements
      `category_index[1] .. category_index[len]`. */
  function IndexWrites(index: map<int, Category>): (ws: seq<(int, string)>)
    requires forall k :: 1 <= k <= |index| ==> k in index
    ensures |ws| == |index|
    ensures forall i :: 0 <= i < |ws| ==> ws[i] == (index[i + 1].id, index[i + 1].name)
  {
    seq(|index|, i requires 0 <= i < |index| => (index[i + 1].id, index[i + 1].name))
  }

  /** `get_label_map_dict_from_category_index`: reads the keys 1 .. len of
      the index, raising KeyError at the first one missing. */
  method GetLabelMapDictFromCategoryIndex(index: map<int, Category>) returns (r: Result<map<int, string>>)
    ensures r.Err? <==> exists k :: 1 <= k <= |index| && k !in index
    ensures r.Err? ==> r.error == KeyError
    ensures r.Ok? ==> LastWriteWins(IndexWrites(index), r.value)
  {
    var labels: map<int, string> := map[];
    ghost var ws: seq<(int, string)> := [];
    for i := 0 to |index|
      invariant forall k :: 1 <= k <= i ==> k in index
      invariant |ws| == i
      invariant forall j :: 0 <= j < i ==> ws[j] == (index[j + 1].id, index[j + 1].name)
      invariant LastWriteWins(ws, labels)
    {
      if i + 1 !in index {
        return Err(KeyError);
      }
      var element := index[i + 1];
      LastWriteWinsAppend(ws, labels, element.id, element.name);
      ws := ws + [(element.id, element.name)];
      labels := labels[element.id := element.name];
    }
    assert ws == IndexWrites(index);
    return Ok(labels);
  }

  /** On such an index write `i` goes to key `i + 1`, so no key is
      written twice. */
  lemma IndexWritesDistinct(index: map<int, Category>)
    requires forall k :: 1 <= k <= |index| ==> k in index
    requires forall k :: k in index ==> index[k].id == k
    ensures var ws := IndexWrites(index);
            forall a, b :: 0 <= a < b < |ws| ==> ws[a].0 != ws[b].0
  {
    var ws := IndexWrites(index);
    forall a, b | 0 <= a < b < |ws| ensures ws[a].0 != ws[b].0 {
      assert ws[a].0 == a + 1 && ws[b].0 == b + 1;
    }
  }

  /** On an index whose entries carry their own key as id (what
      `create_category_index` builds from categories with ids 1 .. n), the
      dictionary maps every key 1 .. len to its category's name and holds
      nothing else. */
  lemma IndexDictOfConsecutiveIndex(index: map<int, Category>, labels: map<int, string>)
    requires forall k :: 1 <= k <= |index| ==> k in index
    requires forall k :: k in index ==> index[k].id == k
    requires LastWriteWins(IndexWrites(index), labels)
    ensures forall k :: 1 <= k <= |index| ==> k in labels && labels[k] == index[k].name
    ensures forall k :: k in labels ==> 1 <= k <= |index|
  {
    IndexDictCovers(index, labels);
    IndexDictWithin(index, labels);
  }

  lemma IndexDictCovers(index: map<int, Category>, labels: map<int, string>)
    requires forall k :: 1 <= k <= |index| ==> k in index
    requires forall k :: k in index ==> index[k].id == k
    requires LastWriteWins(IndexWrites(index), labels)
    ensures forall k :: 1 <= k <= |index| ==> k in labels && labels[k] == index[k].name
  {
    var ws := IndexWrites(index);
    IndexWritesDistinct(index);
    forall k | 1 <= k <= |index| ensures k in labels && labels[k] == index[k].name {
      assert ws[k - 1] == (k, index[k].name);
      LastWriteWinsDistinct(ws, labels, k - 1);
    }
  }

  lemma IndexDictWithin(index: map<int, Category>, labels: map<int, string>)
    requires forall k :: 1 <= k <= |index| ==> k in index
    requires forall k :: k in index ==> index[k].id == k
    requires LastWriteWins(IndexWrites(index), labels)
    ensures forall k :: k in labels ==> 1 <= k <= |index|
  {
    var ws := IndexWrites(index);
    forall k | k in labels ensures 1 <= k <= |index| {
      var i :| 0 <= i < |ws| && ws[i].0 == k;
    }
  }

  /** The writes `labelmap_dict_inverse[num] = cl` for `(cl, num)` in the
      dictionary's insertion order. */
  function InverseWrites(d: Dict<string, int>): (ws: seq<(int, string)>)
    requires d.Valid()
    ensures |ws| == |d.keys|
    ensures forall i :: 0 <= i < |ws| ==> ws[i] == (d.entries[d.keys[i]], d.keys[i])
  {
    seq(|d.keys|, i requires 0 <= i < |d.keys| => (d.entries[d.keys[i]], d.keys[i]))
  }

  /** `get_label_map_dict_inverse`: maps each id back to a name; when two
      names share an id, the one inserted last wins. */
  method GetLabelMapDictInverse(d: Dict<string, int>) returns (inverse: map<int, string>)
    requires d.Valid()
    ensures LastWriteWins(InverseWrites(d), inverse)
  {
    inverse := map[];
    ghost var ws := InverseWrites(d);
    for i := 0 to |d.keys|
      invariant LastWriteWins(ws[..i], inverse)
    {
      var cl := d.keys[i];
      var num := d.entries[cl];
      assert ws[..i + 1] == ws[..i] + [(num, cl)];
      LastWriteWinsAppend(ws[..i], inverse, num, cl);
      inverse := inverse[num := cl];
    }
    assert ws[..|d.keys|] == ws;
  }

  /** The inverse is defined on exactly the ids of the dictionary, and maps
      each of them to a name that has that id. */
  lemma InverseDomainIsRange(d: Dict<string, int>, inverse: map<int, string>)
    requires d.Valid()
    requires LastWriteWins(InverseWrites(d), inverse)
    ensures inverse.Keys == d.entries.Values
    ensures forall id :: id in inverse ==> inverse[id] in d.entries && d.entries[inverse[id]] == id
  {
    var ws := InverseWrites(d);
    forall id | id in inverse ensures id in d.entries.Values && inverse[id] in d.entries && d.entries[inverse[id]] == id {
      var i := LastIndexOfKey(ws, id);
      assert d.keys[i] in d.entries;
    }
    forall id | id in d.entries.Values ensures id in inverse {
      var name :| name in d.entries && d.entries[name] == id;
      var i :| 0 <= i < |d.keys| && d.keys[i] == name;
      assert ws[i].0 == id;
    }
  }

  /** When no two names share an id, the inverse is the exact inverse. */
  lemma InverseOfInjective(d: Dict<string, int>, inverse: map<int, string>)
    requires d.Valid()
    requires LastWriteWins(InverseWrites(d), inverse)
    requires forall a, b :: a in d.entries && b in d.entries && a != b ==> d.entries[a] != d.entries[b]
    ensures forall name :: name in d.entries ==> d.entries[name] in inverse && inverse[d.entries[name]] == name
    ensures inverse.Keys == d.entries.Values
  {
    InverseDomainIsRange(d, inverse);
    var ws := InverseWrites(d);
    forall a, b | 0 <= a < b < |ws| ensures ws[a].0 != ws[b].0 {
      assert d.keys[a] != d.keys[b];
    }
    forall name | name in d.entries ensures d.entries[name] in inverse && inverse[d.entries[name]] == name {
      var i :| 0 <= i < |d.keys| && d.keys[i] == name;
      LastWriteWinsDistinct(ws, inverse, i);
    }
  }

  // ---------------------------------------------------------------- loading from a file

  /** `load_labelmap`: parses the label-map file and validates its ids. The
      text-format/binary protobuf parser is the parameter `parse`; a failure
      of it is passed on unchanged. */
  method LoadLabelmap(parse: string -> Result<seq<Item>>, path: string) returns (r: Result<seq<Item>>)
    ensures r.Ok? <==> parse(path).Ok? && ValidIds(parse(path).value)
    ensures r.Ok? ==> r.value == parse(path).value
    ensures parse(path).Err? ==> r == parse(path)
    ensures parse(path).Ok? && r.Err? ==> r.error == ValueError(InvalidIdMessage)
  {
    var labelMap :- parse(path);
    var outcome := ValidateLabelMap(labelMap);
    if outcome.Fail? {
      return Err(outcome.error);
    }
    return Ok(labelMap);
  }

  /** `load_category_index`: the category index of a label-map file, built
      with display names. Its keys are distinct in-range ids, each bound to
      the category carrying it, and every in-range id of the file is a key. */
  method LoadCategoryIndex(parse: string -> Result<seq<Item>>, path: string, numClasses: int)
    returns (r: Result<map<int, Category>>)
    ensures r.Ok? <==> parse(path).Ok? && ValidIds(parse(path).value)
    ensures r.Ok? ==> LastWriteWins(CategoryWrites(Categories(parse(path).value, numClasses, true)), r.value)
    ensures r.Ok? ==> forall k :: k in r.value ==> r.value[k].id == k && InRange(k, numClasses)
    ensures r.Ok? ==> var items := parse(path).value;
                      forall i :: 0 <= i < |items| && InRange(items[i].id, numClasses) ==> items[i].id in r.value
  {
    var labelMap :- LoadLabelmap(parse, path);
    var categories := ConvertLabelMapToCategories(Some(labelMap), numClasses, true);
    var index := CreateCategoryIndex(categories);
    CategoriesDistinctInRange(labelMap, numClasses, true);
    CategoryIndexOfDistinct(categories, index);
    forall i | 0 <= i < |labelMap| && InRange(labelMap[i].id, numClasses) ensures labelMap[i].id in index {
      CategoriesCoverIds(labelMap, numClasses, true, i);
    }
    return Ok(index);
  }

  /** `get_label_map_dict`: the name -> id dictionary of a label-map file. */
  method LoadLabelMapDict(parse: string -> Result<seq<Item>>, path: string) returns (r: Result<Dict<string, int>>)
    ensures r.Ok? <==> parse(path).Ok? && ValidIds(parse(path).value)
    ensures r.Ok? ==> r.value.Valid() && LastWriteWins(NameIdWrites(parse(path).value), r.value.entries)
    ensures r.Ok? ==> r.value.keys == Dedup(WrittenKeys(NameIdWrites(parse(path).value)))
  {
    var labelMap :- LoadLabelmap(parse, path);
    var d := GetLabelMapDict(labelMap);
    return Ok(d);
  }
}
