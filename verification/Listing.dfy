/**
  Directory listings, one page at a time. The worker sorts cheap directory entries and reads
  full metadata only for the requested page; the older path sorts full metadata of the whole
  directory, which arrives in folder-and-name order, and then slices. The two agree exactly
  when the second path's first sort cannot be seen in its last one.
  Lower-casing, suffix extraction and the rounding of sizes to floating-point numbers are given
  functions.
 */
module Listing {
  import opened Wrappers
  import opened StableSort

  /** What a directory entry tells without reading metadata. */
  datatype Light = Light(name: string, path: string, kind: string, isDir: bool)

  datatype Item = Item(light: Light, size: int, owner: string, group: string, permissions: string, modified: real)

  datatype Field = Name | Kind | Size | Owner | Group | Permissions | Modified

  /** Sort keys are numbers or lower-cased text. */
  datatype Key = Number(value: real) | Text(text: string)

  datatype Request = Request(field: Option<Field>, descending: bool, foldersFirst: bool,
                             showHidden: bool, query: string)

  /** The case conversion, the suffix of a file name without its dot, and the floating-point number of a size. */
  datatype Names = Names(lower: string -> string, suffix: string -> string, float: int -> real)

  datatype Page = Page(items: seq<Item>, page: nat, totalItems: nat, totalPages: nat)

  const MAX_PAGE_SIZE := 200

  // ---- Orders ------------------------------------------------------------------

  predicate KeyLe(a: Key, b: Key) {
    match (a, b)
    case (Number(x), Number(y)) => x <= y
    case (Number(_), Text(_)) => true
    case (Text(_), Number(_)) => false
    case (Text(x), Text(y)) => TextLe(x, y)
  }

  function Value(item: Item, field: Field, names: Names): Key {
    match field
    case Name => Text(names.lower(item.light.name))
    case Kind => Text(names.lower(item.light.kind))
    case Size => Number(names.float(item.size))
    case Owner => Text(names.lower(item.owner))
    case Group => Text(names.lower(item.group))
    case Permissions => Text(names.lower(item.permissions))
    case Modified => Number(item.modified)
  }

  function ByField(field: Field, descending: bool, names: Names): Order<Item> {
    (x, y) => if descending then KeyLe(Value(y, field, names), Value(x, field, names))
              else KeyLe(Value(x, field, names), Value(y, field, names))
  }

  function ByFolder(): Order<Item> {
    (x: Item, y: Item) => x.light.isDir || !y.light.isDir
  }

  /** The order of an unpaginated listing: folders first, then lower-cased names. */
  function ByFolderAndName(names: Names): Order<Item> {
    (x: Item, y: Item) =>
      && (x.light.isDir || !y.light.isDir)
      && (x.light.isDir == y.light.isDir ==> TextLe(names.lower(x.light.name), names.lower(y.light.name)))
  }

  lemma KeyOrder()
    ensures TotalPreorder(KeyLe)
  {
    TextOrder();
    forall a: Key, b: Key
      ensures KeyLe(a, b) || KeyLe(b, a)
    {
      if a.Text? && b.Text? {
        TextLeTotal(a.text, b.text);
      }
    }
    forall a: Key, b: Key, c: Key | KeyLe(a, b) && KeyLe(b, c)
      ensures KeyLe(a, c)
    {
      if a.Text? {
        TextLeTransitive(a.text, b.text, c.text);
      }
    }
  }

  lemma ByFieldOrder(field: Field, descending: bool, names: Names)
    ensures TotalPreorder(ByField(field, descending, names))
  {
    KeyOrder();
    var le := ByField(field, descending, names);
    forall x, y
      ensures le(x, y) || le(y, x)
    {
      assert KeyLe(Value(x, field, names), Value(y, field, names))
          || KeyLe(Value(y, field, names), Value(x, field, names));
    }
  }

  lemma ByFolderAndNameOrder(names: Names)
    ensures TotalPreorder(ByFolderAndName(names))
  {
    TextOrder();
    var le := ByFolderAndName(names);
    forall x, y
      ensures le(x, y) || le(y, x)
    {
      TextLeTotal(names.lower(x.light.name), names.lower(y.light.name));
    }
    forall x, y, z | le(x, y) && le(y, z)
      ensures le(x, z)
    {
      if x.light.isDir == z.light.isDir {
        TextLeTransitive(names.lower(x.light.name), names.lower(y.light.name), names.lower(z.light.name));
      }
    }
  }

  // ---- The two listings --------------------------------------------------------

  predicate Contains(needle: string, hay: string) {
    needle <= hay || (hay != [] && Contains(needle, hay[1..]))
  }

  predicate Keeps(entry: Light, request: Request, names: Names) {
    && (request.showHidden || entry.name == "" || entry.name[0] != '.')
    && (|| request.query == ""
        || Contains(names.lower(request.query), names.lower(entry.name))
        || Contains(names.lower(request.query), names.lower(entry.kind))
        || Contains(names.lower(request.query), names.lower(names.suffix(entry.name))))
  }

  function KeepsEntry(request: Request, names: Names): Light -> bool {
    (entry: Light) => Keeps(entry, request, names)
  }

  function KeepsItem(request: Request, names: Names): Item -> bool {
    (item: Item) => Keeps(item.light, request, names)
  }

  /** The worker's sort: the requested field, or folders and names; then folders if asked. */
  function WorkerSort(items: seq<Item>, request: Request, names: Names): seq<Item> {
    var sorted := match request.field
      case Some(field) => Sort(items, ByField(field, request.descending, names))
      case None => Sort(items, ByFolderAndName(names));
    if request.foldersFirst then Sort(sorted, ByFolder()) else sorted
  }

  /** The older path's sort, which leaves the order alone when no field is requested. */
  function LegacySort(items: seq<Item>, request: Request, names: Names): seq<Item> {
    var sorted := match request.field
      case Some(field) => Sort(items, ByField(field, request.descending, names))
      case None => items;
    if request.foldersFirst then Sort(sorted, ByFolder()) else sorted
  }

  /** The whole result of the fast path: filter the scan, then sort. */
  function FastList(items: seq<Item>, request: Request, names: Names): seq<Item> {
    WorkerSort(Filter(items, KeepsItem(request, names)), request, names)
  }

  /** The whole result of the simple path: sort the listing, filter it, sort again. */
  function SimpleList(items: seq<Item>, request: Request, names: Names): seq<Item> {
    LegacySort(Filter(Sort(items, ByFolderAndName(names)), KeepsItem(request, names)), request, names)
  }

  /** The order a request asks for. */
  function Requested(field: Field, request: Request, names: Names): Order<Item> {
    if request.foldersFirst then Lex(ByFolder(), ByField(field, request.descending, names))
    else ByField(field, request.descending, names)
  }

  lemma RequestedOrder(field: Field, request: Request, names: Names)
    ensures TotalPreorder(Requested(field, request, names))
    ensures TotalPreorder(ByFolder())
  {
    ByFieldOrder(field, request.descending, names);
    LexIsTotalPreorder(ByFolder(), ByField(field, request.descending, names));
  }

  /** For a requested field the fast path is one stable sort, the simple path one by a finer order. */
  lemma ListsAreSorts(items: seq<Item>, field: Field, request: Request, names: Names)
    requires request.field == Some(field)
    ensures var kept := Filter(items, KeepsItem(request, names));
            var le := Requested(field, request, names);
            && FastList(items, request, names) == Sort(kept, le)
            && SimpleList(items, request, names) == Sort(kept, Lex(le, ByFolderAndName(names)))
  {
    var base := ByFolderAndName(names);
    var chosen := ByField(field, request.descending, names);
    var kept := Filter(items, KeepsItem(request, names));
    ByFolderAndNameOrder(names);
    ByFieldOrder(field, request.descending, names);
    RequestedOrder(field, request, names);
    FilterSort(items, base, KeepsItem(request, names));
    SortTwice(kept, base, chosen);
    if request.foldersFirst {
      LexIsTotalPreorder(chosen, base);
      SortTwice(kept, chosen, ByFolder());
      SortTwice(kept, Lex(chosen, base), ByFolder());
      LexIsTotalPreorder(ByFolder(), Lex(chosen, base));
      SortAgrees(kept, Lex(ByFolder(), Lex(chosen, base)), Lex(Lex(ByFolder(), chosen), base));
    }
  }

  // ---- What a listing shows ----------------------------------------------------

  ghost predicate Occurs(needle: string, hay: string) {
    exists before, after :: hay == before + needle + after
  }

  lemma {:induction false} ContainsIsOccurrence(needle: string, hay: string)
    ensures Contains(needle, hay) <==> Occurs(needle, hay)
  {
    if needle <= hay {
      assert hay == "" + needle + hay[|needle|..];
    } else if hay != [] {
      ContainsIsOccurrence(needle, hay[1..]);
      if Occurs(needle, hay[1..]) {
        var before, after :| hay[1..] == before + needle + after;
        assert hay == [hay[0]] + before + needle + after;
        assert hay == ([hay[0]] + before) + needle + after;
      }
      if Occurs(needle, hay) {
        var before, after :| hay == before + needle + after;
        OccursBehindFirst(needle, hay, before, after);
      }
    }
  }

  lemma OccursBehindFirst(needle: string, hay: string, before: string, after: string)
    requires hay == before + needle + after && !(needle <= hay)
    ensures Occurs(needle, hay[1..])
  {
    assert before != [];
    assert hay[1..] == before[1..] + needle + after;
  }

  /**
    The list holds the entries, as often as they were scanned, that are not hidden and whose
    name, type or suffix contains the query whatever the case.
   */
  lemma ListHoldsMatches(items: seq<Item>, request: Request, names: Names, item: Item)
    ensures var entry, needle := item.light, names.lower(request.query);
            multiset(FastList(items, request, names))[item]
            == if && (request.showHidden || !("." <= entry.name))
                  && (|| request.query == "" || Occurs(needle, names.lower(entry.name))
                      || Occurs(needle, names.lower(entry.kind))
                      || Occurs(needle, names.lower(names.suffix(entry.name))))
               then multiset(items)[item] else 0
  {
    var keep := KeepsItem(request, names);
    var kept := Filter(items, keep);
    FilterCounts(items, keep, item);
    SortPermutes(kept, if request.field.Some? then ByField(request.field.value, request.descending, names)
                       else ByFolderAndName(names));
    var sorted := WorkerSort(kept, request.(foldersFirst := false), names);
    SortPermutes(sorted, ByFolder());
    var entry, needle := item.light, names.lower(request.query);
    ContainsIsOccurrence(needle, names.lower(entry.name));
    ContainsIsOccurrence(needle, names.lower(entry.kind));
    ContainsIsOccurrence(needle, names.lower(names.suffix(entry.name)));
  }

  /** The order of two items by one field, numbers as numbers and text without regard to case. */
  ghost predicate InOrder(a: Item, b: Item, field: Field, names: Names) {
    match field
    case Size => names.float(a.size) <= names.float(b.size)
    case Modified => a.modified <= b.modified
    case Name => TextLe(names.lower(a.light.name), names.lower(b.light.name))
    case Kind => TextLe(names.lower(a.light.kind), names.lower(b.light.kind))
    case Owner => TextLe(names.lower(a.owner), names.lower(b.owner))
    case Group => TextLe(names.lower(a.group), names.lower(b.group))
    case Permissions => TextLe(names.lower(a.permissions), names.lower(b.permissions))
  }

  /**
    The list is in the requested order and direction, among folders and among files if folders
    come first; without a requested field it is in folder-and-name order.
   */
  lemma ListIsInOrder(items: seq<Item>, request: Request, names: Names, i: nat, j: nat)
    requires i < j < |FastList(items, request, names)|
    ensures var a, b := FastList(items, request, names)[i], FastList(items, request, names)[j];
            && (request.foldersFirst && b.light.isDir ==> a.light.isDir)
            && (request.field.Some? && (request.foldersFirst ==> a.light.isDir == b.light.isDir) ==>
                  if request.descending then InOrder(b, a, request.field.value, names)
                  else InOrder(a, b, request.field.value, names))
            && (request.field == None ==>
                  (b.light.isDir ==> a.light.isDir)
                  && (a.light.isDir == b.light.isDir ==> InOrder(a, b, Name, names)))
  {
    var kept := Filter(items, KeepsItem(request, names));
    if request.field.Some? {
      var le := Requested(request.field.value, request, names);
      ListsAreSorts(items, request.field.value, request, names);
      RequestedOrder(request.field.value, request, names);
      SortSorted(kept, le);
      assert le(Sort(kept, le)[i], Sort(kept, le)[j]);
    } else {
      var base := ByFolderAndName(names);
      ByFolderAndNameOrder(names);
      SortSorted(kept, base);
      if request.foldersFirst {
        RequestedOrder(Name, request, names);
        SortTwice(kept, base, ByFolder());
        LexIsTotalPreorder(ByFolder(), base);
        SortSorted(kept, Lex(ByFolder(), base));
        assert Lex(ByFolder(), base)(FastList(items, request, names)[i], FastList(items, request, names)[j]);
      } else {
        assert base(Sort(kept, base)[i], Sort(kept, base)[j]);
      }
    }
  }

  // ---- Where the two paths agree -----------------------------------------------

  /**
    The fast path equals the simple one exactly when entries the requested order does not
    separate are scanned in folder-and-name order.
   */
  lemma PathsAgree(items: seq<Item>, request: Request, names: Names)
    ensures FastList(items, request, names) == SimpleList(items, request, names)
       <==> || request.field == None
            || TiesInOrder(Filter(items, KeepsItem(request, names)),
                           Requested(request.field.value, request, names), ByFolderAndName(names))
  {
    var base := ByFolderAndName(names);
    ByFolderAndNameOrder(names);
    if request.field == None {
      FilterSort(items, base, KeepsItem(request, names));
    } else {
      var field := request.field.value;
      ListsAreSorts(items, field, request, names);
      RequestedOrder(field, request, names);
      RefinedSortAgrees(Filter(items, KeepsItem(request, names)), base, Requested(field, request, names));
    }
  }

  /** Sorted by name with folders first, in either direction, the two paths always agree. */
  lemma NameListsAgree(items: seq<Item>, request: Request, names: Names)
    requires request.field == Some(Name) && request.foldersFirst
    ensures FastList(items, request, names) == SimpleList(items, request, names)
  {
    var kept := Filter(items, KeepsItem(request, names));
    var le := Requested(Name, request, names);
    forall i, j | 0 <= i < j < |kept| && le(kept[i], kept[j]) && le(kept[j], kept[i])
      ensures ByFolderAndName(names)(kept[i], kept[j])
    {
      TextLeTotal(names.lower(kept[i].light.name), names.lower(kept[j].light.name));
    }
    PathsAgree(items, request, names);
  }

  /**
    Without folders first, name sorts agree exactly when no kept file is scanned before a kept
    folder of the same lower-cased name.
   */
  lemma MixedNameListsAgree(items: seq<Item>, request: Request, names: Names)
    requires request.field == Some(Name) && !request.foldersFirst
    ensures FastList(items, request, names) == SimpleList(items, request, names)
       <==> var kept := Filter(items, KeepsItem(request, names));
            forall i, j ::
              0 <= i < j < |kept| && names.lower(kept[i].light.name) == names.lower(kept[j].light.name)
              ==> kept[i].light.isDir || !kept[j].light.isDir
  {
    var kept := Filter(items, KeepsItem(request, names));
    var le := Requested(Name, request, names);
    var base := ByFolderAndName(names);
    forall i, j | 0 <= i < j < |kept|
      ensures le(kept[i], kept[j]) && le(kept[j], kept[i])
         <==> names.lower(kept[i].light.name) == names.lower(kept[j].light.name)
      ensures names.lower(kept[i].light.name) == names.lower(kept[j].light.name) ==>
          (base(kept[i], kept[j]) <==> kept[i].light.isDir || !kept[j].light.isDir)
    {
      TextLeTotal(names.lower(kept[i].light.name), names.lower(kept[j].light.name));
    }
    PathsAgree(items, request, names);
  }

  /** Sorted by type the paths can differ: two text files scanned against their name order. */
  lemma TypeListsMayDiffer(names: Names) returns (items: seq<Item>, request: Request)
    requires names.lower("b.txt") == "b.txt" && names.lower("a.txt") == "a.txt"
    ensures request.field == Some(Kind) && request.foldersFirst
    ensures FastList(items, request, names) != SimpleList(items, request, names)
  {
    var b := Item(Light("b.txt", "/d/b.txt", "txt", false), 0, "", "", "", 0.0);
    var a := Item(Light("a.txt", "/d/a.txt", "txt", false), 0, "", "", "", 0.0);
    items := [b, a];
    request := Request(Some(Kind), false, true, true, "");
    var keep := KeepsItem(request, names);
    assert items[1..] == [a] && [a][1..] == [];
    assert Filter([a], keep) == [a] && Filter(items, keep) == items;
    var le := Requested(Kind, request, names);
    TextLeTotal(names.lower("txt"), names.lower("txt"));
    assert le(items[0], items[1]) && le(items[1], items[0]);
    assert !TextLe("b.txt", "a.txt");
    PathsAgree(items, request, names);
  }

  // ---- Pages -------------------------------------------------------------------

  function TotalPages(total: nat, size: nat): (pages: nat)
    requires size >= 1
    ensures pages >= 1
  {
    var pages := (total + size - 1) / size;
    if pages < 1 then 1 else pages
  }

  /** The last page is the one on which the last entry stands. */
  lemma LastPage(total: nat, size: nat, page: nat)
    requires size >= 1
    ensures page >= TotalPages(total, size) ==> page * size >= total
    ensures page < TotalPages(total, size) ==> page * size < total || page == 0
  {
    var q := (total + size - 1) / size;
    assert q * size <= total + size - 1 < q * size + size;
    if page >= q {
      Monotone(q, page, size);
    } else {
      assert (page + 1) * size == page * size + size;
      Monotone(page + 1, q, size);
    }
  }

  lemma Monotone(a: nat, b: nat, size: nat)
    requires a <= b
    ensures a * size <= b * size
  {
  }

  function Least(a: nat, b: nat): nat {
    if a <= b then a else b
  }

  /** Python's items[start:start + size], whose bounds are cut at the end of the list. */
  function Slice<T>(list: seq<T>, start: nat, size: nat): (r: seq<T>)
    ensures |r| <= size && (start + size <= |list| ==> |r| == size)
  {
    list[Least(start, |list|)..Least(start + size, |list|)]
  }

  /** Page `page`, counted from one; a page past the end shows the last one. */
  function PageOf(list: seq<Item>, page: nat, size: nat): (r: Page)
    requires page >= 1 && size >= 1
    ensures 1 <= r.page <= r.totalPages && |r.items| <= size
  {
    var pages := TotalPages(|list|, size);
    var shown := Least(page, pages);
    Page(Slice(list, (shown - 1) * size, size), shown, |list|, pages)
  }

  /** Every page but the last is full, and no page of a nonempty list is empty. */
  lemma PagesAreFull(list: seq<Item>, page: nat, size: nat)
    requires page >= 1 && size >= 1
    ensures var r := PageOf(list, page, size);
            && (r.page < r.totalPages ==> |r.items| == size)
            && (list != [] ==> r.items != [])
  {
    var r := PageOf(list, page, size);
    assert r.page * size == (r.page - 1) * size + size;
    LastPage(|list|, size, r.page);
    LastPage(|list|, size, r.page - 1);
  }

  lemma PageItems(list: seq<Item>, page: nat, size: nat)
    requires size >= 1 && 1 <= page <= TotalPages(|list|, size)
    ensures PageOf(list, page, size).items == Slice(list, (page - 1) * size, size)
  {
  }

  /** The items of pages 1 to `count`. */
  function FirstPages(list: seq<Item>, count: nat, size: nat): seq<Item>
    requires size >= 1
  {
    Gather(Pages(list, size), count)
  }

  function Pages(list: seq<Item>, size: nat): nat -> seq<Item>
    requires size >= 1
  {
    (page: nat) => if page == 0 then [] else PageOf(list, page, size).items
  }

  function Gather(pages: nat -> seq<Item>, count: nat): seq<Item> {
    if count == 0 then [] else Gather(pages, count - 1) + pages(count)
  }

  lemma {:induction false} FirstPagesAre(list: seq<Item>, count: nat, size: nat)
    requires size >= 1 && count <= TotalPages(|list|, size)
    ensures FirstPages(list, count, size) == list[..Least(count * size, |list|)]
  {
    if count > 0 {
      FirstPagesAre(list, count - 1, size);
      assert count * size == (count - 1) * size + size;
      OnePageMore(list, count, size);
      SliceExtends(list, (count - 1) * size, size);
    }
  }

  lemma OnePageMore(list: seq<Item>, count: nat, size: nat)
    requires size >= 1 && 1 <= count <= TotalPages(|list|, size)
    ensures FirstPages(list, count, size) == FirstPages(list, count - 1, size) + Slice(list, (count - 1) * size, size)
  {
    PageItems(list, count, size);
    assert Pages(list, size)(count) == Slice(list, (count - 1) * size, size);
  }

  lemma SliceExtends<T>(list: seq<T>, start: nat, size: nat)
    ensures list[..Least(start, |list|)] + Slice(list, start, size) == list[..Least(start + size, |list|)]
  {
  }

  /** Reading every page in turn gives the whole list, each entry once. */
  lemma PagesMakeTheList(list: seq<Item>, size: nat)
    requires size >= 1
    ensures FirstPages(list, TotalPages(|list|, size), size) == list
  {
    FirstPagesAre(list, TotalPages(|list|, size), size);
    LastPage(|list|, size, TotalPages(|list|, size));
    assert list[..|list|] == list;
  }

  lemma {:induction false} SamePagesGather(a: nat -> seq<Item>, b: nat -> seq<Item>, count: nat)
    requires forall page :: 1 <= page <= count ==> a(page) == b(page)
    ensures Gather(a, count) == Gather(b, count)
  {
    if count > 0 {
      SamePagesGather(a, b, count - 1);
    }
  }

  /** Two lists have the same pages exactly when they are the same list. */
  lemma SamePages(a: seq<Item>, b: seq<Item>, size: nat)
    requires size >= 1
    ensures (forall page :: page >= 1 ==> PageOf(a, page, size) == PageOf(b, page, size)) <==> a == b
  {
    if forall page :: page >= 1 ==> PageOf(a, page, size) == PageOf(b, page, size) {
      assert PageOf(a, 1, size).totalPages == PageOf(b, 1, size).totalPages;
      forall page | 1 <= page <= TotalPages(|a|, size)
        ensures Pages(a, size)(page) == Pages(b, size)(page)
      {
        assert PageOf(a, page, size) == PageOf(b, page, size);
      }
      SamePagesGather(Pages(a, size), Pages(b, size), TotalPages(|a|, size));
      PagesMakeTheList(a, size);
      PagesMakeTheList(b, size);
    }
  }

  /**
    So the worker's pages are those of the older path over the unpaginated listing, for every
    page number, exactly when ties of the requested order are scanned in folder-and-name order;
    sorted by name with folders first they always are.
   */
  lemma PagesAgree(items: seq<Item>, request: Request, names: Names, size: nat)
    requires size >= 1
    ensures (forall page :: page >= 1 ==>
               PageOf(FastList(items, request, names), page, size)
               == PageOf(SimpleList(items, request, names), page, size))
       <==> || request.field == None
            || TiesInOrder(Filter(items, KeepsItem(request, names)),
                           Requested(request.field.value, request, names), ByFolderAndName(names))
    ensures request.field == Some(Name) && request.foldersFirst ==>
              forall page :: page >= 1 ==>
                PageOf(FastList(items, request, names), page, size)
                == PageOf(SimpleList(items, request, names), page, size)
  {
    SamePages(FastList(items, request, names), SimpleList(items, request, names), size);
    PathsAgree(items, request, names);
    if request.field == Some(Name) && request.foldersFirst {
      NameListsAgree(items, request, names);
    }
  }

  // ---- The programs ------------------------------------------------------------

  function Map<T, U>(s: seq<T>, f: T -> U): (r: seq<U>)
    ensures |r| == |s| && forall k :: 0 <= k < |s| ==> r[k] == f(s[k])
  {
    if s == [] then [] else [f(s[0])] + Map(s[1..], f)
  }

  lemma {:induction false} MapInsert<T(!new), U(!new)>(x: T, s: seq<T>, le: Order<U>, f: T -> U)
    ensures Map(Insert(x, s, Along(le, f)), f) == Insert(f(x), Map(s, f), le)
  {
    if s != [] {
      MapInsert(x, s[1..], le, f);
      assert Map(s, f)[1..] == Map(s[1..], f);
      var r := Insert(x, s, Along(le, f));
      assert le(f(x), f(s[0])) ==> r[1..] == s;
      assert !le(f(x), f(s[0])) ==> r[1..] == Insert(x, s[1..], Along(le, f));
    } else {
      assert [x][1..] == [];
    }
  }

  /** Reading the metadata after sorting is sorting the metadata. */
  lemma {:induction false} MapSort<T(!new), U(!new)>(s: seq<T>, le: Order<U>, f: T -> U)
    ensures Map(Sort(s, Along(le, f)), f) == Sort(Map(s, f), le)
  {
    if s != [] {
      MapSort(s[1..], le, f);
      MapInsert(s[0], Sort(s[1..], Along(le, f)), le, f);
      assert Map(s, f)[1..] == Map(s[1..], f);
    }
  }

  function Read<T, U>(p: U -> bool, f: T -> U): T -> bool {
    x => p(f(x))
  }

  lemma {:induction false} MapFilter<T, U>(s: seq<T>, p: U -> bool, f: T -> U)
    ensures Map(Filter(s, Read(p, f)), f) == Filter(Map(s, f), p)
  {
    if s != [] {
      MapFilter(s[1..], p, f);
      assert Map(s, f)[1..] == Map(s[1..], f);
      var rest := Filter(s[1..], Read(p, f));
      if p(f(s[0])) {
        assert Filter(s, Read(p, f)) == [s[0]] + rest;
        assert ([s[0]] + rest)[1..] == rest;
      } else {
        assert Filter(s, Read(p, f)) == rest;
      }
    }
  }

  /** Sorting by name, by type or by default needs no metadata. */
  predicate NeedsMetadata(request: Request) {
    request.field.Some? && !request.field.value.Name? && !request.field.value.Kind?
  }

  function LightByField(field: Field, descending: bool, names: Names): Order<Light>
    requires field.Name? || field.Kind?
  {
    var key := (entry: Light) => Text(names.lower(if field.Name? then entry.name else entry.kind));
    (x, y) => if descending then KeyLe(key(y), key(x)) else KeyLe(key(x), key(y))
  }

  function LightByFolder(): Order<Light> {
    (x: Light, y: Light) => x.isDir || !y.isDir
  }

  function LightByFolderAndName(names: Names): Order<Light> {
    (x: Light, y: Light) =>
      && (x.isDir || !y.isDir)
      && (x.isDir == y.isDir ==> TextLe(names.lower(x.name), names.lower(y.name)))
  }

  function LightSort(entries: seq<Light>, request: Request, names: Names): seq<Light>
    requires !NeedsMetadata(request)
  {
    var sorted := match request.field
      case Some(field) => Sort(entries, LightByField(field, request.descending, names))
      case None => Sort(entries, LightByFolderAndName(names));
    if request.foldersFirst then Sort(sorted, LightByFolder()) else sorted
  }

  /** Sorting light entries and then reading them is sorting what was read. */
  lemma LightSortIsWorkerSort(entries: seq<Light>, info: Light -> Item, request: Request, names: Names)
    requires !NeedsMetadata(request)
    requires forall entry :: info(entry).light == entry
    ensures Map(LightSort(entries, request, names), info) == WorkerSort(Map(entries, info), request, names)
  {
    var le := if request.field.Some? then ByField(request.field.value, request.descending, names)
              else ByFolderAndName(names);
    var light := if request.field.Some? then LightByField(request.field.value, request.descending, names)
                 else LightByFolderAndName(names);
    SortAgrees(entries, light, Along(le, info));
    MapSort(entries, le, info);
    var sorted := Sort(entries, light);
    SortAgrees(sorted, LightByFolder(), Along(ByFolder(), info));
    MapSort(sorted, ByFolder(), info);
  }

  lemma MapSlice(entries: seq<Light>, info: Light -> Item, start: nat, size: nat)
    ensures Map(Slice(entries, start, size), info) == Slice(Map(entries, info), start, size)
  {
  }

  /** Reading only the selected entries gives the page of everything read. */
  lemma LightPage(entries: seq<Light>, info: Light -> Item, page: nat, size: nat)
    requires page >= 1 && size >= 1
    ensures var pages := TotalPages(|entries|, size);
            var shown := Least(page, pages);
            && Page(Map(Slice(entries, (shown - 1) * size, size), info), shown, |entries|, pages)
            == PageOf(Map(entries, info), page, size)
  {
    MapSlice(entries, info, (Least(page, TotalPages(|entries|, size)) - 1) * size, size);
  }

  function AtLeastOne(value: int): (r: nat)
    ensures r >= 1 && (value >= 1 ==> r == value) && (value < 1 ==> r == 1)
  {
    if value < 1 then 1 else value
  }

  method ReadAll(entries: seq<Light>, info: Light -> Item) returns (items: seq<Item>)
    ensures items == Map(entries, info)
  {
    items := [];
    for k := 0 to |entries|
      invariant |items| == k
      invariant forall i :: 0 <= i < k ==> items[i] == info(entries[i])
    {
      items := items + [info(entries[k])];
    }
  }

  /** The listing without pages, which the simple path starts from. */
  method ListAll(scan: seq<Light>, info: Light -> Item, names: Names) returns (items: seq<Item>)
    ensures items == Sort(Map(scan, info), ByFolderAndName(names))
  {
    items := ReadAll(scan, info);
    items := Sort(items, ByFolderAndName(names));
  }

  /**
    One page of a directory as the worker builds it. `info` reads full metadata; nothing
    changes between the scan and the reads, so it repeats what the scan said.
   */
  method ListPage(scan: seq<Light>, info: Light -> Item, request: Request, names: Names, page: int, pageSize: int)
    returns (r: Page)
    requires forall entry :: info(entry).light == entry
    ensures r == PageOf(FastList(Map(scan, info), request, names), AtLeastOne(page), Clamp(pageSize, 1, MAX_PAGE_SIZE))
  {
    var size := Clamp(pageSize, 1, MAX_PAGE_SIZE);
    var entries := ScanKept(scan, KeepsEntry(request, names));
    KeptOnBothSides(scan, info, request, names);
    if NeedsMetadata(request) {
      var items := ReadAll(entries, info);
      items := WorkerSort(items, request, names);
      r := PageOf(items, AtLeastOne(page), size);
    } else {
      LightSortIsWorkerSort(entries, info, request, names);
      entries := LightSort(entries, request, names);
      r := ReadPage(entries, info, AtLeastOne(page), size);
    }
  }

  /** Metadata is read for the selected entries only. */
  method ReadPage(entries: seq<Light>, info: Light -> Item, page: nat, size: nat) returns (r: Page)
    requires page >= 1 && size >= 1
    ensures r == PageOf(Map(entries, info), page, size)
  {
    var pages := TotalPages(|entries|, size);
    var shown := Least(page, pages);
    var selected := Slice(entries, (shown - 1) * size, size);
    LightPage(entries, info, page, size);
    var items := ReadAll(selected, info);
    r := Page(items, shown, |entries|, pages);
  }

  method ScanKept(scan: seq<Light>, keep: Light -> bool) returns (entries: seq<Light>)
    ensures entries == Filter(scan, keep)
  {
    entries := [];
    for k := 0 to |scan|
      invariant entries + Filter(scan[k..], keep) == Filter(scan, keep)
    {
      FilterFrom(scan, k, keep, entries);
      if keep(scan[k]) {
        entries := entries + [scan[k]];
      }
    }
  }

  lemma FilterFrom(scan: seq<Light>, k: nat, keep: Light -> bool, done: seq<Light>)
    requires k < |scan|
    ensures done + Filter(scan[k..], keep)
         == (if keep(scan[k]) then done + [scan[k]] else done) + Filter(scan[k + 1..], keep)
  {
    assert scan[k..] == [scan[k]] + scan[k + 1..];
    FilterCons(scan[k], scan[k + 1..], keep);
  }

  lemma KeptOnBothSides(scan: seq<Light>, info: Light -> Item, request: Request, names: Names)
    requires forall entry :: info(entry).light == entry
    ensures Map(Filter(scan, KeepsEntry(request, names)), info)
         == Filter(Map(scan, info), KeepsItem(request, names))
  {
    var p := KeepsItem(request, names);
    FilterAgrees(scan, KeepsEntry(request, names), Read(p, info));
    MapFilter(scan, p, info);
  }

  /** One page of a listing that was read as a whole. */
  method LegacyPaginate(raw: seq<Item>, request: Request, names: Names, page: nat, pageSize: nat) returns (r: Page)
    requires page >= 1 && pageSize >= 1
    ensures r == PageOf(LegacySort(Filter(raw, KeepsItem(request, names)), request, names), page, pageSize)
  {
    var visible := (item: Item) => Keeps(item.light, request.(query := ""), names);
    var matching := (item: Item) => Keeps(item.light, request.(showHidden := true), names);
    var items := raw;
    if !request.showHidden {
      items := Filter(items, visible);
      FilterBoth(raw, visible, matching);
      FilterAgrees(raw, Both(visible, matching), KeepsItem(request, names));
    } else {
      FilterAgrees(raw, matching, KeepsItem(request, names));
    }
    items := Filter(items, matching);
    if request.field.Some? {
      items := Sort(items, ByField(request.field.value, request.descending, names));
    }
    if request.foldersFirst {
      items := Sort(items, ByFolder());
    }
    r := PageOf(items, page, pageSize);
  }
}
