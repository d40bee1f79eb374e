/** The todo repository, a map plus an order list over shared objects, and the service that
    mints ids from the total and edits the stored object before it calls Update. */
module Todos {
  import opened Basics
  import opened Pagination

  // ---- decimal numerals ----

  function Digit(d: nat): char
    requires d < 10
  {
    '0' + d as char
  }

  /** strconv.Itoa on natural numbers */
  function Itoa(n: nat): string {
    if n < 10 then [Digit(n)] else Itoa(n / 10) + [Digit(n % 10)]
  }

  function Parse(s: string): int {
    if s == [] then 0 else 10 * Parse(s[..|s| - 1]) + (s[|s| - 1] as int - '0' as int)
  }

  lemma {:induction false} ParseItoa(n: nat)
    ensures Itoa(n) != "" && Parse(Itoa(n)) == n
  {
    if n >= 10 {
      ParseItoa(n / 10);
      assert Itoa(n)[..|Itoa(n)| - 1] == Itoa(n / 10);
    } else {
      assert Itoa(n)[..0] == [];
    }
  }

  /** A decimal numeral: digits only, and no leading zero. */
  lemma {:induction false} ItoaIsDecimal(n: nat)
    ensures Itoa(n) != "" && forall i | 0 <= i < |Itoa(n)| :: '0' <= Itoa(n)[i] <= '9'
    ensures n > 0 ==> Itoa(n)[0] != '0'
  {
    if n >= 10 {
      ItoaIsDecimal(n / 10);
    }
  }

  lemma ItoaInjective(a: nat, b: nat)
    requires Itoa(a) == Itoa(b)
    ensures a == b
  {
    ParseItoa(a);
    ParseItoa(b);
  }

  // ---- the insertion-ordered list that the repository stands for ----

  datatype Item = Item(id: string, title: string, completed: bool)

  predicate Has(c: seq<Item>, id: string) {
    exists i :: 0 <= i < |c| && c[i].id == id
  }

  ghost predicate Distinct(c: seq<Item>) {
    forall i, j :: 0 <= i < j < |c| ==> c[i].id != c[j].id
  }

  function Replace(c: seq<Item>, item: Item): seq<Item> {
    seq(|c|, i requires 0 <= i < |c| => if c[i].id == item.id then item else c[i])
  }

  function Without(c: seq<Item>, id: string): seq<Item> {
    if c == [] then []
    else Without(c[..|c| - 1], id) + if c[|c| - 1].id == id then [] else [c[|c| - 1]]
  }

  /** Removing an id takes away one element and keeps the order of the rest. */
  lemma {:induction false} WithoutRemovesOne(c: seq<Item>, k: nat)
    requires Distinct(c) && k < |c|
    ensures Without(c, c[k].id) == c[..k] + c[k + 1..]
  {
    var init := c[..|c| - 1];
    if k == |c| - 1 {
      WithoutAbsent(init, c[k].id);
    } else {
      WithoutRemovesOne(init, k);
      assert init[..k] == c[..k] && init[k + 1..] + [c[|c| - 1]] == c[k + 1..];
    }
  }

  lemma {:induction false} WithoutAbsent(c: seq<Item>, id: string)
    requires !Has(c, id)
    ensures Without(c, id) == c
  {
    if c != [] {
      var init, last := c[..|c| - 1], c[|c| - 1];
      assert c == init + [last] && last.id != id;
      forall i | 0 <= i < |init|
        ensures init[i].id != id
      {
        assert init[i] == c[i];
      }
      WithoutAbsent(init, id);
    }
  }

  function Drop(order: seq<string>, id: string): seq<string> {
    if order == [] then []
    else Drop(order[..|order| - 1], id) + if order[|order| - 1] == id then [] else [order[|order| - 1]]
  }

  ghost predicate NoDuplicates(order: seq<string>) {
    forall i, j :: 0 <= i < j < |order| ==> order[i] != order[j]
  }

  lemma {:induction false} DropKeepsOthers(order: seq<string>, id: string)
    requires NoDuplicates(order)
    ensures NoDuplicates(Drop(order, id))
    ensures forall x :: x in Drop(order, id) <==> x in order && x != id
  {
    if order != [] {
      var init, last := order[..|order| - 1], order[|order| - 1];
      DropKeepsOthers(init, id);
      assert order == init + [last];
      assert last !in init;
    }
  }

  // ---- the repository ----

  class Todo {
    var ID: string
    var Title: string
    var Completed: bool

    constructor (id: string, title: string, completed: bool)
      ensures ToItem() == Item(id, title, completed)
    {
      ID, Title, Completed := id, title, completed;
    }

    function ToItem(): Item
      reads this
    {
      Item(ID, Title, Completed)
    }
  }

  /** The values stored under the ids of `order`. */
  function Listing<T>(order: seq<string>, stored: map<string, T>): (c: seq<T>)
    requires forall i :: 0 <= i < |order| ==> order[i] in stored
    ensures |c| == |order| && forall i :: 0 <= i < |c| ==> c[i] == stored[order[i]]
  {
    seq(|order|, i requires 0 <= i < |order| => stored[order[i]])
  }

  lemma {:induction false} ListingDrop(order: seq<string>, items: map<string, Item>, id: string)
    requires NoDuplicates(order)
    requires forall i :: 0 <= i < |order| ==> order[i] in items && items[order[i]].id == order[i]
    requires forall i :: 0 <= i < |Drop(order, id)| ==> Drop(order, id)[i] in items - {id}
    ensures Listing(Drop(order, id), items - {id}) == Without(Listing(order, items), id)
  {
    if order != [] {
      var init, last := order[..|order| - 1], order[|order| - 1];
      DropKeepsOthers(init, id);
      assert forall i :: 0 <= i < |Drop(init, id)| ==> Drop(init, id)[i] in Drop(init, id);
      ListingDrop(init, items, id);
      var all := Listing(order, items);
      assert all[..|order| - 1] == Listing(init, items) && all[|order| - 1] == items[last];
      if last != id {
        assert Listing(Drop(order, id), items - {id}) == Listing(Drop(init, id), items - {id}) + [items[last]];
      }
    }
  }

  datatype PageResponse = PageResponse(items: seq<Todo>, total: int, page: int, pageSize: int)

  /** What a List request is to be answered with when its offset fits in 64 bits: a page below 1 means
      page 1, a size that is not positive means 10 and one above 100 means 100; the answer says which
      page it is and has the todos after the first (page - 1) * size, at most size of them. */
  ghost predicate IsPage(all: seq<Todo>, page: int, pageSize: int, r: Result<PageResponse, Panic>) {
    var p := if page < 1 then 1 else page;
    var size := if pageSize <= 0 then 10 else if pageSize > 100 then 100 else pageSize;
    var skipped := (p - 1) * size;
    skipped <= MAX_INT ==>
      && r.Ok? && r.value.total == |all| && r.value.page == p && r.value.pageSize == size
      && 0 <= skipped && |r.value.items| == Max(0, Min(size, |all| - skipped))
      && forall j | 0 <= j < |r.value.items| :: r.value.items[j] == all[skipped + j]
  }

  lemma ListedIsPage(all: seq<Todo>, page: int, pageSize: int, r: Result<PageResponse, Panic>)
    requires Addressable(|all|)
    requires var p, size := NormalPage(page), NormalSize(pageSize, 10, 100);
             r == match PageOf(all, p, size)
                  case Ok(items) => Ok(PageResponse(items, |all|, p, size))
                  case Err(e) => Err(e)
    ensures IsPage(all, page, pageSize, r)
  {
    var p, size := NormalPage(page), NormalSize(pageSize, 10, 100);
    var skipped := (p - 1) * size;
    if skipped <= MAX_INT {
      PageItems(all, p, size, skipped);
    }
  }

  /** The items of the responses to List(1, size), List(2, size) and so on, one after the other. */
  ghost function AllItems(rs: seq<Result<PageResponse, Panic>>): seq<Todo>
    requires forall i | 0 <= i < |rs| :: rs[i].Ok?
  {
    if rs == [] then [] else AllItems(rs[..|rs| - 1]) + rs[|rs| - 1].value.items
  }

  /** As long as the offsets fit in 64 bits these are the first |rs| * size todos, so the whole list
      once that reaches its length. */
  lemma {:induction false} ListedPagesTile(all: seq<Todo>, rs: seq<Result<PageResponse, Panic>>, size: int)
    requires 1 <= size <= 100 && (|rs| - 1) * size <= MAX_INT
    requires forall i | 0 <= i < |rs| :: IsPage(all, i + 1, size, rs[i])
    ensures forall i | 0 <= i < |rs| :: rs[i].Ok?
    ensures |rs| * size >= 0 && AllItems(rs) == all[..Min(|rs| * size, |all|)]
  {
    var k := |rs| - 1;
    if k >= 0 {
      ProductMonotone(size, k - 1, k);
      ListedPagesTile(all, rs[..k], size);
      PageExtends(all, k, size, rs[k]);
    }
  }

  lemma PageExtends(all: seq<Todo>, k: nat, size: int, r: Result<PageResponse, Panic>)
    requires 1 <= size <= 100 && k * size <= MAX_INT && IsPage(all, k + 1, size, r)
    ensures 0 <= k * size <= (k + 1) * size && r.Ok?
    ensures all[..Min(k * size, |all|)] + r.value.items == all[..Min((k + 1) * size, |all|)]
  {
    NonNegativeProduct(k, size);
    var lo, hi := k * size, (k + 1) * size;
    assert hi == lo + size;
    assert lo < |all| ==> r.value.items == all[lo..Min(hi, |all|)];
  }

  ghost function ItemsOf(todos: map<string, Todo>): map<string, Item>
    reads todos.Values
  {
    map id | id in todos :: todos[id].ToItem()
  }

  lemma ItemsOfRemoved(todos: map<string, Todo>, id: string)
    ensures ItemsOf(todos - {id}) == ItemsOf(todos) - {id}
  {
    assert forall x <- todos - {id} :: ItemsOf(todos - {id})[x] == ItemsOf(todos)[x];
  }

  lemma NextSeed(seeds: seq<Item>, i: nat)
    requires Distinct(seeds) && i < |seeds|
    ensures !Has(seeds[..i], seeds[i].id) && seeds[..i + 1] == seeds[..i] + [seeds[i]]
  {
  }

  /** `order` has no duplicates and holds exactly the keys of the map. */
  ghost predicate Lists<T>(order: seq<string>, todos: map<string, T>) {
    && NoDuplicates(order)
    && (forall i :: 0 <= i < |order| ==> order[i] in todos)
    && (forall id <- todos :: id in order)
  }

  lemma DropLists<T>(order: seq<string>, todos: map<string, T>, id: string)
    requires Lists(order, todos)
    ensures Lists(Drop(order, id), todos - {id})
  {
    DropKeepsOthers(order, id);
    forall i | 0 <= i < |Drop(order, id)|
      ensures Drop(order, id)[i] in todos - {id}
    {
      assert Drop(order, id)[i] in Drop(order, id);
    }
  }

  class TodoRepo {
    var todos: map<string, Todo>
    var order: seq<string>

    /** The order list has no duplicates and holds exactly the map's keys, and every object is
        stored under its own id. */
    ghost predicate Valid()
      reads this, todos.Values
    {
      Lists(order, todos) && forall id <- todos :: todos[id].ID == id
    }

    ghost function Snapshot(): map<string, Item>
      reads this, todos.Values
    {
      ItemsOf(todos)
    }

    ghost function Contents(): (c: seq<Item>)
      requires Valid()
      reads this, todos.Values
      ensures Distinct(c) && |c| == |order|
    {
      Listing(order, Snapshot())
    }

    lemma HasIffInMap(id: string)
      requires Valid()
      ensures Has(Contents(), id) <==> id in todos
    {
      if id in todos {
        var i :| 0 <= i < |order| && order[i] == id;
        assert Contents()[i].id == id;
      }
    }

    lemma ItemAt(id: string)
      requires Valid() && id in todos
      ensures Has(Contents(), id) && Contents()[Position(Contents(), id)] == todos[id].ToItem()
    {
      HasIffInMap(id);
      assert Contents()[Position(Contents(), id)].id == id;
    }

    constructor (seeds: seq<Item>)
      requires Distinct(seeds)
      ensures Valid() && Contents() == seeds
      ensures fresh(todos.Values)
    {
      todos := map[];
      order := [];
      new;
      assert Contents() == [];
      AddSeeds(seeds);
    }

    method AddSeeds(seeds: seq<Item>)
      requires Distinct(seeds) && Valid() && Contents() == []
      modifies this
      ensures Valid() && Contents() == seeds
      ensures fresh(todos.Values - old(todos.Values))
    {
      for i := 0 to |seeds|
        invariant Valid() && Contents() == seeds[..i]
        invariant fresh(todos.Values - old(todos.Values))
      {
        NextSeed(seeds, i);
        Seed(seeds[i]);
      }
      assert seeds[..|seeds|] == seeds;
    }

    method Seed(item: Item)
      requires Valid() && !Has(Contents(), item.id)
      modifies this
      ensures Valid() && Contents() == old(Contents()) + [item]
      ensures fresh(todos.Values - old(todos.Values))
    {
      HasIffInMap(item.id);
      var t := new Todo(item.id, item.title, item.completed);
      Insert(t);
    }

    method Insert(todo: Todo)
      requires Valid() && todo.ID !in todos
      modifies this
      ensures Valid() && Contents() == old(Contents()) + [todo.ToItem()]
      ensures todos == old(todos)[todo.ID := todo]
    {
      todos := todos[todo.ID := todo];
      order := order + [todo.ID];
    }

    /** The stored objects in order. */
    ghost function Objects(): (all: seq<Todo>)
      requires Valid()
      reads this, todos.Values
      ensures |all| == |Contents()| && forall i :: 0 <= i < |all| ==> all[i].ToItem() == Contents()[i]
    {
      Listing(order, todos)
    }

    method InOrder() returns (all: seq<Todo>)
      requires Valid()
      ensures all == Objects()
    {
      all := [];
      for k := 0 to |order|
        invariant all == Listing(order, todos)[..k]
      {
        if order[k] in todos {
          all := all + [todos[order[k]]];
        }
      }
    }

    /** The response holds the stored objects themselves. */
    method List(page: int, pageSize: int) returns (r: Result<PageResponse, Panic>)
      requires Valid()
      ensures var p, size := NormalPage(page), NormalSize(pageSize, 10, 100);
              r == match PageOf(Objects(), p, size)
                   case Ok(items) => Ok(PageResponse(items, |Contents()|, p, size))
                   case Err(e) => Err(e)
      ensures Addressable(|Objects()|) ==> IsPage(Objects(), page, pageSize, r)
    {
      var req := new PageRequest(page, pageSize);
      req.Normalize(10, 100);
      var all := InOrder();
      var start := req.Offset();
      if start > |all| {
        start := |all|;
      }
      var end := Wrap(start + req.PageSize);
      if end > |all| {
        end := |all|;
      }
      if 0 <= start <= end {
        r := Ok(PageResponse(all[start..end], |all|, req.Page, req.PageSize));
      } else {
        r := Err(SliceBoundsOutOfRange);
      }
      if Addressable(|all|) {
        ListedIsPage(all, page, pageSize, r);
      }
    }

    method Get(id: string) returns (t: Todo?)
      requires Valid()
      ensures t != null <==> id in todos
      ensures t != null ==> t == todos[id]
    {
      if id !in todos {
        return null;
      }
      return todos[id];
    }

    method Create(todo: Todo) returns (ok: bool)
      requires Valid()
      modifies this
      ensures Valid() && ok == !Has(old(Contents()), todo.ID)
      ensures Contents() == if ok then old(Contents()) + [todo.ToItem()] else old(Contents())
      ensures todos.Values <= old(todos.Values) + {todo}
    {
      HasIffInMap(todo.ID);
      if todo.ID in todos {
        return false;
      }
      Insert(todo);
      return true;
    }

    /** Works as well when `todo` is the stored object, edited before the call. */
    method Update(todo: Todo) returns (ok: bool)
      requires Valid()
      modifies this
      ensures Valid() && ok == Has(old(Contents()), todo.ID)
      ensures Contents() == Replace(old(Contents()), todo.ToItem())
      ensures todos.Values <= old(todos.Values) + {todo}
    {
      HasIffInMap(todo.ID);
      if todo.ID !in todos {
        assert Replace(Contents(), todo.ToItem()) == Contents();
        return false;
      }
      todos := todos[todo.ID := todo];
      return true;
    }

    method OrderWithout(id: string) returns (newOrder: seq<string>)
      ensures newOrder == Drop(order, id)
    {
      newOrder := [];
      for i := 0 to |order|
        invariant newOrder == Drop(order[..i], id)
      {
        assert order[..i + 1][..i] == order[..i];
        if order[i] != id {
          newOrder := newOrder + [order[i]];
        }
      }
      assert order[..|order|] == order;
    }

    method RemoveEntry(id: string, newOrder: seq<string>)
      requires Valid() && newOrder == Drop(order, id)
      modifies this
      ensures Valid() && todos == old(todos) - {id} && order == newOrder
      ensures Snapshot() == old(Snapshot()) - {id}
    {
      DropLists(order, todos, id);
      ItemsOfRemoved(todos, id);
      todos := todos - {id};
      order := newOrder;
    }

    method Delete(id: string) returns (ok: bool)
      requires Valid()
      modifies this
      ensures Valid() && ok == Has(old(Contents()), id)
      ensures Contents() == Without(old(Contents()), id)
      ensures todos.Values <= old(todos.Values)
    {
      HasIffInMap(id);
      if id !in todos {
        WithoutAbsent(Contents(), id);
        return false;
      }
      var newOrder := OrderWithout(id);
      DropLists(order, todos, id);
      ghost var rest := Snapshot() - {id};
      ListingDrop(order, Snapshot(), id);
      RemoveEntry(id, newOrder);
      assert Snapshot() == rest;
      return true;
    }

    /** Editing a stored object in place edits its entry in the list. */
    twostate lemma EditedInPlace(id: string)
      requires old(Valid()) && id in old(todos) && unchanged(this)
      requires forall t <- todos.Values :: t == todos[id] || unchanged(t)
      requires todos[id].ID == id
      ensures Valid() && Contents() == Replace(old(Contents()), todos[id].ToItem())
    {
      assert forall x <- todos :: todos[x] in todos.Values;
      assert Valid();
      forall i | 0 <= i < |order|
        ensures Contents()[i] == Replace(old(Contents()), todos[id].ToItem())[i]
      {
        assert old(Contents())[i].id == order[i];
      }
    }
  }

  // ---- the service ----

  datatype Op =
    | Create(title: string)
    | Update(id: string, newTitle: Option<string>, newCompleted: Option<bool>)
    | Delete(id: string)

  datatype Reply = Created(item: Item) | Updated(item: Item) | NoContent | NotFound | Internal

  function Edit(item: Item, title: Option<string>, completed: Option<bool>): Item {
    Item(item.id,
         if title.Some? then title.value else item.title,
         if completed.Some? then completed.value else item.completed)
  }

  function Position(c: seq<Item>, id: string): (i: nat)
    requires Has(c, id)
    ensures i < |c| && c[i].id == id
  {
    if c[0].id == id then 0 else 1 + Position(c[1..], id)
  }

  function NewId(c: seq<Item>): string {
    Itoa(|c| + 1)
  }

  function Answer(c: seq<Item>, op: Op): Reply {
    match op
    case Create(title) => if Has(c, NewId(c)) then Internal else Created(Item(NewId(c), title, false))
    case Update(id, title, completed) =>
      if Has(c, id) then Updated(Edit(c[Position(c, id)], title, completed)) else NotFound
    case Delete(id) => if Has(c, id) then NoContent else NotFound
  }

  function Apply(c: seq<Item>, op: Op): seq<Item> {
    match op
    case Create(title) => if Has(c, NewId(c)) then c else c + [Item(NewId(c), title, false)]
    case Update(id, title, completed) =>
      if Has(c, id) then Replace(c, Edit(c[Position(c, id)], title, completed)) else c
    case Delete(id) => Without(c, id)
  }

  lemma ReplaceTwice(c: seq<Item>, item: Item)
    ensures Replace(Replace(c, item), item) == Replace(c, item)
    ensures Has(Replace(c, item), item.id) <==> Has(c, item.id)
  {
    if i :| 0 <= i < |c| && c[i].id == item.id {
      assert Replace(c, item)[i].id == item.id;
    }
  }

  function ApplyAll(c: seq<Item>, ops: seq<Op>): seq<Item>
    decreases |ops|
  {
    if ops == [] then c else ApplyAll(Apply(c, ops[0]), ops[1..])
  }

  function Answers(c: seq<Item>, ops: seq<Op>): seq<Reply>
    decreases |ops|
  {
    if ops == [] then [] else [Answer(c, ops[0])] + Answers(Apply(c, ops[0]), ops[1..])
  }

  lemma AnswersGoOn(before: seq<Reply>, c: seq<Item>, ops: seq<Op>)
    requires ops != []
    ensures before + Answers(c, ops) == before + [Answer(c, ops[0])] + Answers(Apply(c, ops[0]), ops[1..])
  {
  }

  lemma GrowsByOne(c: seq<Item>, op: Op)
    ensures |Apply(c, op)| <= |c| + 1
  {
    if op.Delete? {
      WithoutIsShorter(c, op.id);
    }
  }

  lemma {:induction false} WithoutIsShorter(c: seq<Item>, id: string)
    ensures |Without(c, id)| <= |c|
  {
    if c != [] {
      WithoutIsShorter(c[..|c| - 1], id);
    }
  }

  class TodoService {
    const repo: TodoRepo

    constructor (repo: TodoRepo)
      ensures this.repo == repo
    {
      this.repo := repo;
    }

    method CreateTodo(title: string) returns (reply: Reply)
      requires repo.Valid() && Addressable(|repo.Contents()|)
      modifies repo
      ensures repo.Valid() && reply == Answer(old(repo.Contents()), Create(title))
      ensures repo.Contents() == Apply(old(repo.Contents()), Create(title))
      ensures fresh(repo.todos.Values - old(repo.todos.Values))
    {
      NoPanicWithinRange(repo.Contents(), 1, 100);
      var all := repo.List(1, 10000);
      var newID := Itoa(all.value.total + 1);
      var todo := new Todo(newID, title, false);
      var ok := repo.Create(todo);
      return if ok then Created(todo.ToItem()) else Internal;
    }

    method UpdateTodo(id: string, title: Option<string>, completed: Option<bool>) returns (reply: Reply)
      requires repo.Valid()
      modifies repo, repo.todos.Values
      ensures repo.Valid() && reply == Answer(old(repo.Contents()), Update(id, title, completed))
      ensures repo.Contents() == Apply(old(repo.Contents()), Update(id, title, completed))
      ensures repo.todos.Values <= old(repo.todos.Values)
    {
      ghost var before := repo.Contents();
      repo.HasIffInMap(id);
      var existing := repo.Get(id);
      if existing == null {
        return NotFound;
      }
      repo.ItemAt(id);
      EditTodo(existing, title, completed);
      repo.EditedInPlace(id);
      ReplaceTwice(before, existing.ToItem());
      var ok := repo.Update(existing);
      return if ok then Updated(existing.ToItem()) else Internal;
    }

    method EditTodo(todo: Todo, title: Option<string>, completed: Option<bool>)
      modifies todo
      ensures todo.ToItem() == Edit(old(todo.ToItem()), title, completed)
    {
      if title.Some? {
        todo.Title := title.value;
      }
      if completed.Some? {
        todo.Completed := completed.value;
      }
    }

    method Do(op: Op) returns (reply: Reply)
      requires repo.Valid() && Addressable(|repo.Contents()|)
      modifies repo, repo.todos.Values
      ensures repo.Valid() && reply == Answer(old(repo.Contents()), op)
      ensures repo.Contents() == Apply(old(repo.Contents()), op)
      ensures fresh(repo.todos.Values - old(repo.todos.Values))
    {
      match op
      case Create(title) => reply := CreateTodo(title);
      case Update(id, title, completed) => reply := UpdateTodo(id, title, completed);
      case Delete(id) => reply := DeleteTodo(id);
    }

    /** Any run of the service: its replies and what the repository holds in the end. */
    method DoAll(ops: seq<Op>) returns (replies: seq<Reply>)
      requires repo.Valid() && Addressable(|repo.Contents()| + |ops|)
      modifies repo, repo.todos.Values
      ensures repo.Valid() && repo.Contents() == ApplyAll(old(repo.Contents()), ops)
      ensures replies == Answers(old(repo.Contents()), ops)
    {
      replies := [];
      var i := 0;
      while i < |ops|
        invariant 0 <= i <= |ops| && repo.Valid()
        invariant |repo.Contents()| <= old(|repo.Contents()|) + i
        invariant ApplyAll(repo.Contents(), ops[i..]) == ApplyAll(old(repo.Contents()), ops)
        invariant replies + Answers(repo.Contents(), ops[i..]) == Answers(old(repo.Contents()), ops)
        invariant fresh(repo.todos.Values - old(repo.todos.Values))
      {
        assert ops[i..][0] == ops[i] && ops[i..][1..] == ops[i + 1..];
        GrowsByOne(repo.Contents(), ops[i]);
        AnswersGoOn(replies, repo.Contents(), ops[i..]);
        var reply := Do(ops[i]);
        replies := replies + [reply];
        i := i + 1;
      }
    }

    method DeleteTodo(id: string) returns (reply: Reply)
      requires repo.Valid()
      modifies repo
      ensures repo.Valid() && reply == Answer(old(repo.Contents()), Delete(id))
      ensures repo.Contents() == Apply(old(repo.Contents()), Delete(id))
      ensures repo.todos.Values <= old(repo.todos.Values)
    {
      var ok := repo.Delete(id);
      return if ok then NoContent else NotFound;
    }
  }

  // ---- runs of the service ----

  function Seeds(): seq<Item> {
    [Item("1", "Learn kratoscarf router", true),
     Item("2", "Add request validation", false),
     Item("3", "Build a REST API", false)]
  }

  /** An update changes the one entry with its id, in place. */
  lemma UpdateChangesOne(c: seq<Item>, op: Op)
    requires Distinct(c) && op.Update? && Has(c, op.id)
    ensures var k := Position(c, op.id);
            Apply(c, op) == c[k := Item(op.id, op.newTitle.GetOr(c[k].title), op.newCompleted.GetOr(c[k].completed))]
  {
  }

  /** Create adds a todo under the numeral after the number of todos, with the given title and not
      completed, unless that numeral is an id already. */
  lemma CreateMeans(c: seq<Item>, title: string)
    ensures var item := Item(Itoa(|c| + 1), title, false);
            if exists i :: 0 <= i < |c| && c[i].id == item.id
            then Answer(c, Create(title)) == Internal && Apply(c, Create(title)) == c
            else Answer(c, Create(title)) == Created(item) && Apply(c, Create(title)) == c + [item]
  {
  }

  /** Update answers the item as it then stands in the list. */
  lemma UpdateMeans(c: seq<Item>, op: Op)
    requires Distinct(c) && op.Update?
    ensures forall k | 0 <= k < |c| && c[k].id == op.id ::
              && Answer(c, op) == Updated(Apply(c, op)[k])
              && Apply(c, op) == c[k := Item(op.id, if op.newTitle.Some? then op.newTitle.value else c[k].title,
                                             if op.newCompleted.Some? then op.newCompleted.value else c[k].completed)]
    ensures (forall k | 0 <= k < |c| :: c[k].id != op.id) ==> Answer(c, op) == NotFound && Apply(c, op) == c
  {
    forall k | 0 <= k < |c| && c[k].id == op.id
      ensures Position(c, op.id) == k
    {
    }
    if Has(c, op.id) {
      UpdateChangesOne(c, op);
    }
  }

  /** Delete answers NoContent exactly for ids in the list, and takes that one away. */
  lemma DeleteMeans(c: seq<Item>, id: string)
    requires Distinct(c)
    ensures forall k | 0 <= k < |c| && c[k].id == id ::
              Answer(c, Delete(id)) == NoContent && Apply(c, Delete(id)) == c[..k] + c[k + 1..]
    ensures (forall k | 0 <= k < |c| :: c[k].id != id) ==>
              Answer(c, Delete(id)) == NotFound && Apply(c, Delete(id)) == c
  {
    forall k | 0 <= k < |c| && c[k].id == id
      ensures Answer(c, Delete(id)) == NoContent && Apply(c, Delete(id)) == c[..k] + c[k + 1..]
    {
      WithoutRemovesOne(c, k);
    }
    if !Has(c, id) {
      WithoutAbsent(c, id);
    }
  }

  lemma ApplyKeepsDistinct(c: seq<Item>, op: Op)
    requires Distinct(c)
    ensures Distinct(Apply(c, op))
  {
    if op.Delete? {
      if Has(c, op.id) {
        var k := Position(c, op.id);
        WithoutRemovesOne(c, k);
      } else {
        WithoutAbsent(c, op.id);
      }
    }
  }

  /** Ids stay distinct along every run. */
  lemma {:induction false} IdsStayDistinct(c: seq<Item>, ops: seq<Op>)
    requires Distinct(c)
    ensures Distinct(ApplyAll(c, ops))
    decreases |ops|
  {
    if ops != [] {
      ApplyKeepsDistinct(c, ops[0]);
      IdsStayDistinct(Apply(c, ops[0]), ops[1..]);
    }
  }

  /** The ids are the numerals 1..n in order. */
  ghost predicate Numbered(c: seq<Item>) {
    forall i :: 0 <= i < |c| ==> c[i].id == Itoa(i + 1)
  }

  lemma NumberedHas(c: seq<Item>, n: nat)
    requires Numbered(c)
    ensures Has(c, Itoa(n)) <==> 1 <= n <= |c|
  {
    if 1 <= n <= |c| {
      assert c[n - 1].id == Itoa(n);
    }
    if i :| 0 <= i < |c| && c[i].id == Itoa(n) {
      ItoaInjective(i + 1, n);
    }
  }

  function Creations(ops: seq<Op>): nat {
    if ops == [] then 0 else (if ops[0].Create? then 1 else 0) + Creations(ops[1..])
  }

  /** As long as nothing is deleted ids are 1..n in order and every Create succeeds. */
  lemma {:induction false} WithoutDeletesIdsAreNumerals(c: seq<Item>, ops: seq<Op>, title: string)
    requires Numbered(c)
    requires forall k :: 0 <= k < |ops| ==> !ops[k].Delete?
    ensures Numbered(ApplyAll(c, ops)) && |ApplyAll(c, ops)| == |c| + Creations(ops)
    ensures Answer(ApplyAll(c, ops), Create(title)).Created?
    decreases |ops|
  {
    NumberedHas(c, |c| + 1);
    if ops != [] {
      WithoutDeletesIdsAreNumerals(Apply(c, ops[0]), ops[1..], title);
    }
  }

  lemma SeedsAreNumbered()
    ensures Numbered(Seeds()) && Distinct(Seeds())
  {
    assert Itoa(1) == "1" && Itoa(2) == "2" && Itoa(3) == "3";
  }

  /** From the seeded state: ids stay distinct in every run, and without deletes they are the
      numerals 1, 2, 3 and on, and every Create succeeds. */
  lemma RunsFromTheSeeds(ops: seq<Op>, title: string)
    ensures Distinct(ApplyAll(Seeds(), ops))
    ensures (forall k :: 0 <= k < |ops| ==> !ops[k].Delete?) ==>
              && Numbered(ApplyAll(Seeds(), ops))
              && |ApplyAll(Seeds(), ops)| == 3 + Creations(ops)
              && Answer(ApplyAll(Seeds(), ops), Create(title)).Created?
  {
    SeedsAreNumbered();
    IdsStayDistinct(Seeds(), ops);
    if forall k :: 0 <= k < |ops| ==> !ops[k].Delete? {
      WithoutDeletesIdsAreNumerals(Seeds(), ops, title);
    }
  }

  lemma HasAfterRemoval(c: seq<Item>, k: nat, id: string)
    requires Distinct(c) && k < |c|
    ensures Has(c[..k] + c[k + 1..], id) <==> Has(c, id) && c[k].id != id
  {
    var rest := c[..k] + c[k + 1..];
    if i :| 0 <= i < |rest| && rest[i].id == id {
      assert c[if i < k then i else i + 1].id == id;
    }
    if i :| 0 <= i < |c| && c[i].id == id && i != k {
      assert rest[if i < k then i else i - 1].id == id;
    }
  }

  /** After deleting any one of n todos, whatever was deleted before, Create succeeds exactly when
      the numeral n is free: it is the one minted next, and is free if it was the id deleted or
      was not in use. */
  lemma CreateAfterDeleteIff(c: seq<Item>, k: nat, title: string)
    requires Distinct(c) && k < |c|
    ensures Answer(Apply(c, Delete(c[k].id)), Create(title)).Created? <==> c[k].id == Itoa(|c|) || !Has(c, Itoa(|c|))
  {
    WithoutRemovesOne(c, k);
    HasAfterRemoval(c, k, Itoa(|c|));
    assert |c[..k] + c[k + 1..]| + 1 == |c|;
  }

  /** So in a list numbered 1..n it succeeds exactly when the last one was deleted. */
  lemma CreateAfterFirstDeleteIff(c: seq<Item>, k: nat, title: string)
    requires Numbered(c) && k < |c|
    ensures Answer(Apply(c, Delete(c[k].id)), Create(title)).Created? <==> k == |c| - 1
  {
    NumberedIsDistinct(c);
    CreateAfterDeleteIff(c, k, title);
    NumberedHas(c, |c|);
    assert c[k].id == Itoa(|c|) <==> k == |c| - 1 by {
      if c[k].id == Itoa(|c|) {
        ItoaInjective(k + 1, |c|);
      }
    }
  }

  /** The position does not decide it in general: once the first of 1..n, n >= 3 (such as the
      seeds), is deleted, Create works after deleting n - 1, which is not the last, and fails after
      deleting n, which is. */
  lemma NotOnlyTheLast(c: seq<Item>, title: string)
    requires Numbered(c) && |c| >= 3
    ensures var d := Apply(c, Delete(c[0].id));
            && d == c[1..]
            && Answer(Apply(d, Delete(d[|d| - 2].id)), Create(title)).Created?
            && Answer(Apply(d, Delete(d[|d| - 1].id)), Create(title)) == Internal
  {
    FirstGone(c);
    LastButOne(c[1..], title);
  }

  lemma FirstGone(c: seq<Item>)
    requires Numbered(c) && |c| > 0
    ensures Distinct(c[1..]) && Without(c, c[0].id) == c[1..]
  {
    NumberedIsDistinct(c);
    WithoutRemovesOne(c, 0);
    assert c[..0] == [] && c[..0] + c[1..] == c[1..];
    forall i, j | 0 <= i < j < |c[1..]|
      ensures c[1..][i].id != c[1..][j].id
    {
      assert c[i + 1].id != c[j + 1].id;
    }
  }

  lemma LastButOne(d: seq<Item>, title: string)
    requires Distinct(d) && |d| >= 2 && d[|d| - 2].id == Itoa(|d|)
    ensures Answer(Apply(d, Delete(d[|d| - 2].id)), Create(title)).Created?
    ensures Answer(Apply(d, Delete(d[|d| - 1].id)), Create(title)) == Internal
  {
    var i, j := |d| - 2, |d| - 1;
    assert d[i].id != d[j].id && Has(d, d[i].id);
    CreateAfterDeleteIff(d, i, title);
    CreateAfterDeleteIff(d, j, title);
  }

  lemma NumberedIsDistinct(c: seq<Item>)
    requires Numbered(c)
    ensures Distinct(c)
  {
    forall i, j | 0 <= i < j < |c|
      ensures c[i].id != c[j].id
    {
      if c[i].id == c[j].id {
        ItoaInjective(i + 1, j + 1);
      }
    }
  }

  /** A failed Create is stuck: updates and further Creates keep failing until a delete. */
  lemma {:induction false} CreateStaysStuck(c: seq<Item>, ops: seq<Op>, title: string)
    requires Has(c, NewId(c))
    requires forall k :: 0 <= k < |ops| ==> !ops[k].Delete?
    ensures Answer(ApplyAll(c, ops), Create(title)) == Internal
    decreases |ops|
  {
    if ops != [] {
      var c1 := Apply(c, ops[0]);
      var i :| 0 <= i < |c| && c[i].id == NewId(c);
      assert c1[i].id == NewId(c1);
      CreateStaysStuck(c1, ops[1..], title);
    }
  }
}
