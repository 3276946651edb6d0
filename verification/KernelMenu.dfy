/** The menu structure that the kernel configuration script recovers from Kconfig files.

    The script keeps a stack of entries under which further entries may be shown: open menus and choices,
    and options that the next option depends on.  Indentation is kept in two counters. */
module KernelMenu {
  import opened Wrappers
  import opened KernelSettings

  const MENU := "menu"

  datatype Kind = CONFIG | MENUCONFIG | OPENMENU | OPENCHOICE

  // A block of lines, classified: its first line, its title or prompt, its type, and what it depends on.
  datatype Block = Block(kind: Kind, name: string, title: Option<string>, klass: Option<Class>, deps: seq<string>)

  datatype Event = Entry(block: Block) | EndMenu | StartIf(conds: seq<string>) | EndIf

  // An option is known by its name, and a menu or choice by its number.
  datatype Key = Named(name: string) | Numbered(id: nat)

  // `menu` is the number of the innermost menu, and `inChoice` whether it is a choice; the script puts both
  // into one integer.
  datatype Frame = Frame(key: string, i0: nat, i1: nat, menu: nat, inChoice: bool)

  datatype Row = Row(i0: int, val: Option<string>, i1: int, title: Option<string>, arrow: bool, key: Key,
                     menu: nat, inChoice: bool, comment: Option<string>)
  {
    predicate Titled() { title.Some? && title.value != "" }
  }

  function Sum0(stack: seq<Frame>): int {
    if stack == [] then 0 else Sum0(stack[..|stack| - 1]) + stack[|stack| - 1].i0
  }

  function Sum1(stack: seq<Frame>): int {
    if stack == [] then 0 else Sum1(stack[..|stack| - 1]) + stack[|stack| - 1].i1
  }

  // The menus and choices on the stack.
  function OpenMenus(stack: seq<Frame>): seq<nat> {
    if stack == [] then []
    else
      var top := stack[|stack| - 1];
      OpenMenus(stack[..|stack| - 1]) + if top.key == MENU then [top.menu] else []
  }

  function FrameKey(f: Frame): Key {
    if f.key == MENU then Numbered(f.menu) else Named(f.key)
  }

  // ---------- The state machine ----------

  class Loader {
    const known: map<string, Known>
    var ind0: int
    var ind1: int
    var menuId: nat
    var stack: seq<Frame>
    var ifStack: seq<seq<string>>
    var mainDep: map<Key, Key>
    var rows: seq<Row>

    // For each entry on the stack, what it depends on, and its row.
    ghost var deps: seq<seq<string>>
    ghost var rowOf: seq<nat>

    constructor (known: map<string, Known>)
      ensures Valid() && stack == [] && rows == [] && menuId == 1 && this.known == known
    {
      this.known := known;
      ind0, ind1, menuId := 0, 0, 1;
      stack, ifStack, mainDep, rows := [], [], map[], [];
      deps, rowOf := [], [];
    }

    ghost predicate Valid()
      reads this
    {
      AllOk(stack, deps, rowOf, ind0, ind1, rows, mainDep, menuId)
    }

    // pop_stack().  That the assertion in it never fails is its precondition here.
    method PopStack(cond: string -> bool)
      requires Valid() && stack != [] && cond(stack[|stack| - 1].key)
      modifies this
      ensures Valid() && stack == old(stack)[..|old(stack)| - 1]
      ensures rows == old(rows) && mainDep == old(mainDep) && ifStack == old(ifStack) && menuId == old(menuId)
    {
      StackPops(stack, deps, ind0, ind1);
      RowsPop(stack, rowOf, rows);
      var last := |stack| - 1;
      var top := stack[last];
      stack, deps, rowOf := stack[..last], deps[..last], rowOf[..last];
      ind0 := ind0 - top.i0;
      ind1 := ind1 - top.i1;
    }

    // pop_stack_while()
    method PopStackWhile(cond: string -> bool)
      requires Valid() && !cond(MENU)
      modifies this
      ensures Valid() && Popped(old(stack), stack, cond)
      ensures stack != [] ==> !cond(stack[|stack| - 1].key)
      ensures rows == old(rows) && mainDep == old(mainDep) && ifStack == old(ifStack) && menuId == old(menuId)
    {
      while stack != [] && cond(stack[|stack| - 1].key)
        invariant Valid() && Popped(old(stack), stack, cond)
        invariant rows == old(rows) && mainDep == old(mainDep) && ifStack == old(ifStack) && menuId == old(menuId)
        decreases |stack|
      {
        OnePopped(old(stack), stack, cond);
        PopStack(cond);
      }
    }

    // cur_if()
    function CurIf(): seq<string>
      reads this
    {
      if ifStack == [] then [] else ifStack[|ifStack| - 1]
    }

    // What an entry depends on, as far as the script can tell.
    function DepsOf(b: Block): (d: seq<string>)
      reads this
      ensures MENU in d
    {
      [MENU] + CurIf() + b.deps
    }

    // Adds a row, notes what it is shown under, and puts its entry on the stack.
    method PushEntry(row: Row, frame: Frame, ghost d: seq<string>)
      requires Valid() && row.key == FrameKey(frame) && (stack != [] ==> stack[|stack| - 1].key in d)
      requires FreshNumber(rows, row.key, menuId)
      modifies this
      ensures Valid() && rows == old(rows) + [row] && stack == old(stack) + [frame] && deps == old(deps) + [d]
      ensures NotedUnder(old(mainDep), mainDep, row.key, old(stack))
      ensures ifStack == old(ifStack) && menuId == old(menuId)
    {
      var frames, noted, more := stack + [frame], Noted(mainDep, stack, row.key), rows + [row];
      ghost var depends, at := deps + [d], rowOf + [|rows|];
      EntryPushed(stack, deps, rowOf, ind0, ind1, rows, mainDep, menuId, row, frame, d, frames, depends, at, more,
                  noted);
      ind0, ind1 := ind0 + frame.i0, ind1 + frame.i1;
      NotedMeans(mainDep, noted, stack, row.key);
      stack, mainDep, rows, deps, rowOf := frames, noted, more, depends, at;
    }

    // The first part of parse_config(): the stack is popped, and menus are numbered.
    method MakeRoom(b: Block, ghost d: seq<string>, cond: string -> bool) returns (menu: nat, inChoice: bool)
      requires Valid() && !cond(MENU) && forall x :: !cond(x) ==> x in d
      modifies this
      ensures Valid() && rows == old(rows) && mainDep == old(mainDep) && ifStack == old(ifStack)
      ensures HasRoom(b, old(stack), stack, cond, d, old(menuId), menuId, rows, menu, inChoice)
    {
      PopStackWhile(cond);
      menu, inChoice := 0, false;
      if stack != [] {
        menu, inChoice := stack[|stack| - 1].menu, stack[|stack| - 1].inChoice;
      }
      if !b.kind.CONFIG? {
        RowsLater(rows, mainDep, menuId, menuId + 1);
        menuId := menuId + 1;
      }
    }

    // The row and the stack entry of a block.  False stands for an exception.
    method MakeEntry(b: Block, menu: nat, inChoice: bool) returns (ok: bool, row: Row, frame: Frame)
      ensures ok ==> RowShows(known, b, row) && Headed(b, menuId, row, frame)
      ensures ok ==> row.i0 == ind0 && row.i1 == ind1 && row.menu == menu && row.inChoice == inChoice
      ensures ok ==> row.key == if OpensMenu(b) then Numbered(menuId) else Named(b.name)
      ensures ok ==> frame.key == if OpensMenu(b) then MENU else b.name
      ensures !ok ==> HasSetting(known, b) && Refused(known[b.name], ClassOf(b), inChoice)
    {
      var val := GetValue(b, inChoice);
      if HasSetting(known, b) {
        FormatExact(known[b.name], ClassOf(b), inChoice);
      }
      ok := val.Some?;
      row := NewRow(b, if ok then val.value else None, menu, inChoice);
      frame := NewFrame(b, menuId, menu, inChoice, row.Titled());
    }

    // The second part of parse_config(), for the topmost entry that is left.
    method Enter(b: Block, menu: nat, inChoice: bool, ghost d: seq<string>, ghost before: seq<Frame>, ghost id: nat,
                 ghost cond: string -> bool)
        returns (ok: bool, ghost row: Row, ghost frame: Frame)
      requires Valid() && (!OpensMenu(b) ==> b.name != MENU)
      requires HasRoom(b, before, stack, cond, d, id, menuId, rows, menu, inChoice)
      modifies this
      ensures menuId == old(menuId) && ifStack == old(ifStack)
      ensures ok ==> Valid() && Entered(b, before, stack, id, menuId)
      ensures ok ==> deps == old(deps) + [d] && rows == old(rows) + [row] && stack == old(stack) + [frame]
      ensures ok ==> NotedUnder(old(mainDep), mainDep, row.key, old(stack))
      ensures ok ==> EntryShown(known, b, menuId, row, old(stack), frame)
      ensures !ok ==> stack == old(stack) && HasSetting(known, b) && Refused(known[b.name], ClassOf(b), inChoice)
    {
      var made, entry;
      ok, made, entry := MakeEntry(b, menu, inChoice);
      row, frame := made, entry;
      if ok {
        assert EntryShown(known, b, menuId, made, stack, entry);
        PushEntry(made, entry, d);
        EnteredBy(b, before, old(stack), entry, cond, id, menuId);
      }
    }

    // parse_config().  False stands for an exception.  The entries down to `below` stay on the stack.
    method ParseConfig(b: Block) returns (ok: bool, ghost row: Row, ghost below: seq<Frame>, ghost frame: Frame)
      requires Valid() && (!OpensMenu(b) ==> b.name != MENU)
      modifies this
      ensures ok ==> Valid() && ifStack == old(ifStack) && Entered(b, old(stack), stack, old(menuId), menuId)
      ensures ok ==> rows == old(rows) + [row] && stack == below + [frame]
      ensures ok ==> |deps| == |stack| && deps[|below|] == [MENU] + old(CurIf()) + b.deps
      ensures Leaves(old(stack), below, [MENU] + old(CurIf()) + b.deps)
      ensures ok ==> NotedUnder(old(mainDep), mainDep, row.key, below)
      ensures ok ==> EntryShown(known, b, menuId, row, below, frame)
      ensures !ok ==> stack == below && HasSetting(known, b)
      ensures !ok ==> Refused(known[b.name], ClassOf(b), below != [] && below[|below| - 1].inChoice)
    {
      var d := DepsOf(b);
      var cond := x => x !in d;
      var menu, inChoice := MakeRoom(b, d, cond);
      below := stack;
      assert |deps| == |below|;
      assert Leaves(old(stack), below, d);
      ok, row, frame := Enter(b, menu, inChoice, d, old(stack), old(menuId), cond);
    }

    // 'endmenu' or 'endchoice': everything down to the innermost menu is removed.
    method CloseMenu()
      requires Valid() && OpenMenus(stack) != []
      modifies this
      ensures Valid() && OpenMenus(stack) == OpenMenus(old(stack))[..|OpenMenus(old(stack))| - 1]
      ensures stack < old(stack) && old(stack)[|stack|].key == MENU
      ensures forall i :: |stack| < i < |old(stack)| ==> old(stack)[i].key != MENU
      ensures rows == old(rows) && mainDep == old(mainDep) && ifStack == old(ifStack) && menuId == old(menuId)
    {
      PopStackWhile(x => x != MENU);
      ghost var popped := stack;
      PopStack(x => x == MENU);
      MenuClosed(popped);
    }

    // A block, with its entry and its row.  False stands for an exception.
    method AddBlock(b: Block, ghost open: seq<nat>) returns (ok: bool)
      requires Valid() && EventOk(Entry(b), open) && open == OpenMenus(stack)
      modifies this
      ensures ok ==> Valid() && OpenMenus(stack) == OpenAfter(Entry(b), open, menuId)
      ensures ok ==> menuId == old(menuId) + if TakesNumber(Entry(b)) then 1 else 0
      ensures ok ==> ifStack == old(ifStack)
      ensures ok ==> RowsAfter(Entry(b), menuId, old(rows), rows) && RowShows(known, b, rows[|rows| - 1])
      ensures !ok ==> CannotShow(known, Entry(b))
    {
      ghost var row, below, frame;
      ghost var before := rows;
      ok, row, below, frame := ParseConfig(b);
      if ok {
        RowIsLast(known, b, menuId, before, rows, row, below, frame);
      }
    }

    // One classified line or block.  False stands for an exception.
    method Step(e: Event, ghost open: seq<nat>) returns (ok: bool)
      requires Valid() && EventOk(e, OpenMenus(stack))
      requires open == OpenMenus(stack)
      modifies this
      ensures ok ==> Valid() && OpenMenus(stack) == OpenAfter(e, open, menuId)
      ensures ok ==> menuId == old(menuId) + if TakesNumber(e) then 1 else 0
      ensures ok ==> ifStack == IfsAfter(e, old(ifStack))
      ensures ok ==> RowsAfter(e, menuId, old(rows), rows)
      ensures ok && e.Entry? ==> RowShows(known, e.block, rows[|rows| - 1])
      ensures !ok ==> CannotShow(known, e)
    {
      ok := true;
      match e
      case Entry(b) =>
        ok := AddBlock(b, open);
      case EndMenu =>
        CloseMenu();
      case StartIf(conds) =>
        ifStack := ifStack + [CurIf() + conds];
      case EndIf =>
        ifStack := if ifStack == [] then [] else ifStack[..|ifStack| - 1];
    }

    // load_kconfig(), with the files that are sourced put in place.
    method Load(events: seq<Event>) returns (ok: bool)
      requires Valid() && stack == [] && rows == [] && menuId == 1 && WellNested(events)
      modifies this
      ensures ok ==> Valid() && OpenMenus(stack) == OpenIn(events).0 && menuId == OpenIn(events).1
      ensures ok ==> Keys(rows) == RowKeys(events)
      ensures ok && DistinctNames(events) ==> UniqueKeys(rows)
      ensures ok ==> RowsShow(known, events, rows)
      ensures ok && old(ifStack) == [] ==> CurIf() == Flat(OpenIfs(events))
      ensures !ok ==> exists i :: 0 <= i < |events| && CannotShow(known, events[i])
    {
      var i := 0;
      ghost var noIfs := ifStack == [];
      NothingLoaded(known, events, ifStack, noIfs);
      while i < |events|
        invariant 0 <= i <= |events| && Valid()
        invariant AtEvent(known, events, i, OpenMenus(stack), menuId, rows, ifStack, noIfs)
      {
        ghost var open, before, id, ifs, next := OpenMenus(stack), rows, menuId, ifStack, i + 1;
        assert NestedAt(events, i);
        ok := Step(events[i], open);
        if !ok {
          return;
        }
        OneMoreLoaded(known, events, i, next, open, OpenMenus(stack), id, menuId, before, rows, ifs, ifStack, noIfs);
        i := i + 1;
      }
      AllLoaded(known, events, OpenMenus(stack), menuId, rows, ifStack, noIfs);
      ok := true;
    }

    function NewRow(b: Block, val: Option<string>, menu: nat, inChoice: bool): (row: Row)
      reads this
      ensures row.key == (if OpensMenu(b) then Numbered(menuId) else Named(b.name))
      ensures row.i0 == ind0 && row.i1 == ind1 && row.val == val && row.menu == menu && row.inChoice == inChoice
      ensures row.title == (if b.title.Some? then Some(CleanTitle(b.title.value)) else None)
      ensures row.arrow <==> !b.kind.CONFIG?
      ensures row.comment == (if HasSetting(known, b) then known[b.name].comment else None)
    {
      var comment := if !OpensMenu(b) && b.name in known then known[b.name].comment else None;
      var title := if b.title.Some? then Some(CleanTitle(b.title.value)) else None;
      var key := if OpensMenu(b) then Numbered(menuId) else Named(b.name);
      Row(ind0, val, ind1, title, !b.kind.CONFIG?, key, menu, inChoice, comment)
    }

    // The value to be shown, if there is a setting; None stands for an exception.
    function GetValue(b: Block, inChoice: bool): Option<Option<string>> {
      if OpensMenu(b) || b.name !in known then Some(None)
      else
        var val := Format(known[b.name], ClassOf(b), inChoice);
        if val.None? then None else Some(val)
    }
  }

  // An option, as opposed to a menu or choice, for which there is a setting.
  predicate HasSetting(known: map<string, Known>, b: Block) {
    !OpensMenu(b) && b.name in known
  }

  // The type of an option; without one it is a string.
  function ClassOf(b: Block): Class {
    match b.klass
    case Some(klass) => klass
    case None => STRING
  }

  // A row has a value exactly if it is an option with a setting, and then it is the text of the setting.
  ghost predicate RowShows(known: map<string, Known>, b: Block, row: Row) {
    && (row.val.Some? <==> HasSetting(known, b))
    && (HasSetting(known, b) ==>
          && ShownAs(known[b.name], ClassOf(b), row.val.value)
          && !Refused(known[b.name], ClassOf(b), row.inChoice))
    && row.title == (if b.title.Some? then Some(CleanTitle(b.title.value)) else None)
    && row.comment == (if HasSetting(known, b) then known[b.name].comment else None)
    && (row.arrow <==> !b.kind.CONFIG?)
  }

  // What follows is two columns further to the right: under a menu, a choice or a menuconfig option in the first
  // counter, and under another option with a title in the second.
  ghost predicate Headed(b: Block, menuId: nat, row: Row, frame: Frame) {
    if b.kind.CONFIG? then
      && frame.i0 == 0 && frame.i1 == (if row.title.Some? && row.title.value != "" then 2 else 0)
      && frame.menu == row.menu && frame.inChoice == row.inChoice
    else
      frame.i0 == 2 && frame.i1 == 0 && frame.menu == menuId && (frame.inChoice <==> b.kind.OPENCHOICE?)
  }

  // A setting that is refused inside or outside of choices.
  ghost predicate CannotShow(known: map<string, Known>, e: Event) {
    e.Entry? && HasSetting(known, e.block)
    && (Refused(known[e.block.name], ClassOf(e.block), true) || Refused(known[e.block.name], ClassOf(e.block), false))
  }

  // The blocks that rows are added for.
  function Blocks(events: seq<Event>): seq<Block>
    decreases |events|
  {
    if events == [] then []
    else
      var e := events[|events| - 1];
      Blocks(events[..|events| - 1]) + if e.Entry? then [e.block] else []
  }

  ghost predicate RowsShow(known: map<string, Known>, events: seq<Event>, rows: seq<Row>) {
    |rows| == |Blocks(events)| && forall i :: 0 <= i < |rows| ==> RowShows(known, Blocks(events)[i], rows[i])
  }

  predicate TakesNumber(e: Event) {
    e.Entry? && !e.block.kind.CONFIG?
  }

  // Menus and choices are only closed if one is open, and no option is called "menu".
  predicate EventOk(e: Event, open: seq<nat>) {
    (e.EndMenu? ==> open != []) && (e.Entry? && !OpensMenu(e.block) ==> e.block.name != MENU)
  }

  // The numbers of the open menus after an event; `menuId` is the latest number.
  function OpenAfter(e: Event, open: seq<nat>, menuId: nat): seq<nat> {
    if e.Entry? && OpensMenu(e.block) then open + [menuId]
    else if e.EndMenu? && open != [] then open[..|open| - 1]
    else open
  }

  function IfsAfter(e: Event, ifs: seq<seq<string>>): seq<seq<string>> {
    match e
    case StartIf(conds) => ifs + [(if ifs == [] then [] else ifs[|ifs| - 1]) + conds]
    case EndIf => if ifs == [] then [] else ifs[..|ifs| - 1]
    case _ => ifs
  }

  // The open menus, and the latest number, from the events alone.
  function OpenIn(events: seq<Event>): (seq<nat>, nat)
    decreases |events|
  {
    if events == [] then ([], 1)
    else
      var (open, id) := OpenIn(events[..|events| - 1]);
      var e := events[|events| - 1];
      var next := if TakesNumber(e) then id + 1 else id;
      (OpenAfter(e, open, next), next)
  }

  // The keys of the rows, from the events alone.
  function KeyOf(e: Event, menuId: nat): seq<Key> {
    if !e.Entry? then [] else [if OpensMenu(e.block) then Numbered(menuId) else Named(e.block.name)]
  }

  function RowKeys(events: seq<Event>): seq<Key>
    decreases |events|
  {
    if events == [] then []
    else RowKeys(events[..|events| - 1]) + KeyOf(events[|events| - 1], OpenIn(events).1)
  }

  function Keys(rows: seq<Row>): seq<Key> {
    seq(|rows|, i requires 0 <= i < |rows| => rows[i].key)
  }

  lemma KeyAdded(before: seq<Row>, after: seq<Row>, e: Event, menuId: nat)
    requires RowsAfter(e, menuId, before, after)
    ensures Keys(after) == Keys(before) + KeyOf(e, menuId)
  {
    assert forall i :: 0 <= i < |before| && e.Entry? ==> after[..|before|][i] == after[i];
  }

  ghost predicate WellNested(events: seq<Event>) {
    forall i :: 0 <= i < |events| ==> NestedAt(events, i)
  }

  ghost predicate NestedAt(events: seq<Event>, i: int)
    requires 0 <= i < |events|
  {
    EventOk(events[i], OpenIn(events[..i]).0)
  }

  ghost predicate RowAdded(before: seq<Row>, after: seq<Row>, key: Key) {
    |after| == |before| + 1 && after[..|before|] == before && after[|before|].key == key
  }

  // An entry adds one row, with its name or number as the key; nothing else changes the rows.
  ghost predicate RowsAfter(e: Event, menuId: nat, before: seq<Row>, after: seq<Row>) {
    if e.Entry? then RowAdded(before, after, if OpensMenu(e.block) then Numbered(menuId) else Named(e.block.name))
    else after == before
  }

  // A configuration option, as opposed to a menu or choice.
  predicate IsOption(e: Event) {
    e.Entry? && !OpensMenu(e.block)
  }

  // No option is defined twice.
  ghost predicate DistinctNames(events: seq<Event>) {
    forall i, j :: 0 <= i < j < |events| && IsOption(events[i]) && IsOption(events[j]) ==>
      events[i].block.name != events[j].block.name
  }

  ghost predicate NameSeen(events: seq<Event>, name: string, n: int) {
    exists i :: 0 <= i < n && i < |events| && IsOption(events[i]) && events[i].block.name == name
  }

  // The options that have rows are among the first `n` events.
  ghost predicate NamesFrom(rows: seq<Row>, events: seq<Event>, n: int) {
    forall i :: 0 <= i < |rows| && rows[i].key.Named? ==> NameSeen(events, rows[i].key.name, n)
  }

  lemma KeysStayUnique(before: seq<Row>, after: seq<Row>, oldId: nat, menuId: nat, events: seq<Event>, i: nat,
                       next: nat)
    requires i < |events| && next == i + 1 && NamesFrom(before, events, i) && NumbersIncrease(before, oldId)
    requires menuId == oldId + if TakesNumber(events[i]) then 1 else 0
    requires RowsAfter(events[i], menuId, before, after)
    ensures NamesFrom(after, events, next)
    ensures DistinctNames(events) && UniqueKeys(before) ==> UniqueKeys(after)
  {
    forall j | 0 <= j < |after| && after[j].key.Named? ensures NameSeen(events, after[j].key.name, next) {
      if j < |before| {
        assert after[j] == before[j] && NameSeen(events, before[j].key.name, i);
      } else {
        assert IsOption(events[i]);
      }
    }
    if DistinctNames(events) && UniqueKeys(before) && events[i].Entry? {
      forall j | 0 <= j < |before| ensures before[j].key != after[|before|].key {
        if before[j].key.Named? {
          assert NameSeen(events, before[j].key.name, i);
        }
      }
      assert forall j :: 0 <= j < |before| ==> after[j] == before[j];
    }
  }

  lemma NextEvent(events: seq<Event>, i: nat, next: nat)
    requires i < |events| && next == i + 1
    ensures var (open, id) := OpenIn(events[..i]);
            var id' := if TakesNumber(events[i]) then id + 1 else id;
            && OpenIn(events[..next]) == (OpenAfter(events[i], open, id'), id')
            && RowKeys(events[..next]) == RowKeys(events[..i]) + KeyOf(events[i], id')
  {
    assert events[..next][..i] == events[..i];
  }

  // What holds after the first `i` events.
  ghost predicate Loaded(events: seq<Event>, i: nat, open: seq<nat>, menuId: nat, rows: seq<Row>)
    requires i <= |events|
  {
    && (open, menuId) == OpenIn(events[..i])
    && Keys(rows) == RowKeys(events[..i])
    && NamesFrom(rows, events, i)
    && (DistinctNames(events) ==> UniqueKeys(rows))
  }

  lemma OneMoreShown(known: map<string, Known>, events: seq<Event>, i: nat, next: nat, menuId: nat, before: seq<Row>,
                     after: seq<Row>)
    requires next == i + 1 && next <= |events| && RowsShow(known, events[..i], before)
    requires RowsAfter(events[i], menuId, before, after)
    requires events[i].Entry? ==> RowShows(known, events[i].block, after[|after| - 1])
    ensures RowsShow(known, events[..next], after)
  {
    assert events[..next][..i] == events[..i];
    forall j | 0 <= j < |after| ensures RowShows(known, Blocks(events[..next])[j], after[j]) {
      if j < |before| {
        assert after[j] == before[j] && RowShows(known, Blocks(events[..i])[j], before[j]);
      }
    }
  }

  // The conditions of each of the 'if' blocks that are open.
  function OpenIfs(events: seq<Event>): seq<seq<string>>
    decreases |events|
  {
    if events == [] then []
    else
      var open := OpenIfs(events[..|events| - 1]);
      match events[|events| - 1]
      case StartIf(conds) => open + [conds]
      case EndIf => if open == [] then [] else open[..|open| - 1]
      case _ => open
  }

  function Flat(parts: seq<seq<string>>): seq<string>
    decreases |parts|
  {
    if parts == [] then [] else Flat(parts[..|parts| - 1]) + parts[|parts| - 1]
  }

  // On the stack of the script, each block has the conditions of all the blocks around it as well.
  ghost predicate Accumulated(ifs: seq<seq<string>>, open: seq<seq<string>>) {
    |ifs| == |open| && forall i :: 0 <= i < |ifs| ==> ifs[i] == Flat(open[..i + 1])
  }

  lemma IfStarts(before: seq<seq<string>>, after: seq<seq<string>>, open: seq<seq<string>>, more: seq<seq<string>>,
                 conds: seq<string>)
    requires Accumulated(before, open) && more == open + [conds]
    requires after == before + [(if before == [] then [] else before[|before| - 1]) + conds]
    ensures Accumulated(after, more)
  {
    AllIfs(before, open);
    forall j, next: nat | 0 <= j < |after| && next == j + 1 ensures after[j] == Flat(more[..next]) {
      if j < |open| {
        assert more[..next] == open[..next];
      } else {
        assert more[..next] == more && more[..|more| - 1] == open;
      }
    }
  }

  lemma IfEnds(before: seq<seq<string>>, after: seq<seq<string>>, open: seq<seq<string>>, fewer: seq<seq<string>>)
    requires Accumulated(before, open) && after <= before && fewer <= open && |after| == |fewer|
    ensures Accumulated(after, fewer)
  {
    forall j, next: nat | 0 <= j < |after| && next == j + 1 ensures after[j] == Flat(fewer[..next]) {
      assert fewer[..next] == open[..next];
    }
  }

  lemma OneMoreIf(events: seq<Event>, i: nat, next: nat, before: seq<seq<string>>, after: seq<seq<string>>)
    requires i < |events| && next == i + 1 && Accumulated(before, OpenIfs(events[..i]))
    requires after == IfsAfter(events[i], before)
    ensures Accumulated(after, OpenIfs(events[..next]))
  {
    var open, more := OpenIfs(events[..i]), OpenIfs(events[..next]);
    assert events[..next][..i] == events[..i] && events[..next][i] == events[i];
    if events[i].StartIf? {
      IfStarts(before, after, open, more, events[i].conds);
    } else {
      IfEnds(before, after, open, more);
    }
  }

  lemma AllIfs(ifs: seq<seq<string>>, open: seq<seq<string>>)
    requires Accumulated(ifs, open)
    ensures (if ifs == [] then [] else ifs[|ifs| - 1]) == Flat(open)
  {
    if ifs != [] {
      assert open[..|open|] == open;
    }
  }

  // The same, with what the rows show, and with the 'if' blocks if there were none at first.
  ghost predicate AtEvent(known: map<string, Known>, events: seq<Event>, i: nat, open: seq<nat>, menuId: nat,
                          rows: seq<Row>, ifs: seq<seq<string>>, noIfs: bool)
    requires i <= |events|
  {
    && Loaded(events, i, open, menuId, rows) && RowsShow(known, events[..i], rows)
    && (noIfs ==> Accumulated(ifs, OpenIfs(events[..i])))
  }

  lemma NothingLoaded(known: map<string, Known>, events: seq<Event>, ifs: seq<seq<string>>, noIfs: bool)
    requires noIfs ==> ifs == []
    ensures AtEvent(known, events, 0, [], 1, [], ifs, noIfs)
  {
    assert events[..0] == [];
  }

  lemma AllLoaded(known: map<string, Known>, events: seq<Event>, open: seq<nat>, menuId: nat, rows: seq<Row>,
                  ifs: seq<seq<string>>, noIfs: bool)
    requires AtEvent(known, events, |events|, open, menuId, rows, ifs, noIfs)
    ensures (open, menuId) == OpenIn(events) && Keys(rows) == RowKeys(events) && RowsShow(known, events, rows)
    ensures DistinctNames(events) ==> UniqueKeys(rows)
    ensures noIfs ==> (if ifs == [] then [] else ifs[|ifs| - 1]) == Flat(OpenIfs(events))
  {
    assert events[..|events|] == events;
    if noIfs {
      AllIfs(ifs, OpenIfs(events));
    }
  }

  lemma OneMoreEntry(events: seq<Event>, i: nat, next: nat, open: seq<nat>, open': seq<nat>, id: nat, id': nat,
                     before: seq<Row>, after: seq<Row>)
    requires next == i + 1 && next <= |events| && Loaded(events, i, open, id, before) && NumbersIncrease(before, id)
    requires open' == OpenAfter(events[i], open, id') && id' == id + if TakesNumber(events[i]) then 1 else 0
    requires RowsAfter(events[i], id', before, after)
    ensures Loaded(events, next, open', id', after)
  {
    NextEvent(events, i, next);
    KeyAdded(before, after, events[i], id');
    KeysStayUnique(before, after, id, id', events, i, next);
  }

  lemma OneMoreLoaded(known: map<string, Known>, events: seq<Event>, i: nat, next: nat, open: seq<nat>,
                      open': seq<nat>, id: nat, id': nat, before: seq<Row>, after: seq<Row>, ifs: seq<seq<string>>,
                      ifs': seq<seq<string>>, noIfs: bool)
    requires next == i + 1 && next <= |events| && AtEvent(known, events, i, open, id, before, ifs, noIfs)
    requires open' == OpenAfter(events[i], open, id') && id' == id + if TakesNumber(events[i]) then 1 else 0
    requires NumbersIncrease(before, id) && RowsAfter(events[i], id', before, after)
    requires (events[i].Entry? ==> RowShows(known, events[i].block, after[|after| - 1]))
    requires ifs' == IfsAfter(events[i], ifs)
    ensures AtEvent(known, events, next, open', id', after, ifs', noIfs)
  {
    OneMoreEntry(events, i, next, open, open', id, id', before, after);
    OneMoreShown(known, events, i, next, id', before, after);
    if noIfs {
      OneMoreIf(events, i, next, ifs, ifs');
    }
  }

  lemma {:induction false} MenuClosed(stack: seq<Frame>)
    requires stack != [] && stack[|stack| - 1].key == MENU
    ensures OpenMenus(stack[..|stack| - 1]) == OpenMenus(stack)[..|OpenMenus(stack)| - 1]
  {
  }

  // The entry that is put on the stack: what follows is indented under a menu, and under an option with a
  // title if it depends on it.
  function NewFrame(b: Block, menuId: nat, menu: nat, inChoice: bool, titled: bool): Frame {
    if b.kind.CONFIG? then Frame(b.name, 0, if titled then 2 else 0, menu, inChoice)
    else Frame(if OpensMenu(b) then MENU else b.name, 2, 0, menuId, b.kind.OPENCHOICE?)
  }

  ghost predicate StackOk(stack: seq<Frame>, deps: seq<seq<string>>, ind0: int, ind1: int) {
    && ind0 == Sum0(stack) && ind1 == Sum1(stack) && |deps| == |stack|
    && forall i :: 0 <= i < |stack| ==> DependsOnBelow(stack, deps, i)
  }

  // An entry depends on the one below it.
  ghost predicate DependsOnBelow(stack: seq<Frame>, deps: seq<seq<string>>, i: int)
    requires 0 <= i < |stack| == |deps|
  {
    i > 0 ==> stack[i - 1].key in deps[i]
  }

  ghost predicate HaveRows(stack: seq<Frame>, rowOf: seq<nat>, rows: seq<Row>) {
    && |rowOf| == |stack|
    && forall i :: 0 <= i < |stack| ==> HasRowAt(stack, rowOf, rows, i)
  }

  ghost predicate HasRowAt(stack: seq<Frame>, rowOf: seq<nat>, rows: seq<Row>, i: int)
    requires 0 <= i < |stack| == |rowOf|
  {
    rowOf[i] < |rows| && rows[rowOf[i]].key == FrameKey(stack[i])
  }

  ghost predicate RowsOk(rows: seq<Row>, mainDep: map<Key, Key>, menuId: nat) {
    && (UniqueKeys(rows) ==> ParentsEarlier(rows, mainDep))
    && NumbersIncrease(rows, menuId)
    && (forall k :: k in mainDep ==> HasRow(rows, k))
  }

  // The whole state.
  ghost predicate AllOk(stack: seq<Frame>, deps: seq<seq<string>>, rowOf: seq<nat>, ind0: int, ind1: int,
                        rows: seq<Row>, mainDep: map<Key, Key>, menuId: nat) {
    StackOk(stack, deps, ind0, ind1) && HaveRows(stack, rowOf, rows) && RowsOk(rows, mainDep, menuId)
  }

  ghost predicate FreshNumber(rows: seq<Row>, key: Key, menuId: nat) {
    key.Numbered? ==>
      key.id <= menuId && forall i :: 0 <= i < |rows| && rows[i].key.Numbered? ==> rows[i].key.id < key.id
  }

  lemma StackPops(stack: seq<Frame>, deps: seq<seq<string>>, ind0: int, ind1: int)
    requires stack != [] && StackOk(stack, deps, ind0, ind1)
    ensures var last := |stack| - 1;
            StackOk(stack[..last], deps[..last], ind0 - stack[last].i0, ind1 - stack[last].i1)
  {
    var last := |stack| - 1;
    forall i | 0 <= i < last ensures DependsOnBelow(stack[..last], deps[..last], i) {
      assert DependsOnBelow(stack, deps, i);
    }
  }

  lemma RowsPop(stack: seq<Frame>, rowOf: seq<nat>, rows: seq<Row>)
    requires stack != [] && HaveRows(stack, rowOf, rows)
    ensures HaveRows(stack[..|stack| - 1], rowOf[..|stack| - 1], rows)
  {
    var last := |stack| - 1;
    forall i | 0 <= i < last ensures HasRowAt(stack[..last], rowOf[..last], rows, i) {
      assert HasRowAt(stack, rowOf, rows, i);
    }
  }

  lemma StackPushes(stack: seq<Frame>, deps: seq<seq<string>>, ind0: int, ind1: int, frame: Frame, d: seq<string>)
    requires StackOk(stack, deps, ind0, ind1) && (stack != [] ==> stack[|stack| - 1].key in d)
    ensures StackOk(stack + [frame], deps + [d], ind0 + frame.i0, ind1 + frame.i1)
  {
    var more, d' := stack + [frame], deps + [d];
    assert more[..|more| - 1] == stack;
    forall i | 0 <= i < |more| ensures DependsOnBelow(more, d', i) {
      if i < |stack| {
        assert DependsOnBelow(stack, deps, i);
      }
    }
  }

  lemma RowsFollow(stack: seq<Frame>, rowOf: seq<nat>, rows: seq<Row>, frame: Frame, row: Row)
    requires HaveRows(stack, rowOf, rows) && row.key == FrameKey(frame)
    ensures HaveRows(stack + [frame], rowOf + [|rows|], rows + [row])
  {
    forall i | 0 <= i < |stack + [frame]| ensures HasRowAt(stack + [frame], rowOf + [|rows|], rows + [row], i) {
      if i < |stack| {
        assert HasRowAt(stack, rowOf, rows, i);
      }
    }
  }

  lemma TopHasRow(stack: seq<Frame>, rowOf: seq<nat>, rows: seq<Row>)
    requires HaveRows(stack, rowOf, rows)
    ensures stack != [] ==> HasRow(rows, FrameKey(stack[|stack| - 1]))
  {
    if stack != [] {
      assert HasRowAt(stack, rowOf, rows, |stack| - 1);
    }
  }

  lemma EntryPushed(stack: seq<Frame>, deps: seq<seq<string>>, rowOf: seq<nat>, ind0: int, ind1: int, rows: seq<Row>,
                    mainDep: map<Key, Key>, menuId: nat, row: Row, frame: Frame, d: seq<string>, frames: seq<Frame>,
                    depends: seq<seq<string>>, at: seq<nat>, more: seq<Row>, noted: map<Key, Key>)
    requires AllOk(stack, deps, rowOf, ind0, ind1, rows, mainDep, menuId)
    requires row.key == FrameKey(frame) && (stack != [] ==> stack[|stack| - 1].key in d)
    requires FreshNumber(rows, row.key, menuId)
    requires frames == stack + [frame] && depends == deps + [d] && at == rowOf + [|rows|] && more == rows + [row]
    requires noted == Noted(mainDep, stack, row.key)
    ensures AllOk(frames, depends, at, ind0 + frame.i0, ind1 + frame.i1, more, noted, menuId)
  {
    TopHasRow(stack, rowOf, rows);
    RowsGrow(rows, mainDep, menuId, stack, row);
    StackPushes(stack, deps, ind0, ind1, frame, d);
    RowsFollow(stack, rowOf, rows, frame, row);
  }

  lemma RowsLater(rows: seq<Row>, mainDep: map<Key, Key>, menuId: nat, later: nat)
    requires RowsOk(rows, mainDep, menuId) && later == menuId + 1
    ensures RowsOk(rows, mainDep, later) && FreshNumber(rows, Numbered(later), later)
  {
  }

  // The stack has been popped down to something that a block depends on, and menus have been given a number.
  ghost predicate HasRoom(b: Block, before: seq<Frame>, stack: seq<Frame>, cond: string -> bool, d: seq<string>,
                          oldId: nat, menuId: nat, rows: seq<Row>, menu: nat, inChoice: bool) {
    && Popped(before, stack, cond) && (stack != [] ==> stack[|stack| - 1].key in d)
    && menuId == (if b.kind.CONFIG? then oldId else oldId + 1)
    && (OpensMenu(b) ==> FreshNumber(rows, Numbered(menuId), menuId))
    && menu == (if stack == [] then 0 else stack[|stack| - 1].menu)
    && inChoice == (stack != [] && stack[|stack| - 1].inChoice)
  }

  // What pop_stack_while() removes.
  ghost predicate Popped(before: seq<Frame>, after: seq<Frame>, cond: string -> bool) {
    && after <= before && OpenMenus(after) == OpenMenus(before)
    && forall i :: |after| <= i < |before| ==> cond(before[i].key)
  }

  lemma OnePopped(before: seq<Frame>, after: seq<Frame>, cond: string -> bool)
    requires Popped(before, after, cond) && after != [] && cond(after[|after| - 1].key) && !cond(MENU)
    ensures Popped(before, after[..|after| - 1], cond)
  {
    assert OpenMenus(after) == OpenMenus(after[..|after| - 1]) + [];
  }

  // What a stack entry stands for: a menu by its number, and an option by its name.
  function KeyOfFrame(f: Frame): Key {
    match f.key == MENU
    case true => Numbered(f.menu)
    case false => Named(f.key)
  }

  // It is noted that a row is shown under the topmost entry, if there is one.
  ghost predicate NotedUnder(before: map<Key, Key>, after: map<Key, Key>, key: Key, stack: seq<Frame>) {
    after == if stack == [] then before else before[key := KeyOfFrame(stack[|stack| - 1])]
  }

  lemma NotedMeans(before: map<Key, Key>, after: map<Key, Key>, stack: seq<Frame>, key: Key)
    requires after == Noted(before, stack, key)
    ensures NotedUnder(before, after, key, stack)
  {
  }

  // The entries on top that are not among `d` are removed, down to the first one that is.
  ghost predicate Leaves(before: seq<Frame>, below: seq<Frame>, d: seq<string>) {
    && below <= before && (below != [] ==> below[|below| - 1].key in d)
    && forall i :: |below| <= i < |before| ==> before[i].key !in d
  }

  lemma RowIsLast(known: map<string, Known>, b: Block, menuId: nat, before: seq<Row>, rows: seq<Row>, row: Row,
                  below: seq<Frame>, frame: Frame)
    requires rows == before + [row] && EntryShown(known, b, menuId, row, below, frame)
    ensures RowAdded(before, rows, if OpensMenu(b) then Numbered(menuId) else Named(b.name))
    ensures RowShows(known, b, rows[|rows| - 1])
  {
  }

  // The row and the stack entry of a block, which is put on top of `below`.
  ghost predicate EntryShown(known: map<string, Known>, b: Block, menuId: nat, row: Row, below: seq<Frame>,
                             frame: Frame) {
    && row.key == (if OpensMenu(b) then Numbered(menuId) else Named(b.name))
    && Indented(row, below) && RowShows(known, b, row) && Headed(b, menuId, row, frame)
  }

  // A row is indented under the entries below its own, and in the menu of the topmost of them.
  ghost predicate Indented(row: Row, below: seq<Frame>) {
    && row.i0 == Sum0(below) && row.i1 == Sum1(below)
    && row.menu == (if below == [] then 0 else below[|below| - 1].menu)
    && row.inChoice == (below != [] && below[|below| - 1].inChoice)
  }

  // What a block does to the stack: entries that it does not depend on are removed, and its own is added.
  ghost predicate Entered(b: Block, before: seq<Frame>, after: seq<Frame>, oldId: nat, menuId: nat) {
    && menuId == (if b.kind.CONFIG? then oldId else oldId + 1)
    && OpenMenus(after) == OpenMenus(before) + (if OpensMenu(b) then [menuId] else [])
    && after != [] && after[..|after| - 1] <= before
    && after[|after| - 1].key == (if OpensMenu(b) then MENU else b.name)
  }

  lemma EnteredBy(b: Block, before: seq<Frame>, popped: seq<Frame>, frame: Frame, cond: string -> bool, oldId: nat,
                  menuId: nat)
    requires Popped(before, popped, cond) && menuId == (if b.kind.CONFIG? then oldId else oldId + 1)
    requires frame.key == (if OpensMenu(b) then MENU else b.name) && (OpensMenu(b) ==> frame.menu == menuId)
    requires !OpensMenu(b) ==> b.name != MENU
    ensures Entered(b, before, popped + [frame], oldId, menuId)
  {
    var after := popped + [frame];
    assert after[..|after| - 1] == popped;
  }

  // A menu or choice, which is closed explicitly.
  predicate OpensMenu(b: Block) {
    b.kind.OPENMENU? || b.kind.OPENCHOICE?
  }

  // The main dependencies once a row is shown under the top of the stack.
  function Noted(mainDep: map<Key, Key>, stack: seq<Frame>, key: Key): map<Key, Key> {
    if stack == [] then mainDep else mainDep[key := FrameKey(stack[|stack| - 1])]
  }

  // Rows of menus and choices are numbered in order.
  ghost predicate NumbersIncrease(rows: seq<Row>, menuId: nat) {
    && (forall i :: 0 <= i < |rows| && rows[i].key.Numbered? ==> rows[i].key.id <= menuId)
    && (forall i, j :: 0 <= i < j < |rows| && rows[i].key.Numbered? && rows[j].key.Numbered? ==>
          rows[i].key.id < rows[j].key.id)
  }

  ghost predicate HasRow(rows: seq<Row>, key: Key) {
    exists i :: 0 <= i < |rows| && rows[i].key == key
  }

  lemma RowsGrow(rows: seq<Row>, mainDep: map<Key, Key>, menuId: nat, stack: seq<Frame>, row: Row)
    requires RowsOk(rows, mainDep, menuId) && FreshNumber(rows, row.key, menuId)
    requires stack != [] ==> HasRow(rows, FrameKey(stack[|stack| - 1]))
    ensures RowsOk(rows + [row], Noted(mainDep, stack, row.key), menuId)
  {
    var more, noted := rows + [row], Noted(mainDep, stack, row.key);
    forall k | HasRow(rows, k) ensures HasRow(more, k) && Above(more, k, |rows|) {
      var i :| 0 <= i < |rows| && rows[i].key == k;
      assert more[i].key == k;
    }
    assert HasRow(more, row.key) by {
      assert more[|rows|] == row;
    }
    if UniqueKeys(more) {
      ParentsGrow(rows, mainDep, stack, row);
    }
  }

  lemma ParentsGrow(rows: seq<Row>, mainDep: map<Key, Key>, stack: seq<Frame>, row: Row)
    requires UniqueKeys(rows + [row]) && (UniqueKeys(rows) ==> ParentsEarlier(rows, mainDep))
    requires forall k :: k in mainDep ==> HasRow(rows, k)
    requires stack != [] ==> HasRow(rows, FrameKey(stack[|stack| - 1]))
    ensures ParentsEarlier(rows + [row], Noted(mainDep, stack, row.key))
  {
    var more, noted := rows + [row], Noted(mainDep, stack, row.key);
    assert forall a :: 0 <= a < |rows| ==> more[a] == rows[a] && more[a].key != more[|rows|].key;
    assert UniqueKeys(rows);
    forall i | 0 <= i < |more| ensures ParentAbove(more, noted, i) {
      if more[i].key !in noted {
      } else if i < |rows| {
        assert ParentAbove(rows, mainDep, i);
        var j :| 0 <= j < i && j < |rows| && rows[j].key == mainDep[rows[i].key];
        assert more[j].key == noted[more[i].key];
      } else {
        assert HasRow(rows, noted[row.key]);
        var j :| 0 <= j < |rows| && rows[j].key == noted[row.key];
        assert more[j].key == noted[row.key];
      }
    }
  }

  ghost predicate UniqueKeys(rows: seq<Row>) {
    forall i, j :: 0 <= i < j < |rows| ==> rows[i].key != rows[j].key
  }

  // What a row is shown under has a row of its own, further up.
  ghost predicate ParentsEarlier(rows: seq<Row>, mainDep: map<Key, Key>) {
    forall i :: 0 <= i < |rows| ==> ParentAbove(rows, mainDep, i)
  }

  ghost predicate ParentAbove(rows: seq<Row>, mainDep: map<Key, Key>, i: int)
    requires 0 <= i < |rows|
  {
    rows[i].key in mainDep ==> Above(rows, mainDep[rows[i].key], i)
  }

  ghost predicate Above(rows: seq<Row>, key: Key, i: int) {
    exists j :: 0 <= j < i && j < |rows| && rows[j].key == key
  }
}
