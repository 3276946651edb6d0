/** sync_deps(): which symbols are flagged as changed since the last time. */
module SyncDeps {
  import opened Wrappers
  import opened Model
  import opened Numbers
  import opened Values
  import opened Support
  import opened Transfer
  import opened Reference
  import opened CacheInvariant
  import opened Assignments
  import opened ConfigLines
  import opened ConfigFile
  import opened Engine
  import opened Sessions
  import ConfigIO

  // What auto.conf says about a symbol: its value, unless it is n or not written at all.
  function Entry(k: Config, v: Valuation, x: Id): Option<string> {
    if !ValOf(v, x).write || (k.Item(x).Logical() && ValOf(v, x).str == "n") then None else Some(ValOf(v, x).str)
  }

  // The line for a symbol in auto.conf
  function AutoLine(k: Config, v: Valuation, x: Id): Option<string> {
    if k.Item(x).Logical() && ValOf(v, x).tri == 0 then None else ConfigString(k, v, x)
  }

  // _old_vals_contents()
  function AutoConf(k: Config, v: Valuation, syms: seq<Id>): seq<string>
    decreases |syms|
  {
    if syms == [] then []
    else
      var line := AutoLine(k, v, syms[0]);
      (if line.Some? then [line.value] else []) + AutoConf(k, v, syms[1..])
  }

  // The _old_val fields, for all items.
  type OldVals = seq<Option<string>>

  // The name of some symbol that is not a constant, which may be undefined.
  predicate KnownName(k: Config, name: string) {
    exists i :: 0 <= i < |k.items| && k.items[i].Symbol? && !k.items[i].constant && k.items[i].name == name
  }

  // _load_old_vals(), which does not strip lines: one line.
  function OldLine(k: Config, old_: OldVals, line: string): (r: OldVals)
    requires |old_| == |k.items|
    ensures |r| == |old_|
  {
    var a := SetMatch(line);
    if a.None? then old_
    else
      var x := Lookup(k, a.value.name, |k.items|);
      if x.None? || x.value >= |old_| then old_
      else if k.Item(x.value).origType != STRING then old_[x.value := Some(a.value.value)]
      else
        var contents := ConfString(a.value.value);
        if contents.None? then old_ else old_[x.value := Some(Unescape(contents.value))]
  }

  function OldLines(k: Config, old_: OldVals, lines: seq<string>): (r: OldVals)
    requires |old_| == |k.items|
    ensures |r| == |old_|
    decreases |lines|
  {
    if lines == [] then old_ else OldLines(k, OldLine(k, old_, lines[0]), lines[1..])
  }

  // The symbols that no longer exist.
  function Vanished(k: Config, lines: seq<string>): seq<string>
    decreases |lines|
  {
    if lines == [] then [] else
      VanishedName(k, lines[0]) + Vanished(k, lines[1..])
  }

  function VanishedName(k: Config, line: string): seq<string> {
    var a := SetMatch(line);
    if a.Some? && !KnownName(k, a.value.name) then [a.value.name] else []
  }

  // Whether sync_deps() flags a symbol.
  function Flagged(k: Config, v: Valuation, old_: Option<string>, x: Id): bool {
    var val := ValOf(v, x);
    if val.write then
      !(old_.None? && k.Item(x).Logical() && val.str == "n") && old_ != Some(val.str)
    else
      old_.Some?
  }

  function Blank(k: Config): OldVals {
    seq(|k.items|, _ => None)
  }

  // What survives a line of its own.
  ghost predicate WrittenWell(k: Config, v: Valuation) {
    forall x: Id :: DefinedSymbol(k, x) ==>
      && OneLine(ValOf(v, x).str)
      && (k.Item(x).Logical() ==> ValOf(v, x).str == TriToStr(ValOf(v, x).tri))
      && (k.Item(x).origType == UNKNOWN ==> !ValOf(v, x).write)
  }

  lemma OldSetLine(k: Config, old_: OldVals, x: Id, value: string)
    requires UniqueNames(k) && DefinedSymbol(k, x) && |old_| == |k.items| && OneLine(value)
    ensures k.items[x].origType != STRING
      ==> OldLine(k, old_, SetLine(k.items[x].name, value)) == old_[x := Some(value)]
    ensures k.items[x].origType == STRING && ConfString(value).Some? ==>
      OldLine(k, old_, SetLine(k.items[x].name, value)) == old_[x := Some(Unescape(ConfString(value).value))]
  {
    LookupFinds(k, x, |k.items|);
    SetLineMatches(k.items[x].name, value);
  }

  lemma AutoLineLoads(k: Config, v: Valuation, old_: OldVals, x: Id)
    requires UniqueNames(k) && WrittenWell(k, v) && DefinedSymbol(k, x) && |old_| == |k.items|
    ensures AutoLine(k, v, x).None? <==> Entry(k, v, x).None?
    ensures AutoLine(k, v, x).Some? ==> OldLine(k, old_, AutoLine(k, v, x).value) == old_[x := Entry(k, v, x)]
  {
    var it, text := k.Item(x), ValOf(v, x).str;
    if AutoLine(k, v, x).Some? {
      if it.origType == STRING {
        QuotedRoundTrip(text);
        EscapeOneLine(text);
        OldSetLine(k, old_, x, "\"" + Escape(text) + "\"");
      } else {
        OldSetLine(k, old_, x, text);
      }
    }
  }

  // Writing auto.conf and loading it gives every symbol its entry.
  lemma {:induction false} AutoConfLoads(k: Config, v: Valuation, old_: OldVals, syms: seq<Id>, x: Id)
    requires UniqueNames(k) && WrittenWell(k, v) && |old_| == |k.items| && x < |old_|
    requires forall i :: 0 <= i < |syms| ==> DefinedSymbol(k, syms[i])
    ensures OldLines(k, old_, AutoConf(k, v, syms))[x]
         == if x in syms && Entry(k, v, x).Some? then Entry(k, v, x) else old_[x]
    decreases |syms|
  {
    if syms != [] {
      var s, rest := syms[0], AutoConf(k, v, syms[1..]);
      var line := AutoLine(k, v, s);
      AutoLineLoads(k, v, old_, s);
      if line.Some? {
        assert ([line.value] + rest)[1..] == rest;
        AutoConfLoads(k, v, old_[s := Entry(k, v, s)], syms[1..], x);
      } else {
        assert [] + rest == rest;
        AutoConfLoads(k, v, old_, syms[1..], x);
      }
    }
  }

  // The values that are remembered from a run: those of auto.conf, or none if there is no such file.
  function Remembered(k: Config, autoConf: Option<seq<string>>): (r: OldVals)
    ensures |r| == |k.items|
  {
    if autoConf.None? then Blank(k) else OldLines(k, Blank(k), autoConf.value)
  }

  // auto.conf as a run before this one has left it, if there was one, and the entry of a symbol in it.

  function AutoConfOf(k: Config, before: Option<Valuation>, syms: seq<Id>): Option<seq<string>> {
    if before.None? then None else Some(AutoConf(k, before.value, syms))
  }

  function EntryOf(k: Config, before: Option<Valuation>, x: Id): Option<string> {
    if before.None? then None else Entry(k, before.value, x)
  }

  // A symbol is flagged if and only if its entry is not what it was when auto.conf was written; if it has not
  // been written yet, there were no entries.
  lemma FlaggedExact(k: Config, before: Option<Valuation>, v: Valuation, syms: seq<Id>, x: Id)
    requires UniqueNames(k) && AllDefined(k, syms) && DefinedSymbol(k, x)
      && (before.Some? ==> WrittenWell(k, before.value))
    ensures Flagged(k, v, Remembered(k, AutoConfOf(k, before, syms))[x], x) <==> EntryOf(k, before, x) != Entry(k, v, x)
  {
    if before.Some? {
      AutoConfLoads(k, before.value, Blank(k), syms, x);
    }
  }

  // The line for a symbol in autoconf.h
  function Define(k: Config, v: Valuation, x: Id): Option<string> {
    var it, val := k.Item(x), ValOf(v, x);
    if !it.Symbol? || !val.write then None
    else if it.Logical() then
      if val.str == "y" then Some("#define " + PREFIX + it.name + " 1")
      else if val.str == "m" then Some("#define " + PREFIX + it.name + "_MODULE 1")
      else None
    else if it.origType == STRING then
      Some("#define " + PREFIX + it.name + " \"" + Escape(val.str) + "\"")
    else
      Some("#define " + PREFIX + it.name + " "
           + if it.origType == HEX && !("0x" <= val.str) && !("0X" <= val.str) then "0x" + val.str else val.str)
  }

  // Every symbol whose #define has changed is flagged.
  lemma ChangedDefineFlagged(k: Config, v1: Valuation, v2: Valuation, syms: seq<Id>, x: Id)
    requires UniqueNames(k) && WrittenWell(k, v1) && AllDefined(k, syms) && DefinedSymbol(k, x)
    requires Define(k, v1, x) != Define(k, v2, x)
    ensures Flagged(k, v2, Remembered(k, Some(AutoConf(k, v1, syms)))[x], x)
  {
    FlaggedExact(k, Some(v1), v2, syms, x);
  }

  // No text has line ends.  The values of bool and tristate symbols never have any.
  ghost predicate OneLineTexts(k: Config, v: Valuation) {
    forall x: Id :: DefinedSymbol(k, x) && !k.Item(x).Logical() ==> OneLine(ValOf(v, x).str)
  }

  lemma EvaluatedWrittenWell(k: Config, us: Users)
    requires Good(k, us) && OneLineTexts(k, Evaluate(k, us))
    ensures WrittenWell(k, Evaluate(k, us))
  {
    var v := Evaluate(k, us);
    forall x: Id | DefinedSymbol(k, x)
      ensures OneLine(ValOf(v, x).str) && (k.Item(x).Logical() ==> ValOf(v, x).str == TriToStr(ValOf(v, x).tri))
      ensures k.Item(x).origType == UNKNOWN ==> !ValOf(v, x).write
    {
      SolvedStr(k, us, x);
      SolvedWrite(k, us, x);
    }
  }

  function FlaggedIn(k: Config, v: Valuation, old_: OldVals, syms: seq<Id>): seq<Id>
    requires |old_| == |k.items| && forall i :: 0 <= i < |syms| ==> syms[i] < |old_|
    decreases |syms|
  {
    if syms == [] then []
    else (if Flagged(k, v, old_[syms[0]], syms[0]) then [syms[0]] else []) + FlaggedIn(k, v, old_, syms[1..])
  }

  lemma {:induction false} InFlagged(k: Config, v: Valuation, old_: OldVals, syms: seq<Id>, x: Id)
    requires |old_| == |k.items| && x < |old_| && forall i :: 0 <= i < |syms| ==> syms[i] < |old_|
    ensures x in FlaggedIn(k, v, old_, syms) <==> x in syms && Flagged(k, v, old_[x], x)
    decreases |syms|
  {
    if syms != [] {
      InFlagged(k, v, old_, syms[1..], x);
    }
  }

  // ---------- With a live configuration ----------

  lemma OldStep(k: Config, old_: OldVals, vanished: seq<string>, lines: seq<string>, i: nat, next: nat)
    requires |old_| == |k.items| && i < |lines| && next == i + 1
    ensures OldLines(k, OldLine(k, old_, lines[i]), lines[next..]) == OldLines(k, old_, lines[i..])
    ensures (vanished + VanishedName(k, lines[i])) + Vanished(k, lines[next..]) == vanished + Vanished(k, lines[i..])
  {
    assert lines[i..][1..] == lines[next..] && lines[i..][0] == lines[i];
  }

  lemma AutoConfStep(k: Config, v: Valuation, lines: seq<string>, syms: seq<Id>, i: nat, next: nat)
    requires i < |syms| && next == i + 1
    ensures var line := AutoLine(k, v, syms[i]);
            (lines + if line.Some? then [line.value] else []) + AutoConf(k, v, syms[next..])
            == lines + AutoConf(k, v, syms[i..])
  {
    assert syms[i..][1..] == syms[next..] && syms[i..][0] == syms[i];
  }

  lemma FlaggedStep(k: Config, v: Valuation, old_: OldVals, flagged: seq<Id>, syms: seq<Id>, i: nat, next: nat)
    requires |old_| == |k.items| && i < |syms| && next == i + 1 && forall j :: 0 <= j < |syms| ==> syms[j] < |old_|
    ensures (flagged + if Flagged(k, v, old_[syms[i]], syms[i]) then [syms[i]] else [])
      + FlaggedIn(k, v, old_, syms[next..])
         == flagged + FlaggedIn(k, v, old_, syms[i..])
  {
    assert syms[i..][1..] == syms[next..] && syms[i..][0] == syms[i];
  }

  // Every symbol's old value, and the names for which there is no symbol any more.
  method LoadOldVals(k: Config, autoConf: Option<seq<string>>) returns (old_: OldVals, vanished: seq<string>)
    ensures old_ == Remembered(k, autoConf)
    ensures vanished == if autoConf.None? then [] else Vanished(k, autoConf.value)
  {
    old_, vanished := Blank(k), [];
    if autoConf.Some? {
      var lines := autoConf.value;
      var i := 0;
      assert lines[0..] == lines;
      while i < |lines|
        invariant 0 <= i <= |lines| && |old_| == |k.items|
        invariant OldLines(k, old_, lines[i..]) == Remembered(k, autoConf)
        invariant vanished + Vanished(k, lines[i..]) == Vanished(k, lines)
      {
        OldStep(k, old_, vanished, lines, i, i + 1);
        old_ := OldLine(k, old_, lines[i]);
        vanished := vanished + VanishedName(k, lines[i]);
        i := i + 1;
      }
    }
  }

  // Whether one symbol is flagged.
  method Check(kconfig: Kconfig, old_: Option<string>, x: Id) returns (flagged: bool)
    requires kconfig.Valid() && DefinedSymbol(kconfig.k, x)
    modifies kconfig, kconfig.items
    ensures kconfig.Valid() && kconfig.settings == old(kconfig.settings)
    ensures flagged == Flagged(kconfig.k, kconfig.S().v, old_, x)
  {
    var val, write := kconfig.GetTextAndWrite(x);
    if write {
      flagged := !(old_.None? && kconfig.k.Item(x).Logical() && val == "n") && Some(val) != old_;
    } else {
      flagged := old_.Some?;
    }
  }

  // _old_vals_contents()
  method WriteOldVals(kconfig: Kconfig, syms: seq<Id>) returns (lines: seq<string>)
    requires kconfig.Valid() && AllDefined(kconfig.k, syms)
    modifies kconfig, kconfig.items
    ensures kconfig.Valid() && kconfig.settings == old(kconfig.settings)
    ensures lines == AutoConf(kconfig.k, kconfig.S().v, syms)
  {
    lines := [];
    ghost var v := kconfig.S().v;
    var i := 0;
    assert syms[0..] == syms;
    while i < |syms|
      invariant kconfig.Valid() && kconfig.settings == old(kconfig.settings) && 0 <= i <= |syms|
      invariant lines + AutoConf(kconfig.k, v, syms[i..]) == AutoConf(kconfig.k, v, syms)
    {
      AutoConfStep(kconfig.k, v, lines, syms, i, i + 1);
      var line := OldValLine(kconfig, syms[i]);
      lines := lines + if line.Some? then [line.value] else [];
      i := i + 1;
    }
  }

  method OldValLine(kconfig: Kconfig, x: Id) returns (line: Option<string>)
    requires kconfig.Valid() && DefinedSymbol(kconfig.k, x)
    modifies kconfig, kconfig.items
    ensures kconfig.Valid() && kconfig.settings == old(kconfig.settings)
    ensures line == AutoLine(kconfig.k, kconfig.S().v, x)
  {
    line := None;
    if kconfig.k.Item(x).Logical() {
      var tri := kconfig.GetTriValue(x);
      if tri == 0 {
        return;
      }
    }
    line := ConfigIO.GetConfigString(kconfig, x);
  }

  method FlagAll(kconfig: Kconfig, syms: seq<Id>, old_: OldVals) returns (flagged: seq<Id>)
    requires kconfig.Valid() && AllDefined(kconfig.k, syms) && |old_| == |kconfig.k.items|
    modifies kconfig, kconfig.items
    ensures kconfig.Valid() && kconfig.settings == old(kconfig.settings)
    ensures flagged == FlaggedIn(kconfig.k, kconfig.S().v, old_, syms)
  {
    flagged := [];
    ghost var v := kconfig.S().v;
    var i := 0;
    assert syms[0..] == syms;
    while i < |syms|
      invariant kconfig.Valid() && kconfig.settings == old(kconfig.settings) && 0 <= i <= |syms|
      invariant flagged + FlaggedIn(kconfig.k, v, old_, syms[i..]) == FlaggedIn(kconfig.k, v, old_, syms)
    {
      FlaggedStep(kconfig.k, v, old_, flagged, syms, i, i + 1);
      var flag := Check(kconfig, old_[syms[i]], syms[i]);
      flagged := flagged + if flag then [syms[i]] else [];
      i := i + 1;
    }
  }

  // sync_deps(): the symbols and names to flag, and the new auto.conf.
  method Sync(kconfig: Kconfig, syms: seq<Id>, autoConf: Option<seq<string>>)
      returns (flagged: seq<Id>, vanished: seq<string>, contents: seq<string>)
    requires kconfig.Valid() && AllDefined(kconfig.k, syms)
    modifies kconfig, kconfig.items
    ensures kconfig.Valid() && kconfig.settings == old(kconfig.settings)
    ensures flagged == FlaggedIn(kconfig.k, kconfig.S().v, Remembered(kconfig.k, autoConf), syms)
    ensures contents == AutoConf(kconfig.k, kconfig.S().v, syms)
  {
    var old_;
    old_, vanished := LoadOldVals(kconfig.k, autoConf);
    flagged := FlagAll(kconfig, syms, old_);
    contents := WriteOldVals(kconfig, syms);
  }

  // Three runs, with any operations before the first and the second.  The first flags the symbols that have
  // entries, the second exactly those whose entries have changed, and the third, right after it, nothing.
  method SyncThrice(k: Config, ops: seq<Op>, others: seq<Op>, syms: seq<Id>)
      returns (first: seq<Id>, flagged: seq<Id>, again: seq<Id>)
    requires WellFormed(k) && Ordered(k) && UniqueNames(k) && AllDefined(k, syms)
    requires OneLineTexts(k, Evaluate(k, UsersAfter(k, ops)))
      && OneLineTexts(k, Evaluate(k, UsersAfter(k, ops + others)))
    ensures var v1, v2 := Evaluate(k, UsersAfter(k, ops)), Evaluate(k, UsersAfter(k, ops + others));
            && (forall x: Id :: DefinedSymbol(k, x) ==> (x in first <==> Entry(k, v1, x).Some?))
            && (forall x: Id :: DefinedSymbol(k, x) ==> (x in flagged <==> Entry(k, v1, x) != Entry(k, v2, x)))
            && again == []
  {
    var kconfig := new Kconfig(k);
    PerformAll(kconfig, ops);
    ghost var v1 := kconfig.S().v;
    EvaluatedWrittenWell(k, UsersAfter(k, ops));
    var vanished, contents;
    first, vanished, contents := Sync(kconfig, syms, None);
    PerformAll(kconfig, others);
    PerformedBoth(k, ops, others);
    ghost var v2 := kconfig.S().v;
    EvaluatedWrittenWell(k, UsersAfter(k, ops + others));
    flagged, vanished, contents := Sync(kconfig, syms, Some(contents));
    again, vanished, contents := Sync(kconfig, syms, Some(contents));
    AllFlagged(k, None, v1, syms);
    AllFlagged(k, Some(v1), v2, syms);
    NothingFlagged(k, v2, syms);
  }

  lemma AllFlagged(k: Config, before: Option<Valuation>, v: Valuation, syms: seq<Id>)
    requires UniqueNames(k) && AllDefined(k, syms) && (before.Some? ==> WrittenWell(k, before.value))
    ensures forall x: Id :: DefinedSymbol(k, x) ==>
      (x in FlaggedIn(k, v, Remembered(k, AutoConfOf(k, before, syms)), syms)
       <==> EntryOf(k, before, x) != Entry(k, v, x))
  {
    forall x: Id | DefinedSymbol(k, x)
      ensures x in FlaggedIn(k, v, Remembered(k, AutoConfOf(k, before, syms)), syms)
         <==> EntryOf(k, before, x) != Entry(k, v, x)
    {
      InFlagged(k, v, Remembered(k, AutoConfOf(k, before, syms)), syms, x);
      FlaggedExact(k, before, v, syms, x);
    }
  }

  lemma {:induction false} NoneFlagged(k: Config, v: Valuation, old_: OldVals, syms: seq<Id>)
    requires |old_| == |k.items|
    requires forall i :: 0 <= i < |syms| ==> syms[i] < |old_| && !Flagged(k, v, old_[syms[i]], syms[i])
    ensures FlaggedIn(k, v, old_, syms) == []
    decreases |syms|
  {
    if syms != [] {
      NoneFlagged(k, v, old_, syms[1..]);
    }
  }

  // A run right after a run flags nothing.
  lemma NothingFlagged(k: Config, v: Valuation, syms: seq<Id>)
    requires UniqueNames(k) && WrittenWell(k, v) && AllDefined(k, syms)
    ensures FlaggedIn(k, v, Remembered(k, Some(AutoConf(k, v, syms))), syms) == []
  {
    forall i | 0 <= i < |syms| ensures !Flagged(k, v, Remembered(k, Some(AutoConf(k, v, syms)))[syms[i]], syms[i]) {
      FlaggedExact(k, Some(v), v, syms, syms[i]);
    }
    NoneFlagged(k, v, Remembered(k, Some(AutoConf(k, v, syms))), syms);
  }

  lemma {:induction false} PerformedBoth(k: Config, ops: seq<Op>, others: seq<Op>)
    ensures UsersAfterFrom(k, UsersAfter(k, ops), others) == UsersAfter(k, ops + others)
    decreases |others|
  {
    if others == [] {
      assert ops + others == ops;
    } else {
      var last: nat := |others| - 1;
      assert (ops + others)[..|ops + others| - 1] == ops + others[..last];
      PerformedBoth(k, ops, others[..last]);
    }
  }
}
