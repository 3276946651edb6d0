/** Writing a minimal configuration file of a live configuration, and loading it. */
module MinConfigIO {
  import opened Wrappers
  import opened Model
  import opened Values
  import opened Support
  import opened Transfer
  import opened Reference
  import opened CacheInvariant
  import opened Assignments
  import opened Persistence
  import opened ConfigLines
  import opened ConfigFile
  import opened LoadedUsers
  import opened RoundTrip
  import opened MinConfig
  import opened Engine
  import opened Sessions
  import ConfigIO

  method GetCannotChange(kconfig: Kconfig, x: Id) returns (fixed: bool)
    requires kconfig.Valid() && DefinedSymbol(kconfig.k, x)
    modifies kconfig, kconfig.items
    ensures kconfig.Valid() && kconfig.settings == old(kconfig.settings)
    ensures fixed == CannotChange(kconfig.k, kconfig.S().v, x)
  {
    fixed := false;
    if kconfig.k.Item(x).choice.None? {
      var vis := kconfig.GetVisibility(x);
      RevDepFits(kconfig.k, x);
      var rev := kconfig.EvalExpr(kconfig.k.Item(x).revDep, kconfig.k.Rank(x));
      fixed := vis <= rev;
    }
  }

  // _str_default() of a bool or tristate symbol
  method GetTriDefault(kconfig: Kconfig, x: Id) returns (val: Tri)
    requires kconfig.Valid() && DefinedSymbol(kconfig.k, x) && kconfig.k.Item(x).Logical()
    modifies kconfig, kconfig.items
    ensures kconfig.Valid() && kconfig.settings == old(kconfig.settings)
    ensures TriToStr(val) == StrDefault(kconfig.k, kconfig.S().v, x)
  {
    val := 0;
    if kconfig.k.Item(x).choice.None? {
      NotPreset(kconfig.k, x);
      val := kconfig.EvalDefaultTri(x);
      RevDepFits(kconfig.k, x);
      var rev := kconfig.EvalExpr(kconfig.k.Item(x).revDep, kconfig.k.Rank(x));
      WeakDepFits(kconfig.k, x);
      var weak := kconfig.EvalExpr(kconfig.k.Item(x).weakRevDep, kconfig.k.Rank(x));
      val := Max(Max(rev, weak), val);
      var t := kconfig.GetType(x);
      if val == 1 && t == BOOL {
        val := 2;
      }
    }
  }

  lemma NotPreset(k: Config, x: Id)
    requires WellFormed(k) && DefinedSymbol(k, x)
    ensures !k.Item(x).Preset()
  {
    assert ItemOk(k, x);
  }

  method GetStrDefault(kconfig: Kconfig, x: Id) returns (s: string)
    requires kconfig.Valid() && DefinedSymbol(kconfig.k, x)
    modifies kconfig, kconfig.items
    ensures kconfig.Valid() && kconfig.settings == old(kconfig.settings)
    ensures s == StrDefault(kconfig.k, kconfig.S().v, x)
  {
    s := "";
    if kconfig.k.Item(x).Logical() {
      var val := GetTriDefault(kconfig, x);
      s := TriToStr(val);
    } else if kconfig.k.Item(x).origType != UNKNOWN {
      var d := kconfig.EvalDefaultStr(x);
      s := if d.Some? then d.value else "";
    }
  }

  method GetDefaultSelection(kconfig: Kconfig, x: Id) returns (selected: bool)
    requires kconfig.Valid() && DefinedSymbol(kconfig.k, x)
    modifies kconfig, kconfig.items
    ensures kconfig.Valid() && kconfig.settings == old(kconfig.settings)
    ensures selected == DefaultSelection(kconfig.k, kconfig.S().v, x)
  {
    selected := false;
    var it := kconfig.k.Item(x);
    if it.InChoice() {
      ItemKnown(kconfig.k, x);
      var c := it.choice.value;
      if !kconfig.k.Item(c).optional {
        var sel := kconfig.GetSelectionFromDefaults(c);
        if sel == Some(x) && it.origType == BOOL {
          var tri := kconfig.GetTriValue(x);
          selected := tri == 2;
        }
      }
    }
  }

  method GetMinLine(kconfig: Kconfig, x: Id) returns (line: Option<string>)
    requires kconfig.Valid() && DefinedSymbol(kconfig.k, x)
    modifies kconfig, kconfig.items
    ensures kconfig.Valid() && kconfig.settings == old(kconfig.settings)
    ensures line == MinLine(kconfig.k, kconfig.S().v, x)
  {
    line := None;
    var fixed := GetCannotChange(kconfig, x);
    if fixed {
      return;
    }
    var val := kconfig.GetStrValue(x);
    var default_ := GetStrDefault(kconfig, x);
    if val == default_ {
      return;
    }
    var selected := GetDefaultSelection(kconfig, x);
    if selected {
      return;
    }
    line := ConfigIO.GetConfigString(kconfig, x);
  }

  lemma MinBodyStep(k: Config, v: Valuation, lines: seq<string>, syms: seq<Id>, i: nat, next: nat)
    requires i < |syms| && next == i + 1
    ensures var line := MinLine(k, v, syms[i]);
            (lines + if line.Some? then [line.value] else []) + MinBody(k, v, syms[next..])
            == lines + MinBody(k, v, syms[i..])
  {
    assert syms[i..][1..] == syms[next..] && syms[i..][0] == syms[i];
  }

  // _min_config_contents()
  method WriteMinConfig(kconfig: Kconfig, header: seq<string>, syms: seq<Id>) returns (lines: seq<string>)
    requires kconfig.Valid() && AllDefined(kconfig.k, syms)
    modifies kconfig, kconfig.items
    ensures kconfig.Valid() && kconfig.settings == old(kconfig.settings)
    ensures lines == MinContents(kconfig.k, kconfig.S().v, header, syms)
  {
    lines := header;
    ghost var v := kconfig.S().v;
    var i := 0;
    assert syms[0..] == syms;
    while i < |syms|
      invariant kconfig.Valid() && kconfig.settings == old(kconfig.settings) && 0 <= i <= |syms|
      invariant lines + MinBody(kconfig.k, v, syms[i..]) == MinContents(kconfig.k, v, header, syms)
    {
      MinBodyStep(kconfig.k, v, lines, syms, i, i + 1);
      var line := GetMinLine(kconfig, syms[i]);
      lines := lines + if line.Some? then [line.value] else [];
      i := i + 1;
    }
  }

  lemma LoadedIsMinReload(k: Config, us: Users, st: seq<Setting>, header: seq<string>, syms: seq<Id>)
    requires Good(k, us) && UsersTyped(k, us) && |st| == |k.items|
    requires ProperChoices(k) && UniqueNames(k) && Textual(k, Evaluate(k, us)) && Sound(k, Evaluate(k, us))
    requires AllDefined(k, syms) && HeaderInert(header)
    requires Good(k, UsersIn(Loaded(k, st, MinContents(k, Evaluate(k, us), header, syms))))
    ensures MinReload(k, us, UsersIn(Loaded(k, st, MinContents(k, Evaluate(k, us), header, syms))))
  {
    EvaluatedLinesAgree(k, us, MinWritten(k, Evaluate(k, us)));
    MinFileLoads(k, Evaluate(k, us), st, header, syms);
  }

  // After any operations a minimal file is written; loading it after any further operations gives
  // everything the value that it had when the file was written, if all values could be recreated.
  method MinimizeAndRestore(k: Config, ops: seq<Op>, others: seq<Op>, header: seq<string>, syms: seq<Id>, x: Id)
      returns (before: string, after: string)
    requires WellFormed(k) && Ordered(k) && ProperChoices(k) && UniqueNames(k) && DefinedSymbol(k, x)
    requires AllDefined(k, syms) && HeaderInert(header)
    requires Textual(k, Evaluate(k, UsersAfter(k, ops))) && Sound(k, Evaluate(k, UsersAfter(k, ops)))
    ensures before == ValOf(Evaluate(k, UsersAfter(k, ops)), x).str
    ensures (forall y: Id :: y < |k.items| ==> Recreatable(k, Evaluate(k, UsersAfter(k, ops)), y)) ==> after == before
  {
    var kconfig := new Kconfig(k);
    PerformAll(kconfig, ops);
    ghost var us := UsersIn(kconfig.settings);
    before := kconfig.GetStrValue(x);
    var lines := WriteMinConfig(kconfig, header, syms);
    PerformAll(kconfig, others);
    ghost var st := kconfig.settings;
    ConfigIO.LoadConfig(kconfig, lines, true);
    LoadedIsMinReload(k, us, st, header, syms);
    MinimalExact(k, us, UsersIn(kconfig.settings));
    after := kconfig.GetStrValue(x);
  }
}
