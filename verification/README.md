# A verified model of the Kconfig engine

The model covers three programs of the repository:

- the configuration engine `docs/jhalfs/menu/kconfiglib.py`, which evaluates n/m/y and text values over a graph of
  symbols and choices;
- `topological_sort` in `src/parsers/dependency_resolver.py`;
- the script `docs/blfs-git/kernel-config/kernel-config.py`, which turns Kconfig files and a list of settings into
  indented rows.

Code that updates objects is modelled as classes (`Engine.Kconfig`, `MenuParser.Parser`, `MenuTree.Tree`,
`ConfigIO.Writer`, `ExprSyntax.Parser`, `Macros.Preprocessor`, `DepLoopChecker.Checker`, `TopologicalSort.Sorter`,
`KernelMenu.Loader`); expressions, values and files are datatypes and sequences of lines. Exceptions are `None`,
`false` or a datatype constructor.

## How the modules fit together

| modules | subject |
|---|---|
| `Wrappers`, `Numbers`, `Model`, `Values` | options; `int()`, `str()`, `hex()`, string comparison; symbols, choices and expressions; one equation for each value of an item |
| `Support`, `Transfer`, `Reference` | which items an evaluation reads, as opposed to which it mentions; evaluation without a cache, as the only solution of the equations |
| `CacheInvariant`, `Assignments`, `Persistence`, `Engine`, `Sessions` | the lazy cache in the heap, invalidation, assignments, and runs of operations |
| `ValueMeaning`, `NumberText` | what each value is, said of prompts, defaults, ranges and user values themselves; which number a text is |
| `Comparison`, `ChoiceModes`, `AssignableValues`, `NumericRanges` | what follows for choices, assignable values, ranges |
| `Corners` | small configurations at which the exceptions to the general results occur |
| `ConfigLines`, `ConfigFile`, `LoadedUsers`, `RoundTrip`, `ConfigIO` | writing and loading `.config` |
| `LoadMeaning`, `FileText` | what any line does when it is loaded; the text of the files that are written |
| `MinConfig`, `MinimalLines`, `MinConfigIO`, `SyncDeps` | minimal configuration files, and which symbols they have lines for; change detection through `auto.conf` |
| `DepLoops`, `DepLoopOrder`, `DepLoopChecker` | dependency loop detection |
| `ExprSyntax`, `ExprReading` | printing and parsing expressions |
| `Macros`, `MacroText` | macro expansion, and what a text expands to |
| `MenuLines`, `MenuParser` | the nesting of blocks in Kconfig files, and reading them into linked menu nodes in place |
| `MenuForest`, `MenuOrder`, `MenuMeaning`, `MenuLinks`, `MenuTree` | finalising the menu tree: as a function on forests, what it keeps, what it means, and in place on linked nodes |
| `MenuParents` | which node is the parent of which in the finalised tree |
| `TreeConfig`, `ConfigWalk` | what a finalised tree guarantees of the configuration, and the walk over it along which `.config` is written |
| `KconfigFiles` | from Kconfig files to a configuration file and back |
| `TopologicalSort` | the build order of packages |
| `KernelSettings`, `KernelMenu`, `KernelRefcount` | the values that the kernel configuration script shows, its menu stack, and its backward pass over the rows |

## Main results

1. **Caching is invisible.** The recursive invalidation of `set_value()` stops at items that have no cached
   visibility. It is nevertheless right, because every cached value only read items whose visibility is cached, and an
   evaluation that stops early only depends on what it read. `Sessions.Replay`: what is read after any sequence of
   assignments, removals and reads is what an evaluation without a cache gives for the user values at that point.
   `Reference.EvaluateSolves` and `Reference.SolutionUnique` say that this evaluation is the one and only solution of
   the equations of `Values`.
2. **Loading a written file.** `RoundTrip.ReloadExact`: loading restores every value if and only if each is
   *restorable*, which can be read off before writing, for tristates and for the modes and selections of choices as
   well. What a line does when it is loaded, whatever it is, is said in `LoadMeaning`, and what the file looks like in
   `FileText.ContentsAre` and `FileText.MenuSection`. `ConfigWalk.WriteTree` writes along the menu tree, and
   `KconfigFiles.SaveAndRestoreAlong` follows a whole session: Kconfig files are read and finalised, a configuration
   is saved along the tree and restored.
3. **Minimal files**: `MinConfig.MinimalExact` gives the exact condition under which everything that is left out is
   recreated, which without tristates, optional choices and selected text symbols is always the case
   (`MinConfig.MinimalIsComplete`). They are minimal as well: a symbol outside choices has a line only if its value
   can be changed and is not the one that it has when its user value is removed (`MinimalLines.FreeLine`, which also
   has the one exception). `MinConfigIO.MinimizeAndRestore` follows a whole session.
4. **Change detection is exact**: `SyncDeps.FlaggedExact`, `SyncDeps.SyncThrice`.
5. **Loop detection.** `DepLoopOrder.LoopCheckExact` gives the exact condition under which passing the check means
   that the items can be ranked, and `DepLoopOrder.LoopCheckIncomplete` a configuration with a genuine loop that
   passes. Whatever is raised is a genuine loop, and no part of a loop is ever left over (`DepLoops.AllSound`).
6. **Reading and finalising the menu tree.** The parser links each block behind its node and then tilts it up
   (`MenuParser.Parser.ParseBlock`); a tree results exactly if blocks are properly nested, and it has the nesting of
   the files (`MenuParser.ReadTree`, `MenuLines.BlockAsWritten`, `MenuLines.WrittenIsRead`). Finalising it in place,
   with only `next`, `list` and `parent` pointers, keeps the order of all nodes but 'if' nodes, leaves right parent
   pointers, and makes the walk without a stack visit each node once (`MenuTree.Tree.FinalizeAndWalk`,
   `KconfigFiles.ReadAndFinalize`). A node ends up below the nearest node above it that has a prompt or is a choice,
   once symbols have taken the siblings that depend on them below them (`MenuParents.FinalParents`), so that what was
   inside a menu with a prompt still is (`MenuParents.MenuKeepsInside`). The conditions it attaches to properties mean
   what the menu structure says (`MenuMeaning.FinalizeMeaning`), which makes the choices that are collected from the
   tree proper (`TreeConfig.TreeChoiceProper`).
7. **Parsing undoes printing** up to association, which does not matter to the value (`ExprSyntax.ParsePrinted`,
   `ExprSyntax.Reread`); whatever is parsed, no operand or operator is lost (`ExprReading.ExprSpells`).
8. **Macro expansion terminates**, restores its counters, never looks at expanded text again, and its guards only ever
   turn results into errors (`Macros.Preprocessor.ExpandWhole`, `Macros.MacroProgress`, `Macros.FromFewer`). Variables
   that refer to each other in a circle always end in such an error (`Macros.RecursionFails`). What a text expands to
   is the meaning of the tree of macros that it spells (`MacroText.ExpandedText`).
9. **Values** are those that prompts, defaults, ranges, selects, implies and user values call for
   (`ValueMeaning.FreeValue`, `ValueMeaning.NumberValue`, `ValueMeaning.SelectionValue`). On this rest choice modes
   (`ChoiceModes.ModeDecides`, `ChoiceModes.OneSymbolIsY`), the exact conditions under which `assignable` is right
   (`AssignableValues.AssignableExact` for symbols outside choices, `AssignableValues.MemberAssignableExact` and
   `AssignableValues.MemberSelectable` for choice symbols, `AssignableValues.ModesExact` for choices), ranges
   (`NumericRanges.ValueInRange`).
10. **Topological sort** succeeds if and only if there is no cycle (`TopologicalSort.TopologicalSort`).
11. **Kernel rows**: for well-nested files the stack is always that of the open menus, and indentation is the sum of
    the entries on it (`KernelMenu.Loader.Load`). A row has a value exactly if there is a setting for it, which is
    shown as its class calls for (`KernelSettings.FormatExact`). If names are not repeated, the rows that remain are
    exactly those that have a value or that a remaining row is shown under (`KernelRefcount.PassExact`,
    `KernelRefcount.SelectRows`); `KernelRefcount.ClosedExact` has the exact condition under which rows are always
    shown under rows that remain.

## Hypotheses

Where the program only warns, or where a phase relies on an earlier one, the model says so in named predicates:

- `Model.WellFormed`: symbols and choices refer to existing items; constants and undefined symbols have the shape in
  which the parser creates them; each symbol belongs to at most one choice, which lists it, and to which it refers
  (docs/jhalfs/menu/kconfiglib.py:3390-3393); the defaults of a choice are among its symbols (warned about at
  docs/jhalfs/menu/kconfiglib.py:3726).
- `Model.Ordered`: the items can be ranked so that references go to lower ranks, a choice symbol being one above its
  choice, and MODULES below everything that consults it. `DepLoopOrder.LoopCheckExact` is what links this to loop
  detection.
- `ChoiceModes.ProperChoice`: a choice and its symbols are bool or tristate, and the prompt condition of each symbol
  includes the mode of the choice. The latter is what propagation sees to for the symbols that are collected from
  the tree, unless they have prompts outside the choice (`TreeConfig.TreeChoiceProper`), which the program warns about
  (docs/jhalfs/menu/kconfiglib.py:3744-3753). That choice symbols are not selected or implied (warned about at
  docs/jhalfs/menu/kconfiglib.py:3738-3742) is not assumed: their values do not depend on it.
- `DepLoopOrder.OwnMembersOnly`: only its own symbols depend on a choice, as the check does not follow other
  dependents of choices.
- `ConfigFile.UniqueNames`, `LoadedUsers.ProperChoices`, `LoadedUsers.Textual`, `RoundTrip.CompleteWalk` and
  `RoundTrip.HeaderInert`: what round trips need of names, choices, text and titles. Text has no line ends, numbers
  have no trailing blanks, no symbol is excluded from being written (`option env`, defconfig_list), and no title or
  header line looks like an assignment. `ConfigWalk.TourComplete` shows that the walk over a menu tree comes by every
  symbol.
- `KconfigFiles.FilesFit`: files and configuration belong together. Their lines mention only items of the
  configuration, every symbol that it defines has a line, and no title looks like an assignment.
  `Corners.DefaultedRead` has an instance.
- `MenuParents.WholeTree`: nothing is below a symbol, and no `if` node has a prompt; this is how the parser leaves the
  nodes (`KconfigFiles.ReadIsParsed`).
- `MinConfig.Sound`: nothing is visible whose direct dependencies are not met. `TreeConfig.TreeSound` shows this for
  finalised trees.

## Where the code does not do what it says

- `assignable` is documented as the values that can be assigned (docs/jhalfs/menu/kconfiglib.py:3912-3924). Of a
  symbol outside choices that is visible with m, selected with m and implied with y, it lists m, but every assignment
  gives y (`Corners.ImpliedIsWrong`); `AssignableValues.AssignableExact` shows that nothing else goes wrong outside
  choices. Of a choice symbol that is visible with m, it lists what selects and implies call for, which have no effect
  on the value (`Corners.SelectedIsWrong`); it is right exactly if the symbol is neither selected nor implied with y
  (`AssignableValues.MemberAssignableExact`). Of a choice symbol that is visible with y, it lists y only, and assigning
  y selects the symbol (`AssignableValues.MemberSelectable`); assigning n is accepted as well, but not listed. For the
  modes of choices it is always right (`AssignableValues.ModesExact`).
- The loop check is meant to stop before values with circular dependencies are calculated
  (docs/jhalfs/menu/kconfiglib.py:1069-1076). A choice symbol that depends on a later symbol of the choice is missed
  when the choice is entered from anywhere else (`DepLoopOrder.LoopCheckIncomplete`);
  `DepLoopOrder.LoopCheckExact` has the exact condition.
- A saved configuration does not always load back: `tristate "foo" if m` with `default y` has the value y and comes
  back as m (`Corners.DefaultedIsLost`), and the mode of a choice is lost if all its symbols are n and the mode is not
  the one that it has without user values (`Corners.UnseenIsLost`). `RoundTrip.Restorable` excludes exactly this.
- A minimal configuration is said to determine the complete one (docs/jhalfs/menu/kconfiglib.py:1564-1565). Symbols
  are left out if they are not visible with more than what selects them, although a symbol that is visible and
  selected with m can be set to m where it has y by default (`Corners.PinnedIsLost`); and a bool symbol is left out
  where it is selected by default in a tristate choice, although y mode cannot be inferred without it
  (`Corners.UnsaidIsLost`).
  `MinConfig.Recreatable` excludes exactly such cases.
- In `_expr_depends_on` the operators bind so that `sym != y` counts as depending on `sym`
  (docs/jhalfs/menu/kconfiglib.py:6269-6271), against the comment above it: `MenuMeaning.UnequalToYDependsOn` has such
  a condition that is y while the symbol is n, and `MenuForest.DependsOnExact` shows that nothing else is accepted in
  excess. The model follows the code.
- The script for the kernel configuration marks what its rows are shown under in one pass from the last row to the
  first (docs/blfs-git/kernel-config/kernel-config.py:208-228). If a name is repeated, it can mark a menu after it has
  passed it, and leaves out the menu around that one (`KernelRefcount.RepeatedNotClosed`);
  `KernelRefcount.ClosedExact` has the exact condition.

## Model

| member | source | states |
|---|---|---|
| Sessions.Replay | docs/jhalfs/menu/kconfiglib.py:4415-4507 | Whatever assignments, removals of user values and reads have happened, a read through the caches gives exactly the visibility, tri-state, string, assignable values or selection that an evaluation without any cache gives for the user values at that point. |
| Sessions.PerformAll | docs/jhalfs/menu/kconfiglib.py:4415-4507 | Any sequence of operations keeps the cache invariant and leaves the user values that the operations call for, one after the other. |
| Sessions.Perform | docs/jhalfs/menu/kconfiglib.py:4415-4507 | One operation keeps the invariant; a read leaves the user values alone. |
| Reference.EvaluateSolves | docs/jhalfs/menu/kconfiglib.py:4149-4387 | Evaluating items in order of rank satisfies every equation for visibility, tri-state and string values, assignable values and selections. |
| Reference.SolutionUnique | docs/jhalfs/menu/kconfiglib.py:4149-4387 | No other valuation satisfies the equations, so that the order of evaluation cannot matter. |
| ValueMeaning.FreeValue | docs/jhalfs/menu/kconfiglib.py:4289-4349 | The value of a bool or tristate symbol outside choices: the greatest that is called for, by the user as far as the symbol is visible, or else by the first default whose condition is not n and, only if the direct dependencies are not n, by implies; and in either case by selects. m counts as y where m is not possible. |
| ValueMeaning.UnmetIsN | docs/jhalfs/menu/kconfiglib.py:4336-4338 | With direct dependencies that are n, no user value that applies, no default that applies and no select, a symbol is n, whatever implies it. |
| ValueMeaning.FreeWritten | docs/jhalfs/menu/kconfiglib.py:4289-4349 | A bool or tristate symbol has a line if and only if it is visible or, outside choices, not n. |
| ValueMeaning.VisibilityValue | docs/jhalfs/menu/kconfiglib.py:6093-6120 | The visibility is the greatest value of a prompt condition, attained by one unless it is n, with m counting as y where m is not possible; symbols that their choice hides in its mode are not visible. |
| ValueMeaning.ModeValue | docs/jhalfs/menu/kconfiglib.py:5003-5020 | The mode of a choice is what the user has set, at least m unless the choice is optional, limited by visibility, with m counting as y where m is not possible. |
| ValueMeaning.SelectionValue | docs/jhalfs/menu/kconfiglib.py:5225-5254 | In y mode the selection is the symbol that the user has selected if it is visible; otherwise the first default whose condition is not n and whose symbol is visible; otherwise the first visible symbol. |
| ValueMeaning.StringValue | docs/jhalfs/menu/kconfiglib.py:4266-4276 | A string symbol has its user value if it is visible, and otherwise the text of the first default whose condition is not n, or no text. |
| ValueMeaning.NumberValue | docs/jhalfs/menu/kconfiglib.py:4175-4264 | A number has its user value if it is visible and the value lies in the first range whose condition is not n; otherwise the text of its default, or the limit of that range that it exceeds. |
| ValueMeaning.TextWritten | docs/jhalfs/menu/kconfiglib.py:4149-4287 | Text and numbers have a line if and only if they are visible or have a default that applies, except for `option env` and defconfig_list. |
| ValueMeaning.OtherText | docs/jhalfs/menu/kconfiglib.py:4149-4167 | The text of a bool or tristate symbol is n, m or y, and that of a symbol without a type its name. |
| ValueMeaning.RelationOnNumbers | docs/jhalfs/menu/kconfiglib.py:5817-5844 | If both operands are numbers, and they are not both strings, a relation is y or n as the numbers are related. |
| ValueMeaning.RelationOnText | docs/jhalfs/menu/kconfiglib.py:5817-5844 | For two strings, or if an operand is no number, it is y or n as the texts are ordered. |
| ValueMeaning.StrCmpOrder | docs/jhalfs/menu/kconfiglib.py:6168-6171 | This is the order by the first character that differs, where the end of a text comes first. |
| ValueMeaning.ConnectiveValues | docs/jhalfs/menu/kconfiglib.py:5800-5815 | A conjunction has the lesser value, a disjunction the greater, and a negation the opposite one. |
| ValueMeaning.DenotedNumber | docs/jhalfs/menu/kconfiglib.py:6174-6186 | The number that a symbol stands for in a comparison: 0, 1 or 2 for n, m and y, and the number that its text is for the other types, in base 10, 16 or by its prefix. |
| CacheInvariant.InvalidationKeepsInv | docs/jhalfs/menu/kconfiglib.py:4694-4723 | Clearing a set of items that is closed under dependents whose visibility is cached re-establishes the invariant for the new user values: what stays cached is what would be computed now, although the clearing stops early. |
| CacheInvariant.AddCells | docs/jhalfs/menu/kconfiglib.py:4149-4165 | Caching a value whose actual reads are cached keeps the invariant and loses nothing. |
| Support.AfterTriedDefaults | docs/jhalfs/menu/kconfiglib.py:5241-5247 | Going on from a default of a choice, when those before it have been tried in vain, gives what starting from the first gives; only what has been tried needs to have been read. |
| Transfer.TransferExpr | docs/jhalfs/menu/kconfiglib.py:5790-5844 | The value of an expression only depends on the operands that short-circuit evaluation comes to: if these agree in two valuations, so do the values, and the same operands are read. |
| Transfer.TransferTri | docs/jhalfs/menu/kconfiglib.py:4289-4367 | The tri-state value of a symbol is determined by the items that its calculation reads. |
| Transfer.TransferStr | docs/jhalfs/menu/kconfiglib.py:4149-4287 | The same for string values, with the early exits for user values and ranges. |
| Transfer.TransferVis | docs/jhalfs/menu/kconfiglib.py:6093-6120 | The same for visibility, including the look at MODULES through the type. |
| Transfer.TransferSel | docs/jhalfs/menu/kconfiglib.py:5225-5254 | The same for the selection of a choice. |
| Assignments.AssignmentInvalidates | docs/jhalfs/menu/kconfiglib.py:4469-4498 | What set_value() invalidates, the choice for y and the symbol itself otherwise, covers everything that the assignment can change. |
| Engine.Kconfig.constructor | docs/jhalfs/menu/kconfiglib.py:845-1080 | A new configuration has the dependents that its references call for, no user values, and a cache that satisfies the invariant. |
| Engine.Kconfig.BuildDep | docs/jhalfs/menu/kconfiglib.py:3346-3405 | Every item gets exactly the items that refer to it as dependents. |
| Engine.Kconfig.MakeDependOn | docs/jhalfs/menu/kconfiglib.py:6123-6139 | The item becomes a dependent of exactly the non-constant items in the expression. |
| Engine.Kconfig.AddChoiceDeps | docs/jhalfs/menu/kconfiglib.py:3407-3419 | Every choice becomes a dependent of each of its symbols. |
| Engine.Kconfig.GetVisibility | docs/jhalfs/menu/kconfiglib.py:4380-4387 | The property gives the visibility of the evaluation without a cache, keeps the invariant, and adds to the cache only. |
| Engine.Kconfig.GetSymTri | docs/jhalfs/menu/kconfiglib.py:4289-4367 | The same for the tri-state value of a symbol, with choice symbols, the weak and strong reverse dependencies and the promotion of m. |
| Engine.Kconfig.GetStrValue | docs/jhalfs/menu/kconfiglib.py:4149-4287 | The same for string values, with ranges and user values of all types. |
| Engine.Kconfig.GetAssignable | docs/jhalfs/menu/kconfiglib.py:4370-4377 | The same for assignable values. |
| Engine.Kconfig.GetSelection | docs/jhalfs/menu/kconfiglib.py:5043-5050 | The same for the selection of a choice. |
| Engine.Kconfig.GetMode | docs/jhalfs/menu/kconfiglib.py:5003-5020 | The same for the mode of a choice, which is not cached itself. |
| Engine.Kconfig.GetType | docs/jhalfs/menu/kconfiglib.py:4136-4146 | A tristate is a bool while MODULES is n; consulting MODULES counts as reading it. |
| Engine.Kconfig.EvalExpr | docs/jhalfs/menu/kconfiglib.py:5790-5844 | expr_value() on the objects gives the value of the expression, and what it read is cached afterwards. |
| Engine.Kconfig.RecInvalidate | docs/jhalfs/menu/kconfiglib.py:4694-4723 | Invalidation terminates in spite of the mutual dependencies of choices and their symbols, and clears a set of items that no cleared item has a cached dependent outside of. |
| Engine.Kconfig.RecInvalidateIfHasPrompt | docs/jhalfs/menu/kconfiglib.py:4725-4745 | The same, unless the symbol has no prompt and its user value can have no effect. |
| Engine.Kconfig.InvalidateAll | docs/jhalfs/menu/kconfiglib.py:3421-3429 | All items lose their cached values, except constant and undefined symbols. |
| Engine.Kconfig.SetSymbolValue | docs/jhalfs/menu/kconfiglib.py:4415-4498 | An assignment is accepted if and only if the value fits the type; it then has the effect of the assignment on user values, which for y to a choice symbol is that of selecting it, and keeps the invariant either way. |
| Engine.Kconfig.UnsetSymbolValue | docs/jhalfs/menu/kconfiglib.py:4500-4507 | Removing a user value keeps the invariant and changes nothing else. |
| Engine.Kconfig.SetChoiceValue | docs/jhalfs/menu/kconfiglib.py:5052-5092 | The same for the mode of a choice. |
| Engine.Kconfig.UnsetChoiceValue | docs/jhalfs/menu/kconfiglib.py:5094-5101 | Both the mode and the selection of a choice are removed. |
| ChoiceModes.MemberVisibility | docs/jhalfs/menu/kconfiglib.py:6093-6120 | A choice symbol is never more visible than the mode allows, and in y mode is not visible as m. |
| ChoiceModes.ModeDecides | docs/jhalfs/menu/kconfiglib.py:4356-4364 | In y mode the selection is y and every other symbol of the choice n; in m mode symbols are n or m, by their user values; in n mode all are n; visibility y implies y mode. |
| ChoiceModes.OneSymbolIsY | docs/jhalfs/menu/kconfiglib.py:4859-4866 | In y mode there is exactly one y symbol if and only if some symbol of the choice is visible, and never more than one symbol that is not n. |
| ChoiceModes.SelectionVisible | docs/jhalfs/menu/kconfiglib.py:5225-5254 | A choice has a selection if and only if it is in y mode and one of its symbols is visible, and the selection is then visible itself. |
| AssignableValues.OwnValueFrame | docs/jhalfs/menu/kconfiglib.py:4289-4367 | The user value of a symbol changes neither its visibility, nor its type, nor what selects and implies it. |
| AssignableValues.ValueIsLimited | docs/jhalfs/menu/kconfiglib.py:4318-4349 | The value after an assignment is the assigned one, limited by visibility from above and by selects from below, with m promoted to y where m is not possible. |
| AssignableValues.AssignableExact | docs/jhalfs/menu/kconfiglib.py:4642-4686 | Every assignable value is attained by assigning it, and no assignment gives another value, if and only if the symbol is not visible as m, selected as m and implied as y at once. |
| AssignableValues.MemberSelectable | docs/jhalfs/menu/kconfiglib.py:4642-4686 | A choice symbol that is visible with y has y as its only assignable value, and assigning it makes it the selection and all other symbols of the choice n. |
| AssignableValues.MemberValueAfter | docs/jhalfs/menu/kconfiglib.py:4356-4364 | A choice symbol that is visible with m has the value m after any assignment but n, and n after that one, whatever selects or implies it. |
| AssignableValues.MemberAssignableExact | docs/jhalfs/menu/kconfiglib.py:4642-4686 | For such a symbol every assignable value is attained and no other value is, if and only if it is neither selected nor implied with y, both of which the program warns about and then ignores in the value. |
| AssignableValues.ModeAfter | docs/jhalfs/menu/kconfiglib.py:5003-5020 | The mode of a choice after an assignment is the assigned one, limited by visibility, at least m unless the choice is optional, and y instead of m where m is not possible. |
| AssignableValues.ModesExact | docs/jhalfs/menu/kconfiglib.py:5206-5223 | Every assignable mode of a visible choice is attained by assigning it, and no assignment gives another mode. |
| Corners.ImpliedIsWrong | docs/jhalfs/menu/kconfiglib.py:4642-4686 | `tristate "foo" if m`, selected with m and implied with y: m is the one value that is listed, and assigning it gives y. |
| Corners.SelectedIsWrong | docs/jhalfs/menu/kconfiglib.py:4642-4686 | A symbol in a tristate choice in m mode that is also selected: y is the one value that is listed, and assigning it gives m. |
| NumericRanges.ValueInRange | docs/jhalfs/menu/kconfiglib.py:4175-4264 | The number that an int or hex symbol has, 0 if its text is none, lies in the active range for every user value, default and visibility, if and only if the range is not empty. |
| NumericRanges.UserNumberKept | docs/jhalfs/menu/kconfiglib.py:4203-4219 | A number that the user has set on a visible symbol is kept as written if and only if it lies in the range. |
| NumericRanges.ClampInRange | docs/jhalfs/menu/kconfiglib.py:4243-4264 | The text of a clamped value reads as a number in the range, whether it was rewritten with str() or hex() or not, if and only if the range is not empty. |
| Numbers.ParseStr | docs/jhalfs/menu/kconfiglib.py:4250-4255 | Reading a number back from its decimal text gives the number. |
| Numbers.ParseHex | docs/jhalfs/menu/kconfiglib.py:4250-4255 | The same for hexadecimal text, with sign and prefix. |
| NumberText.DigitsAreNumber | docs/jhalfs/menu/kconfiglib.py:6158-6166 | Text of decimal or hexadecimal digits is a number. |
| NumberText.MoreDigitsAre | docs/jhalfs/menu/kconfiglib.py:6158-6166 | Each further digit multiplies what comes before it by ten or sixteen, and adds its value. |
| NumberText.MinusNegates | docs/jhalfs/menu/kconfiglib.py:6158-6166 | A minus sign negates. |
| NumberText.PrefixSkipped | docs/jhalfs/menu/kconfiglib.py:6158-6166 | The prefix 0x does not change a hexadecimal number. |
| NumberText.BlanksStripped | docs/jhalfs/menu/kconfiglib.py:6158-6166 | Neither do blanks around a number. |
| NumberText.LettersAreNoNumber | docs/jhalfs/menu/kconfiglib.py:6158-6166 | A character that is neither a digit nor an underscore makes text no decimal number. |
| ConfigLines.UnescapeEscape | docs/jhalfs/menu/kconfiglib.py:5978-5996 | Unescaping undoes escaping. |
| ConfigLines.QuotedRoundTrip | docs/jhalfs/menu/kconfiglib.py:5978-5996 | An escaped string in quotes matches as a whole and yields the string. |
| ConfigLines.SetMatchExact | docs/jhalfs/menu/kconfiglib.py:916 | A line is an assignment of a value to a name if and only if it has the form CONFIG_NAME=VALUE. |
| ConfigLines.UnsetMatchExact | docs/jhalfs/menu/kconfiglib.py:917-918 | It stands for n if and only if it begins with `# CONFIG_NAME is not set`. |
| LoadMeaning.LetterAccepted | docs/jhalfs/menu/kconfiglib.py:4432-4460 | Assigning text stores a tri-state value exactly for the letters n, m and y, as far as the type has these values. |
| LoadMeaning.TextAccepted | docs/jhalfs/menu/kconfiglib.py:4432-4460 | It stores the text itself exactly for strings, and for numbers in the base of the type, which for hex must not be negative. |
| LoadMeaning.TextLine | docs/jhalfs/menu/kconfiglib.py:1241-1310 | A line that assigns to a string or number: the string gets what the literal at the start of the value contains, the number gets the value if it is one, nothing else changes, and nothing at all if there is neither. |
| LoadMeaning.LetterLine | docs/jhalfs/menu/kconfiglib.py:1235-1250 | A line that assigns to a bool or tristate symbol outside choices: it gets the value that the text begins with, and nothing else changes. |
| LoadMeaning.NoLetterLine | docs/jhalfs/menu/kconfiglib.py:1238-1247 | If the text begins with anything else, or with m for a bool symbol, nothing changes. |
| LoadMeaning.MemberLine | docs/jhalfs/menu/kconfiglib.py:1251-1265 | A choice symbol gets the value as well; unless it is n, its choice gets it for its mode if it can have it, and y makes the symbol the selection. |
| LoadMeaning.UnsetComment | docs/jhalfs/menu/kconfiglib.py:1279-1305 | The comment that stands for n gives n to a bool or tristate symbol, and does nothing to others. |
| LoadMeaning.OtherLine | docs/jhalfs/menu/kconfiglib.py:1279-1297 | All other lines do nothing, and neither do those about names that no defined symbol has. |
| ConfigFile.WrittenLineLoads | docs/jhalfs/menu/kconfiglib.py:1197-1338 | The line that is written for a symbol sets this symbol, to the written value if the type accepts it, and nothing else. |
| LoadedUsers.LineLoads | docs/jhalfs/menu/kconfiglib.py:1197-1338 | Loading one more written line sets its symbol, for a choice symbol that is not n also the mode of the choice, for y the selection, and nothing else. |
| LoadedUsers.EvaluatedLinesAgree | docs/jhalfs/menu/kconfiglib.py:4149-4367 | The lines written for an evaluated configuration do not contradict each other: symbols of a choice that are not n agree on its mode, and at most one of them is y. |
| RoundTrip.BodyLoads | docs/jhalfs/menu/kconfiglib.py:1484-1555 | Loading the lines that a walk over the menu tree writes, from any point on, gives each symbol on the way its written value, and each choice the mode and selection that these imply, and leaves all others alone; headings, end comments and blank lines have no effect. |
| RoundTrip.FileLoads | docs/jhalfs/menu/kconfiglib.py:1197-1338 | After a file has replaced the configuration, user values, modes and selections are those that the file keeps, whatever they were before. |
| RoundTrip.ReloadExact | docs/jhalfs/menu/kconfiglib.py:1197-1338 | All values of symbols and choices are the same after loading if and only if each is restorable: not above what visibility and selects allow, unless promoted from m; for a choice, if one of its symbols is not n, or the mode is the one without user values. |
| RoundTrip.ModeReloads | docs/jhalfs/menu/kconfiglib.py:5003-5020 | With the same visibility and type, a choice has its mode again if and only if it is restorable. |
| RoundTrip.SelectionReloads | docs/jhalfs/menu/kconfiglib.py:5225-5254 | In the same mode, a choice whose symbols are as visible as before has its selection again. |
| RoundTrip.UserValueRestorable | docs/jhalfs/menu/kconfiglib.py:4289-4367 | The value of a symbol that the user has set is always restorable. |
| Corners.DefaultedIsLost | docs/jhalfs/menu/kconfiglib.py:4289-4367 | `tristate "foo" if m` with `default y`: the value is y, and the user values that loading the written file leaves do not give all values again. |
| Corners.UnseenIsLost | docs/jhalfs/menu/kconfiglib.py:5003-5020 | A tristate choice that has been set to y and has no visible symbol is in y mode; the user values that loading the written file leaves do not give all values again. |
| ConfigIO.Writer.Add | docs/jhalfs/menu/kconfiglib.py:1484-1555 | One more step of the walk adds what the file has for it to what has been written: a symbol the first time only, and a blank line before the first symbol behind the end of a menu. |
| ConfigIO.WrittenAll | docs/jhalfs/menu/kconfiglib.py:1484-1555 | Written step by step, the file is the one that the walk as a whole calls for. |
| ConfigWalk.LeaveAndClimb | docs/jhalfs/menu/kconfiglib.py:1513-1528 | From a node without child and next sibling the walk climbs to the node that follows, noting each menu on the way but the top one. |
| ConfigWalk.Advance | docs/jhalfs/menu/kconfiglib.py:1505-1528 | The walk without a stack goes from one node to the next in order, and comes by each node with children once more when it is left: what is written at each turn is what is due next. |
| ConfigWalk.TourComplete | docs/jhalfs/menu/kconfiglib.py:1484-1555 | This walk comes by every symbol that has a menu node, and by nothing that could be mistaken for one. |
| ConfigWalk.WriteNodes | docs/jhalfs/menu/kconfiglib.py:1505-1555 | The loop walks and writes at once, terminates, and has written exactly what the tour of the tree calls for. |
| ConfigWalk.WriteTree | docs/jhalfs/menu/kconfiglib.py:1484-1555 | Writing along the linked menu nodes gives the file that the walk over the tree calls for, complete as reloading requires. |
| FileText.ConfigLine | docs/jhalfs/menu/kconfiglib.py:4390-4413 | The line of a symbol, character by character: CONFIG_NAME=y, CONFIG_NAME=m, `# CONFIG_NAME is not set`, or CONFIG_NAME= with the text, which is quoted and escaped for strings; none if the symbol is not to be written. |
| FileText.EscapedAt | docs/jhalfs/menu/kconfiglib.py:5978-5986 | Escaping puts a backslash before each double quote and each backslash, and changes no other character. |
| FileText.ContentsAre | docs/jhalfs/menu/kconfiglib.py:1484-1555 | Behind the header, the file has for each visit of the walk, on its own account: the line of a symbol at its first visit, behind a blank line if the end of a menu is the last thing before it; the title of a menu or comment that shows, between lines with #; the end of a menu that shows; and nothing for all others. |
| FileText.MenuSection | docs/jhalfs/menu/kconfiglib.py:1513-1555 | A menu with anything in it that shows has in the file its title, then what the walk comes by inside it, then its end. |
| FileText.LineInside | docs/jhalfs/menu/kconfiglib.py:1529-1546 | Between them are the lines of all symbols that are met there first. |
| FileText.TourInOrder | docs/jhalfs/menu/kconfiglib.py:1505-1528 | The walk comes by the nodes in their order, and by each once. |
| ConfigIO.LoadConfig | docs/jhalfs/menu/kconfiglib.py:1197-1338 | Loading processes the lines in order; with `replace` it marks all items before, and removes the user values of items that were not set after; the cache invariant is kept either way. |
| ConfigIO.SaveAndRestore | docs/jhalfs/menu/kconfiglib.py:1484-1555 | A file is written after any operations and loaded after any others: if values were restorable, each symbol has its value again. |
| KconfigFiles.WriteAlong | docs/jhalfs/menu/kconfiglib.py:1484-1555 | Unless the Kconfig files are rejected, the file that is written for them is that of a walk that comes by every defined symbol. |
| KconfigFiles.SaveAndRestoreAlong | docs/jhalfs/menu/kconfiglib.py:1197-1338 | From the Kconfig files on: they are read and finalised, a configuration is saved along the tree after any operations, and loaded after any others. Each symbol has its value again if values were restorable. |
| MinConfig.MinFileLoads | docs/jhalfs/menu/kconfiglib.py:1591-1623 | After a minimal file has been loaded, user values, modes and selections are those that the file keeps. |
| MinimalLines.FreeLine | docs/jhalfs/menu/kconfiglib.py:1591-1608 | A symbol outside choices, whose direct dependencies are met if it is visible, has a line if and only if it is more visible than it is selected and its value is not the one that it has when its user value is removed; or that one is a default that was moved into its range. |
| MinimalLines.MemberLine | docs/jhalfs/menu/kconfiglib.py:1610-1621 | A choice symbol has a line if and only if it is not n, except for a bool symbol with y that its choice, unless it is optional, selects without the user. |
| FileText.MinimalParts | docs/jhalfs/menu/kconfiglib.py:1591-1623 | The lines are the same as in a full file, in the order of the symbols. |
| MinConfig.MinimalExact | docs/jhalfs/menu/kconfiglib.py:1557-1623 | Loading a minimal file gives every symbol and choice its value again, if and only if each is recreatable: no symbol that cannot be changed is m against its default y, no text of a selected symbol differs from its default, and the mode of each choice can be inferred from a line or is the one without user values. |
| MinConfig.SelectionSaid | docs/jhalfs/menu/kconfiglib.py:1610-1619 | The selection of a choice is in the file, or the file says nothing about the choice and the selection is that by default. |
| MinConfig.MinimalIsComplete | docs/jhalfs/menu/kconfiglib.py:1557-1623 | Without tristates, optional choices and selected text symbols nothing is ever lost. |
| Corners.PinnedIsLost | docs/jhalfs/menu/kconfiglib.py:1599-1608 | `tristate "foo" if m` with `default y` that is selected with m and set to m: it is left out of the minimal file, and what loading that file leaves does not give all values again. |
| Corners.UnsaidIsLost | docs/jhalfs/menu/kconfiglib.py:1610-1619 | A tristate choice set to y whose visible bool symbol is selected by default: the symbol is y and left out of the minimal file, and what loading that file leaves does not give all values again. |
| MinConfigIO.GetStrDefault | docs/jhalfs/menu/kconfiglib.py:4747-4780 | The default text of a symbol, computed through the caches. |
| MinConfigIO.WriteMinConfig | docs/jhalfs/menu/kconfiglib.py:1591-1623 | The loop writes exactly the lines of symbols that are not left out. |
| MinConfigIO.MinimizeAndRestore | docs/jhalfs/menu/kconfiglib.py:1557-1623 | A minimal file is written after any operations; loading it after any others gives every symbol its value again, if all values were recreatable. |
| SyncDeps.AutoConfLoads | docs/jhalfs/menu/kconfiglib.py:1735-1768 | What is read from `auto.conf` is the entry that was written for each symbol. |
| FileText.AutoConfLine | docs/jhalfs/menu/kconfiglib.py:1784-1791 | The line of a symbol in `auto.conf`, character by character; none for n. |
| FileText.AutoConfParts | docs/jhalfs/menu/kconfiglib.py:1784-1791 | The lines stand in the order of the symbols. |
| FileText.VanishedExact | docs/jhalfs/menu/kconfiglib.py:1747-1768 | A name is flagged as vanished if and only if some line assigns to it and no symbol has it. |
| FileText.DefineLine | docs/jhalfs/menu/kconfiglib.py:1382-1407 | The line of a symbol in the C header: #define CONFIG_NAME 1 for y, #define CONFIG_NAME_MODULE 1 for m, none for n, and the text for the other types, quoted and escaped for strings and with the prefix 0x for hexadecimal numbers. |
| SyncDeps.FlaggedExact | docs/jhalfs/menu/kconfiglib.py:1690-1718 | A symbol is flagged if and only if its entry differs from the one when `auto.conf` was written, n counting as no entry; without an `auto.conf`, if and only if it has an entry. |
| SyncDeps.ChangedDefineFlagged | docs/jhalfs/menu/kconfiglib.py:1382-1407 | Every symbol whose line in the C header has changed is flagged. |
| SyncDeps.NothingFlagged | docs/jhalfs/menu/kconfiglib.py:1690-1725 | A run right after a run flags nothing. |
| SyncDeps.LoadOldVals | docs/jhalfs/menu/kconfiglib.py:1735-1768 | The loop remembers the last valid entry of each symbol, and the names that have no symbol any more. |
| SyncDeps.Sync | docs/jhalfs/menu/kconfiglib.py:1684-1725 | sync_deps() flags the symbols with changed entries in order and returns the new contents. |
| SyncDeps.SyncThrice | docs/jhalfs/menu/kconfiglib.py:1625-1725 | The first run flags the symbols that have entries; with any operations in between, a second flags exactly the symbols whose entries have changed; a third nothing. |
| DepLoops.AllSound | docs/jhalfs/menu/kconfiglib.py:1069-1076 | Searching all symbols raises only genuine loops, and no part of a loop reaches the top. |
| DepLoops.SymSound | docs/jhalfs/menu/kconfiglib.py:6370-6442 | A search from a symbol ends with a genuine loop, with a part of a walk that leads back to an item being visited, or with nothing, in which case the items being visited are the same as before. |
| DepLoops.ChoiceSound | docs/jhalfs/menu/kconfiglib.py:6445-6476 | The same for a search from a choice. |
| DepLoops.LoopHasNoRanking | docs/jhalfs/menu/kconfiglib.py:6479-6525 | If a genuine loop exists, the items cannot be ranked, so that evaluation is not well-founded. |
| DepLoopOrder.NoLoopMeansRanked | docs/jhalfs/menu/kconfiglib.py:6370-6476 | If nothing is found and no symbol of a choice leads back to an earlier one around the choice, the order in which the search finishes ranks the items. |
| DepLoopOrder.LoopCheckExact | docs/jhalfs/menu/kconfiglib.py:6370-6525 | Nothing is found and there is no such walk, if and only if the items can be ranked. |
| DepLoopOrder.LoopCheckIncomplete | docs/jhalfs/menu/kconfiglib.py:6370-6476 | A choice with the symbols S1, S3, S2, S3 depending on S2: there is a genuine loop, and nothing is found. |
| DepLoopChecker.Checker.CheckSym | docs/jhalfs/menu/kconfiglib.py:6370-6442 | The search that marks items in place finds what the search on values finds, and leaves the same marks. |
| DepLoopChecker.Checker.CheckChoice | docs/jhalfs/menu/kconfiglib.py:6445-6476 | The same for choices, of which the symbol that the search came from is skipped. |
| DepLoopChecker.CheckDependencyLoops | docs/jhalfs/menu/kconfiglib.py:1069-1076 | Whatever is raised is a genuine loop, nothing partial is returned, and passing is exact as above. |
| ExprSyntax.ParsePrinted | docs/jhalfs/menu/kconfiglib.py:5863-5904 | Parsing the tokens of a printed expression consumes exactly these and gives the expression with chains associated to the right, with the same value whatever the symbols are. |
| ExprSyntax.ToRightValue | docs/jhalfs/menu/kconfiglib.py:5790-5827 | Association does not change the value. |
| ExprSyntax.ToRightTokens | docs/jhalfs/menu/kconfiglib.py:5863-5904 | Printing the parsed expression gives the same tokens again. |
| ExprSyntax.AndParses | docs/jhalfs/menu/kconfiglib.py:3296-3304 | An operand of an `or` is parsed up to where its tokens end. |
| ExprSyntax.FactorParses | docs/jhalfs/menu/kconfiglib.py:3306-3340 | The same for the operand of an `and`: a symbol, a relation, a negation or a parenthesised expression. |
| ExprSyntax.Parser.Expr | docs/jhalfs/menu/kconfiglib.py:3254-3294 | The parser with a token index gives the expression and the position of the parse on values. |
| ExprSyntax.Parser.AndExpr | docs/jhalfs/menu/kconfiglib.py:3296-3304 | The same one level down. |
| ExprSyntax.Parser.Factor | docs/jhalfs/menu/kconfiglib.py:3306-3340 | The same for factors, with errors for unexpected tokens. |
| ExprSyntax.Reread | docs/jhalfs/menu/kconfiglib.py:5863-5904 | What is printed can always be read back, prints the same, and has the same value. |
| ExprReading.Precedence | docs/jhalfs/menu/kconfiglib.py:3254-3304 | Without parentheses, `and` binds more closely than `or`, whichever comes first. |
| ExprReading.NegationBinds | docs/jhalfs/menu/kconfiglib.py:3306-3340 | ! applies to the operand that follows it, or to all that is in the parentheses that follow it. |
| ExprReading.ExprSpells | docs/jhalfs/menu/kconfiglib.py:3254-3340 | Whatever is parsed, the expression has the operands and operators of the tokens in their order, without the parentheses; none is lost. |
| ExprReading.ExprTransformed | docs/jhalfs/menu/kconfiglib.py:3316-3322 | Where m is to be transformed, the same is parsed with m && MODULES for m, except in relations. |
| Macros.Preprocessor.ExpandWhole | docs/jhalfs/menu/kconfiglib.py:2543-2556 | The loop over the macros of a text terminates, gives the expansion of the text, and restores the counters if it succeeds; they never exceed 101. |
| Macros.Preprocessor.Expand | docs/jhalfs/menu/kconfiglib.py:2626-2678 | The same for a single macro, with its arguments and nested macros. |
| Macros.Preprocessor.Value | docs/jhalfs/menu/kconfiglib.py:2680-2733 | The same for a variable, function or environment variable; recursion beyond the guards is an error. |
| Macros.MacroProgress | docs/jhalfs/menu/kconfiglib.py:2626-2669 | The text before a macro stays, and what is left to look at afterwards is a proper part of what was left: expanded text is never looked at again. |
| Macros.FromFewer | docs/jhalfs/menu/kconfiglib.py:2690-2704 | The guards only turn results into errors: what succeeds inside other expansions gives the same result outside them. |
| Macros.RecursionFails | docs/jhalfs/menu/kconfiglib.py:2690-2704 | Variables each of whose texts refers to one of them, directly or through the others, with or without arguments, anywhere in the text, are never expanded: the guards are met sooner or later, whatever else is being expanded. |
| Macros.TextFails | docs/jhalfs/menu/kconfiglib.py:2543-2556 | Nor is any text that refers to one of them. |
| Macros.FindMacro | docs/jhalfs/menu/kconfiglib.py:2552-2554 | The search gives the first macro at or after an index, or says that there is none. |
| MacroText.ExpandedText | docs/jhalfs/menu/kconfiglib.py:2543-2733 | A text that spells a tree of macros expands to the meaning of the tree: plain text stays, a number stands for that argument, a variable for the meaning of its text with the arguments of the call, a function for its result, other names for the environment variable or nothing; nested macros come first, and the guards apply as stated. |
| MacroText.ArgumentExpands | docs/jhalfs/menu/kconfiglib.py:2652-2657 | `$(i)` in the text of a function that is called with at least i arguments expands to the i-th. |
| MacroText.VariableExpands | docs/jhalfs/menu/kconfiglib.py:2685-2706 | `$(v)` for a variable whose text has no macros expands to that text. |
| MacroText.FunctionExpands | docs/jhalfs/menu/kconfiglib.py:2685-2706 | `$(f,a1,...,an)` for a text with slots `$(i)` expands to that text with the arguments put in. |
| MacroText.UnsetExpands | docs/jhalfs/menu/kconfiglib.py:2727-2733 | A name that is neither a variable nor a function expands to the environment variable, or to nothing. |
| MacroText.UnendedFails | docs/jhalfs/menu/kconfiglib.py:2643-2648 | A macro that is never closed is an error. |
| MenuLines.BlockAsWritten | docs/jhalfs/menu/kconfiglib.py:2767-2986 | A file is accepted only if it consists of properly nested blocks, sourced files put in place; what is read has exactly these lines in this nesting. |
| MenuLines.WrittenIsRead | docs/jhalfs/menu/kconfiglib.py:2767-2986 | Every file that is properly nested is read, whatever its nesting. |
| MenuLines.NumberedInOrder | docs/jhalfs/menu/kconfiglib.py:2767-2986 | In order, the menu nodes are those of the lines one after the other. |
| MenuParser.TiltedUp | docs/jhalfs/menu/kconfiglib.py:2883-2892 | The nodes that have been put behind a node become its children when `next` is moved to `list`, and the node is put behind the previous one; all earlier links are as before. |
| MenuParser.GrownTwice | docs/jhalfs/menu/kconfiglib.py:2767-2986 | What is put behind the last node of a list of new nodes extends the list. |
| MenuParser.Parser.constructor | docs/jhalfs/menu/kconfiglib.py:996-1006 | Before anything is read, there is the top node, a menu. |
| MenuParser.Parser.ParseBlock | docs/jhalfs/menu/kconfiglib.py:2767-2986 | Reading a block in place succeeds exactly if it is nested properly and ended by the right line; its nodes are then linked behind the previous node in their nesting, the last one returned with no next one, and other links left alone. |
| MenuParser.Parser.ParseFiles | docs/jhalfs/menu/kconfiglib.py:1034-1043 | Behind the top node everything is read and tilted up: the links are those of the outline of the files, no node twice. |
| MenuParser.ReadTree | docs/jhalfs/menu/kconfiglib.py:996-1043 | A tree of linked menu nodes results if and only if the files are nested properly, with the properties and the nesting of their lines. |
| MenuOrder.FinalizeKeepsOrder | docs/jhalfs/menu/kconfiglib.py:3436-3512 | Finalising a node keeps the nodes other than 'if' nodes in order, and leaves no 'if' node below. |
| MenuOrder.FinalizeKeepsLabels | docs/jhalfs/menu/kconfiglib.py:3436-3512 | Nor does it change what the nearest choice above a node is. |
| MenuParents.FinalParents | docs/jhalfs/menu/kconfiglib.py:3436-3512 | In the finalised tree the parent of each node is the nearest node above it that has a prompt or is a choice, or the top, in the forest as parsed with the siblings that depend on a symbol put below it; there is exactly one such forest: each symbol takes the siblings behind it that depend on it, up to the first that does not. |
| MenuParents.NestingUnique | docs/jhalfs/menu/kconfiglib.py:3481-3494 | What symbols take is determined by the parsed forest and the conditions. |
| MenuParents.FinalPointers | docs/jhalfs/menu/kconfiglib.py:6287-6314 | The pointers to parents that finalising in place leaves are to these nodes. |
| MenuParents.MenuKeepsInside | docs/jhalfs/menu/kconfiglib.py:6297-6300 | A node other than an `if` node is inside a menu with a prompt, or a choice, after finalising if and only if it was inside it as parsed. |
| MenuParents.PromptlessKeepsNothing | docs/jhalfs/menu/kconfiglib.py:6297-6300 | Nothing is left inside a node that has no prompt and is no choice. |
| MenuMeaning.MakeAndValue | docs/jhalfs/menu/kconfiglib.py:2739-2751 | The simplified conjunction has the smaller of the two values. |
| MenuMeaning.MakeOrValue | docs/jhalfs/menu/kconfiglib.py:2753-2765 | The simplified disjunction has the greater of the two values. |
| MenuForest.DependsOnExact | docs/jhalfs/menu/kconfiglib.py:6250-6275 | What counts as depending on a symbol is what is meant to, or has `sym != y` as a part, and nothing else. |
| MenuMeaning.DependsOnMeans | docs/jhalfs/menu/kconfiglib.py:6250-6275 | What is meant to depend on a symbol is n whenever the symbol is n. |
| MenuMeaning.UnequalToYDependsOn | docs/jhalfs/menu/kconfiglib.py:6269-6271 | `sym != y` counts as depending on the symbol, although it is y when the symbol is n. |
| MenuMeaning.FinalizeEffect | docs/jhalfs/menu/kconfiglib.py:3436-3512 | Which siblings end up in implicit submenus makes no difference to the properties of menu nodes and symbols. |
| MenuMeaning.PathMeans | docs/jhalfs/menu/kconfiglib.py:3514-3564 | Every condition of a node has the value of the smaller of itself and all dependencies above it, up to the nearest choice, whose mode takes their place; prompts are limited by each enclosing `visible if` as well. |
| MenuMeaning.CollectGains | docs/jhalfs/menu/kconfiglib.py:3566-3600 | Over all its menu nodes, a symbol collects the greatest of their dependencies, the defaults and ranges in order, and as reverse dependencies the greatest strength with which it is selected and implied. |
| MenuMeaning.SelectedByMax | docs/jhalfs/menu/kconfiglib.py:3582-3600 | This strength is an upper bound for every select of the target and is reached by one, or n. |
| MenuMeaning.FinalizeMeaning | docs/jhalfs/menu/kconfiglib.py:163-193 | For the whole tree as _finalize_tree() leaves it: conditions mean what the path from the top calls for, and symbols have collected what their nodes and selectors call for. |
| MenuMeaning.PromptNeedsDirectDep | docs/jhalfs/menu/kconfiglib.py:163-193 | A prompt is never more visible than the direct dependencies of its symbol. |
| TreeConfig.PathCapped | docs/jhalfs/menu/kconfiglib.py:3514-3564 | Below a choice, with no other choice in between, dependencies and prompt conditions include the mode of the choice. |
| TreeConfig.CollectedAreChildren | docs/jhalfs/menu/kconfiglib.py:6342-6354 | What is collected for a choice are exactly the symbols that have a menu node with the choice for its parent. |
| TreeConfig.CollectedBelow | docs/jhalfs/menu/kconfiglib.py:6342-6354 | For a choice with one node, they are those of the nodes directly below it. |
| TreeConfig.BesideInOrder | docs/jhalfs/menu/kconfiglib.py:6342-6354 | They are collected in the order of these nodes. |
| TreeConfig.ChildWasInside | docs/jhalfs/menu/kconfiglib.py:163-193 | A child of a choice in the finalised tree was inside the choice as parsed, with no other choice in between. |
| TreeConfig.TreeChoiceProper | docs/jhalfs/menu/kconfiglib.py:6342-6354 | In a configuration that takes its symbols from a finalised tree, a choice with the symbols that are collected for it is proper, if it and they are bool or tristate, and they have no prompts outside the choice. |
| TreeConfig.TreeVisibility | docs/jhalfs/menu/kconfiglib.py:4380-4387 | In such a configuration no symbol is more visible than its direct dependencies allow. |
| TreeConfig.TreeSound | docs/jhalfs/menu/kconfiglib.py:1599-1608 | So a visible symbol has its direct dependencies met, which minimal configuration files rely on. |
| MenuTree.Tree.constructor | docs/jhalfs/menu/kconfiglib.py:1034-1051 | A tree is made of nodes whose pointers and properties are as given, such as the parser leaves them. |
| MenuTree.Tree.FlattenSiblings | docs/jhalfs/menu/kconfiglib.py:6287-6314 | Splicing pointers in place gives the flattened list of siblings with right parents, and touches nothing else. |
| MenuTree.Tree.RemoveIfNodes | docs/jhalfs/menu/kconfiglib.py:6316-6339 | The children without the 'if' nodes, in order, by changing pointers only. |
| MenuTree.Tree.PropagateDeps | docs/jhalfs/menu/kconfiglib.py:3514-3564 | Exactly the properties of the children change, as propagation says. |
| MenuTree.Tree.AddPropsToSym | docs/jhalfs/menu/kconfiglib.py:3566-3600 | The symbol and the targets of its selects and implies get the properties of the menu node. |
| MenuTree.Tree.FinalizeTree | docs/jhalfs/menu/kconfiglib.py:3436-3512 | The recursive in-place procedure does what finalisation of the forest says, to links, nodes and symbols alike. |
| MenuTree.Tree.AbsorbSiblings | docs/jhalfs/menu/kconfiglib.py:3481-3494 | The siblings that depend on a symbol become its children, and what follows them its next sibling. |
| MenuTree.Tree.NodeIter | docs/jhalfs/menu/kconfiglib.py:1820-1842 | The walk without a stack visits every node below the top exactly once, in order; asked for unique symbols, it leaves out all but the first node of each. |
| MenuTree.FirstNodesExact | docs/jhalfs/menu/kconfiglib.py:1820-1842 | A node is left out if and only if it is one of a symbol that an earlier node is of as well. |
| MenuTree.Tree.FinalizeAndWalk | docs/jhalfs/menu/kconfiglib.py:1793-1842 | After finalisation the walk gives the nodes that were parsed, without 'if' nodes, in the order of the Kconfig files. |
| MenuTree.Tree.FinalizeChoice | docs/jhalfs/menu/kconfiglib.py:6342-6354 | The symbols of a choice are appended in the order of the menu nodes directly below it. |
| KconfigFiles.ReadAndFinalize | docs/jhalfs/menu/kconfiglib.py:1034-1051 | Reading and finalising gives a tree exactly if the files are nested properly; the walk over it gives the nodes in the order of the lines, without those of 'if' lines. |
| KconfigFiles.FinalNodes | docs/jhalfs/menu/kconfiglib.py:1034-1051 | A node is in the finalised tree if and only if its line does not begin an 'if' block. |
| KconfigFiles.FilesParents | docs/jhalfs/menu/kconfiglib.py:1034-1051 | In the tree that results from files, the pointer of each node to its parent is to the nearest node above it that has a prompt or is a choice, in the nesting of the files once symbols have taken their dependents, or to the top. |
| KconfigFiles.FinalFits | docs/jhalfs/menu/kconfiglib.py:3514-3564 | If the lines only mention items of the configuration, so does everything that finalising has combined; every symbol with a line still has a node. |
| TopologicalSort.TopologicalSort | src/parsers/dependency_resolver.py:75-97 | It terminates; it succeeds if and only if the graph has no cycle among its keys; the order has every key once, after all its dependencies; the node that is reported lies on a cycle. |
| TopologicalSort.Sorter.Visit | src/parsers/dependency_resolver.py:81-92 | A visit adds the node behind everything that it depends on, or finds a cycle through the reported node. |
| TopologicalSort.OrderedGraphHasNoCycle | src/parsers/dependency_resolver.py:94-97 | An order with dependencies first rules out every cycle. |
| KernelMenu.Loader.PopStack | docs/blfs-git/kernel-config/kernel-config.py:34-40 | Given that the condition in its assertion holds, the indentation counters remain the sums over the stack. |
| KernelMenu.Loader.PopStackWhile | docs/blfs-git/kernel-config/kernel-config.py:42-44 | Entries are removed as long as the condition holds; it never reaches below a menu. |
| KernelSettings.FormatExact | docs/blfs-git/kernel-config/kernel-config.py:106-143 | What is shown for a setting, character by character: parentheses around text and around X; for a bool or tristate the letters in order with / between them, in brackets that say whether it can be a module and whether it is forced; and it is an error exactly if X is given where the entry is not in a choice or the other way round, or for a letter that the class does not have. |
| KernelSettings.TitleInQuotes | docs/blfs-git/kernel-config/kernel-config.py:117-119 | A quoted title is shown without its quotes. |
| KernelMenu.Loader.ParseConfig | docs/blfs-git/kernel-config/kernel-config.py:62-156 | The entry is put under the innermost entry on the stack that is among its dependencies, which are the menu, the conditions of the open `if` blocks and its own. Its row has the indentation of the stack below it; it has a value if and only if it is an option with a setting, the one that its class calls for; and its own entry indents by two columns in the first counter for a menu, and in the second for a titled option. It is an error exactly if the setting cannot be shown. |
| KernelMenu.Loader.CloseMenu | docs/blfs-git/kernel-config/kernel-config.py:178-180 | Closing a menu removes the innermost open menu with everything on top of it, nothing else, and the assertion holds. |
| KernelMenu.Loader.Load | docs/blfs-git/kernel-config/kernel-config.py:158-192 | For well-nested input the menu entries on the stack are exactly the open menus and choices at every point, each entry gives one row, which shows its setting, conditions are those of the open `if` blocks, and keys are unique if names are; loading fails only at an entry whose setting cannot be shown. |
| KernelRefcount.BuildIndex | docs/blfs-git/kernel-config/kernel-config.py:212-214 | Going backwards leaves the first row of each key. |
| KernelRefcount.Refcount | docs/blfs-git/kernel-config/kernel-config.py:212-228 | In place, with the index made beforehand, the pass leaves the rows that the pass on values gives, and raises exactly if it does, whether names are repeated or not. |
| KernelRefcount.PassExact | docs/blfs-git/kernel-config/kernel-config.py:216-228 | If every row is shown under an earlier one, the single backward pass raises if and only if something that is needed is shown under an option without a value; otherwise a row keeps or gets a value if and only if it is needed. |
| KernelRefcount.ClosedExact | docs/blfs-git/kernel-config/kernel-config.py:216-228 | Whatever the settings and titles are, rows that remain are shown under rows that remain, if and only if no row can be marked too late: where a row is shown under a later one, that one is shown under nothing or one of the two. |
| KernelRefcount.RepeatedNotClosed | docs/blfs-git/kernel-config/kernel-config.py:216-228 | An entry without title that comes again in a menu within a menu: the inner menu remains, the outer one does not. |
| KernelRefcount.NeededUpward | docs/blfs-git/kernel-config/kernel-config.py:216-228 | What a needed row is shown under is needed, up to the top. |
| KernelRefcount.SelectRows | docs/blfs-git/kernel-config/kernel-config.py:208-230 | From the events of well-nested files to the rows that remain: rows show their settings, and of these remain those that the pass leaves; if names are not repeated, exactly the needed ones, closed under what they are shown under. It fails only for a setting that cannot be shown, or where the pass raises. |

## Left out

- Engine.Kconfig.constructor: the dependents are the items that refer to an item; that a choice symbol refers to its choice is a hypothesis (`Model.ChoiceMember`), as propagation can lose the reference when a condition simplifies to n.
- Sessions.Replay: assumes `Model.Ordered`. MODULES has to rank below everything that consults it, which loop detection does not check, and a choice symbol one above its choice.
- DepLoopOrder.LoopCheckExact: assumes that only its own symbols depend on a choice (`OwnMembersOnly`), as the search does not follow other dependents of choices; nested choices are therefore outside it.
- RoundTrip.ReloadExact: without `option env` and defconfig_list symbols, which are not written, and for proper choices; text must have no line ends and numbers no trailing blanks, since the file format cannot hold them.
- ConfigWalk.WriteNodes: the ends of the menus that are left in one climb are written when the next node has been reached, where the program writes each on the way up; nothing is read or written in between.
- ConfigIO.LoadConfig: without warnings and the list of missing symbols.
- MinConfig.MinimalExact: the same limits as for `RoundTrip.ReloadExact`.
- TreeConfig.TreeChoiceProper: about prompts and direct dependencies; that the other properties of symbols are those of the tree is not used.
- SyncDeps.Sync: touching files is represented by the symbols that are flagged, and skipping a write of unchanged contents is not modelled.
- ExprSyntax.ParsePrinted: for expressions over symbols, as references to choices are printed in a form that is not meant to be parsed, and without the transformation of m, which `ExprReading.ExprTransformed` is about; starts from tokens.
- Macros.Preprocessor.Value: built-in and user-defined functions, and int() on the text of a macro, are arbitrary functions of their text arguments; they cannot change variables, and neither :=, = nor += is modelled.
- Macros.MacroProgress: about macros in plain text; _expand_name() and _expand_str() are left out.
- MenuMeaning.FinalizeMeaning: the defaults and direct dependencies of choices are not collected.
- MenuTree.Tree.FinalizeChoice: collects from the finalised tree, where the program does so as soon as the children of the choice are final; types that choices and symbols take from each other are not modelled.
- MenuParser.Parser.ParseBlock: lines are given with the properties that follow them, and files that are sourced by their lines; the only errors are those of nesting, and `mainmenu` is left out.
- KconfigFiles.SaveAndRestoreAlong: the configuration is given next to the files (`KconfigFiles.FilesFit`), and not built from the finalised tree.
- KernelMenu.Loader.Load: files that are sourced are put in place, and lines are given as classified blocks with their dependencies; the bit that marks a choice in a menu number is a flag of its own.
- KernelRefcount.SelectRows: dropping rows without a title, aligning columns and rendering are left out.
- Numbers.ParseStr: int() is modelled on ASCII text.
- Tokenising, help texts, finding the files that `source` names, `visible if` on anything but menus, and the parser for properties of menu nodes.
- Reading and writing files, encodings, environment variables, `$(shell,...)`, warnings and error texts, and values that are calculated for a warning only.
- Change of the Kconfig files between two runs of sync_deps(), beyond names that have disappeared.
- The write flag of a symbol is a part of its value here, where the program sets an attribute while it calculates the value.
- The curses menu docs/jhalfs/menu/menuconfig.py, and the parsers for book pages next to `topological_sort`: no invariant spans their functions.
- docs/glfs/kernel-config/kernel-config.py and docs/lfs-git/chapter10/kernel/kernel-config.py, which are variants of the script that is modelled.
