# qtiPINT parameter editor and window layout, in Dafny

This project models two pieces of qtiPINT, a Qt front end for pulsar
timing with PINT:

* **The parameter editor** (`qtipint/paredit.py`). A `ParWidget` holds a
  pulsar with a pre-fit timing model (`psr._model`) and a post-fit one
  (`psr._fitter.model`). A Pre-Fit/Post-Fit radio pair chooses which model
  the editing table shows. The table has one row per parameter: name,
  value text, a "Fit?" box and uncertainty text. The user can insert
  blank rows and delete rows, then press Reset, Apply or Write. Apply
  writes the table back into the pre-fit model. Write applies it to a
  deep copy and saves that copy.
* **The main window's layout state** (`qtipint/qtip.py`). `QtipWindow`
  records which main widget is shown (plk or open-something) and whether
  the IPython console is shown. Each layout change hides every widget
  and resizes the window to 1350×550 or 650×550 when the console state
  changes. It then shows the chosen widgets on the next turn of the
  event loop.

Files:

* `wrappers.dfy`: `Option`, which stands for Python's `None`.
* `par_model.dfy`, module `ParModel`: values, parameters, rows and the
  two pure maps between them. `Project` is `addTable`. `Reconcile` is
  `updateModel`, applied as a fold over the rows. The module gives
  `Reconcile` a reference definition that reads each field off the last
  row that sets it (`Settled`), and it proves the properties of that map.
  Python's `float(s)` and `str(x)` are left abstract as a `NumberFormat`.
  Lemmas that need `float(str(n)) == n` assume it only for the numbers
  the model holds (`Rereadable`, stated per parameter).
* `table_edit.dfy`, module `TableEdit`: the row algebra behind Add Row
  and Delete Row. It covers a blank row before each marked row
  (`BlanksBefore`), the table without its marked rows (`Survivors`) and
  Qt's rules for moving persistent row handles.
* `paredit.dfy`, module `ParEdit`: the widgets as classes whose fields the
  methods update. Each table-editing method loops as the source does and
  is proved against the `TableEdit`/`ParModel` functions. Callbacks are
  the `Command` values that `setPulsar` registers.
* `qtip.dfy`, module `Qtip`: the layout function `SetLayout`, the
  `QtipWindow` class and its methods. The deferred
  `QTimer.singleShot(0, showVisibleWidgets)` is a count of pending shows,
  and `Tick` runs one of them.

Some behaviours of the code may surprise a reader; the model keeps them
as written:

* For a value text that is neither a number nor `True`/`False`, the code
  prints a message and still stores the raw string (`paredit.py:264-266`).
  It does not leave the old value in place. `Classify` returns `Text`.
* Apply and Write always use the pre-fit model `psr._model`
  (`paredit.py:277`, `paredit.py:280`), even while Post-Fit is selected.
* `setPulsar` loads the table from the pre-fit model whichever radio
  button is checked (`paredit.py:235`).
* `writePar` does not check for a cancelled file dialog
  (`paredit.py:282-283`). The model stops before the dialog (see Left out).

## Model

| member | source | states |
|---|---|---|
| ParModel.Project | qtipint/paredit.py:83-119 | the table has one row per parameter, in `model.params` order, named by the parameter, with "Fit?" checked exactly when the parameter is not frozen |
| ParModel.Classify | qtipint/paredit.py:256-266 | a value text becomes a number iff `float` accepts it, otherwise a boolean iff it is exactly `True` or `False`, otherwise the raw text; any non-number reads back as that same text |
| ParModel.ApplyRow | qtipint/paredit.py:255-273 | one row sets `frozen` to the negated box; an empty value text keeps the value, a non-empty one stores its classification; an uncertainty is replaced only by non-empty text that parses |
| ParModel.Reconcile | qtipint/paredit.py:247-274 | applying a table never adds or removes a parameter |
| ParModel.ReconcileAt | qtipint/paredit.py:247-274 | after the whole table, `frozen` comes from the last row naming the parameter; value and uncertainty come from the last row that sets them, else they are unchanged |
| ParModel.ReconcileAppend | qtipint/paredit.py:248 | the rows are applied in table order: applying `a + b` is applying `a` and then `b` |
| ParModel.UnknownRowIgnored | qtipint/paredit.py:249-255 | a row whose name is not a parameter, at any position, leaves the result as if it were absent |
| ParModel.BlankRowIgnored | qtipint/paredit.py:121-129 | a blank row inserted by Add Row and left unedited changes nothing when the table is applied |
| ParModel.UnknownRowsIgnored | qtipint/paredit.py:248-255 | a table none of whose rows names a parameter leaves the model unchanged |
| ParModel.UnnamedUnchanged | qtipint/paredit.py:248-273 | a parameter that no row names keeps its entry, all fields included |
| ParModel.ReconcileIdempotent | qtipint/paredit.py:247-274 | pressing Apply twice on the same table has the effect of pressing it once |
| ParModel.ProjectRoundTrip | qtipint/paredit.py:83-119 | loading a model and applying the unedited table gives the model back, when each parameter's number, boolean or text value and its uncertainty read back from the texts `str` writes for them |
| ParModel.ProjectOverwrites | qtipint/paredit.py:103-119 | the table carries the values: applying the table loaded from model `a` to any model with the same parameters gives `a`, when every parameter is listed and its value and uncertainty cells are filled and read back |
| ParModel.ProjectKeepsFrozen | qtipint/paredit.py:95-115 | loading a model and applying the unedited table keeps every `frozen` flag, with no assumption on number formatting |
| TableEdit.BlanksBeforeAt | qtipint/paredit.py:132-141 | after Add Row each original row is still present, shifted down by the blanks inserted at or above it, with a blank directly above each selected row |
| TableEdit.SurvivorAt | qtipint/paredit.py:143-149 | after Delete Row each unselected row is still present, shifted up by the selected rows above it |
| TableEdit.MarkInsertsBlank | qtipint/paredit.py:138-139 | one `insertRow` at the current position of a selected row's persistent handle puts a blank in front of that row |
| TableEdit.MarkRemovesRow | qtipint/paredit.py:148-149 | one `removeRow` at the current position of a selected row's persistent handle removes exactly that row |
| TableEdit.HandlesAfterInsert | qtipint/paredit.py:134-139 | after an insertion, Qt's shift of the persistent handles keeps each pending handle pointing at its selected row |
| TableEdit.HandlesAfterRemove | qtipint/paredit.py:145-149 | after a removal, Qt's shift of the persistent handles keeps each pending handle pointing at its selected row |
| TableEdit.BlanksBeforeLength | qtipint/paredit.py:132-141 | inserting blanks before the marked rows adds one row per mark |
| TableEdit.SurvivorsLength | qtipint/paredit.py:143-149 | removing the marked rows takes away one row per mark |
| TableEdit.SelectedCount | qtipint/paredit.py:134-136 | a selection of k distinct rows marks exactly k rows |
| TableEdit.SelectionResizes | qtipint/paredit.py:132-149 | Add Row with k selected rows adds k rows; Delete Row with k selected rows removes k rows |
| TableEdit.DeleteInsertedBlanks | qtipint/paredit.py:132-149 | deleting exactly the blanks Add Row inserted gives back the original table |
| ParEdit.TimingModel.Copy | qtipint/paredit.py:280 | the deep copy is a new object with the same parameters and values |
| ParEdit.ParChoiceWidget.constructor | qtipint/paredit.py:9-22 | Pre-Fit starts checked and no callback is registered |
| ParEdit.ParChoiceWidget.GetChoice | qtipint/paredit.py:35-39 | the choice is Pre-Fit exactly while the Pre-Fit button is checked, Post-Fit otherwise |
| ParEdit.ParChoiceWidget.SetCallbacks | qtipint/paredit.py:32-33 | registers the callback and leaves the checked button alone |
| ParEdit.ParChoiceWidget.Click | qtipint/paredit.py:35-45 | after a click the clicked choice is selected; the callback runs once, only when the choice changed and a callback is registered |
| ParEdit.ParEditWidget.AddTable | qtipint/paredit.py:83-119 | the table is replaced by the projection of the model |
| ParEdit.ParEditWidget.InsertRow | qtipint/paredit.py:121-129 | a blank row (empty texts, box unchecked) is inserted at a position inside `0..rowCount`; any other position leaves the table unchanged |
| ParEdit.ParEditWidget.AddRow | qtipint/paredit.py:132-141 | with no selection a blank row is appended; otherwise a blank is put in front of each selected row, whatever order the selection lists them in |
| ParEdit.ParEditWidget.DeleteRow | qtipint/paredit.py:143-149 | exactly the selected rows are removed and the others keep their order, whatever order the selection lists them in |
| ParEdit.ParEditWidget.constructor | qtipint/paredit.py:51-59 | the editing table starts with no rows |
| ParEdit.ParActionsWidget.constructor | qtipint/paredit.py:155-165 | no callback is registered at first |
| ParEdit.ParActionsWidget.SetCallbacks | qtipint/paredit.py:183-186 | registers the reset, apply and write callbacks |
| ParEdit.ParActionsWidget.Press | qtipint/paredit.py:188-201 | each button runs its own registered callback, or nothing when none is registered |
| ParEdit.ParWidget.constructor | qtipint/paredit.py:207-221 | no pulsar is set, no callback is registered, Pre-Fit is checked and the table is empty |
| ParEdit.ParWidget.SetPulsar | qtipint/paredit.py:231-238 | wires `set_model`, `applyChanges` and `writePar` as callbacks and loads the table from the pre-fit model, whichever choice is checked |
| ParEdit.ParWidget.SetModelFromChoice | qtipint/paredit.py:240-245 | the table is reloaded from the post-fit model when Post-Fit is checked, otherwise from the pre-fit model |
| ParEdit.ParWidget.UpdateModel | qtipint/paredit.py:247-274 | the model's parameters become `Reconcile` of the old parameters and the table; the parameter list is unchanged and the model stays well formed |
| ParEdit.ParWidget.ApplyTable | qtipint/paredit.py:276-277 | the pre-fit model is reconciled with the table and the post-fit model is untouched |
| ParEdit.ParWidget.WriteTable | qtipint/paredit.py:279-281 | a new model equal to the pre-fit model reconciled with the table is produced; both live models are untouched |
| ParEdit.ParWidget.Run | qtipint/paredit.py:231-238 | each registered command does what the method wired for it does |
| ParEdit.ParWidget.PressButton | qtipint/paredit.py:188-201 | before `setPulsar` a button press does nothing; afterwards Reset reloads the chosen model, Apply updates the pre-fit model, and Write produces a fresh well-formed copy with the live parameter list and the pre-fit values reconciled with the table as it was, leaving the table and both models untouched |
| ParEdit.ParWidget.ChooseModel | qtipint/paredit.py:41-44 | switching the radio button once a pulsar is set reloads the table from the newly chosen model, discarding edits; re-clicking the current choice changes nothing |
| Qtip.InitialLayout | qtipint/qtip.py:185-189 | the window starts with no main widget chosen (`'None'`), the console off and no console state recorded, so the first layout call always sets the size (650 wide with the console off) |
| Qtip.SetLayout | qtipint/qtip.py:328-354 | an argument that is not None overwrites its field; the previous-state fields follow; the window is resized to 1350 or 650 by 550 exactly when the console state differs from the recorded one |
| Qtip.WidthFollowsConsole | qtipint/qtip.py:346-354 | after any non-empty sequence of layout calls the window is 1350 wide iff the console is shown, 650 otherwise, and 550 high |
| Qtip.ToggleIPythonTwice | qtipint/qtip.py:263-267 | toggling the console twice restores the layout state, size included |
| Qtip.Shown | qtipint/qtip.py:309-321 | the console is shown iff it is switched on; plk iff `whichWidget` lower-cases to `plk`; open-something iff it lower-cases to `opensomething`; never both main widgets |
| Qtip.QtipWindow.constructor | qtipint/qtip.py:92-104 | the window starts on plk with the console hidden, 650×550, every widget hidden and two deferred shows pending |
| Qtip.QtipWindow.HideAllWidgets | qtipint/qtip.py:285-307 | all three widgets are hidden; nothing else changes |
| Qtip.QtipWindow.ShowVisibleWidgets | qtipint/qtip.py:309-321 | the widgets chosen by the current state are shown and the others are left as they are |
| Qtip.QtipWindow.SetQtipLayout | qtipint/qtip.py:328-362 | the state becomes `SetLayout` of the old state, every widget is hidden and one show is queued; the size invariant is kept |
| Qtip.QtipWindow.Tick | qtipint/qtip.py:342 | a pending show, if any, runs against the state at the moment it runs; after a layout call that shows exactly the chosen widgets |
| Qtip.QtipWindow.ToggleIPython | qtipint/qtip.py:263-267 | the console flag flips and the main widget is kept |
| Qtip.QtipWindow.TogglePlk | qtipint/qtip.py:269-273 | plk becomes the main widget and the console flag is kept |
| Qtip.QtipWindow.RequestOpenPlk | qtipint/qtip.py:364-372 | plk becomes the main widget with the console passed through, so the window is not resized if its size already matches |

## Left out

* Building the Qt widgets: layouts, headers, resize modes, item flags,
  menus, actions and the status bar. Only the state that these widgets
  hold is modelled.
* The IPython kernel and console widget, `openPlkPulsar`, `openParTim`,
  the pre/post-execute hooks and `postRunCell`. They are calls into code
  that is not part of this model.
* In `writePar`, the save dialog, opening and writing the file,
  `as_parfile` and the final message. These are I/O. `WriteTable` returns
  the model that would be serialised.
* `setMplColorScheme`, `onAbout`, `main` and its option parsing. They do
  not touch the modelled state.
* Every `print` diagnostic, including "cannot resolve value" and
  "uncertainty value … could not be set". They are output only.
* `ParModel.NumberFormat`: `float(s)` and `str(x)` are left abstract.
  Floating-point values are mathematical reals, so NaN and infinities are
  not modelled.
* `ParModel.Value`: a parameter value is a number, a boolean or a string.
  PINT values of other types (such as MJD or angle objects, whose `str`
  is something else) are not modelled.
* `ParModel.WellFormed`: `hasattr(model, par)` is checked against the
  parameter map only. Names of other model attributes and methods are not
  modelled, and the empty name is taken to name no parameter.
* `ParEdit.ParWidget.UpdateModel`: each `Param` object is mutated in
  place in the source. Here its map entry is replaced by a new value, so
  aliasing of `Param` objects shared between models is not captured.
* `ParEdit.TimingModel.Copy`: `copy.deepcopy` is modelled as a copy of
  the values. Nothing below the parameter map is copied.
* `ParEdit.ParEditWidget.AddRow`, `ParEdit.ParEditWidget.DeleteRow`: the
  selection is taken as Qt's selection model reports it, which is distinct
  rows inside the table. How the user makes a selection is not modelled.
* The `ParChoiceWidget` sends a `toggled` signal for both buttons. Only
  the signal from the button that became checked runs the callback, and
  the model keeps only that effect.
* `Qtip.QtipWindow.constructor`: `move(50, 100)` on the first layout
  call, `mainFrame.setLayout`/`show`, and the window's `show()` are left
  out. The main frame is resized together with the window, and only one
  size is kept.
* `Qtip.QtipWindow.ShowVisibleWidgets`: `setFocusToCanvas` does not change
  the layout state, so focus is not modelled.
* `Qtip.SizeFollowsPrev`, `Qtip.WidthFollowsConsole`: the user resizing
  the window by hand is not modelled. Only layout calls change the size
  here, so these describe sizes set by layout calls. In the program a
  later call that does not toggle the console keeps a hand-set size.
* `ParEdit.Pulsar`: the post-fit model is one fixed object. `set_model`
  reads `psr._fitter.model` afresh each time, and a fit that replaces
  `_fitter` is not modelled.
* `Qtip.Lower`: `str.lower()` is modelled on ASCII letters only.
