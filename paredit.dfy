/**
 * The parameter editor of qtipint/paredit.py as objects: the timing
 * models it edits, the pre-fit/post-fit selector, the editing table, the
 * action buttons, and the composite widget that wires them together.
 */
module ParEdit {
  import opened Wrappers
  import opened ParModel
  import opened TableEdit

  /** A timing model: its ordered parameter names and its parameters, updated in place. */
  class TimingModel {
    var params: seq<string>
    var attrs: Attrs

    ghost predicate Valid()
      reads this
    {
      WellFormed(params, attrs)
    }

    constructor (params: seq<string>, attrs: Attrs)
      requires WellFormed(params, attrs)
      ensures Valid() && this.params == params && this.attrs == attrs
    {
      this.params := params;
      this.attrs := attrs;
    }

    /** `copy.deepcopy(model)`: an independent object with the same contents. */
    constructor Copy(other: TimingModel)
      requires other.Valid()
      ensures Valid() && params == other.params && attrs == other.attrs
    {
      params := other.params;
      attrs := other.attrs;
    }
  }

  /** The loaded pulsar: its pre-fit model `_model` and the fitter's post-fit model. */
  class Pulsar {
    const model: TimingModel
    const fitterModel: TimingModel

    constructor (model: TimingModel, fitterModel: TimingModel)
      ensures this.model == model && this.fitterModel == fitterModel
    {
      this.model := model;
      this.fitterModel := fitterModel;
    }
  }

  /** The callbacks the widgets are given: bound methods of the parameter widget. */
  datatype Command = SetModel | ApplyChanges | WritePar

  datatype Choice = PreFit | PostFit

  /** The two radio buttons choosing which model the table shows. */
  class ParChoiceWidget {
    var prefitChecked: bool
    var chooseCallback: Option<Command>

    /** Pre-Fit starts checked; no callback is registered yet. */
    constructor ()
      ensures prefitChecked && chooseCallback == None
    {
      prefitChecked := true;
      chooseCallback := None;
    }

    method SetCallbacks(choose: Command)
      modifies this
      ensures chooseCallback == Some(choose) && prefitChecked == old(prefitChecked)
    {
      chooseCallback := Some(choose);
    }

    /** `getChoice`: Pre-Fit exactly while its button is checked, Post-Fit otherwise. */
    function GetChoice(): (c: Choice)
      reads this
      ensures c == PreFit <==> prefitChecked
      ensures c == PostFit <==> !prefitChecked
    {
      if prefitChecked then PreFit else PostFit
    }

    /**
     * The user clicks one of the two buttons. Clicking the checked one
     * changes nothing; clicking the other toggles both, and `choose` runs
     * the callback once, for the button that became checked. The callback
     * to run is returned.
     */
    method Click(c: Choice) returns (fired: Option<Command>)
      modifies this
      ensures GetChoice() == c && chooseCallback == old(chooseCallback)
      ensures fired == if old(GetChoice()) == c then None else chooseCallback
    {
      fired := None;
      if GetChoice() != c {
        prefitChecked := c == PreFit;
        fired := chooseCallback;
      }
    }
  }

  /** The editing table: rows of text, edited in place. */
  class ParEditWidget {
    var table: seq<Row>

    constructor ()
      ensures table == []
    {
      table := [];
    }

    /** `addTable`: clear the table and write one row per parameter, in order. */
    method AddTable(model: TimingModel, fmt: NumberFormat)
      requires model.Valid()
      modifies this
      ensures table == Project(model.params, model.attrs, fmt)
    {
      table := [];
      var ii := 0;
      while ii < |model.params|
        invariant 0 <= ii <= |model.params|
        invariant |table| == ii
        invariant forall k :: 0 <= k < ii ==>
                    table[k] == ParamRow(model.params[k], model.attrs[model.params[k]], fmt)
      {
        var par := model.params[ii];
        table := table + [ParamRow(par, model.attrs[par], fmt)];
        ii := ii + 1;
      }
    }

    /** `insertRow`: a blank row at `row`; Qt ignores a position outside the table. */
    method InsertRow(row: int)
      modifies this
      ensures table == if 0 <= row <= |old(table)| then Insert(old(table), row, BlankRow) else old(table)
    {
      if 0 <= row <= |table| {
        table := Insert(table, row, BlankRow);
      }
    }

    /**
     * `addRow`: with no selection, a blank row at the end; otherwise a
     * blank row in front of each selected row, inserting through Qt
     * persistent handles that follow their rows as the table grows.
     */
    method AddRow(selection: seq<int>)
      requires ValidSelection(selection, |table|)
      modifies this
      ensures table == if selection == [] then old(table) + [BlankRow]
                       else BlanksBefore(old(table), Selected(|old(table)|, selection))
    {
      if |selection| > 0 {
        ghost var orig := table;
        ghost var n := |table|;
        ghost var marks: seq<bool> := seq(n, _ => false);
        NothingMarked(orig, marks);
        forall j | 0 <= j < |selection|
          ensures Count(marks[..selection[j] + 1]) == 0
        {
          NothingMarked(orig[..selection[j] + 1], marks[..selection[j] + 1]);
        }
        var handles := selection;
        var k := 0;
        while k < |handles|
          invariant |handles| == |selection| && 0 <= k <= |selection|
          invariant |marks| == n
          invariant forall i :: 0 <= i < n ==> (marks[i] <==> i in selection[..k])
          invariant table == BlanksBefore(orig, marks)
          invariant forall j :: k <= j < |selection| ==>
                      handles[j] == selection[j] + Count(marks[..selection[j] + 1])
        {
          var p := handles[k];
          ghost var i := selection[k];
          ghost var marks' := marks[i := true];
          assert !marks[i] && p == i + Count(marks[..i]) by {
            NotListedBefore(selection, n, k, k);
            CountPrefixStep(marks, i);
          }
          assert p <= |table| && BlanksBefore(orig, marks') == Insert(table, p, BlankRow) by {
            MarkInsertsBlank(orig, marks, i);
          }
          assert forall j :: k + 1 <= j < |selection| ==>
                   ShiftAfterInsert(handles, p)[j] == selection[j] + Count(marks'[..selection[j] + 1]) by {
            HandlesAfterInsert(marks, handles, selection, k);
          }
          InsertRow(p);
          handles := ShiftAfterInsert(handles, p);
          marks := marks';
          assert selection[..k + 1] == selection[..k] + [selection[k]];
          k := k + 1;
        }
        assert selection[..k] == selection;
        assert marks == Selected(n, selection);
      } else {
        InsertRow(|table|);
      }
    }

    /**
     * `deleteRow`: remove every selected row through persistent handles,
     * so the result does not depend on the order the selection lists them.
     */
    method DeleteRow(selection: seq<int>)
      requires ValidSelection(selection, |table|)
      modifies this
      ensures table == Survivors(old(table), Selected(|old(table)|, selection))
    {
      ghost var orig := table;
      ghost var n := |table|;
      ghost var marks: seq<bool> := seq(n, _ => false);
      NothingMarked(orig, marks);
      forall j | 0 <= j < |selection|
        ensures Count(marks[..selection[j]]) == 0
      {
        NothingMarked(orig[..selection[j]], marks[..selection[j]]);
      }
      var handles := selection;
      var k := 0;
      while k < |handles|
        invariant |handles| == |selection| && 0 <= k <= |selection|
        invariant |marks| == n
        invariant forall i :: 0 <= i < n ==> (marks[i] <==> i in selection[..k])
        invariant table == Survivors(orig, marks)
        invariant forall j :: k <= j < |selection| ==>
                    handles[j] == selection[j] - Count(marks[..selection[j]])
      {
        var p := handles[k];
        ghost var i := selection[k];
        ghost var marks' := marks[i := true];
        assert forall j :: k <= j < |selection| ==> !marks[selection[j]] by {
          forall j | k <= j < |selection|
            ensures !marks[selection[j]]
          {
            NotListedBefore(selection, n, k, j);
          }
        }
        assert 0 <= p < |table| && Survivors(orig, marks') == Remove(table, p) by {
          MarkRemovesRow(orig, marks, i);
        }
        assert forall j :: k + 1 <= j < |selection| ==>
                 ShiftAfterRemove(handles, p)[j] == selection[j] - Count(marks'[..selection[j]]) by {
          HandlesAfterRemove(marks, handles, selection, k);
        }
        table := Remove(table, p);
        handles := ShiftAfterRemove(handles, p);
        marks := marks';
        assert selection[..k + 1] == selection[..k] + [selection[k]];
        k := k + 1;
      }
      assert selection[..k] == selection;
      assert marks == Selected(n, selection);
    }
  }

  datatype Button = ResetButton | ApplyButton | WriteButton

  /** The Reset / Apply / Write buttons, each forwarding to its callback if one is registered. */
  class ParActionsWidget {
    var resetCallback: Option<Command>
    var applyCallback: Option<Command>
    var writeCallback: Option<Command>

    constructor ()
      ensures resetCallback == None && applyCallback == None && writeCallback == None
    {
      resetCallback, applyCallback, writeCallback := None, None, None;
    }

    method SetCallbacks(reset: Command, apply: Command, write: Command)
      modifies this
      ensures resetCallback == Some(reset) && applyCallback == Some(apply) && writeCallback == Some(write)
    {
      resetCallback, applyCallback, writeCallback := Some(reset), Some(apply), Some(write);
    }

    /** The callback a press of `b` runs; None when none is registered (the press then does nothing). */
    method Press(b: Button) returns (cmd: Option<Command>)
      ensures b == ResetButton ==> cmd == resetCallback
      ensures b == ApplyButton ==> cmd == applyCallback
      ensures b == WriteButton ==> cmd == writeCallback
    {
      match b
      case ResetButton => cmd := resetCallback;
      case ApplyButton => cmd := applyCallback;
      case WriteButton => cmd := writeCallback;
    }
  }

  /** The parameter widget: selector, table and buttons around one pulsar. */
  class ParWidget {
    const fmt: NumberFormat
    var psr: Pulsar?
    const choiceWidget: ParChoiceWidget
    const editWidget: ParEditWidget
    const actionsWidget: ParActionsWidget

    /**
     * Until a pulsar is set no callback is registered; once it is, both its
     * models are well formed and the callbacks are those `setPulsar` wires.
     */
    ghost predicate Valid()
      reads this, choiceWidget, actionsWidget
      reads if psr != null then {psr.model, psr.fitterModel} else {}
    {
      if psr == null then
        && choiceWidget.chooseCallback == None
        && actionsWidget.resetCallback == None
        && actionsWidget.applyCallback == None
        && actionsWidget.writeCallback == None
      else
        && psr.model.Valid() && psr.fitterModel.Valid()
        && choiceWidget.chooseCallback == Some(SetModel)
        && actionsWidget.resetCallback == Some(SetModel)
        && actionsWidget.applyCallback == Some(ApplyChanges)
        && actionsWidget.writeCallback == Some(WritePar)
    }

    constructor (fmt: NumberFormat)
      ensures Valid() && this.fmt == fmt && psr == null
      ensures fresh(choiceWidget) && fresh(editWidget) && fresh(actionsWidget)
      ensures choiceWidget.GetChoice() == PreFit && editWidget.table == []
    {
      this.fmt := fmt;
      psr := null;
      choiceWidget := new ParChoiceWidget();
      editWidget := new ParEditWidget();
      actionsWidget := new ParActionsWidget();
    }

    /** The model the selector names: the fitter's model for Post-Fit, `_model` otherwise. */
    function SelectedModel(): TimingModel
      reads this, choiceWidget
      requires psr != null
    {
      if choiceWidget.GetChoice() == PostFit then psr.fitterModel else psr.model
    }

    /**
     * `setPulsar`: keep the pulsar, register the callbacks and load the
     * table from the pre-fit model, whichever button is checked.
     */
    method SetPulsar(p: Pulsar)
      requires p.model.Valid() && p.fitterModel.Valid()
      modifies this, choiceWidget, editWidget, actionsWidget
      ensures Valid() && psr == p
      ensures choiceWidget.chooseCallback == Some(SetModel)
      ensures choiceWidget.prefitChecked == old(choiceWidget.prefitChecked)
      ensures actionsWidget.resetCallback == Some(SetModel)
      ensures actionsWidget.applyCallback == Some(ApplyChanges)
      ensures actionsWidget.writeCallback == Some(WritePar)
      ensures editWidget.table == Project(p.model.params, p.model.attrs, fmt)
    {
      psr := p;
      choiceWidget.SetCallbacks(SetModel);
      editWidget.AddTable(p.model, fmt);
      actionsWidget.SetCallbacks(SetModel, ApplyChanges, WritePar);
    }

    /** `set_model`: reload the table, discarding its edits, from the model the selector names. */
    method SetModelFromChoice()
      requires Valid() && psr != null
      modifies editWidget
      ensures editWidget.table == Project(SelectedModel().params, SelectedModel().attrs, fmt)
    {
      var choice := choiceWidget.GetChoice();
      if choice == PostFit {
        editWidget.AddTable(psr.fitterModel, fmt);
      } else {
        editWidget.AddTable(psr.model, fmt);
      }
    }

    /**
     * `updateModel`: apply the table to `model`, row by row and field by
     * field; rows naming no parameter are skipped.
     */
    method UpdateModel(model: TimingModel, table: seq<Row>)
      requires model.Valid()
      modifies model
      ensures model.Valid() && model.params == old(model.params)
      ensures model.attrs == Reconcile(old(model.attrs), table, fmt)
    {
      var xx := 0;
      while xx < |table|
        invariant 0 <= xx <= |table|
        invariant model.params == old(model.params)
        invariant model.attrs == Reconcile(old(model.attrs), table[..xx], fmt)
      {
        var row := table[xx];
        if row.name in model.attrs {
          var par := model.attrs[row.name];
          if row.valueText != "" {
            par := par.(value := Some(Classify(row.valueText, fmt)));
          }
          par := par.(frozen := !row.fit);
          if row.uncertaintyText != "" {
            match fmt.parse(row.uncertaintyText)
            case Some(u) => par := par.(uncertainty := Some(u));
            case None =>
          }
          model.attrs := model.attrs[row.name := par];
        }
        assert table[..xx + 1][..xx] == table[..xx];
        xx := xx + 1;
      }
      assert table[..xx] == table;
    }

    /** `applyChanges`: apply the table to the pre-fit model, even while Post-Fit is selected. */
    method ApplyTable()
      requires Valid() && psr != null
      modifies psr.model
      ensures Valid()
      ensures psr.model.params == old(psr.model.params)
      ensures psr.model.attrs == Reconcile(old(psr.model.attrs), editWidget.table, fmt)
      ensures psr.fitterModel != psr.model ==> unchanged(psr.fitterModel)
    {
      UpdateModel(psr.model, editWidget.table);
    }

    /**
     * `writePar`, up to the file dialog: apply the table to a deep copy of
     * the pre-fit model and return that copy; the live model is untouched.
     */
    method WriteTable() returns (saved: TimingModel)
      requires Valid() && psr != null
      ensures fresh(saved) && saved.Valid()
      ensures saved.params == psr.model.params
      ensures saved.attrs == Reconcile(psr.model.attrs, editWidget.table, fmt)
      ensures unchanged(psr.model) && unchanged(psr.fitterModel)
    {
      var model := new TimingModel.Copy(psr.model);
      UpdateModel(model, editWidget.table);
      saved := model;
    }

    /** Run a registered callback; `saved` holds the model Write Par would serialise. */
    method Run(cmd: Command) returns (saved: Option<TimingModel>)
      requires Valid() && psr != null
      modifies editWidget, psr.model
      ensures Valid()
      ensures cmd == SetModel ==>
                && editWidget.table == Project(SelectedModel().params, SelectedModel().attrs, fmt)
                && unchanged(psr.model) && saved == None
      ensures cmd == ApplyChanges ==>
                && psr.model.params == old(psr.model.params)
                && psr.model.attrs == Reconcile(old(psr.model.attrs), editWidget.table, fmt)
                && unchanged(editWidget) && saved == None
      ensures cmd == WritePar ==>
                && saved.Some? && fresh(saved.value) && saved.value.Valid()
                && saved.value.params == psr.model.params
                && saved.value.attrs == Reconcile(psr.model.attrs, editWidget.table, fmt)
                && unchanged(psr.model) && unchanged(editWidget)
    {
      saved := None;
      match cmd
      case SetModel => SetModelFromChoice();
      case ApplyChanges => ApplyTable();
      case WritePar =>
        var model := WriteTable();
        saved := Some(model);
    }

    /** A press of one of the Reset / Apply / Write buttons. */
    method PressButton(b: Button) returns (saved: Option<TimingModel>)
      requires Valid()
      modifies editWidget, if psr != null then {psr.model} else {}
      ensures Valid()
      ensures psr == null ==> unchanged(editWidget) && saved == None
      ensures psr != null && b == ApplyButton ==>
                && psr.model.attrs == Reconcile(old(psr.model.attrs), editWidget.table, fmt)
                && psr.model.params == old(psr.model.params)
                && unchanged(editWidget) && saved == None
      ensures psr != null && b == WriteButton ==>
                && saved.Some? && fresh(saved.value) && saved.value.Valid()
                && saved.value.params == psr.model.params
                && saved.value.attrs == Reconcile(psr.model.attrs, old(editWidget.table), fmt)
                && unchanged(psr.model) && unchanged(editWidget)
      ensures psr != null && b == ResetButton ==>
                && editWidget.table == Project(SelectedModel().params, SelectedModel().attrs, fmt)
                && unchanged(psr.model) && saved == None
    {
      var cmd := actionsWidget.Press(b);
      saved := None;
      match cmd
      case None =>
      case Some(c) => saved := Run(c);
    }

    /**
     * The user clicks Pre-Fit or Post-Fit. Once a pulsar is set, switching
     * reloads the table from the newly chosen model, discarding edits.
     */
    method ChooseModel(c: Choice)
      requires Valid()
      modifies choiceWidget, editWidget, if psr != null then {psr.model} else {}
      ensures Valid() && choiceWidget.GetChoice() == c
      ensures psr != null ==> unchanged(psr.model)
      ensures psr == null || old(choiceWidget.GetChoice()) == c ==> unchanged(editWidget)
      ensures psr != null && old(choiceWidget.GetChoice()) != c ==>
                editWidget.table == Project(SelectedModel().params, SelectedModel().attrs, fmt)
    {
      var cmd := choiceWidget.Click(c);
      match cmd
      case None =>
      case Some(callback) =>
        var _ := Run(callback);
    }
  }
}
