/**
 * The per-session navigation of the dashboard: which unit the session last
 * saw in the sidebar, and which tank (if any) is open in the detail view.
 * One call of Run is one top-to-bottom pass of the script.
 */
module Navigation {
  import opened Options
  import opened Catalog
  import opened Records
  import opened Store

  /** The widget that fired in this pass, if any. */
  datatype Input =
    | Idle                         // no button pressed, form not submitted
    | PressTank(tank: string)      // the overview button labelled with this tank id
    | PressBack                    // the back button of the detail view
    | Submit(entry: FormEntry)     // the detail form, submitted with these values

  /** How a pass ends. */
  datatype Screen =
    | Restart                                            // the script reruns at once
    | Overview(buttons: seq<string>)                     // the tank grid, one button per id
    | Detail(tank: string, date: string, history: HistoryView)

  /** A pass: its screen, the table handed to the write (if any), and whether the write went through. */
  datatype Pass = Pass(screen: Screen, upload: Option<Table>, saved: bool)

  class Session {
    /** The tank open in the detail view; None while the overview is shown. */
    var selectedTank: Option<string>
    /** The unit this session last saw chosen in the sidebar. */
    var activeUnit: string

    /** A selected tank is always one of the active unit's tanks. */
    ghost predicate Valid()
      reads this
    {
      selectedTank.Some? ==> selectedTank.value in Tanks(activeUnit)
    }

    /** A new session: nothing selected, the first unit remembered. */
    constructor ()
      ensures Valid()
      ensures selectedTank == None && activeUnit == UnitOne
      ensures activeUnit == UnitChoices[0]
    {
      selectedTank := None;
      activeUnit := UnitOne;
    }

    /**
     * The sidebar's choice is compared with the remembered unit: a different
     * unit clears the selection, is remembered, and restarts the pass.
     */
    method ChooseUnit(choice: string) returns (restart: bool)
      requires Valid()
      modifies this
      ensures Valid() && activeUnit == choice
      ensures restart <==> choice != old(activeUnit)
      ensures selectedTank == if restart then None else old(selectedTank)
    {
      restart := choice != activeUnit;
      if restart {
        selectedTank := None;
        activeUnit := choice;
      }
    }

    /**
     * The overview grid: one button per tank id of the active unit, in
     * ascending order; pressing one opens that tank and stops the pass there.
     */
    method ShowOverview(clicked: Option<string>) returns (buttons: seq<string>)
      requires Valid() && selectedTank == None
      modifies this
      ensures Valid() && activeUnit == old(activeUnit)
      ensures |buttons| <= |Tanks(activeUnit)| && buttons == Tanks(activeUnit)[..|buttons|]
      ensures clicked.Some? && clicked.value in Tanks(activeUnit) ==>
                selectedTank == clicked && buttons != [] && buttons[|buttons| - 1] == clicked.value
      ensures !(clicked.Some? && clicked.value in Tanks(activeUnit)) ==>
                selectedTank == None && buttons == Tanks(activeUnit)
    {
      var count, prefix := TankCount(activeUnit), TankPrefix(activeUnit);
      ghost var ids := Tanks(activeUnit);
      buttons := [];
      var i := 1;
      while i <= count
        invariant 1 <= i <= count + 1
        invariant buttons == ids[..i - 1]
        invariant selectedTank == None
        invariant clicked.Some? ==> clicked.value !in buttons
      {
        var name := TankId(prefix, i);
        buttons := buttons + [name];
        assert buttons == ids[..i];
        if clicked == Some(name) {
          assert ids[i - 1] == name;
          selectedTank := Some(name);
          return;
        }
        i := i + 1;
      }
      assert buttons == ids;
    }

    /** The back button of the detail view: the selection is cleared. */
    method GoBack()
      requires Valid()
      modifies this
      ensures Valid()
      ensures selectedTank == None && activeUnit == old(activeUnit)
    {
      selectedTank := None;
    }

    /**
     * One pass of the script for the sidebar's `choice`, the outcome `read`
     * of the worksheet read, the widget `input` that fired, today's date
     * string `today` and how a save call would end, `write`.
     */
    method Run(choice: string, read: ReadResult, input: Input, today: string, write: WriteOutcome)
      returns (pass: Pass)
      requires Valid()
      modifies this
      ensures Valid() && activeUnit == choice
      ensures old(activeUnit) != choice ==>
                selectedTank == None && pass == Pass(Restart, None, false)
      ensures old(activeUnit) == choice && old(selectedTank) == None ==>
                if input.PressTank? && input.tank in Tanks(choice) then
                  selectedTank == Some(input.tank) && pass == Pass(Restart, None, false)
                else
                  selectedTank == None && pass == Pass(Overview(Tanks(choice)), None, false)
      ensures old(activeUnit) == choice && old(selectedTank).Some? ==>
                var tank := old(selectedTank).value;
                var fetched := FetchRows(read);
                var stay := Detail(tank, today, HistoryPanel(fetched, tank));
                if input.PressBack? then
                  selectedTank == None && pass == Pass(Restart, None, false)
                else if input.Submit? then
                  selectedTank == old(selectedTank)
                  && pass.upload == Some(Upload(fetched, input.entry, tank, today))
                  && pass.saved == WriteReturns(write)
                  && pass.screen == (if WriteReturns(write) then Restart else stay)
                else
                  selectedTank == old(selectedTank) && pass == Pass(stay, None, false)
    {
      var restart := ChooseUnit(choice);
      if restart {
        return Pass(Restart, None, false);
      }
      var fetched := FetchRows(read);
      if selectedTank == None {
        var clicked := if input.PressTank? then Some(input.tank) else None;
        var buttons := ShowOverview(clicked);
        if selectedTank.Some? {
          return Pass(Restart, None, false);
        }
        return Pass(Overview(buttons), None, false);
      }
      var tank := selectedTank.value;
      if input.PressBack? {
        GoBack();
        return Pass(Restart, None, false);
      }
      var view := Detail(tank, today, HistoryPanel(fetched, tank));
      if input.Submit? {
        var upload := Upload(fetched, input.entry, tank, today);
        if WriteReturns(write) {
          return Pass(Restart, Some(upload), true);
        }
        return Pass(view, Some(upload), false);
      }
      return Pass(view, None, false);
    }
  }

  /**
   * A session on the first unit opens tank 5 and saves the form as first
   * shown on 05-06-2024: the upload is the fetched sheet plus that row, and a
   * fresh read of the written sheet shows it last in the tank's history. A
   * second save whose cache clear raises reports failure and stays on the
   * tank, though the worksheet was replaced.
   */
  method OpenAndSaveScenario(sheet: Table)
  {
    var tank, date := "U1-Tank 5", "05-06-2024";
    var s := new Session();
    var p := s.Run(UnitChoices[0], ReadOk(sheet), PressTank(tank), date, Replaced);
    UnitOneLayout();
    assert TankId("U1", 5) == tank;
    assert Tanks(UnitOne)[4] == tank;
    assert s.selectedTank == Some(tank) && p.screen == Restart;
    p := s.Run(UnitOne, ReadOk(sheet), Submit(DefaultEntry), date, Replaced);
    assert p.saved && s.selectedTank == Some(tank);
    var after := SheetAfterWrite(sheet, p.upload.value, Replaced);
    SaveOutcome(sheet, DefaultEntry, tank, date, Replaced);
    assert History(after, tank)[|History(sheet, tank)|] == NewRow(DefaultEntry, tank, date);
    p := s.Run(UnitOne, ReadOk(after), Submit(DefaultEntry), date, CacheClearRaised);
    assert !p.saved && p.screen.Detail? && s.selectedTank == Some(tank);
    assert SheetAfterWrite(after, p.upload.value, CacheClearRaised) == Append(after, NewRow(DefaultEntry, tank, date));
    p := s.Run(UnitTwo, ReadOk(after), Idle, date, Replaced);
    assert s.selectedTank == None && s.activeUnit == UnitTwo;
  }
}
