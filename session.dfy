/**
 * The session of src/index.tsx: App's isRunning and noteIndex, and the
 * shouldDisplay flag and reveal timeout of the Note element that App keys
 * by noteIndex. The interval tick, the reveal timeout and the key press are
 * explicit events; the random draws are arguments.
 */
module SessionState {
  import opened Options
  import opened Notes
  import opened Selector
  import Inventory

  class Session {
    /** The inventory, built once at start-up and never changed. */
    const inventory: seq<Note>
    /** Whether the drill is running (the tick interval is armed only then). */
    var isRunning: bool
    /** The index of the current note; also the key of the Note element. */
    var noteIndex: nat
    /** Whether the current Note element shows its label. */
    var shouldDisplay: bool
    /** Whether the current Note element's reveal timeout has yet to fire. */
    var revealPending: bool
    /** The indices the session has presented, oldest first. */
    ghost var shown: seq<nat>

    ghost predicate Valid()
      reads this
    {
      && 2 <= |inventory|
      && noteIndex < |inventory|
      // the stop rule: a stopped session always shows the label
      && (!isRunning ==> shouldDisplay)
      // once the reveal timeout has fired the label stays shown until the next note
      && (!revealPending ==> shouldDisplay)
      && |shown| >= 1 && shown[|shown| - 1] == noteIndex
      && (forall k :: 0 <= k < |shown| ==> shown[k] < |inventory|)
      // consecutive notes are never the same
      && (forall k :: 0 <= k < |shown| - 1 ==> shown[k] != shown[k + 1])
    }

    /**
     * The label the Note element renders: the pitch name while shown, nothing
     * otherwise. A stopped session always names its note, and so does one
     * whose reveal timeout has fired.
     */
    function Label(): (name: Option<PitchClass>)
      reads this
      requires Valid()
      ensures name.Some? <==> shouldDisplay
      ensures name.Some? ==> name.value == inventory[noteIndex].pitch
      ensures !isRunning ==> name == Some(inventory[noteIndex].pitch)
      ensures !revealPending ==> name.Some?
    {
      if shouldDisplay then Some(inventory[noteIndex].pitch) else None
    }

    /**
     * Start-up: stopped, on the note of the initial draw
     * (Math.floor(Math.random() * inventory.length)). The Note element mounts
     * hidden with its reveal timeout armed, and its isRunning effect shows the
     * label at once because the session is stopped.
     */
    constructor (inventory: seq<Note>, draw: int)
      requires 2 <= |inventory| && 0 <= draw < |inventory|
      ensures Valid()
      ensures this.inventory == inventory && noteIndex == draw && shown == [draw]
      ensures !isRunning && shouldDisplay && revealPending
    {
      this.inventory := inventory;
      isRunning := false;
      noteIndex := draw;
      shouldDisplay := false;
      revealPending := true;
      shown := [draw];
      new;
      // the Note element's isRunning effect as it runs on mount
      if !isRunning {
        shouldDisplay := true;
      }
    }

    /**
     * The space key: flip isRunning and nothing else, except that the Note
     * element's isRunning effect shows the label when the session stops.
     */
    method Toggle()
      requires Valid()
      modifies this
      ensures Valid()
      ensures isRunning == !old(isRunning)
      ensures noteIndex == old(noteIndex) && revealPending == old(revealPending) && shown == old(shown)
      ensures shouldDisplay == (old(shouldDisplay) || !isRunning)
    {
      isRunning := !isRunning;
      if !isRunning {
        shouldDisplay := true;
      }
    }

    /**
     * A tick of the advance interval with draw r. While running it selects
     * a new index; the new key remounts the Note element, hidden and with a
     * fresh reveal timeout. Toggle folds the key press, the re-render and the
     * interval effect's cleanup into one step, so a stopped session has no
     * interval here and its tick changes nothing.
     */
    method AdvanceTick(r: int)
      requires Valid() && IsDraw(|inventory|, r)
      modifies this
      ensures Valid()
      ensures isRunning == old(isRunning)
      ensures old(isRunning) ==>
                && noteIndex == RandomNewIndex(old(noteIndex), |inventory|, r)
                && noteIndex != old(noteIndex)
                && !shouldDisplay && revealPending
                && shown == old(shown) + [noteIndex]
      ensures !old(isRunning) ==> unchanged(this)
    {
      if isRunning {
        noteIndex := NextIndex(noteIndex, |inventory|, r).value;
        // the new index is a new key, so the Note element remounts
        shouldDisplay := false;
        revealPending := true;
        shown := shown + [noteIndex];
      }
    }

    /** The current Note element's reveal timeout fires: the label is shown. */
    method RevealFire()
      requires Valid()
      modifies this
      ensures Valid()
      ensures old(revealPending) ==>
                && shouldDisplay && !revealPending
                && isRunning == old(isRunning) && noteIndex == old(noteIndex) && shown == old(shown)
      ensures !old(revealPending) ==> unchanged(this)
    {
      if revealPending {
        shouldDisplay := true;
        revealPending := false;
      }
    }
  }

  /**
   * App at start-up: the inventory is the merge of the E string alone, and
   * the initial draw picks one of its seven notes.
   */
  method StartApp(draw: int) returns (s: Session)
    requires 0 <= draw < |Inventory.EStringInventory|
    ensures fresh(s) && s.Valid()
    ensures s.inventory == Inventory.EStringInventory && |s.inventory| == 7
    ensures s.noteIndex == draw && !s.isRunning && s.shouldDisplay
  {
    var inventory := Inventory.MergeInventories([Inventory.EStringInventory]);
    Inventory.AppInventory();
    s := new Session(inventory, draw);
  }

  /** Stopping and resuming keeps the current note: after run, tick, stop, run, the index is the ticked one. */
  method PauseResumeKeepsNote(inventory: seq<Note>, draw: int, r: int) returns (ticked: nat, resumed: nat)
    requires 2 <= |inventory| && 0 <= draw < |inventory| && IsDraw(|inventory|, r)
    ensures ticked == resumed
    ensures ticked != draw && ticked < |inventory|
  {
    var s := new Session(inventory, draw);
    s.Toggle();
    s.AdvanceTick(r);
    ticked := s.noteIndex;
    s.Toggle();
    s.Toggle();
    resumed := s.noteIndex;
  }

  /** A new note starts hidden and is shown when its reveal timeout fires. */
  method NewNoteRevealedByTimeout(inventory: seq<Note>, draw: int, r: int)
    returns (afterTick: Option<PitchClass>, afterReveal: Option<PitchClass>)
    requires 2 <= |inventory| && 0 <= draw < |inventory| && IsDraw(|inventory|, r)
    ensures afterTick == None
    ensures afterReveal == Some(inventory[RandomNewIndex(draw, |inventory|, r)].pitch)
  {
    var s := new Session(inventory, draw);
    s.Toggle();
    s.AdvanceTick(r);
    afterTick := s.Label();
    s.RevealFire();
    afterReveal := s.Label();
  }

  /** Stopping before the reveal timeout fires shows the label at once. */
  method StopShowsLabelAtOnce(inventory: seq<Note>, draw: int, r: int)
    returns (afterTick: Option<PitchClass>, afterStop: Option<PitchClass>)
    requires 2 <= |inventory| && 0 <= draw < |inventory| && IsDraw(|inventory|, r)
    ensures afterTick == None
    ensures afterStop == Some(inventory[RandomNewIndex(draw, |inventory|, r)].pitch)
  {
    var s := new Session(inventory, draw);
    s.Toggle();
    s.AdvanceTick(r);
    afterTick := s.Label();
    s.Toggle();
    afterStop := s.Label();
  }

  /**
   * A tick delivered to a session that has never been started (and so has
   * never armed the interval) leaves the note where it was.
   */
  method StoppedTickKeepsNote(inventory: seq<Note>, draw: int, r: int) returns (index: nat)
    requires 2 <= |inventory| && 0 <= draw < |inventory| && IsDraw(|inventory|, r)
    ensures index == draw
  {
    var s := new Session(inventory, draw);
    s.AdvanceTick(r);
    index := s.noteIndex;
  }

  /**
   * Resuming does not hide the label again: the Note element is keyed by
   * noteIndex, which resuming leaves alone, so a label shown on stopping
   * stays shown until the next tick.
   */
  method ResumeKeepsLabelShown(inventory: seq<Note>, draw: int) returns (afterResume: Option<PitchClass>)
    requires 2 <= |inventory| && 0 <= draw < |inventory|
    ensures afterResume == Some(inventory[draw].pitch)
  {
    var s := new Session(inventory, draw);
    s.Toggle();
    s.Toggle();
    s.Toggle();
    afterResume := s.Label();
  }

  /** With three notes and the current index 0, draw 0 selects index 1 and draw 1 selects index 2. */
  method ExclusionMappingScenario(inventory: seq<Note>) returns (first: nat, second: nat)
    requires |inventory| == 3
    ensures first == 1 && second == 2
  {
    var s := new Session(inventory, 0);
    s.Toggle();
    s.AdvanceTick(0);
    first := s.noteIndex;
    var t := new Session(inventory, 0);
    t.Toggle();
    t.AdvanceTick(1);
    second := t.noteIndex;
  }
}
