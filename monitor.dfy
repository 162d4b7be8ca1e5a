/** One polling cycle of the monitor, and a finite run of cycles: what is
    logged and which mode-change requests reach the operating system. */
module Monitor {
  import opened MachineInts
  import opened DisplayDevices
  import opened DevModes

  /** The log lines, as abstract tokens (the timestamps and the file are not modelled). */
  datatype Message =
    | ApplicationRunning                 // "Application is running."
    | DisplayFound(index: nat, name: string, description: string, id: string, key: string)
                                         // "Display {i}: {name} {string} {id} {key}"
    | Total(count: nat)                  // "Total: {n} display(s)"
    | ChangeFailed                       // "Error ChangeDisplaySettingsEx to Display 1 ..."
    | ChangeSucceeded                    // "Success ChangeDisplaySettingsEx to Display 1 ..."
    | AlreadyRunning                     // "Application instance is already running."
    | ApplicationFinished                // "Application finished."

  /** What one cycle does that can be observed: a log line, or a call of the
      mode-change primitive with its arguments. */
  datatype Event = Log(message: Message) | ChangeDisplaySettings(request: ModeChangeRequest)

  /** What the outside world decides for one cycle: whether the single-instance
      mutex was newly created, what the enumeration primitive reports, and
      `changeResult`, the `bool` the P/Invoke declaration of the mode-change
      primitive returns if it is called. That `bool` is the marshalled form of
      the primitive's status code, so `true` does not by itself mean success. */
  datatype CycleInput = CycleInput(isNewInstance: bool, reported: seq<DisplayDevice>, changeResult: bool)

  /** What `Marshal.SizeOf` reports for the two structures. */
  datatype MarshalSizes = MarshalSizes(displayDevice: i32, devMode: i32)

  function DisplayLine(d: DisplayDevice, index: nat): Event {
    Log(DisplayFound(index, d.deviceName, d.deviceString, d.deviceId, d.deviceKey))
  }

  /** The "Display" lines of an enumeration: one per attached record, tagged
      with its enumeration index, in enumeration order. */
  function DisplayLines(s: seq<DisplayDevice>): seq<Event> {
    if s == [] then []
    else
      var m := |s| - 1;
      DisplayLines(s[..m]) + (if IsAttached(s[m]) then [DisplayLine(s[m], m)] else [])
  }

  /** The log line the program writes for the declared `bool` result: the
      "Success" line for `true`, the "Error" line for `false`. */
  function ResultLine(changeResult: bool): Event {
    Log(if changeResult then ChangeSucceeded else ChangeFailed)
  }

  /** Everything one cycle does, in order. */
  function CycleEvents(c: CycleInput, sizes: MarshalSizes): seq<Event> {
    var work :=
      if c.isNewInstance then
        var n := AttachedCount(c.reported);
        DisplayLines(c.reported) + [Log(Total(n))]
        + (if n == 0 then [ChangeDisplaySettings(NudgeRequest(sizes.devMode)), ResultLine(c.changeResult)] else [])
      else [Log(AlreadyRunning)];
    work + [Log(ApplicationFinished)]
  }

  /** Everything a finite run of cycles does after start-up, in order. */
  function RunEvents(cycles: seq<CycleInput>, sizes: MarshalSizes): seq<Event> {
    if cycles == [] then []
    else RunEvents(cycles[..|cycles| - 1], sizes) + CycleEvents(cycles[|cycles| - 1], sizes)
  }

  // ---------------------------------------------------------------- the program

  /** The enumeration loop: call the primitive for indices 0, 1, 2, ... into
      one reused record until it fails, counting and logging the attached
      records. Returns the index of the failing call, the count, and the lines. */
  method ScanDisplays(reported: seq<DisplayDevice>, displayDeviceSize: i32) returns (i: nat, n: nat, lines: seq<Event>)
    ensures i == |reported|
    ensures n == AttachedCount(reported) && n <= i
    ensures lines == DisplayLines(reported)
  {
    var d := BlankDisplayDevice;
    d := d.(cb := displayDeviceSize);
    i, n, lines := 0, 0, [];
    var more;
    more, d := EnumDisplayDevices(reported, i, d);
    while more
      invariant i <= |reported|
      invariant more <==> i < |reported|
      invariant more ==> d == reported[i].(cb := displayDeviceSize)
      invariant n == AttachedCount(reported[..i])
      invariant lines == DisplayLines(reported[..i])
      decreases |reported| - i
    {
      assert reported[..i + 1][..i] == reported[..i];
      if d.stateFlags & AttachedToDesktop == AttachedToDesktop {
        n := n + 1;
        lines := lines + [Log(DisplayFound(i, d.deviceName, d.deviceString, d.deviceId, d.deviceKey))];
      }
      i := i + 1;
      more, d := EnumDisplayDevices(reported, i, d);
    }
    assert reported[..i] == reported;
  }

  /** One cycle of the polling loop, from the mutex test to "Application finished.". */
  method Cycle(c: CycleInput, sizes: MarshalSizes) returns (events: seq<Event>)
    ensures events == CycleEvents(c, sizes)
    ensures !c.isNewInstance ==> events == [Log(AlreadyRunning), Log(ApplicationFinished)]
  {
    events := [];
    if c.isNewInstance {
      var i, n, lines := ScanDisplays(c.reported, sizes.displayDevice);
      events := events + lines;
      events := events + [Log(Total(n))];
      if n == 0 {
        var dm := DefaultDevMode;
        dm := dm.(dmSize := ToUShort(sizes.devMode));
        events := events + [ChangeDisplaySettings(ModeChangeRequest(Display1, dm, 0, 0, 0))];
        var result := c.changeResult;
        if !result {
          events := events + [Log(ChangeFailed)];
        } else {
          events := events + [Log(ChangeSucceeded)];
        }
      }
    } else {
      events := events + [Log(AlreadyRunning)];
    }
    events := events + [Log(ApplicationFinished)];
  }

  /** The program's start-up line followed by a finite number of polling cycles. */
  method Run(cycles: seq<CycleInput>, sizes: MarshalSizes) returns (events: seq<Event>)
    ensures events == [Log(ApplicationRunning)] + RunEvents(cycles, sizes)
  {
    events := [Log(ApplicationRunning)];
    for k := 0 to |cycles|
      invariant events == [Log(ApplicationRunning)] + RunEvents(cycles[..k], sizes)
    {
      assert cycles[..k + 1][..k] == cycles[..k];
      var e := Cycle(cycles[k], sizes);
      events := events + e;
    }
    assert cycles[..|cycles|] == cycles;
  }

  // ---------------------------------------------------------------- properties

  /** The number of calls of the mode-change primitive in a trace. */
  function ModeChangeCalls(events: seq<Event>): nat {
    if events == [] then 0
    else ModeChangeCalls(events[..|events| - 1]) + (if events[|events| - 1].ChangeDisplaySettings? then 1 else 0)
  }

  lemma {:induction false} ModeChangeCallsAppend(a: seq<Event>, b: seq<Event>)
    ensures ModeChangeCalls(a + b) == ModeChangeCalls(a) + ModeChangeCalls(b)
  {
    if b != [] {
      var m := |b| - 1;
      assert (a + b)[..|a + b| - 1] == a + b[..m];
      assert (a + b)[|a + b| - 1] == b[m];
      ModeChangeCallsAppend(a, b[..m]);
    } else {
      assert a + b == a;
    }
  }

  lemma {:induction false} NoModeChangeCallsIn(events: seq<Event>)
    requires forall k :: 0 <= k < |events| ==> events[k].Log?
    ensures ModeChangeCalls(events) == 0
  {
    if events != [] {
      NoModeChangeCallsIn(events[..|events| - 1]);
    }
  }

  /** The enumeration index a "Display" line carries, or -1 for any other event. */
  function LineIndex(e: Event): int {
    if e.Log? && e.message.DisplayFound? then e.message.index else -1
  }

  /** `e` is the "Display" line of an attached record of `s`. */
  predicate IsLineOf(e: Event, s: seq<DisplayDevice>) {
    0 <= LineIndex(e) < |s| && IsAttached(s[LineIndex(e)]) && e == DisplayLine(s[LineIndex(e)], LineIndex(e))
  }

  /** The "Display" lines are exactly one line per attached record, in
      enumeration order: every line belongs to an attached record, the
      indices strictly increase, and every attached record has its line. */
  lemma {:induction false} DisplayLinesAreAttachedInOrder(s: seq<DisplayDevice>)
    ensures |DisplayLines(s)| == AttachedCount(s)
    ensures forall j :: 0 <= j < |DisplayLines(s)| ==> IsLineOf(DisplayLines(s)[j], s)
    ensures forall j, j' :: 0 <= j < j' < |DisplayLines(s)| ==> LineIndex(DisplayLines(s)[j]) < LineIndex(DisplayLines(s)[j'])
    ensures forall k :: 0 <= k < |s| && IsAttached(s[k]) ==> DisplayLine(s[k], k) in DisplayLines(s)
  {
    if s != [] {
      var m := |s| - 1;
      var p := s[..m];
      DisplayLinesAreAttachedInOrder(p);
      var lp := DisplayLines(p);
      var l := DisplayLines(s);
      assert l == lp + (if IsAttached(s[m]) then [DisplayLine(s[m], m)] else []);
      forall j | 0 <= j < |lp|
        ensures IsLineOf(l[j], s) && LineIndex(l[j]) < m
      {
        assert l[j] == lp[j];
        assert IsLineOf(lp[j], p);
      }
      forall k | 0 <= k < |s| && IsAttached(s[k])
        ensures DisplayLine(s[k], k) in l
      {
        if k < m {
          assert p[k] == s[k];
          assert DisplayLine(p[k], k) in lp;
        } else {
          assert l[|l| - 1] == DisplayLine(s[m], m);
        }
      }
    }
  }

  lemma DisplayLinesAreLogs(s: seq<DisplayDevice>)
    ensures forall j :: 0 <= j < |DisplayLines(s)| ==> DisplayLines(s)[j].Log?
    ensures ModeChangeCalls(DisplayLines(s)) == 0
  {
    DisplayLinesAreAttachedInOrder(s);
    NoModeChangeCallsIn(DisplayLines(s));
  }

  /** The "Total" line reports as many displays as there are "Display" lines. */
  lemma TotalMatchesDisplayLines(c: CycleInput, sizes: MarshalSizes)
    requires c.isNewInstance
    ensures CycleEvents(c, sizes)[|DisplayLines(c.reported)|] == Log(Total(|DisplayLines(c.reported)|))
  {
    DisplayLinesAreAttachedInOrder(c.reported);
  }

  /** The mode-change primitive is called exactly once in a cycle that finds
      no attached display, and never in any other cycle; when it is called,
      the request is the fixed one. */
  lemma CycleCallsModeChangeIffNoneAttached(c: CycleInput, sizes: MarshalSizes)
    ensures ModeChangeCalls(CycleEvents(c, sizes)) == (if c.isNewInstance && AttachedCount(c.reported) == 0 then 1 else 0)
    ensures forall k :: 0 <= k < |CycleEvents(c, sizes)| && CycleEvents(c, sizes)[k].ChangeDisplaySettings? ==>
              CycleEvents(c, sizes)[k].request == NudgeRequest(sizes.devMode)
  {
    var e := CycleEvents(c, sizes);
    var fin := [Log(ApplicationFinished)];
    if c.isNewInstance {
      var n := AttachedCount(c.reported);
      var lines := DisplayLines(c.reported);
      var tail := if n == 0 then [ChangeDisplaySettings(NudgeRequest(sizes.devMode)), ResultLine(c.changeResult)] else [];
      assert e == lines + ([Log(Total(n))] + tail + fin);
      DisplayLinesAreLogs(c.reported);
      ModeChangeCallsAppend(lines, [Log(Total(n))] + tail + fin);
      ModeChangeCallsAppend([Log(Total(n))] + tail, fin);
      ModeChangeCallsAppend([Log(Total(n))], tail);
      if n == 0 {
        ModeChangeCallsAppend([ChangeDisplaySettings(NudgeRequest(sizes.devMode))], [ResultLine(c.changeResult)]);
      }
    } else {
      assert e == [Log(AlreadyRunning), Log(ApplicationFinished)];
      NoModeChangeCallsIn(e);
    }
  }

  /** The mode-change primitive's declared result only chooses between the
      "Error" and the "Success" line; the rest of the cycle, up to "Application finished.",
      is the same either way. */
  lemma ResultOnlySelectsMessage(c: CycleInput, sizes: MarshalSizes)
    ensures var ok := CycleEvents(c.(changeResult := true), sizes);
            var failed := CycleEvents(c.(changeResult := false), sizes);
            && |ok| == |failed|
            && ok[|ok| - 1] == failed[|failed| - 1] == Log(ApplicationFinished)
            && forall k :: 0 <= k < |ok| ==> ok[k] == failed[k] || (ok[k] == Log(ChangeSucceeded) && failed[k] == Log(ChangeFailed))
  {
  }

  /** Cycles share no state: the trace of a run is the traces of its parts,
      each depending only on its own cycles' inputs. */
  lemma {:induction false} RunEventsAppend(a: seq<CycleInput>, b: seq<CycleInput>, sizes: MarshalSizes)
    ensures RunEvents(a + b, sizes) == RunEvents(a, sizes) + RunEvents(b, sizes)
  {
    if b != [] {
      var m := |b| - 1;
      assert (a + b)[..|a + b| - 1] == a + b[..m];
      assert (a + b)[|a + b| - 1] == b[m];
      RunEventsAppend(a, b[..m], sizes);
    } else {
      assert a + b == a;
    }
  }

  /** The cycles of a run that find no attached display. */
  function NudgeCycles(cycles: seq<CycleInput>): nat {
    if cycles == [] then 0
    else
      var c := cycles[|cycles| - 1];
      NudgeCycles(cycles[..|cycles| - 1]) + (if c.isNewInstance && AttachedCount(c.reported) == 0 then 1 else 0)
  }

  /** Every cycle that finds no attached display makes its own mode-change
      call: nothing is suppressed because an earlier cycle already made one. */
  lemma {:induction false} RunCallsModeChangeOncePerBlankCycle(cycles: seq<CycleInput>, sizes: MarshalSizes)
    ensures ModeChangeCalls(RunEvents(cycles, sizes)) == NudgeCycles(cycles)
  {
    if cycles != [] {
      var m := |cycles| - 1;
      RunCallsModeChangeOncePerBlankCycle(cycles[..m], sizes);
      ModeChangeCallsAppend(RunEvents(cycles[..m], sizes), CycleEvents(cycles[m], sizes));
      CycleCallsModeChangeIffNoneAttached(cycles[m], sizes);
    }
  }

  /** Two active cycles in a row that find no attached display make two calls. */
  lemma TwoBlankCyclesMakeTwoCalls(c1: CycleInput, c2: CycleInput, sizes: MarshalSizes)
    requires c1.isNewInstance && AttachedCount(c1.reported) == 0
    requires c2.isNewInstance && AttachedCount(c2.reported) == 0
    ensures RunEvents([c1, c2], sizes) == CycleEvents(c1, sizes) + CycleEvents(c2, sizes)
    ensures ModeChangeCalls(RunEvents([c1, c2], sizes)) == 2
  {
    assert [c1, c2][..1] == [c1];
    assert [c1][..0] == [];
    assert RunEvents([c1], sizes) == CycleEvents(c1, sizes);
    assert NudgeCycles([c1]) == 1;
    RunCallsModeChangeOncePerBlankCycle([c1, c2], sizes);
  }
}
