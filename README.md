# ChangeDisplaySettingsEx — a model of one polling cycle

ChangeDisplaySettingsEx is a background utility for Windows. Every ten seconds
it checks whether any display device is attached to the desktop. If none is,
it asks the first display adapter, `\\.\DISPLAY1`, to reapply its current mode
by calling `ChangeDisplaySettingsEx` with an empty `DEVMODE`. A named mutex
lets only one instance do this work.

This project models one cycle of that loop, and a finite run of cycles, with
the operating system abstracted away:

- `DisplayDevices`: the `DISPLAY_DEVICE` record and its `StateFlags` bits. It
  also models the enumeration primitive and counts the attached records.
  The primitive is given as the sequence of records the system reports for
  indices 0, 1, 2, …. The first failing call comes at the index just past the
  end of that sequence.
- `DevModes`: the `DEVMODE` descriptor with all its fields and widths, and
  the one mode-change request the program makes.
- `MachineInts`: the .NET integer widths, and the `(ushort)` cast applied to
  the marshalled size.
- `Monitor`: the enumeration loop (`ScanDisplays`), one cycle (`Cycle`) and a
  run (`Run`). All three are imperative methods proved equal to the
  specification functions `DisplayLines`, `CycleEvents` and `RunEvents`.
  The lemmas beside them state what a cycle promises. A cycle's observable
  behaviour is a trace of `Event`s. An event is either a log line (an
  abstract `Message`) or a call of the mode-change primitive with its
  arguments.

The outside world enters each cycle as a `CycleInput`:
- whether the mutex was newly created (`isNewInstance`);
- what the enumeration primitive reports;
- `changeResult`, the `bool` that the P/Invoke declaration of the
  mode-change primitive returns if it is called.

The two `Marshal.SizeOf` values enter as `MarshalSizes`. They are opaque
32-bit integers.

Only attached devices get a "Display" line (`Program.cs:138-143`). The
enumeration loop stops at the first failing call and has no cap on the
number of adapters (`Program.cs:136`).

A C# `null` string in a default-constructed structure is modelled as the
empty string. A `ByValTStr` field marshals `null` as an all-zero buffer, so
the callee sees no difference.

## Model

| member | source | states |
|---|---|---|
| `MachineInts.ToUShort` | ChangeDisplaySettingsEx/Program.cs:154 | the `(ushort)` cast gives a value congruent to its argument modulo 2^16, and the argument itself when it already fits |
| `MachineInts.ToUShortUnique` | ChangeDisplaySettingsEx/Program.cs:154 | exactly one `ushort` is congruent to the argument modulo 2^16, and it is the cast's result |
| `DisplayDevices.EnumDisplayDevices` | ChangeDisplaySettingsEx/Program.cs:52-53 | a call succeeds exactly for the indices before the first failing one; on success the reused record holds that index's reported fields and keeps its `cb`; on failure the record is assumed to be left as it was, which the program never relies on |
| `DisplayDevices.IsAttached` | ChangeDisplaySettingsEx/Program.cs:138-139 | a record counts as attached exactly when bit 0 (`AttachedToDesktop`, 0x1) of its state flags is set |
| `DisplayDevices.AttachedCount` | ChangeDisplaySettingsEx/Program.cs:134-146 | the count never exceeds the number of records, and it is zero exactly when no record has the attached bit |
| `DisplayDevices.AttachedCountIsCardinality` | ChangeDisplaySettingsEx/Program.cs:138-141 | the count is the number of positions whose record has `AttachedToDesktop` set |
| `DisplayDevices.AttachedIgnoresOtherBits` | ChangeDisplaySettingsEx/Program.cs:34-42 | setting or clearing flags other than `AttachedToDesktop` (`PrimaryDevice`, `Remote`, …) does not change whether a record counts as attached |
| `DisplayDevices.AttachedCountDependsOnlyOnAttachedBit` | ChangeDisplaySettingsEx/Program.cs:136-146 | two enumerations that agree position by position on the attached bit have equal counts, whatever else differs |
| `DevModes.BlankExceptSizeIsDetermined` | ChangeDisplaySettingsEx/Program.cs:153-154 | a descriptor whose fields other than `dmSize` are all zero is `new DEVMODE()` with only `dmSize` assigned |
| `DevModes.NudgeRequest` | ChangeDisplaySettingsEx/Program.cs:153-155 | the request targets `\\.\DISPLAY1` with a zero window handle, zero flags and zero `lParam`; its descriptor is blank except `dmSize`, which is the marshalled size truncated to 16 bits |
| `Monitor.ScanDisplays` | ChangeDisplaySettingsEx/Program.cs:130-146 | the loop stops at the first failing index, which is the number of reported records; the count is the number of attached records and at most that index; it logs one "Display" line per attached record, in enumeration order |
| `Monitor.DisplayLinesAreAttachedInOrder` | ChangeDisplaySettingsEx/Program.cs:136-146 | there are as many "Display" lines as attached records; each line carries an attached record's index and fields; the indices strictly increase; every attached record has its line |
| `Monitor.TotalMatchesDisplayLines` | ChangeDisplaySettingsEx/Program.cs:141-148 | the "Total" line follows the "Display" lines and reports their number |
| `Monitor.Cycle` | ChangeDisplaySettingsEx/Program.cs:118-174 | one cycle's trace: enumerate, log the total, and if nothing is attached call the mode-change primitive and log its answer; an instance that did not create the mutex only logs "already running"; every cycle ends with "Application finished." |
| `Monitor.CycleCallsModeChangeIffNoneAttached` | ChangeDisplaySettingsEx/Program.cs:148-166 | a cycle calls the mode-change primitive once if it is active and finds no attached display, and never otherwise; every call in it carries the fixed request |
| `Monitor.ResultOnlySelectsMessage` | ChangeDisplaySettingsEx/Program.cs:155-173 | the declared `bool` result only chooses the "Success" line over the "Error" line; both traces have the same length, agree elsewhere and end with "Application finished." |
| `Monitor.Run` | ChangeDisplaySettingsEx/Program.cs:113-177 | a run logs "Application is running." and then each cycle's trace in turn |
| `Monitor.RunEventsAppend` | ChangeDisplaySettingsEx/Program.cs:115-177 | cycles share no state: the trace of a run splits into the traces of its parts |
| `Monitor.RunCallsModeChangeOncePerBlankCycle` | ChangeDisplaySettingsEx/Program.cs:115-176 | over a run, the number of mode-change calls equals the number of active cycles that found no attached display |
| `Monitor.TwoBlankCyclesMakeTwoCalls` | ChangeDisplaySettingsEx/Program.cs:130-155 | two active cycles in a row with no attached display make two separate calls, each in its own cycle's trace |

## Left out

- `ShowWindow`, the process and application-domain lookups and the write of the registry `Run` key (`Program.cs:122-128`): these OS side effects have no checked outcome. The model also omits the exception that would end the program if `OpenSubKey` returned null or the main module was missing (the `!` operators).
- The named `Mutex` (`Program.cs:118`): it is cross-process synchronisation. Only its `isNewInstance` answer is modelled. Each cycle's `isNewInstance` is an independent input, which covers any interleaving with another instance. The `using` block only disposes the handle and never calls `ReleaseMutex`; the model has nothing that stands for acquiring or releasing.
- The endless outer loop and `Thread.Sleep(10000)` (`Program.cs:115`, `176`): only timing. `Run` models a finite sequence of cycles.
- `Log`'s file name, timestamps, formatting and file I/O (`Program.cs:179-188`): log lines are abstract `Message` tokens. The exact text is not modelled. That text includes the `DateTime.Now` prefix and the `False` interpolated into the error line.
- The P/Invoke declarations and `StructLayout`/`MarshalAs` layout (`Program.cs:10-109`): `Marshal.SizeOf` is an opaque input, and string fields are unbounded strings, not fixed-size buffers.
- Monitor.ScanDisplays: the counters `i` and `n` are unbounded, so the model does not capture the overflow of the C# `int` counters or of the `(uint) i` cast, which only 2^31 successful enumeration calls would reach.
- The meaning of the mode-change result: the Win32 `ChangeDisplaySettingsEx` returns a `LONG` status code in which `DISP_CHANGE_SUCCESSFUL` is 0. The program declares the return as `bool` (`Program.cs:56-57`), so a successful call marshals as `false` and is logged as "Error", and any other status (a failure, or `DISP_CHANGE_RESTART`) marshals as `true` and is logged as "Success" (`Program.cs:157-165`). The model keeps the declared `bool` as an opaque input named `changeResult` and logs what the program logs. It does not model the status code or decide whether the mode was actually reapplied.
- Anything the operating system writes back into `DEVMODE` through `ref dm` is not modelled, because the program never reads `dm` after the call.
- `ScreenOrientation` is a closed datatype, whereas a C# enum can hold any `int`. The program never assigns that field, so only its default occurs.
