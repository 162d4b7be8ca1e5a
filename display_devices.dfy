/** The `DISPLAY_DEVICE` record the display enumeration primitive fills in, the
    flag bits of its `StateFlags`, a model of the primitive itself, and the
    number of records that are attached to the desktop. */
module DisplayDevices {
  import opened MachineInts

  /** `DisplayDeviceStateFlags`, a 32-bit flag set. */
  type StateFlags = bv32

  const AttachedToDesktop: StateFlags := 0x1
  const MultiDriver: StateFlags := 0x2
  const PrimaryDevice: StateFlags := 0x4
  const MirroringDriver: StateFlags := 0x8
  const VgaCompatible: StateFlags := 0x10
  const Removable: StateFlags := 0x20
  const ModesPruned: StateFlags := 0x800_0000
  const Remote: StateFlags := 0x400_0000
  const Disconnect: StateFlags := 0x200_0000

  /** One `DISPLAY_DEVICE`: `cb` is the structure size the caller declares,
      the other fields are what the operating system reports for one device. */
  datatype DisplayDevice = DisplayDevice(
    cb: i32,
    deviceName: string,
    deviceString: string,
    stateFlags: StateFlags,
    deviceId: string,
    deviceKey: string)

  /** `new DISPLAY_DEVICE()`: every field at its default. A null string field
      marshals as an all-zero buffer, which is the empty string here. */
  const BlankDisplayDevice := DisplayDevice(0, "", "", 0, "", "")

  /** The bit test `(StateFlags & AttachedToDesktop) == AttachedToDesktop`:
      it holds exactly when bit 0 of the flags is set. */
  predicate IsAttached(d: DisplayDevice): (attached: bool)
    ensures attached <==> d.stateFlags % 2 == 1
  {
    d.stateFlags & AttachedToDesktop == AttachedToDesktop
  }

  /** The display enumeration primitive, called with no device name and no
      flags. `reported` holds what the operating system answers for the
      indices 0, 1, 2, ... up to its first failure, which comes at index
      `|reported|`. A successful call overwrites the caller's record with the
      reported fields and keeps the `cb` the caller set; a failed call is
      taken to leave the record alone. That last clause is an assumption of
      the model, not a promise of the API; the program never reads the
      record after a failed call. */
  method EnumDisplayDevices(reported: seq<DisplayDevice>, iDevNum: nat, d: DisplayDevice) returns (found: bool, d': DisplayDevice)
    ensures found <==> iDevNum < |reported|
    ensures found ==> d' == reported[iDevNum].(cb := d.cb)
    ensures !found ==> d' == d
  {
    if iDevNum < |reported| {
      found, d' := true, reported[iDevNum].(cb := d.cb);
    } else {
      found, d' := false, d;
    }
  }

  /** The number of records in `s` that are attached to the desktop. */
  function AttachedCount(s: seq<DisplayDevice>): (n: nat)
    ensures n <= |s|
    ensures n == 0 <==> forall k :: 0 <= k < |s| ==> !IsAttached(s[k])
  {
    if s == [] then 0
    else AttachedCount(s[..|s| - 1]) + (if IsAttached(s[|s| - 1]) then 1 else 0)
  }

  /** The positions of the attached records: an independent definition of the count. */
  ghost function AttachedPositions(s: seq<DisplayDevice>): set<nat> {
    set k: nat | k < |s| && IsAttached(s[k])
  }

  lemma {:induction false} AttachedCountIsCardinality(s: seq<DisplayDevice>)
    ensures AttachedCount(s) == |AttachedPositions(s)|
  {
    if s != [] {
      var p := s[..|s| - 1];
      AttachedCountIsCardinality(p);
      if IsAttached(s[|s| - 1]) {
        assert AttachedPositions(s) == AttachedPositions(p) + {|s| - 1};
      } else {
        assert AttachedPositions(s) == AttachedPositions(p);
      }
    }
  }

  /** Only the `AttachedToDesktop` bit is tested: setting or clearing any
      other bits (`PrimaryDevice`, `Remote`, ...) does not change the answer. */
  lemma AttachedIgnoresOtherBits(d: DisplayDevice, other: StateFlags)
    requires other & AttachedToDesktop == 0
    ensures IsAttached(d.(stateFlags := d.stateFlags | other)) == IsAttached(d)
    ensures IsAttached(d.(stateFlags := d.stateFlags & !other)) == IsAttached(d)
  {
  }

  /** Two enumerations that agree, position by position, on the
      `AttachedToDesktop` bit have the same attached count, whatever their
      other bits, names and strings. */
  lemma {:induction false} AttachedCountDependsOnlyOnAttachedBit(s: seq<DisplayDevice>, t: seq<DisplayDevice>)
    requires |s| == |t|
    requires forall k :: 0 <= k < |s| ==> s[k].stateFlags & AttachedToDesktop == t[k].stateFlags & AttachedToDesktop
    ensures AttachedCount(s) == AttachedCount(t)
  {
    if s != [] {
      var m := |s| - 1;
      AttachedCountDependsOnlyOnAttachedBit(s[..m], t[..m]);
    }
  }
}
