/** The `DEVMODE` mode descriptor and the request the program hands to the
    mode-change primitive when it finds no attached display. */
module DevModes {
  import opened MachineInts

  /** `ScreenOrientation`; the program never assigns it, so only its default
      `DMDO_DEFAULT` ever occurs. */
  datatype ScreenOrientation = DmdoDefault | Dmdo90 | Dmdo180 | Dmdo270

  /** `DEVMODE`, field by field, with the declared widths. */
  datatype DevMode = DevMode(
    dmDeviceName: string,
    dmSpecVersion: u16,
    dmDriverVersion: u16,
    dmSize: u16,
    dmDriverExtra: u16,
    dmFields: u32,
    dmPositionX: i32,
    dmPositionY: i32,
    dmDisplayOrientation: ScreenOrientation,
    dmDisplayFixedOutput: i32,
    dmColor: i16,
    dmDuplex: i16,
    dmYResolution: i16,
    dmTTOption: i16,
    dmCollate: i16,
    dmFormName: string,
    dmLogPixels: u16,
    dmBitsPerPel: u32,
    dmPelsWidth: u32,
    dmPelsHeight: u32,
    dmDisplayFlags: u32,
    dmDisplayFrequency: u32,
    dmICMMethod: u32,
    dmICMIntent: u32,
    dmMediaType: u32,
    dmDitherType: u32,
    dmReserved1: u32,
    dmReserved2: u32,
    dmPanningWidth: u32,
    dmPanningHeight: u32)

  /** `new DEVMODE()`: every field at its default. A null string field
      marshals as an all-zero buffer, which is the empty string here. */
  const DefaultDevMode: DevMode :=
    DevMode("", 0, 0, 0, 0, 0, 0, 0, DmdoDefault, 0, 0, 0, 0, 0, 0, "",
            0, 0, 0, 0, 0, 0, 0, 0, 0, 0, 0, 0, 0, 0)

  /** Every field except `dmSize` is zero, empty or the default orientation:
      no geometry, frequency or colour depth is requested. */
  predicate IsBlankExceptSize(dm: DevMode) {
    && dm.dmDeviceName == "" && dm.dmSpecVersion == 0 && dm.dmDriverVersion == 0
    && dm.dmDriverExtra == 0 && dm.dmFields == 0
    && dm.dmPositionX == 0 && dm.dmPositionY == 0
    && dm.dmDisplayOrientation == DmdoDefault && dm.dmDisplayFixedOutput == 0
    && dm.dmColor == 0 && dm.dmDuplex == 0 && dm.dmYResolution == 0
    && dm.dmTTOption == 0 && dm.dmCollate == 0 && dm.dmFormName == ""
    && dm.dmLogPixels == 0 && dm.dmBitsPerPel == 0
    && dm.dmPelsWidth == 0 && dm.dmPelsHeight == 0
    && dm.dmDisplayFlags == 0 && dm.dmDisplayFrequency == 0
    && dm.dmICMMethod == 0 && dm.dmICMIntent == 0
    && dm.dmMediaType == 0 && dm.dmDitherType == 0
    && dm.dmReserved1 == 0 && dm.dmReserved2 == 0
    && dm.dmPanningWidth == 0 && dm.dmPanningHeight == 0
  }

  /** A descriptor blank except for its size is determined by that size. */
  lemma BlankExceptSizeIsDetermined(dm: DevMode)
    requires IsBlankExceptSize(dm)
    ensures dm == DefaultDevMode.(dmSize := dm.dmSize)
  {
  }

  /** The logical device path `\\.\DISPLAY1`, the first display adapter. */
  const Display1: string := "\\\\.\\DISPLAY1"

  /** The arguments of one call of the mode-change primitive: the device
      name, the descriptor passed by reference, the window handle, the flags
      and the extra parameter (the two pointers as integers, `IntPtr.Zero` as 0). */
  datatype ModeChangeRequest = ModeChangeRequest(
    deviceName: string,
    devMode: DevMode,
    hwnd: int,
    dwflags: u32,
    lParam: int)

  /** The one request the program ever makes, given the size the runtime
      reports for the marshalled `DEVMODE`. */
  function NudgeRequest(devModeSize: i32): (r: ModeChangeRequest)
    ensures r.deviceName == Display1
    ensures r.hwnd == 0 && r.dwflags == 0 && r.lParam == 0
    ensures IsBlankExceptSize(r.devMode)
    ensures (devModeSize as int - r.devMode.dmSize as int) % 0x1_0000 == 0
  {
    ModeChangeRequest(Display1, DefaultDevMode.(dmSize := ToUShort(devModeSize)), 0, 0, 0)
  }
}
