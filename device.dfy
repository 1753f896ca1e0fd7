/** The hardware variant the programs run on. Its detection probes the host and
    is not part of this model; the variant is given to each component. */
module Device {

  datatype DeviceModel = Remarkable2 | RemarkablePaperPro | Unknown

  /** The pen input device a `Pen` opens for each variant; an unknown device is
      driven as a reMarkable 2. */
  function PenInputDevice(m: DeviceModel): (path: string)
    ensures path == "/dev/input/event2" <==> m == RemarkablePaperPro
    ensures m != RemarkablePaperPro ==> path == "/dev/input/event1"
  {
    match m
    case Remarkable2 => "/dev/input/event1"
    case RemarkablePaperPro => "/dev/input/event2"
    case Unknown => "/dev/input/event1"
  }
}
