/** A scripted stand-in for the rusb device handle that `GoXLRUSB` owns.
    Control writes and reads take their outcomes from two scripts; every
    transfer and every `sleep` the driver performs is appended to a trace,
    so the driver's observable behaviour can be stated over that trace. */
module UsbTransport {
  import opened Wrappers
  import opened Ints
  import opened UsbFrame

  /** rusb::Error. `Pipe` is what a control read reports while the device
      has no response ready. */
  datatype UsbError =
    | Io | InvalidParam | Access | NoDevice | NotFound | Busy | Timeout
    | Overflow | Pipe | Interrupted | NoMem | NotSupported | BadDescriptor | Other

  type WriteResult = Result<(), UsbError>
  type ReadResult = Result<seq<byte>, UsbError>

  /** One step the driver takes on the bus, with what it returned. */
  datatype Event =
    | ControlOut(request: byte, value: u16, index: u16, data: seq<byte>, written: WriteResult)
    | ControlIn(request: byte, value: u16, index: u16, length: nat, read: ReadResult)
    | Slept(ms: nat)

  /** What the device will answer (`writeScript`, `readScript`) and what happened so far (`trace`). */
  datatype Link = Link(writeScript: seq<WriteResult>, readScript: seq<ReadResult>, trace: seq<Event>)

  /** Once the write script is used up every write succeeds. */
  function WriteStep(l: Link, request: byte, value: u16, index: u16, data: seq<byte>): (Link, WriteResult)
  {
    var w := if |l.writeScript| == 0 then Ok(()) else l.writeScript[0];
    (l.(writeScript := if |l.writeScript| == 0 then [] else l.writeScript[1..],
        trace := l.trace + [ControlOut(request, value, index, data, w)]), w)
  }

  /** The read fills a buffer of `length` bytes and truncates it to what
      arrived; once the read script is used up the device is never ready. */
  function ReadStep(l: Link, request: byte, value: u16, index: u16, length: nat): (Link, ReadResult)
  {
    var raw := if |l.readScript| == 0 then Err(Pipe) else l.readScript[0];
    var got := if raw.Ok? && |raw.value| > length then Ok(raw.value[..length]) else raw;
    (l.(readScript := if |l.readScript| == 0 then [] else l.readScript[1..],
        trace := l.trace + [ControlIn(request, value, index, length, got)]), got)
  }

  function SleepStep(l: Link, ms: nat): Link
  {
    l.(trace := l.trace + [Slept(ms)])
  }

  class DeviceHandle {
    var writeScript: seq<WriteResult>
    var readScript: seq<ReadResult>
    var trace: seq<Event>

    function State(): Link
      reads this
    {
      Link(writeScript, readScript, trace)
    }

    constructor (writeScript: seq<WriteResult>, readScript: seq<ReadResult>)
      ensures State() == Link(writeScript, readScript, [])
    {
      this.writeScript := writeScript;
      this.readScript := readScript;
      this.trace := [];
    }

    method WriteControl(request: byte, value: u16, index: u16, data: seq<byte>) returns (r: WriteResult)
      modifies this
      ensures (State(), r) == WriteStep(old(State()), request, value, index, data)
    {
      r := if |writeScript| == 0 then Ok(()) else writeScript[0];
      writeScript := if |writeScript| == 0 then [] else writeScript[1..];
      trace := trace + [ControlOut(request, value, index, data, r)];
    }

    method ReadControl(request: byte, value: u16, index: u16, length: nat) returns (r: ReadResult)
      modifies this
      ensures |State().trace| == |old(State()).trace| + 1
      ensures (State(), r) == ReadStep(old(State()), request, value, index, length)
    {
      var raw := if |readScript| == 0 then Err(Pipe) else readScript[0];
      r := if raw.Ok? && |raw.value| > length then Ok(raw.value[..length]) else raw;
      readScript := if |readScript| == 0 then [] else readScript[1..];
      trace := trace + [ControlIn(request, value, index, length, r)];
    }

    /** `std::thread::sleep`: no time passes in the model, the call is recorded. */
    method Sleep(ms: nat)
      modifies this
      ensures State() == SleepStep(old(State()), ms)
    {
      trace := trace + [Slept(ms)];
    }
  }
}
